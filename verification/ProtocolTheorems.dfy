/** The routed session's promises, for every interleaving of its goroutines. */
module ProtocolTheorems {
  import opened Events
  import opened Bytes
  import opened RouterModel
  import opened Protocol
  import opened ProtocolMail
  import opened ProtocolSafety
  import opened ProtocolFates
  import opened ProtocolRouting

  /** No stale answer: whatever is delivered to a query's mailbox carries that
      query's generation, and was stamped after the query was armed. */
  lemma NoStaleAnswers(run: seq<St>, n: nat, g: nat, i: nat)
    requires IsRun(run) && n < |run| && g in run[n].mail.routedTo && i < |run[n].mail.routedTo[g]|
    ensures var x := run[n].mail.routedTo[g][i];
            x.sev.gen == g && g in run[n].gens.armedAt && run[n].gens.armedAt[g] < x.loadedAt
  {
    Reachable(run, n);
    assert g in run[n].mail.router.handles;
  }

  lemma {:induction false} OneTerminal(fates: seq<Fate>, g: nat, i: nat)
    requires i < |RoutedOf(fates, g)| && IsTerm(RoutedOf(fates, g)[i], g)
    ensures TFates(fates, g) >= 1
  {
    var k := |fates| - 1;
    if i < |RoutedOf(fates[..k], g)| {
      OneTerminal(fates[..k], g, i);
    }
  }

  lemma {:induction false} TwoTerminals(fates: seq<Fate>, g: nat, i: nat, j: nat)
    requires i < j < |RoutedOf(fates, g)|
    requires IsTerm(RoutedOf(fates, g)[i], g) && IsTerm(RoutedOf(fates, g)[j], g)
    ensures TFates(fates, g) >= 2
  {
    var k := |fates| - 1;
    if j < |RoutedOf(fates[..k], g)| {
      TwoTerminals(fates[..k], g, i, j);
    } else {
      OneTerminal(fates[..k], g, i);
    }
  }

  /** No query ever receives two terminal events, although a stamp loads and
      clears the active generation in separate steps. */
  lemma OneAnswerPerQuery(run: seq<St>, n: nat, g: nat, i: nat, j: nat)
    requires IsRun(run) && n < |run| && g in run[n].mail.routedTo
    requires i < |run[n].mail.routedTo[g]| && j < |run[n].mail.routedTo[g]|
    requires run[n].mail.routedTo[g][i].sev.ev.Terminal() && run[n].mail.routedTo[g][j].sev.ev.Terminal()
    ensures i == j
  {
    Reachable(run, n);
    FatesReachable(run, n);
    NoStaleAnswers(run, n, g, i);
    NoStaleAnswers(run, n, g, j);
    assert TermInv(run[n], g) && BoxOf(run[n].mail, g) == RoutedOf(run[n].fates, g);
    if i < j {
      TwoTerminals(run[n].fates, g, i, j);
    } else if j < i {
      TwoTerminals(run[n].fates, g, j, i);
    }
  }

  /** A generation that has ended has exactly one terminal event: it is with the read loop, in the
      pump channel, with the pump, or among the fates; and one that has not ended has none. */
  lemma OneTerminalPerEnd(run: seq<St>, n: nat, g: nat)
    requires IsRun(run) && n < |run| && g != 0
    ensures Terminals(run[n], g) == if g in run[n].gens.ended then 1 else 0
  {
    Reachable(run, n);
    assert TermInv(run[n], g);
  }

  lemma {:induction false} FateOfTerm(fates: seq<Fate>, g: nat) returns (i: nat)
    requires TFates(fates, g) > 0
    ensures i < |fates| && IsTerm(fates[i].item, g)
  {
    var k := |fates| - 1;
    if IsTerm(fates[k].item, g) {
      i := k;
    } else {
      i := FateOfTerm(fates[..k], g);
    }
  }

  lemma {:induction false} FatesOfTerms(fates: seq<Fate>, g: nat, i: nat, j: nat)
    requires i <= j < |fates| && IsTerm(fates[i].item, g) && IsTerm(fates[j].item, g)
    ensures TFates(fates, g) >= if i == j then 1 else 2
  {
    var k := |fates| - 1;
    if j < k {
      FatesOfTerms(fates[..k], g, i, j);
    } else if i < j {
      FatesOfTerms(fates[..k], g, i, i);
    }
  }

  lemma {:induction false} PlainQueueTerms(queue: seq<Packet>, g: nat)
    requires PlainQueue(queue)
    ensures TQueue(queue, g) == 0
  {
    if queue != [] {
      PlainQueueTerms(queue[..|queue| - 1], g);
    }
  }

  /** No answer is lost. When the session is over, the terminal event of every generation that has
      ended has exactly one fate: it was delivered to a mailbox, to the orphans or on s.events,
      unless the session was cancelled, or it is an exit event that nobody took. */
  lemma EveryAnswerArrives(run: seq<St>, n: nat, g: nat) returns (i: nat)
    requires IsRun(run) && n < |run| && RouterIsOver(run[n].pc.rl) && g in run[n].gens.ended && g != 0
    ensures i < |run[n].fates| && IsTerm(run[n].fates[i].item, g)
    ensures forall j | 0 <= j < |run[n].fates| && IsTerm(run[n].fates[j].item, g) :: j == i
    ensures var f := run[n].fates[i];
            || f.end in {ToMailbox, ToOrphans, ToEvents}
            || (f.end == Abandoned && run[n].pc.ctxDone)
            || (f.end == GivenUp && f.item.sev.ev.CLIExitEvent?)
  {
    Reachable(run, n);
    FatesReachable(run, n);
    var s := run[n];
    assert TermInv(s, g);
    PlainQueueTerms(s.queue, g);
    i := FateOfTerm(s.fates, g);
    forall j | 0 <= j < |s.fates| && IsTerm(s.fates[j].item, g) ensures j == i {
      if j < i {
        FatesOfTerms(s.fates, g, j, i);
      } else if i < j {
        FatesOfTerms(s.fates, g, i, j);
      }
    }
    assert Excused(s, s.fates[i]);
  }

  /** An event is sent to its query's mailbox exactly when that query's handle is the attached one,
      and else to the orphans; a router that is shut down is never asked. */
  lemma RoutedWhereDue(run: seq<St>, n: nat, a: RouteAction)
    requires IsRun(run) && n < |run| && RouteEnabled(run[n], a)
    ensures !run[n].mail.router.shutdown && GoesWhereDue(run[n], RouteStep(run[n], a))
  {
    Reachable(run, n);
    match a
    case RouteEnter => EnterDue(run[n]);
    case RouteDrop =>
    case RouteRetry => RetryDue(run[n]);
  }

  /** Where the event goes. */
  function Due(s: St): End
    requires !s.pc.rt.NoRoute?
  {
    if s.pc.rt.item.sev.ev.BarrierEvent? then Barrier
    else if Matches(s.mail.router, s.pc.rt.item.sev) then ToMailbox else ToOrphans
  }

  ghost predicate GoesWhereDue(s: St, s': St)
    requires !s.pc.rt.NoRoute?
  {
    s'.pc.rt.NoRoute? ==>
      |s'.fates| == |s.fates| + 1 && s'.fates[|s.fates|].item == s.pc.rt.item && s'.fates[|s.fates|].end == Due(s)
  }

  lemma EnterDue(s: St)
    requires RouteEnabled(s, RouteEnter) && !s.mail.router.shutdown
    ensures GoesWhereDue(s, RouteStep(s, RouteEnter))
  {
  }

  lemma RetryDue(s: St)
    requires RouteEnabled(s, RouteRetry) && LockHeld(s.mail.router, s.pc.rt)
    ensures GoesWhereDue(s, RouteStep(s, RouteRetry))
  {
  }

  /** Channel safety: nothing is sent on, and nothing closes, a closed channel; at most
      one handle is attached, it is the active one, and exactly the others are closed. */
  lemma ChannelSafety(run: seq<St>, n: nat)
    requires IsRun(run) && n < |run|
    ensures run[n].mail.panics == 0 && run[n].legacy.panics == 0
    ensures forall g | g in run[n].mail.router.handles ::
              run[n].mail.router.handles[g].closed <==> run[n].mail.router.active != Some(g)
  {
    Reachable(run, n);
  }

  lemma ExitIsTheLast(s: St, i: nat)
    requires ExitLast(s) && i < |s.log| && s.log[i].CLIExitEvent?
    ensures i == |s.log| - 1
  {
    var before := s.log[..|s.log| - 1];
    assert forall k | 0 <= k < |before| :: before[k] == s.log[k];
  }

  /** The exit event is the last one delivered, on whichever channel. */
  lemma NothingAfterExit(run: seq<St>, n: nat, i: nat)
    requires IsRun(run) && n < |run| && i < |run[n].log| && run[n].log[i].CLIExitEvent?
    ensures i == |run[n].log| - 1
  {
    Reachable(run, n);
    ExitIsTheLast(run[n], i);
  }

  /** Past shutdownRouter the router is shut down exactly when shutdownRouter saw
      routing enabled; then every handle, armed before or after, is closed. */
  lemma ShutdownClosesHandles(run: seq<St>, n: nat)
    requires IsRun(run) && n < |run| && RouterIsOver(run[n].pc.rl)
    ensures run[n].mail.router.shutdown <==> run[n].pc.sawRouted
    ensures run[n].pc.sawRouted ==>
              forall g | g in run[n].mail.router.handles :: run[n].mail.router.handles[g].closed
  {
    Reachable(run, n);
  }

  /** And a handle armed from then on is closed at once exactly if routing was seen, and its generation
      is not stored; else it stays open, for want of anyone to close it but its owner. */
  lemma LateHandleClosed(run: seq<St>, n: nat, c: nat)
    requires IsRun(run) && n < |run| && RouterIsOver(run[n].pc.rl) && CallerEnabled(run[n], ArmRouter(c))
    ensures var s' := CallerStep(run[n], ArmRouter(c));
            && run[n].callers[c].gen in s'.mail.router.handles
            && (s'.mail.router.handles[run[n].callers[c].gen].closed <==> run[n].pc.sawRouted)
            && (CallerEnabled(s', StoreGen(c)) <==> !run[n].pc.sawRouted)
  {
    Reachable(run, n);
  }

  /** Conservation. Each mailbox was sent, in order, just the events whose fate it was, and they are
      what left it followed by what is in it; its counter counts what was dropped, and the router's
      all drops. Every orphan is drained, dropped or in the orphan mailbox, which holds the newest
      ones since the last drain. */
  lemma MailIsConserved(run: seq<St>, n: nat)
    requires IsRun(run) && n < |run|
    ensures var m := run[n].mail;
            && (forall g | g in m.router.handles ::
                  && g in m.routedTo && g in m.removed && m.routedTo[g] == RoutedOf(run[n].fates, g)
                  && Evs(m.routedTo[g]) == RemovedEvs(m.removed[g]) + m.router.handles[g].buf
                  && m.router.handles[g].dropped == DroppedOf(m.removed[g]) == Occurs(g, m.dropLog))
            && m.router.mailboxDropped == |m.dropLog|
            && m.orphanLog == OrphansOf(run[n].fates)
            && m.router.orphans == LastN(m.sinceDrain, ORPHAN_CAP)
            && |m.orphanLog| == m.drained + m.router.orphansDropped + |m.router.orphans|
  {
    Reachable(run, n);
    FatesReachable(run, n);
    var m := run[n].mail;
    forall g | g in m.router.handles
      ensures g in m.routedTo && g in m.removed && m.routedTo[g] == RoutedOf(run[n].fates, g)
      ensures Evs(m.routedTo[g]) == RemovedEvs(m.removed[g]) + m.router.handles[g].buf
      ensures m.router.handles[g].dropped == DroppedOf(m.removed[g]) == Occurs(g, m.dropLog)
    {
      assert BoxAccounts(g, m.routedTo[g], m.removed[g], m.router.handles[g]);
      assert BoxOf(m, g) == RoutedOf(run[n].fates, g);
    }
  }

  /** The pump handles every packet it takes once, in order, and at any time has one at most in
      hand; what was sent on s.events, in order, is what it and the exit wrote there. */
  lemma PumpLosesNothing(run: seq<St>, n: nat)
    requires IsRun(run) && n < |run|
    ensures InOrder(run[n].taken, Handled(run[n].fates) + Hand(run[n].pc)) && |Hand(run[n].pc)| <= 1
    ensures run[n].legacy.written == EventsOf(run[n].fates)
  {
    FatesReachable(run, n);
  }

  /** What was sent on the pump channel, taken or not, stays what it was. */
  lemma {:induction false} PumpIsFifo(run: seq<St>, m: nat, n: nat)
    requires IsRun(run) && m <= n < |run|
    ensures run[m].taken + run[m].queue <= run[n].taken + run[n].queue
    decreases n
  {
    if m < n {
      PumpIsFifo(run, m, n - 1);
      assert Follows(run, n);
      var a :| Enabled(run[n - 1], a) && run[n] == Step(run[n - 1], a);
      SentGrows(run[n - 1], a);
    }
  }

  lemma SentGrows(s: St, a: Action)
    requires Enabled(s, a)
    ensures s.taken + s.queue <= Step(s, a).taken + Step(s, a).queue
  {
    match a
    case ByCaller(x) => assert CallerStep(s, x).queue == s.queue && CallerStep(s, x).taken == s.taken;
    case ByClient(x) => ClientSends(s, x);
    case ByReadLoop(x) => ReadSends(s, x);
    case ByExit(x) => assert ExitStep(s, x).queue == s.queue && ExitStep(s, x).taken == s.taken;
    case ByPump(x) => PumpReceives(s, x);
    case ByRouter(x) => assert RouteStep(s, x).queue == s.queue && RouteStep(s, x).taken == s.taken;
  }

  lemma ClientSends(s: St, a: ClientAction)
    requires ClientEnabled(s, a)
    ensures ClientStep(s, a).taken == s.taken && s.queue <= ClientStep(s, a).queue
  {
  }

  lemma ReadSends(s: St, a: ReadAction)
    requires ReadEnabled(s, a)
    ensures ReadStep(s, a).taken == s.taken && s.queue <= ReadStep(s, a).queue
  {
  }

  lemma PumpReceives(s: St, a: PumpAction)
    requires PumpEnabled(s, a)
    ensures PumpStep(s, a).taken + PumpStep(s, a).queue == s.taken + s.queue
  {
    if a.PumpTake? {
      assert s.queue == [s.queue[0]] + s.queue[1..];
    }
  }

  /** What the drop-oldest loop drops is the oldest item still in the mailbox, at position
      |removed| of those routed to the handle. The items routed after it, with the one that waits
      to be buffered, fill a mailbox exactly when the mailbox is still full. */
  lemma DropIsOldest(run: seq<St>, n: nat)
    requires IsRun(run) && n < |run| && RouteEnabled(run[n], RouteDrop)
    requires run[n].mail.router.handles[run[n].pc.rt.item.sev.gen].buf != []
    ensures var m, g := run[n].mail, run[n].pc.rt.item.sev.gen;
            var k := |m.removed[g]|;
            && k < |m.routedTo[g]|
            && RouteStep(run[n], RouteDrop).mail.removed[g] == m.removed[g] + [Removal(m.routedTo[g][k].sev.ev, true)]
            && (|m.routedTo[g][k + 1..]| + 1 >= MAILBOX_CAP <==> |m.router.handles[g].buf| == MAILBOX_CAP)
  {
    Reachable(run, n);
    MailIsConserved(run, n);
    var m, g := run[n].mail, run[n].pc.rt.item.sev.gen;
    var k := |m.removed[g]|;
    assert Evs(m.routedTo[g])[k] == m.router.handles[g].buf[0];
  }

  lemma NoMoreWrites(s: St, s': St)
    requires Inv(s) && s.pc.barrierDone && Next(s, s')
    ensures s'.pc.barrierDone && s'.legacy.written == s.legacy.written
  {
    var a :| Enabled(s, a) && s' == Step(s, a);
    WritesNothing(s, a);
  }

  lemma WritesNothing(s: St, a: Action)
    requires Control(s.pc, s.mail.router.shutdown) && LockHeld(s.mail.router, s.pc.rt)
    requires s.pc.barrierDone && Enabled(s, a)
    ensures Step(s, a).pc.barrierDone && Step(s, a).legacy.written == s.legacy.written
  {
    match a
    case ByCaller(x) => assert CallerStep(s, x).legacy == s.legacy && CallerStep(s, x).pc == s.pc;
    case ByClient(x) => ClientWritesNothing(s, x);
    case ByReadLoop(x) => assert ReadStep(s, x).legacy == s.legacy && ReadStep(s, x).pc.barrierDone;
    case ByExit(x) => ExitWritesNothing(s, x);
    case ByPump(x) => PumpWritesNothing(s, x);
    case ByRouter(x) => RouteWritesNothing(s, x);
  }

  lemma RouteWritesNothing(s: St, a: RouteAction)
    requires RouteEnabled(s, a)
    ensures RouteStep(s, a).legacy == s.legacy && RouteStep(s, a).pc.barrierDone == s.pc.barrierDone
  {
  }

  lemma ClientWritesNothing(s: St, a: ClientAction)
    requires ClientEnabled(s, a)
    ensures ClientStep(s, a).legacy.written == s.legacy.written && ClientStep(s, a).pc.barrierDone == s.pc.barrierDone
  {
  }

  lemma ExitWritesNothing(s: St, a: ExitAction)
    requires Control(s.pc, s.mail.router.shutdown) && s.pc.barrierDone && ExitEnabled(s, a)
    ensures ExitStep(s, a).legacy == s.legacy && ExitStep(s, a).pc.barrierDone
  {
  }

  lemma PumpWritesNothing(s: St, a: PumpAction)
    requires Control(s.pc, s.mail.router.shutdown) && s.pc.barrierDone && PumpEnabled(s, a)
    ensures PumpStep(s, a).legacy.written == s.legacy.written && PumpStep(s, a).pc.barrierDone
  {
  }

  /** An event sent on s.events was received by its consumer or is an orphan. */
  ghost predicate Unqueues(s: St, i: nat, ev: Event)
    requires i < |s.legacy.unqueued|
  {
    var u := s.legacy.unqueued[i];
    u.ev == ev && (u.ByFlush? ==> u.orphan < |s.mail.orphanLog| && s.mail.orphanLog[u.orphan].ev == ev)
  }

  lemma AllUnqueued(s: St)
    requires Switch(s) && s.pc.barrierDone
    ensures s.legacy.buf == [] && |s.legacy.unqueued| == |s.legacy.written|
    ensures forall i | 0 <= i < |s.legacy.written| :: Unqueues(s, i, s.legacy.written[i])
  {
    assert s.legacy.written == UnqueuedEvs(s.legacy.unqueued);
  }

  lemma SwitchHolds(run: seq<St>, n: nat)
    requires IsRun(run) && n < |run|
    ensures Switch(run[n])
  {
    Reachable(run, n);
  }

  lemma {:induction false} SwitchIsFinal(run: seq<St>, m: nat, n: nat)
    requires IsRun(run) && m <= n < |run| && run[m].pc.barrierDone
    ensures run[n].pc.barrierDone && run[n].legacy.written == run[m].legacy.written
    decreases n
  {
    if m < n {
      SwitchIsFinal(run, m, n - 1);
      Reachable(run, n - 1);
      assert Follows(run, n);
      NoMoreWrites(run[n - 1], run[n]);
    }
  }

  /** The routing switch loses nothing. Once the barrier is processed, s.events is
      empty and is never written again; each event ever sent on it was received
      by its consumer or became an orphan. */
  lemma RoutingSwitch(run: seq<St>, m: nat, n: nat)
    requires IsRun(run) && m <= n < |run| && run[m].pc.barrierDone
    ensures run[n].legacy.buf == [] && run[n].legacy.written == run[m].legacy.written
    ensures |run[n].legacy.unqueued| == |run[m].legacy.written|
    ensures forall i | 0 <= i < |run[m].legacy.written| :: Unqueues(run[n], i, run[m].legacy.written[i])
  {
    SwitchIsFinal(run, m, n);
    SwitchHolds(run, n);
    AllUnqueued(run[n]);
  }

  // ---- routeStamped in steps ----

  /** Every section in every run, but the barrier's, is one Route: it leaves the router as Route
      does for what the consumer of the event's mailbox took meanwhile, but for other mailboxes. */
  lemma RoutesAsModelled(run: seq<St>, e: nat, z: nat) returns (takes: nat -> nat)
    requires IsSection(run, e, z)
    ensures var r, sev, q := run[e].mail.router, run[e].pc.rt.item.sev, run[z].mail.router;
            if Matches(r, sev) then AgreeOn(q, Route(r, sev, takes), sev.gen)
            else z == e + 1 && q == Route(r, sev, takes)
  {
    var s, x := run[e], run[e].pc.rt.item;
    Reachable(run, e);
    var a := FirstStep(run, e, z);
    RoutedWhereDue(run, e, a);
    takes := Receives(0, 0);
    if !Matches(s.mail.router, x.sev) {
      EnterIsRoute(s, takes);
      EnterEnds(s);
    } else if |s.mail.router.handles[x.sev.gen].buf| < MAILBOX_CAP {
      RoomIsRoute(s, takes);
      EnterEnds(s);
    } else {
      EnterWaits(s);
      takes := FullSection(run, e, z, s.mail.router, x);
    }
  }

  // ---- routing enabled too late ----

  function Last(run: seq<St>): St
    requires run != []
  {
    run[|run| - 1]
  }

  lemma Extend(run: seq<St>, a: Action) returns (longer: seq<St>)
    requires IsRun(run) && Enabled(Last(run), a)
    ensures IsRun(longer) && Last(longer) == Step(Last(run), a)
  {
    longer := run + [Step(Last(run), a)];
    forall i | 0 < i < |longer|
      ensures Follows(longer, i)
    {
      if i < |run| {
        assert Follows(run, i) && longer[i - 1] == run[i - 1] && longer[i] == run[i];
      } else {
        assert Next(longer[i - 1], Step(Last(run), a));
      }
    }
  }

  /** The session is past shutdownRouter, which did not see routing enabled. */
  lemma UnroutedExit() returns (run: seq<St>)
    ensures IsRun(run) && Last(run).pc == INIT.pc.(rl := RouterShut, pp := Stopped)
    ensures Last(run).life == Ready && Last(run).callers == map[] && Last(run).mail == INIT.mail
    ensures Last(run).gens.genCounter == 0
  {
    run := [INIT];
    run := Extend(run, ByExit(Eof));
    run := Extend(run, ByPump(PumpStop));
    run := Extend(run, ByExit(ExitLoad));
    run := Extend(run, ByExit(ExitClear));
    run := Extend(run, ByExit(ExitCheck));
    run := Extend(run, ByExit(ExitGiveUp));
    run := Extend(run, ByExit(ShutCheck));
  }

  /** Routing is enabled all the same. */
  lemma LateRouting() returns (run: seq<St>)
    ensures IsRun(run) && Last(run).pc.rl == RouterShut && Last(run).pc.en == On && LockFree(Last(run).pc.rt)
    ensures Last(run).life == Ready && Last(run).callers == map[] && Last(run).mail == INIT.mail
    ensures Last(run).gens.genCounter == 0
  {
    run := UnroutedExit();
    run := Extend(run, ByClient(EnableSet));
    run := Extend(run, ByClient(EnableWake));
    run := Extend(run, ByClient(EnableQuit));
  }

  /** And a query is armed. */
  lemma LateArming() returns (run: seq<St>)
    ensures IsRun(run) && Last(run).pc.rl == RouterShut
    ensures 1 in Last(run).mail.router.handles && !Last(run).mail.router.handles[1].closed
  {
    run := LateRouting();
    run := Extend(run, ByCaller(PrepareQuery(0)));
    run := Extend(run, ByCaller(AllocGen(0)));
    run := Extend(run, ByCaller(ArmRouter(0)));
  }

  /** Without the condition sawRouted a handle can stay open: routing is enabled, and
      a query armed, after shutdownRouter looked, and the session ends all the same. */
  lemma LateRoutingLeavesHandleOpen()
    ensures exists run: seq<St> ::
              && IsRun(run) && Last(run).pc.rl.Finished?
              && 1 in Last(run).mail.router.handles && !Last(run).mail.router.handles[1].closed
  {
    var run := LateArming();
    run := Extend(run, ByExit(CloseEvents));
    run := Extend(run, ByExit(SetDone));
  }

  // ---- dropped with room to spare ----

  /** Query 1 is active, with k events in its mailbox; nothing is under way. */
  predicate Calm(s: St, k: nat) {
    && s.pc.rl == Reading && s.pc.pp == Waiting && s.pc.rt == NoRoute && s.pc.en == On
    && s.queue == [] && s.gens.activeGen == 1 && Attends(s.mail, k)
  }

  predicate Attends(m: Mail, k: nat) {
    && m.router.active == Some(1) && !m.router.shutdown && HasBox(m, 1)
    && !m.router.handles[1].detached && |m.router.handles[1].buf| == k
  }

  lemma Switched() returns (run: seq<St>)
    ensures IsRun(run) && Last(run).pc == INIT.pc.(en := On, barrierDone := true)
    ensures Last(run).queue == [] && Last(run).mail == INIT.mail && Last(run).life == Ready
    ensures Last(run).callers == map[] && Last(run).gens == INIT.gens
  {
    run := [INIT];
    run := Extend(run, ByClient(EnableSet));
    run := Extend(run, ByClient(EnableWake));
    run := Extend(run, ByClient(EnablePush));
    run := Extend(run, ByPump(PumpTake));
    run := Extend(run, ByPump(PumpCheck));
    run := Extend(run, ByRouter(RouteEnter));
    run := Extend(run, ByPump(FlushEnd));
  }

  lemma Asked() returns (run: seq<St>)
    ensures IsRun(run) && Calm(Last(run), 0)
  {
    run := Switched();
    run := Extend(run, ByCaller(PrepareQuery(0)));
    run := Extend(run, ByCaller(AllocGen(0)));
    run := Extend(run, ByCaller(ArmRouter(0)));
    run := Extend(run, ByCaller(StoreGen(0)));
  }

  /** The CLI prints something, and the pump is about to route it. */
  lemma Arrives(run: seq<St>, k: nat) returns (more: seq<St>)
    requires IsRun(run) && Calm(Last(run), k)
    ensures IsRun(more)
    ensures Last(more).pc.rl == Reading && Last(more).pc.pp == Routing && Last(more).pc.en == On
    ensures Last(more).pc.rt.Entering? && Last(more).pc.rt.item.sev.gen == 1
    ensures Last(more).pc.rt.item.sev.ev == TextEvent("")
    ensures Last(more).queue == [] && Last(more).gens.activeGen == 1 && Attends(Last(more).mail, k)
  {
    more := Stamped1(run, k);
    more := Extend(more, ByReadLoop(Track));
    more := Extend(more, ByReadLoop(PushEvent));
    more := Extend(more, ByPump(PumpTake));
    more := Extend(more, ByPump(PumpCheck));
  }

  lemma Stamped1(run: seq<St>, k: nat) returns (more: seq<St>)
    requires IsRun(run) && Calm(Last(run), k)
    ensures IsRun(more)
    ensures Last(more).pc.rl.Stamping? && Last(more).pc.rl.item.sev.gen == 1
    ensures Last(more).pc.rl.item.sev.ev == TextEvent("")
    ensures Last(more).pc.pp == Waiting && Last(more).pc.rt == NoRoute && Last(more).pc.en == On
    ensures Last(more).queue == [] && Last(more).gens.activeGen == 1 && Attends(Last(more).mail, k)
  {
    more := Extend(run, ByReadLoop(Arrive(TextEvent(""))));
    more := Extend(more, ByReadLoop(LoadGen));
    more := Extend(more, ByReadLoop(ClearGen));
  }

  lemma {:induction false} Filled(k: nat) returns (run: seq<St>)
    requires k <= MAILBOX_CAP
    ensures IsRun(run) && Calm(Last(run), k)
  {
    if k == 0 {
      run := Asked();
    } else {
      run := Filled(k - 1);
      run := Arrives(run, k - 1);
      run := OneMore(run, k);
    }
  }

  lemma OneMore(run: seq<St>, k: nat) returns (more: seq<St>)
    requires IsRun(run) && 0 < k <= MAILBOX_CAP && Attends(Last(run).mail, k - 1)
    requires var s := Last(run);
             && s.pc.rl == Reading && s.pc.pp == Routing && s.pc.en == On && s.queue == [] && s.gens.activeGen == 1
             && s.pc.rt.Entering? && s.pc.rt.item.sev.gen == 1 && s.pc.rt.item.sev.ev == TextEvent("")
    ensures IsRun(more) && Calm(Last(more), k)
  {
    more := Extend(run, ByRouter(RouteEnter));
  }

  /** A run in which the loop drops although its mailbox has room: the consumer made some after the
      send had failed. */
  lemma DropWithRoom() returns (run: seq<St>)
    ensures IsRun(run) && RouteEnabled(Last(run), RouteDrop)
    ensures var box := Last(run).mail.router.handles[Last(run).pc.rt.item.sev.gen];
            0 < |box.buf| < MAILBOX_CAP
  {
    run := Filled(MAILBOX_CAP);
    run := Arrives(run, MAILBOX_CAP);
    run := Extend(run, ByRouter(RouteEnter));
    run := Extend(run, ByClient(Consume(1)));
  }
}
