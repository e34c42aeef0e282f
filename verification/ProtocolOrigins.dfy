/** Where events come from: whatever is delivered was read, or handed to the session by a sender, and is
    delivered as it was then, with the time of its arrival. */
module ProtocolOrigins {
  import opened Events
  import opened Protocol
  import opened ProtocolSafety
  import opened ProtocolFates

  // ---- what is sent on the pump channel ----

  function Sent(s: St): seq<Packet> {
    s.taken + s.queue
  }

  predicate IsSenders(s: St, x: Item) {
    exists i :: i in s.senders && s.senders[i] == Sending(x)
  }

  /** A transition carries the stamp of the event that caused it. */
  predicate IsTransitionOf(x: Item, y: Item) {
    x.sev.ev.StateChangeEvent? && x == y.(sev := y.sev.(ev := x.sev.ev))
  }

  /** What a step may send: the event that the read loop has tracked, a transition that goes before
      it, a sender's event, the barrier, or a line of stderr. */
  predicate MaySend(s: St, p: Packet) {
    match p
    case Raw(ev) => ev.StderrEvent?
    case Packed(x) =>
      || (s.pc.rl.Tracked? && (x == s.pc.rl.item || IsTransitionOf(x, s.pc.rl.item)))
      || IsSenders(s, x)
      || (x.sev.ev.BarrierEvent? && x.loadedAt == s.now && x.sev.gen == s.gens.activeGen)
  }

  ghost predicate Sends(s: St, s': St) {
    Sent(s') == Sent(s) || exists p :: Sent(s') == Sent(s) + [p] && MaySend(s, p)
  }

  lemma ClientSends(s: St, a: ClientAction)
    requires ClientEnabled(s, a)
    ensures Sends(s, ClientStep(s, a))
  {
    var s' := ClientStep(s, a);
    if a.SenderPush? {
      assert IsSenders(s, s.senders[a.i].item);
      assert Sent(s') == Sent(s) + [Packed(s.senders[a.i].item)];
    } else if a.EnablePush? {
      assert Sent(s') == Sent(s) + [s'.queue[|s.queue|]];
    }
  }

  lemma ReadSends(s: St, a: ReadAction)
    requires ReadEnabled(s, a)
    ensures Sends(s, ReadStep(s, a))
  {
    var s' := ReadStep(s, a);
    if a.PushTransition? || a.PushEvent? || a.PushStderr? {
      assert Sent(s') == Sent(s) + [s'.queue[|s.queue|]];
    }
  }

  lemma PumpSends(s: St, a: PumpAction)
    requires PumpEnabled(s, a)
    ensures Sent(PumpStep(s, a)) == Sent(s)
  {
    if a.PumpTake? {
      assert s.queue == [s.queue[0]] + s.queue[1..];
    }
  }

  lemma StepSends(s: St, a: Action)
    requires Enabled(s, a)
    ensures Sends(s, Act(s, a))
  {
    match a
    case ByCaller(x) => assert CallerStep(s, x).queue == s.queue && CallerStep(s, x).taken == s.taken;
    case ByClient(x) => ClientSends(s, x);
    case ByReadLoop(x) => ReadSends(s, x);
    case ByExit(x) => assert ExitStep(s, x).queue == s.queue && ExitStep(s, x).taken == s.taken;
    case ByPump(x) => PumpSends(s, x);
    case ByRouter(x) => assert RouteStep(s, x).queue == s.queue && RouteStep(s, x).taken == s.taken;
  }

  // ---- in runs ----

  /** State k is at time k. */
  lemma {:induction false} Clock(run: seq<St>, n: nat)
    requires IsRun(run) && n < |run|
    ensures run[n].now == n
  {
    if n > 0 {
      Clock(run, n - 1);
      assert Follows(run, n);
      var a :| Enabled(run[n - 1], a) && run[n] == Step(run[n - 1], a);
      TimeStands(run[n - 1], a);
    }
  }

  lemma TimeStands(s: St, a: Action)
    requires Enabled(s, a)
    ensures Act(s, a).now == s.now
  {
    match a
    case ByCaller(x) =>
    case ByClient(x) =>
    case ByReadLoop(x) =>
    case ByExit(x) =>
    case ByPump(x) =>
    case ByRouter(x) => RouteTime(s, x);
  }

  lemma RouteTime(s: St, a: RouteAction)
    requires RouteEnabled(s, a)
    ensures RouteStep(s, a).now == s.now
  {
  }

  /** The event was read in the step at this time, before state n. */
  predicate ReadAt(run: seq<St>, n: nat, ev: Event, at: nat)
    requires n < |run|
  {
    at < n && run[at + 1].pc.rl == Got(ev, at)
  }

  predicate SomethingReadAt(run: seq<St>, n: nat, at: nat)
    requires n < |run|
  {
    at < n && run[at + 1].pc.rl.Got? && run[at + 1].pc.rl.at == at
  }

  /** A sender had the event, and stamped it in the step at this time. */
  predicate SentAt(run: seq<St>, n: nat, ev: Event, at: nat)
    requires n < |run|
  {
    at < n && exists i :: i in run[at].senders && run[at].senders[i] == Passed(ev)
  }

  /** The event is as it arrived: as it was read then, a transition that such an event caused, or as a
      sender had it then. */
  ghost predicate Arrived(run: seq<St>, n: nat, ev: Event, at: nat)
    requires n < |run|
  {
    || ReadAt(run, n, ev, at) || SentAt(run, n, ev, at)
    || (ev.StateChangeEvent? && SomethingReadAt(run, n, at))
  }

  /** The event carries the generation that was active when it was stamped, or, if it is a result held
      as unsolicited or goes before one, none. */
  predicate StampedAt(run: seq<St>, n: nat, x: Item)
    requires n < |run|
  {
    && x.loadedAt < n
    && (x.sev.gen == run[x.loadedAt].gens.activeGen
        || (x.sev.gen == 0 && (x.sev.ev.ResultEvent? || x.sev.ev.StateChangeEvent?)))
  }

  ghost predicate PacketArrived(run: seq<St>, n: nat, p: Packet)
    requires n < |run|
  {
    match p
    case Raw(ev) => ev.StderrEvent?
    case Packed(x) => StampedAt(run, n, x) && (x.sev.ev.BarrierEvent? || Arrived(run, n, x.sev.ev, x.sev.at))
  }

  ghost predicate ReadLoopArrived(run: seq<St>, n: nat)
    requires n < |run|
  {
    var rl := run[n].pc.rl;
    && (rl.Got? ==> ReadAt(run, n, rl.ev, rl.at))
    && (rl.Loaded? || rl.Stamping? || rl.Tracked? ==>
          ReadAt(run, n, rl.item.sev.ev, rl.item.sev.at) && StampedAt(run, n, rl.item))
  }

  ghost predicate SendersArrived(run: seq<St>, n: nat)
    requires n < |run|
  {
    forall i | i in run[n].senders && run[n].senders[i].Sending? ::
      && SentAt(run, n, run[n].senders[i].item.sev.ev, run[n].senders[i].item.sev.at)
      && StampedAt(run, n, run[n].senders[i].item)
  }

  ghost predicate AllArrived(run: seq<St>, n: nat)
    requires n < |run|
  {
    && ReadLoopArrived(run, n) && SendersArrived(run, n)
    && forall i | 0 <= i < |Sent(run[n])| :: PacketArrived(run, n, Sent(run[n])[i])
  }

  /** The item is stamped in this step. */
  predicate StampedNow(s: St, x: Item) {
    && x.loadedAt == s.now
    && (x.sev.gen == s.gens.activeGen || (x.sev.gen == 0 && x.sev.ev.ResultEvent?))
  }

  /** What a step does to the read loop's event. */
  predicate ReadLoopMoves(s: St, s': St) {
    var rl, rl' := s.pc.rl, s'.pc.rl;
    && (rl'.Got? ==> rl' == rl || rl'.at == s.now)
    && (rl'.Loaded? || rl'.Stamping? || rl'.Tracked? ==>
          || (rl.Got? && rl'.item.sev.ev == rl.ev && rl'.item.sev.at == rl.at && StampedNow(s, rl'.item))
          || ((rl.Loaded? || rl.Stamping? || rl.Tracked?) && rl'.item == rl.item))
  }

  predicate SendersMove(s: St, s': St) {
    forall i | i in s'.senders && s'.senders[i].Sending? ::
      i in s.senders && (s'.senders[i] == s.senders[i] || SenderStamps(s, s.senders[i], s'.senders[i].item))
  }

  predicate SenderStamps(s: St, sender: Sender, x: Item) {
    && sender == Passed(x.sev.ev) && x.sev.at == s.now && x.loadedAt == s.now && x.sev.gen == s.gens.activeGen
  }

  lemma ReadMoves(s: St, a: ReadAction)
    requires ReadEnabled(s, a)
    ensures ReadLoopMoves(s, ReadStep(s, a)) && SendersMove(s, ReadStep(s, a))
  {
  }

  lemma ExitMoves(s: St, a: ExitAction)
    requires ExitEnabled(s, a)
    ensures ReadLoopMoves(s, ExitStep(s, a)) && SendersMove(s, ExitStep(s, a))
  {
  }

  lemma ClientMoves(s: St, a: ClientAction)
    requires ClientEnabled(s, a)
    ensures ReadLoopMoves(s, ClientStep(s, a)) && SendersMove(s, ClientStep(s, a))
  {
  }

  lemma PumpMoves(s: St, a: PumpAction)
    requires PumpEnabled(s, a)
    ensures ReadLoopMoves(s, PumpStep(s, a)) && SendersMove(s, PumpStep(s, a))
  {
  }

  lemma RouteMoves(s: St, a: RouteAction)
    requires RouteEnabled(s, a)
    ensures ReadLoopMoves(s, RouteStep(s, a)) && SendersMove(s, RouteStep(s, a))
  {
    RouteReturn(s, a);
  }

  lemma RouteReturn(s: St, a: RouteAction)
    requires RouteEnabled(s, a)
    ensures RouteStep(s, a).senders == s.senders
    ensures RouteStep(s, a).pc.rl == s.pc.rl || RouteStep(s, a).pc.rl == Delivered
  {
    if a.RouteEnter? {
      EnterReturn(s);
    }
  }

  lemma EnterReturn(s: St)
    requires RouteEnabled(s, RouteEnter)
    ensures var s' := RouteStep(s, RouteEnter);
            s'.senders == s.senders && (s'.pc.rl == s.pc.rl || s'.pc.rl == Delivered)
  {
  }

  lemma StepMoves(s: St, a: Action)
    requires Enabled(s, a)
    ensures ReadLoopMoves(s, Act(s, a)) && SendersMove(s, Act(s, a))
  {
    match a
    case ByCaller(x) => assert CallerStep(s, x).pc == s.pc && CallerStep(s, x).senders == s.senders;
    case ByClient(x) => ClientMoves(s, x);
    case ByReadLoop(x) => ReadMoves(s, x);
    case ByExit(x) => ExitMoves(s, x);
    case ByPump(x) => PumpMoves(s, x);
    case ByRouter(x) => RouteMoves(s, x);
  }

  lemma ArrivedStep(run: seq<St>, n: nat)
    requires 0 < n < |run| && AllArrived(run, n - 1) && run[n - 1].now == n - 1
    requires ReadLoopMoves(run[n - 1], run[n]) && SendersMove(run[n - 1], run[n])
    ensures ReadLoopArrived(run, n) && SendersArrived(run, n)
  {
  }

  lemma PacketsStep(run: seq<St>, n: nat)
    requires 0 < n < |run| && AllArrived(run, n - 1) && Sends(run[n - 1], run[n]) && run[n - 1].now == n - 1
    ensures forall i | 0 <= i < |Sent(run[n])| :: PacketArrived(run, n, Sent(run[n])[i])
  {
    forall i | 0 <= i < |Sent(run[n])| ensures PacketArrived(run, n, Sent(run[n])[i]) {
      if i < |Sent(run[n - 1])| {
        ArrivedLater(run, n, Sent(run[n - 1])[i]);
      } else {
        SendArrived(run, n, Sent(run[n])[i]);
      }
    }
  }

  lemma ArrivedLater(run: seq<St>, n: nat, p: Packet)
    requires 0 < n < |run| && PacketArrived(run, n - 1, p)
    ensures PacketArrived(run, n, p)
  {
  }

  lemma SendArrived(run: seq<St>, n: nat, p: Packet)
    requires 0 < n < |run| && run[n - 1].now == n - 1 && ReadLoopArrived(run, n - 1)
    requires SendersArrived(run, n - 1) && MaySend(run[n - 1], p)
    ensures PacketArrived(run, n, p)
  {
    if p.Packed? && run[n - 1].pc.rl.Tracked? {
      assert ReadAt(run, n, run[n - 1].pc.rl.item.sev.ev, run[n - 1].pc.rl.item.sev.at);
    }
  }

  /** In every run, all that was sent on the pump channel is as it arrived. */
  lemma {:induction false} SentAsArrived(run: seq<St>, n: nat)
    requires IsRun(run) && n < |run|
    ensures AllArrived(run, n)
  {
    if n > 0 {
      SentAsArrived(run, n - 1);
      Clock(run, n - 1);
      var a := ActionAt(run, n);
      StepMoves(run[n - 1], a);
      StepSends(run[n - 1], a);
      ArrivedStep(run, n);
      PacketsStep(run, n);
    }
  }

  lemma ActionAt(run: seq<St>, n: nat) returns (a: Action)
    requires IsRun(run) && 0 < n < |run|
    ensures Enabled(run[n - 1], a) && run[n] == Tick(Act(run[n - 1], a))
  {
    assert Follows(run, n);
    a :| Enabled(run[n - 1], a) && run[n] == Step(run[n - 1], a);
  }

  // ---- through the pump ----

  predicate InHand(pc: Pcs, x: Item) {
    Hand(pc) == [Packed(x)]
  }

  /** What a step does to the packet that the pump is at work on: it comes from the channel, or is
      stamped; and what the pump is done with was in its hand. */
  ghost predicate HandMoves(s: St, s': St) {
    && (forall x :: InHand(s'.pc, x) ==> InHand(s.pc, x) || TakesNow(s, x) || StampedNow(s, x))
    && (s'.fates == s.fates || (|s'.fates| == |s.fates| + 1 && s'.fates[..|s.fates|] == s.fates
                                && (s'.fates[|s.fates|].packet ==> InHand(s.pc, s'.fates[|s.fates|].item))))
  }

  predicate TakesNow(s: St, x: Item) {
    s.queue != [] && s.queue[0] == Packed(x)
  }

  lemma ClientHand(s: St, a: ClientAction)
    requires ClientEnabled(s, a)
    ensures HandMoves(s, ClientStep(s, a))
  {
    assert ClientStep(s, a).pc.pp == s.pc.pp && ClientStep(s, a).pc.rt == s.pc.rt;
  }

  lemma ReadHand(s: St, a: ReadAction)
    requires ReadEnabled(s, a)
    ensures HandMoves(s, ReadStep(s, a))
  {
    assert ReadStep(s, a).pc.pp == s.pc.pp && ReadStep(s, a).pc.rt == s.pc.rt;
  }

  lemma ExitHand(s: St, a: ExitAction)
    requires ExitEnabled(s, a) && Control(s.pc, s.mail.router.shutdown)
    ensures HandMoves(s, ExitStep(s, a))
  {
    assert ExitStep(s, a).pc.pp == s.pc.pp;
    assert a.ExitCheck? ==> s.pc.pp.Stopped?;
    assert !a.ExitCheck? ==> ExitStep(s, a).pc.rt == s.pc.rt;
  }

  lemma PumpHand(s: St, a: PumpAction)
    requires PumpEnabled(s, a) && Control(s.pc, s.mail.router.shutdown)
    ensures HandMoves(s, PumpStep(s, a))
  {
  }

  lemma RouteHand(s: St, s': St)
    requires Control(s.pc, s.mail.router.shutdown) && !s.pc.rt.NoRoute? && RoutesTo(s, s')
    ensures HandMoves(s, s')
  {
  }

  lemma StepHand(s: St, a: Action)
    requires Enabled(s, a) && Control(s.pc, s.mail.router.shutdown) && LockHeld(s.mail.router, s.pc.rt)
    ensures HandMoves(s, Act(s, a))
  {
    match a
    case ByCaller(x) => assert CallerStep(s, x).pc == s.pc && CallerStep(s, x).fates == s.fates;
    case ByClient(x) => ClientHand(s, x);
    case ByReadLoop(x) => ReadHand(s, x);
    case ByExit(x) => ExitHand(s, x);
    case ByPump(x) => PumpHand(s, x);
    case ByRouter(x) => RouteEffect(s, x); RouteHand(s, RouteStep(s, x));
  }

  ghost predicate AllStamped(run: seq<St>, n: nat)
    requires n < |run|
  {
    && (forall x :: InHand(run[n].pc, x) ==> StampedAt(run, n, x))
    && forall i | 0 <= i < |run[n].fates| && run[n].fates[i].packet :: StampedAt(run, n, run[n].fates[i].item)
  }

  lemma StampedStep(run: seq<St>, n: nat)
    requires 0 < n < |run| && AllStamped(run, n - 1) && AllArrived(run, n - 1)
    requires HandMoves(run[n - 1], run[n]) && run[n - 1].now == n - 1
    ensures AllStamped(run, n)
  {
    forall x | InHand(run[n].pc, x) ensures StampedAt(run, n, x) {
      if TakesNow(run[n - 1], x) {
        assert Sent(run[n - 1])[|run[n - 1].taken|] == Packed(x);
      }
    }
    forall i | 0 <= i < |run[n].fates| && run[n].fates[i].packet ensures StampedAt(run, n, run[n].fates[i].item) {
      if i < |run[n - 1].fates| {
        assert run[n].fates[..|run[n - 1].fates|][i] == run[n].fates[i];
      }
    }
  }

  /** Everything that the pump delivered carries the generation that was active when it was stamped. */
  lemma {:induction false} DeliveredAsStamped(run: seq<St>, n: nat)
    requires IsRun(run) && n < |run|
    ensures AllStamped(run, n)
  {
    if n > 0 {
      DeliveredAsStamped(run, n - 1);
      SentAsArrived(run, n - 1);
      Clock(run, n - 1);
      HandAt(run, n);
      StampedStep(run, n);
    }
  }

  lemma HandAt(run: seq<St>, n: nat)
    requires IsRun(run) && 0 < n < |run|
    ensures HandMoves(run[n - 1], run[n])
  {
    Reachable(run, n - 1);
    var a := ActionAt(run, n);
    StepHand(run[n - 1], a);
  }

  /** Nothing is made up. Whatever the pump delivered, to a mailbox, to the orphans or on s.events, is
      an event as it was read, with the time at which it was; a transition that such an event caused,
      with the event's time; an event as its sender had it; or a line of stderr. */
  lemma DeliveredAsArrived(run: seq<St>, n: nat, i: nat)
    requires IsRun(run) && n < |run| && i < |run[n].fates| && run[n].fates[i].packet
    ensures var sev := run[n].fates[i].item.sev;
            sev.ev.BarrierEvent? || sev.ev.StderrEvent? || Arrived(run, n, sev.ev, sev.at)
  {
    FatesReachable(run, n);
    SentAsArrived(run, n);
    var s := run[n];
    var k := FateWasHandled(s.fates, i);
    assert Same(s.taken[k], (Handled(s.fates) + Hand(s.pc))[k]);
    assert PacketArrived(run, n, Sent(s)[k]);
  }
}
