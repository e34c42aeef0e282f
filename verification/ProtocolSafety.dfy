/** What every interleaving of the routed session keeps. */
module ProtocolSafety {
  import opened Events
  import opened Bytes
  import opened RouterModel
  import opened Protocol
  import opened ProtocolMail

  // ---- which goroutine is where ----

  ghost predicate Control(pc: Pcs, shutdown: bool) {
    && (pc.pp.Stopped? ==> PumpClosed(pc.rl))
    && (PumpIsOver(pc.rl) ==> pc.pp.Stopped?)
    && (pc.rt.NoRoute? <==> !pc.pp.Routing? && !pc.rl.ExitRouting?)
    && ((pc.pp.Routing? || pc.pp.Flushing? || pc.pp.FlushHolding? || pc.barrierDone) ==> Routed(pc.en))
    && (pc.rl.ExitRouting? || pc.rl.Shutting? ==> Routed(pc.en))
    && (pc.barrierDone ==> !pc.pp.Blocked? && !pc.rl.ExitDirect?)
    && (pc.rl.ExitStamped? || pc.rl.ExitDirect? ==> pc.rl.item.sev.ev == CLIExitEvent)
    && (pc.rl.ExitRouting? ==> pc.rt.item.sev.ev == CLIExitEvent)
    && (shutdown <==> pc.sawRouted && RouterIsOver(pc.rl))
    && (pc.rl.Shutting? ==> pc.sawRouted)
    && (pc.sawRouted ==> pc.rl.Shutting? || RouterIsOver(pc.rl))
  }

  /** A full mailbox is served under the lock, so it stays the active one, and one
      drop makes room: the second send cannot fail. */
  ghost predicate LockHeld(r: Router, rt: RoutePhase) {
    && (rt.Full? || rt.Retry? ==> Matches(r, rt.item.sev) && !rt.item.sev.ev.BarrierEvent?)
    && (rt.Retry? ==> |r.handles[rt.item.sev.gen].buf| < MAILBOX_CAP)
  }

  lemma CallerControl(s: St, a: CallerAction)
    requires Control(s.pc, s.mail.router.shutdown) && CallerEnabled(s, a)
    ensures Control(CallerStep(s, a).pc, CallerStep(s, a).mail.router.shutdown)
  {
  }

  lemma ClientControl(s: St, a: ClientAction)
    requires Control(s.pc, s.mail.router.shutdown) && ClientEnabled(s, a)
    ensures Control(ClientStep(s, a).pc, ClientStep(s, a).mail.router.shutdown)
  {
  }

  lemma ReadControl(s: St, a: ReadAction)
    requires Control(s.pc, s.mail.router.shutdown) && ReadEnabled(s, a)
    ensures Control(ReadStep(s, a).pc, ReadStep(s, a).mail.router.shutdown)
  {
  }

  lemma ExitControl(s: St, a: ExitAction)
    requires Control(s.pc, s.mail.router.shutdown) && ExitEnabled(s, a)
    ensures Control(ExitStep(s, a).pc, ExitStep(s, a).mail.router.shutdown)
  {
  }

  lemma PumpControl(s: St, a: PumpAction)
    requires Control(s.pc, s.mail.router.shutdown) && PumpEnabled(s, a)
    ensures Control(PumpStep(s, a).pc, PumpStep(s, a).mail.router.shutdown)
  {
  }

  // ---- generations ----

  /** A caller whose generation is not yet stored in activeGen. */
  predicate Unstored(c: Caller) {
    c.Allocated? || c.Armed?
  }

  ghost predicate CallersInv(callers: map<nat, Caller>, genCounter: nat, armed: set<nat>, handles: set<nat>) {
    && (forall c | c in callers && Unstored(callers[c]) ::
          && 0 < callers[c].gen <= genCounter && callers[c].gen !in armed
          && (callers[c].Armed? <==> callers[c].gen in handles))
    && (forall c, d | c in callers && d in callers && c != d && Unstored(callers[c]) && Unstored(callers[d]) ::
          callers[c].gen != callers[d].gen)
  }

  ghost predicate GensInv(gens: Gens, handles: set<nat>, now: nat) {
    && (forall g | g in handles :: 0 < g <= gens.genCounter)
    && (forall g | g in gens.armedAt :: g in handles && gens.armedAt[g] < now)
    && (gens.activeGen != 0 ==> gens.activeGen in gens.armedAt && gens.activeGen !in gens.ended)
    && (forall g | g in gens.ended && g != 0 :: g in gens.armedAt)
  }

  ghost predicate Generations(s: St) {
    && GensInv(s.gens, s.mail.router.handles.Keys, s.now)
    && CallersInv(s.callers, s.gens.genCounter, s.gens.armedAt.Keys, s.mail.router.handles.Keys)
  }

  // ---- stamps ----

  /** The event was stamped with a generation that was armed before. */
  ghost predicate Fresh(armedAt: map<nat, nat>, x: Item) {
    x.sev.gen != 0 ==> x.sev.gen in armedAt && armedAt[x.sev.gen] < x.loadedAt
  }

  ghost predicate FreshQueue(armedAt: map<nat, nat>, queue: seq<Packet>) {
    forall i | 0 <= i < |queue| && queue[i].Packed? :: Fresh(armedAt, queue[i].item)
  }

  ghost predicate FreshPump(armedAt: map<nat, nat>, pp: Pump, rt: RoutePhase) {
    && (pp.Holding? || pp.Blocked? ==> Fresh(armedAt, pp.item))
    && (!rt.NoRoute? ==> Fresh(armedAt, rt.item))
  }

  ghost predicate FreshSenders(armedAt: map<nat, nat>, senders: map<nat, Sender>) {
    forall i | i in senders && senders[i].Sending? :: Fresh(armedAt, senders[i].item)
  }

  ghost predicate FreshReadLoop(armedAt: map<nat, nat>, rl: ReadLoop, now: nat) {
    && (rl.Loaded? || rl.Stamping? || rl.Tracked? || rl.ExitStamped? ==> Fresh(armedAt, rl.item))
    && (rl.ExitLoaded? && rl.gen != 0 ==> rl.gen in armedAt && armedAt[rl.gen] < now)
  }

  /** A mailbox holds only its own query's events, stamped after the query was armed. */
  ghost predicate NoStaleAnswer(armedAt: map<nat, nat>, routedTo: map<nat, seq<Item>>) {
    forall g, i | g in routedTo && 0 <= i < |routedTo[g]| ::
      routedTo[g][i].sev.gen == g && Fresh(armedAt, routedTo[g][i])
  }

  ghost predicate Stamps(s: St) {
    && FreshSenders(s.gens.armedAt, s.senders)
    && FreshReadLoop(s.gens.armedAt, s.pc.rl, s.now)
    && FreshQueue(s.gens.armedAt, s.queue)
    && FreshPump(s.gens.armedAt, s.pc.pp, s.pc.rt)
    && NoStaleAnswer(s.gens.armedAt, s.mail.routedTo)
  }

  lemma CallerGens(s: St, a: CallerAction)
    requires Generations(s) && CallerEnabled(s, a)
    ensures var s' := CallerStep(s, a); GensInv(s'.gens, s'.mail.router.handles.Keys, s.now + 1)
  {
  }

  /** CallersInv after the step. */
  ghost predicate PhasesAfter(s: St, a: CallerAction)
    requires CallerEnabled(s, a)
  {
    var s' := CallerStep(s, a);
    CallersInv(s'.callers, s'.gens.genCounter, s'.gens.armedAt.Keys, s'.mail.router.handles.Keys)
  }

  lemma AllocPhases(s: St, c: nat)
    requires Generations(s) && CallerEnabled(s, AllocGen(c))
    ensures PhasesAfter(s, AllocGen(c))
  {
  }

  lemma ArmPhases(s: St, c: nat)
    requires Generations(s) && CallerEnabled(s, ArmRouter(c))
    ensures PhasesAfter(s, ArmRouter(c))
  {
    ArmKeys(s.mail.router, s.callers[c].gen);
  }

  lemma ArmKeys(r: Router, g: nat)
    requires r.active.Some? ==> r.active.value in r.handles
    ensures Arm(r, g).handles.Keys == r.handles.Keys + {g}
  {
  }

  lemma StorePhases(s: St, c: nat)
    requires Generations(s) && CallerEnabled(s, StoreGen(c))
    ensures PhasesAfter(s, StoreGen(c))
  {
  }

  lemma OtherPhases(s: St, a: CallerAction)
    requires Generations(s) && CallerEnabled(s, a) && !a.AllocGen? && !a.ArmRouter? && !a.StoreGen?
    ensures PhasesAfter(s, a)
  {
    var s' := CallerStep(s, a);
    assert s'.mail.router.handles.Keys == s.mail.router.handles.Keys && s'.gens.armedAt == s.gens.armedAt;
    assert forall c | c in s'.callers && Unstored(s'.callers[c]) :: c in s.callers && s'.callers[c] == s.callers[c];
  }

  lemma CallerPhases(s: St, a: CallerAction)
    requires Generations(s) && CallerEnabled(s, a)
    ensures PhasesAfter(s, a)
  {
    match a
    case AllocGen(c) => AllocPhases(s, c);
    case ArmRouter(c) => ArmPhases(s, c);
    case StoreGen(c) => StorePhases(s, c);
    case _ => OtherPhases(s, a);
  }

  lemma CallerGenerations(s: St, a: CallerAction)
    requires Generations(s) && CallerEnabled(s, a)
    ensures Generations(Tick(CallerStep(s, a)))
  {
    CallerGens(s, a);
    CallerPhases(s, a);
  }

  lemma ClientGenerations(s: St, a: ClientAction)
    requires Generations(s) && ClientEnabled(s, a)
    ensures Generations(Tick(ClientStep(s, a)))
  {
  }

  lemma ReadGenerations(s: St, a: ReadAction)
    requires Generations(s) && ReadEnabled(s, a) && FreshReadLoop(s.gens.armedAt, s.pc.rl, s.now)
    ensures Generations(Tick(ReadStep(s, a)))
  {
  }

  lemma ExitGenerations(s: St, a: ExitAction)
    requires Generations(s) && ExitEnabled(s, a) && FreshReadLoop(s.gens.armedAt, s.pc.rl, s.now)
    ensures Generations(Tick(ExitStep(s, a)))
  {
  }

  lemma PumpGenerations(s: St, a: PumpAction)
    requires Generations(s) && PumpEnabled(s, a)
    ensures Generations(Tick(PumpStep(s, a)))
  {
  }

  lemma CallerStamps(s: St, a: CallerAction)
    requires Stamps(s) && Generations(s) && CallerEnabled(s, a)
    ensures Stamps(Tick(CallerStep(s, a)))
  {
  }

  lemma ClientStamps(s: St, a: ClientAction)
    requires Stamps(s) && Generations(s) && ClientEnabled(s, a)
    ensures Stamps(Tick(ClientStep(s, a)))
  {
  }

  lemma ReadStamps(s: St, a: ReadAction)
    requires Stamps(s) && Generations(s) && ReadEnabled(s, a)
    ensures Stamps(Tick(ReadStep(s, a)))
  {
  }

  lemma ExitStamps(s: St, a: ExitAction)
    requires Stamps(s) && Generations(s) && ExitEnabled(s, a)
    ensures Stamps(Tick(ExitStep(s, a)))
  {
  }

  lemma PumpStamps(s: St, a: PumpAction)
    requires Stamps(s) && Generations(s) && PumpEnabled(s, a)
    ensures Stamps(Tick(PumpStep(s, a)))
  {
  }

  /** All a step of routeStamped does. */
  ghost predicate RoutesTo(s: St, s': St)
    requires !s.pc.rt.NoRoute?
  {
    && s' == s.(mail := s'.mail, log := s'.log, fates := s'.fates, pc := s'.pc)
    && if s'.pc.rt.NoRoute? then RouteDone(s, s') else RouteWaits(s, s')
  }

  /** It goes on: the mailbox was full, or it dropped the oldest event. */
  ghost predicate RouteWaits(s: St, s': St)
    requires !s.pc.rt.NoRoute?
  {
    var x := s.pc.rt.item;
    && s'.fates == s.fates
    && (s'.pc == s.pc.(rt := Full(x)) || s'.pc == s.pc.(rt := Retry(x)))
    && (s'.mail == s.mail || (CanDrop(s, x) && s'.mail == MailDrop(s.mail, x.sev.gen)))
  }

  ghost predicate RouteDone(s: St, s': St)
    requires !s.pc.rt.NoRoute?
  {
    var x := s.pc.rt.item;
    var f := s'.fates;
    && |f| == |s.fates| + 1 && f == s.fates + [f[|s.fates|]] && f[|s.fates|].item == x
    && match f[|s.fates|].end
       case ToMailbox => Returns(s, s') && Buffers(s, x) && s'.mail == MailBuffer(s.mail, x)
       case ToOrphans => Returns(s, s') && s'.mail == MailOrphan(s.mail, OrphanEvent(x.sev.ev, x.sev.at, x.sev.gen))
       case Barrier =>
         && x.sev.ev.BarrierEvent? && s'.mail == s.mail && f[|s.fates|].packet
         && s'.pc == s.pc.(rt := NoRoute, pp := Flushing)
       case Discarded => Returns(s, s') && s'.mail == s.mail && s.mail.router.shutdown
       case _ => false
  }

  ghost predicate Returns(s: St, s': St) {
    s'.pc == RouteReturns(s.pc) && |s'.fates| > |s.fates| && s'.fates[|s.fates|].packet == !s.pc.rl.ExitRouting?
  }

  ghost predicate Buffers(s: St, x: Item) {
    HasBox(s.mail, x.sev.gen) && HasRoom(s.mail, x.sev.gen) && Matches(s.mail.router, x.sev)
  }

  ghost predicate CanDrop(s: St, x: Item) {
    HasBox(s.mail, x.sev.gen) && s.mail.router.handles[x.sev.gen].buf != []
  }

  lemma EnterEffect(s: St)
    requires RouteEnabled(s, RouteEnter)
    ensures RoutesTo(s, RouteStep(s, RouteEnter))
  {
  }

  lemma DropEffect(s: St)
    requires RouteEnabled(s, RouteDrop) && LockHeld(s.mail.router, s.pc.rt)
    ensures RoutesTo(s, RouteStep(s, RouteDrop))
  {
  }

  lemma RetryEffect(s: St)
    requires RouteEnabled(s, RouteRetry) && LockHeld(s.mail.router, s.pc.rt)
    ensures RoutesTo(s, RouteStep(s, RouteRetry))
  {
  }

  lemma RouteEffect(s: St, a: RouteAction)
    requires RouteEnabled(s, a) && LockHeld(s.mail.router, s.pc.rt)
    ensures RoutesTo(s, RouteStep(s, a))
  {
    match a
    case RouteEnter => EnterEffect(s);
    case RouteDrop => DropEffect(s);
    case RouteRetry => RetryEffect(s);
  }

  lemma RouteControl(s: St, s': St)
    requires Control(s.pc, s.mail.router.shutdown) && !s.pc.rt.NoRoute? && RoutesTo(s, s')
    ensures Control(s'.pc, s'.mail.router.shutdown)
  {
  }

  lemma RouteGenerations(s: St, s': St)
    requires Generations(s) && !s.pc.rt.NoRoute? && RoutesTo(s, s')
    ensures Generations(Tick(s'))
  {
    assert s'.mail.router.handles.Keys == s.mail.router.handles.Keys;
  }

  lemma RouteStamps(s: St, s': St)
    requires Stamps(s) && !s.pc.rt.NoRoute? && RoutesTo(s, s')
    ensures Stamps(Tick(s'))
  {
    RouteBoxStamps(s, s');
    RoutePipeStamps(s, s');
    assert s'.gens == s.gens && s'.senders == s.senders && s'.queue == s.queue;
  }

  lemma RoutePipeStamps(s: St, s': St)
    requires Stamps(s) && !s.pc.rt.NoRoute? && RoutesTo(s, s')
    ensures FreshReadLoop(s.gens.armedAt, s'.pc.rl, s.now + 1) && FreshPump(s.gens.armedAt, s'.pc.pp, s'.pc.rt)
  {
    assert s'.pc.rl == s.pc.rl || s'.pc.rl == Delivered;
  }

  lemma RouteBoxStamps(s: St, s': St)
    requires NoStaleAnswer(s.gens.armedAt, s.mail.routedTo) && !s.pc.rt.NoRoute? && RoutesTo(s, s')
    requires Fresh(s.gens.armedAt, s.pc.rt.item)
    ensures NoStaleAnswer(s.gens.armedAt, s'.mail.routedTo)
  {
    var x := s.pc.rt.item;
    if Buffers(s, x) && s'.mail == MailBuffer(s.mail, x) {
      BufferStamps(s.gens.armedAt, s.mail, x);
    } else {
      assert s'.mail.routedTo == s.mail.routedTo;
    }
  }

  lemma BufferStamps(armedAt: map<nat, nat>, m: Mail, x: Item)
    requires NoStaleAnswer(armedAt, m.routedTo) && HasBox(m, x.sev.gen) && Fresh(armedAt, x)
    ensures NoStaleAnswer(armedAt, MailBuffer(m, x).routedTo)
  {
  }

  // ---- at most one terminal event per generation ----

  predicate IsTerm(x: Item, g: nat) {
    x.sev.gen == g && x.sev.ev.Terminal()
  }

  function T(x: Item, g: nat): nat {
    if IsTerm(x, g) then 1 else 0
  }

  function TQueue(q: seq<Packet>, g: nat): nat {
    if q == [] then 0
    else TQueue(q[..|q| - 1], g) + if q[|q| - 1].Packed? then T(q[|q| - 1].item, g) else 0
  }

  function TFates(fates: seq<Fate>, g: nat): nat {
    if fates == [] then 0 else TFates(fates[..|fates| - 1], g) + T(fates[|fates| - 1].item, g)
  }

  function TReadLoop(rl: ReadLoop, g: nat): nat {
    if rl.Stamping? || rl.Tracked? || rl.ExitStamped? || rl.ExitDirect? then T(rl.item, g) else 0
  }

  function TPump(pp: Pump, rt: RoutePhase, g: nat): nat {
    (if pp.Holding? || pp.Blocked? then T(pp.item, g) else 0) + if rt.NoRoute? then 0 else T(rt.item, g)
  }

  /** Terminal events stamped with g, from the stamp to what became of them. */
  function Terminals(s: St, g: nat): nat {
    UnderWay(s, g) + TFates(s.fates, g)
  }

  function UnderWay(s: St, g: nat): nat {
    TReadLoop(s.pc.rl, g) + TQueue(s.queue, g) + TPump(s.pc.pp, s.pc.rt, g)
  }

  /** A generation that has ended has exactly one terminal event, and no other has any. */
  ghost predicate TermInv(s: St, g: nat) {
    g != 0 ==>
      && Terminals(s, g) == (if g in s.gens.ended then 1 else 0)
      // between the load and the clear of a stamp the generation has not ended
      && (s.pc.rl.Loaded? && IsTerm(s.pc.rl.item, g) ==> g !in s.gens.ended)
      && (s.pc.rl.ExitLoaded? && s.pc.rl.gen == g ==> g !in s.gens.ended)
  }

  lemma {:induction false} TQueuePop(q: seq<Packet>, g: nat)
    requires q != []
    ensures TQueue(q, g) == TQueue(q[1..], g) + if q[0].Packed? then T(q[0].item, g) else 0
  {
    if |q| > 1 {
      TQueuePop(q[..|q| - 1], g);
      assert q[1..][..|q| - 2] == q[..|q| - 1][1..];
    }
  }

  lemma TQueuePush(q: seq<Packet>, p: Packet, g: nat)
    ensures TQueue(q + [p], g) == TQueue(q, g) + if p.Packed? then T(p.item, g) else 0
  {
    assert (q + [p])[..|q|] == q;
  }

  lemma TFatesPush(fates: seq<Fate>, f: Fate, g: nat)
    ensures TFates(fates + [f], g) == TFates(fates, g) + T(f.item, g)
  {
    assert (fates + [f])[..|fates|] == fates;
  }

  /** An event reaches its end. */
  lemma FateTerms(s: St, s': St, f: Fate, g: nat)
    requires TermInv(s, g) && s'.fates == s.fates + [f] && s'.gens == s.gens
    requires UnderWay(s', g) + T(f.item, g) == UnderWay(s, g)
    requires s'.pc.rl == s.pc.rl || (!s'.pc.rl.Loaded? && !s'.pc.rl.ExitLoaded?)
    ensures TermInv(s', g)
  {
    TFatesPush(s.fates, f, g);
  }

  /** It moves on. */
  lemma FlowTerms(s: St, s': St, g: nat)
    requires TermInv(s, g) && s'.fates == s.fates && s'.gens == s.gens && UnderWay(s', g) == UnderWay(s, g)
    requires s'.pc.rl == s.pc.rl || (!s'.pc.rl.Loaded? && !s'.pc.rl.ExitLoaded?)
    ensures TermInv(s', g)
  {
  }

  lemma CallerTerms(s: St, a: CallerAction, g: nat)
    requires TermInv(s, g) && CallerEnabled(s, a)
    ensures TermInv(CallerStep(s, a), g)
  {
  }

  lemma ClientTerms(s: St, a: ClientAction, g: nat)
    requires TermInv(s, g) && ClientEnabled(s, a) && PlainEvents(s)
    ensures TermInv(ClientStep(s, a), g)
  {
    match a
    case SenderPush(i) => TQueuePush(s.queue, Packed(s.senders[i].item), g);
    case SenderQuit(i) => FateTerms(s, ClientStep(s, a), Fate(s.senders[i].item, Abandoned, false), g);
    case EnablePush => TQueuePush(s.queue, Packed(Item(Stamped(BarrierEvent, s.now, s.gens.activeGen), s.now)), g);
    case _ =>
  }

  predicate Pushes(a: ReadAction) {
    a.PushTransition? || a.PushEvent? || a.PushAbandon? || a.PushStderr?
  }

  lemma PushTerms(s: St, a: ReadAction, g: nat)
    requires TermInv(s, g) && ReadEnabled(s, a) && Pushes(a)
    ensures TermInv(ReadStep(s, a), g)
  {
    match a
    case PushTransition(act) =>
      TQueuePush(s.queue, Packed(s.pc.rl.item.(sev := s.pc.rl.item.sev.(ev := StateChangeEvent(act)))), g);
    case PushEvent => TQueuePush(s.queue, Packed(s.pc.rl.item), g);
    case PushAbandon => FateTerms(s, ReadStep(s, a), Fate(s.pc.rl.item, Abandoned, false), g);
    case PushStderr(content) => TQueuePush(s.queue, Raw(StderrEvent(content)), g);
  }

  lemma StampTerms(s: St, a: ReadAction, g: nat)
    requires TermInv(s, g) && ReadEnabled(s, a) && !Pushes(a)
    requires s.gens.activeGen != 0 ==> s.gens.activeGen !in s.gens.ended
    ensures TermInv(ReadStep(s, a), g)
  {
  }

  lemma ReadTerms(s: St, a: ReadAction, g: nat)
    requires TermInv(s, g) && ReadEnabled(s, a) && (s.gens.activeGen != 0 ==> s.gens.activeGen !in s.gens.ended)
    ensures TermInv(ReadStep(s, a), g)
  {
    if Pushes(a) {
      PushTerms(s, a, g);
    } else {
      StampTerms(s, a, g);
    }
  }

  /** The exit event is stamped. */
  lemma ExitStampTerms(s: St, a: ExitAction, g: nat)
    requires TermInv(s, g) && ExitEnabled(s, a) && (a.ExitLoad? || a.ExitClear?)
    requires s.gens.activeGen != 0 ==> s.gens.activeGen !in s.gens.ended
    ensures TermInv(ExitStep(s, a), g)
  {
  }

  /** It is sent on s.events, or given up. */
  lemma ExitSentTerms(s: St, a: ExitAction, g: nat)
    requires TermInv(s, g) && ExitEnabled(s, a) && (a.ExitSend? || a.ExitGiveUp?)
    ensures TermInv(ExitStep(s, a), g)
  {
    FateTerms(s, ExitStep(s, a), Fate(s.pc.rl.item, if a.ExitSend? then ToEvents else GivenUp, false), g);
  }

  lemma ExitTerms(s: St, a: ExitAction, g: nat)
    requires TermInv(s, g) && ExitEnabled(s, a) && Control(s.pc, s.mail.router.shutdown)
    requires s.gens.activeGen != 0 ==> s.gens.activeGen !in s.gens.ended
    ensures TermInv(ExitStep(s, a), g)
  {
    if a.ExitLoad? || a.ExitClear? {
      ExitStampTerms(s, a, g);
    } else if a.ExitSend? || a.ExitGiveUp? {
      ExitSentTerms(s, a, g);
    }
  }

  lemma TakeTerms(s: St, g: nat)
    requires TermInv(s, g) && PumpEnabled(s, PumpTake) && Control(s.pc, s.mail.router.shutdown)
    ensures TermInv(PumpStep(s, PumpTake), g)
  {
    TQueuePop(s.queue, g);
    FlowTerms(s, PumpStep(s, PumpTake), g);
  }

  lemma PumpTerms(s: St, a: PumpAction, g: nat)
    requires TermInv(s, g) && PumpEnabled(s, a) && PlainEvents(s) && Control(s.pc, s.mail.router.shutdown)
    ensures TermInv(PumpStep(s, a), g)
  {
    var s' := PumpStep(s, a);
    match a
    case PumpTake => TakeTerms(s, g);
    case PumpWrite => FateTerms(s, s', Fate(s.pc.pp.item, ToEvents, true), g);
    case PumpAbandon => FateTerms(s, s', Fate(s.pc.pp.item, Abandoned, true), g);
    case FlushAdd => FlushTerms(s, g);
    case _ => FlowTerms(s, s', g);
  }

  lemma FlushTerms(s: St, g: nat)
    requires TermInv(s, g) && PumpEnabled(s, FlushAdd)
    ensures TermInv(PumpStep(s, FlushAdd), g)
  {
    if g != 0 {
      FateTerms(s, PumpStep(s, FlushAdd), Fate(Item(Stamped(s.pc.pp.ev, s.now, 0), s.now), Flushed, false), g);
    }
  }

  lemma RouteTerms(s: St, s': St, g: nat)
    requires TermInv(s, g) && !s.pc.rt.NoRoute? && RoutesTo(s, s') && Control(s.pc, s.mail.router.shutdown)
    ensures TermInv(s', g)
  {
    if s'.pc.rt.NoRoute? {
      RouteDoneTerms(s, s', g);
    } else {
      FlowTerms(s, s', g);
    }
  }

  lemma RouteDoneTerms(s: St, s': St, g: nat)
    requires TermInv(s, g) && !s.pc.rt.NoRoute? && RoutesTo(s, s') && Control(s.pc, s.mail.router.shutdown)
    requires s'.pc.rt.NoRoute?
    ensures TermInv(s', g)
  {
    FateTerms(s, s', s'.fates[|s.fates|], g);
  }

  // ---- where exit events and other terminal events can be ----

  predicate PlainPacket(p: Packet) {
    match p
    case Packed(x) => !x.sev.ev.CLIExitEvent?
    case Raw(ev) => !ev.Terminal()
  }

  predicate PlainReadLoop(rl: ReadLoop) {
    && (rl.Got? ==> !rl.ev.CLIExitEvent?)
    && (rl.Loaded? || rl.Stamping? || rl.Tracked? ==> !rl.item.sev.ev.CLIExitEvent?)
  }

  predicate PlainPump(pp: Pump, rt: RoutePhase) {
    && (pp.Unstamped? ==> !pp.ev.Terminal())
    && (pp.Holding? || pp.Blocked? ==> !pp.item.sev.ev.CLIExitEvent?)
    && (pp.Routing? && !rt.NoRoute? ==> !rt.item.sev.ev.CLIExitEvent?)
  }

  function SenderEv(x: Sender): Event {
    match x
    case Passed(ev) => ev
    case Sending(item) => item.sev.ev
  }

  /** Only the read loop's own steps carry terminal events, and only its last ones the exit event. */
  ghost predicate PlainEvents(s: St) {
    && (forall i | i in s.senders :: !SenderEv(s.senders[i]).Terminal())
    && (forall i | 0 <= i < |s.queue| :: PlainPacket(s.queue[i]))
    && PlainReadLoop(s.pc.rl)
    && PlainPump(s.pc.pp, s.pc.rt)
  }

  predicate NoExit(es: seq<Event>) {
    forall i | 0 <= i < |es| :: !es[i].CLIExitEvent?
  }

  /** The exit event is the last thing ever delivered. */
  ghost predicate ExitLast(s: St) {
    if ExitIsOver(s.pc.rl) then |s.log| > 0 ==> NoExit(s.log[..|s.log| - 1])
    else NoExit(s.log) && NoExit(s.legacy.buf) && (s.pc.pp.FlushHolding? ==> !s.pc.pp.ev.CLIExitEvent?)
  }

  lemma ClientPlain(s: St, a: ClientAction)
    requires PlainEvents(s) && ClientEnabled(s, a)
    ensures PlainEvents(ClientStep(s, a))
  {
  }

  lemma ReadPlain(s: St, a: ReadAction)
    requires PlainEvents(s) && ReadEnabled(s, a)
    ensures PlainEvents(ReadStep(s, a))
  {
  }

  lemma ExitPlain(s: St, a: ExitAction)
    requires PlainEvents(s) && ExitEnabled(s, a) && Control(s.pc, s.mail.router.shutdown)
    ensures PlainEvents(ExitStep(s, a))
  {
  }

  lemma PumpPlain(s: St, a: PumpAction)
    requires PlainEvents(s) && PumpEnabled(s, a) && Control(s.pc, s.mail.router.shutdown)
    ensures PlainEvents(PumpStep(s, a))
  {
  }

  lemma RoutePlain(s: St, s': St)
    requires PlainEvents(s) && Control(s.pc, s.mail.router.shutdown) && !s.pc.rt.NoRoute? && RoutesTo(s, s')
    ensures PlainEvents(s')
  {
  }

  lemma ClientExitLast(s: St, a: ClientAction)
    requires ExitLast(s) && ClientEnabled(s, a)
    ensures ExitLast(ClientStep(s, a))
  {
  }

  lemma ExitExitLast(s: St, a: ExitAction)
    requires ExitLast(s) && ExitEnabled(s, a)
    ensures ExitLast(ExitStep(s, a))
  {
  }

  lemma PumpExitLast(s: St, a: PumpAction)
    requires ExitLast(s) && PumpEnabled(s, a) && PlainEvents(s) && Control(s.pc, s.mail.router.shutdown)
    ensures ExitLast(PumpStep(s, a))
  {
  }

  /** What a step of routeStamped delivers. */
  lemma RouteLogs(s: St, a: RouteAction)
    requires RouteEnabled(s, a)
    ensures var s' := RouteStep(s, a);
            && s'.legacy == s.legacy
            && (s'.log == s.log || (s'.log == s.log + [s.pc.rt.item.sev.ev] && s'.pc == RouteReturns(s.pc)))
            && (s'.pc.rl == s.pc.rl || s'.pc == RouteReturns(s.pc))
            && (s'.pc.pp.FlushHolding? ==> s'.pc.pp == s.pc.pp)
  {
  }

  lemma RouteExitLast(s: St, a: RouteAction)
    requires ExitLast(s) && RouteEnabled(s, a) && PlainEvents(s) && Control(s.pc, s.mail.router.shutdown)
    ensures ExitLast(RouteStep(s, a))
  {
    RouteLogs(s, a);
  }

  // ---- s.events and the routing switch ----

  function UnqueuedEvs(us: seq<Unqueued>): (es: seq<Event>)
    ensures |es| == |us|
  {
    seq(|us|, i requires 0 <= i < |us| => us[i].ev)
  }

  function OrphanEvs(log: seq<OrphanEvent>): (es: seq<Event>)
    ensures |es| == |log|
  {
    seq(|log|, i requires 0 <= i < |log| => log[i].ev)
  }

  /** What was sent on s.events was received, in order, or is still in it; what the
      flush received is an orphan, each at its own place. */
  ghost predicate LegacyInv(l: Legacy, orphans: seq<Event>, barrierDone: bool) {
    && l.written == UnqueuedEvs(l.unqueued) + l.buf
    && l.panics == 0
    && (barrierDone ==> l.buf == [])
    && (forall i | 0 <= i < |l.unqueued| && l.unqueued[i].ByFlush? ::
          l.unqueued[i].orphan < |orphans| && orphans[l.unqueued[i].orphan] == l.unqueued[i].ev)
    && (forall i, j | 0 <= i < j < |l.unqueued| && l.unqueued[i].ByFlush? && l.unqueued[j].ByFlush? ::
          l.unqueued[i].orphan < l.unqueued[j].orphan)
  }

  lemma WriteKeeps(l: Legacy, ev: Event, orphans: seq<Event>)
    requires LegacyInv(l, orphans, false)
    ensures LegacyInv(LegacyWrite(l, ev, false), orphans, false)
  {
  }

  lemma ReadKeeps(l: Legacy, to: Unqueued, orphans: seq<Event>, more: seq<Event>, barrierDone: bool)
    requires LegacyInv(l, orphans, barrierDone) && l.buf != [] && to.ev == l.buf[0]
    requires to.ByFlush? ==> to.orphan == |orphans| && more == [to.ev]
    ensures LegacyInv(LegacyRead(l, to), orphans + more, barrierDone)
  {
    var l' := LegacyRead(l, to);
    assert l.buf == [l.buf[0]] + l.buf[1..];
    assert UnqueuedEvs(l'.unqueued) == UnqueuedEvs(l.unqueued) + [l.buf[0]];
  }

  /** What the flush has received and not yet made an orphan. */
  function Held(pp: Pump): seq<Event> {
    if pp.FlushHolding? then [pp.ev] else []
  }

  ghost predicate Switch(s: St) {
    && LegacyInv(s.legacy, OrphanEvs(s.mail.orphanLog) + Held(s.pc.pp), s.pc.barrierDone)
    && (s.pc.barrierDone ==> !s.pc.pp.FlushHolding?)
  }

  lemma MoreOrphans(l: Legacy, orphans: seq<Event>, ev: Event, barrierDone: bool)
    requires LegacyInv(l, orphans, barrierDone)
    ensures LegacyInv(l, orphans + [ev], barrierDone)
  {
  }

  lemma OrphanPush(log: seq<OrphanEvent>, oe: OrphanEvent)
    ensures OrphanEvs(log + [oe]) == OrphanEvs(log) + [oe.ev]
  {
  }

  lemma ClientSwitch(s: St, a: ClientAction)
    requires Switch(s) && ClientEnabled(s, a)
    ensures Switch(ClientStep(s, a))
  {
    if a.ConsumeEvents? {
      var orphans := OrphanEvs(s.mail.orphanLog) + Held(s.pc.pp);
      ReadKeeps(s.legacy, ByConsumer(s.legacy.buf[0]), orphans, [], s.pc.barrierDone);
      assert orphans + [] == orphans;
    }
  }

  lemma ExitSwitch(s: St, a: ExitAction)
    requires Switch(s) && ExitEnabled(s, a) && Control(s.pc, s.mail.router.shutdown)
    ensures Switch(ExitStep(s, a))
  {
    if a.ExitSend? {
      WriteKeeps(s.legacy, CLIExitEvent, OrphanEvs(s.mail.orphanLog) + Held(s.pc.pp));
    }
  }

  lemma PumpSwitch(s: St, a: PumpAction)
    requires Switch(s) && PumpEnabled(s, a) && Control(s.pc, s.mail.router.shutdown)
    ensures Switch(PumpStep(s, a))
  {
    var orphans := OrphanEvs(s.mail.orphanLog);
    match a
    case PumpWrite => WriteKeeps(s.legacy, s.pc.pp.item.sev.ev, orphans + []);
    case FlushTake =>
      assert orphans + [] == orphans;
      var ev := s.legacy.buf[0];
      ReadKeeps(s.legacy, ByFlush(ev, |orphans|), orphans, [ev], s.pc.barrierDone);
    case FlushAdd =>
      OrphanPush(s.mail.orphanLog, OrphanEvent(s.pc.pp.ev, s.now, 0));
      assert orphans + [s.pc.pp.ev] + [] == orphans + [s.pc.pp.ev];
    case _ =>
  }

  /** While routeStamped is at work the flush is not. */
  lemma OneMoreOrphan(s: St, oe: OrphanEvent)
    requires Switch(s) && Held(s.pc.pp) == []
    ensures LegacyInv(s.legacy, OrphanEvs(s.mail.orphanLog + [oe]) + [], s.pc.barrierDone)
  {
    var orphans := OrphanEvs(s.mail.orphanLog);
    assert orphans + [] == orphans && orphans + [oe.ev] + [] == orphans + [oe.ev];
    MoreOrphans(s.legacy, orphans, oe.ev, s.pc.barrierDone);
    OrphanPush(s.mail.orphanLog, oe);
  }

  lemma RouteSwitch(s: St, s': St)
    requires Switch(s) && !s.pc.rt.NoRoute? && RoutesTo(s, s') && Control(s.pc, s.mail.router.shutdown)
    ensures Switch(s')
  {
    var sev := s.pc.rt.item.sev;
    var oe := OrphanEvent(sev.ev, sev.at, sev.gen);
    assert Held(s.pc.pp) == [] && Held(s'.pc.pp) == [];
    assert s'.legacy == s.legacy && s'.pc.barrierDone == s.pc.barrierDone;
    OneMoreOrphan(s, oe);
    assert s'.mail.orphanLog == s.mail.orphanLog || s'.mail.orphanLog == s.mail.orphanLog + [oe];
  }

  // ---- mailboxes ----

  ghost predicate Mailboxes(s: St) {
    MailInv(s.mail) && LockHeld(s.mail.router, s.pc.rt)
  }

  lemma CallerMail(s: St, a: CallerAction)
    requires Mailboxes(s) && Generations(s) && CallerEnabled(s, a)
    ensures Mailboxes(CallerStep(s, a))
  {
    match a
    case ArmRouter(c) => ArmKeeps(s.mail, s.callers[c].gen);
    case DetachFailed(c) => DetachKeeps(s.mail, s.callers[c].gen, Failure("write"));
    case _ =>
  }

  lemma ClientMail(s: St, a: ClientAction)
    requires Mailboxes(s) && ClientEnabled(s, a)
    ensures Mailboxes(ClientStep(s, a))
  {
    match a
    case DetachHandle(g) => DetachKeeps(s.mail, g, QueryDetached);
    case Consume(g) => TakeKeeps(s.mail, g);
    case DrainOrphans => DrainKeeps(s.mail);
    case _ =>
  }

  lemma ReadMail(s: St, a: ReadAction)
    requires Mailboxes(s) && ReadEnabled(s, a)
    ensures Mailboxes(ReadStep(s, a))
  {
  }

  lemma ExitMail(s: St, a: ExitAction)
    requires Mailboxes(s) && ExitEnabled(s, a)
    ensures Mailboxes(ExitStep(s, a))
  {
    if a.ShutRouter? {
      ShutdownKeeps(s.mail, SessionEnded);
    }
  }

  lemma PumpMail(s: St, a: PumpAction)
    requires Mailboxes(s) && PumpEnabled(s, a) && Control(s.pc, s.mail.router.shutdown)
    ensures Mailboxes(PumpStep(s, a))
  {
    if a.FlushAdd? {
      OrphanKeeps(s.mail, OrphanEvent(s.pc.pp.ev, s.now, 0));
    }
  }

  lemma RouteMail(s: St, s': St)
    requires MailInv(s.mail) && !s.pc.rt.NoRoute? && RoutesTo(s, s')
    ensures MailInv(s'.mail)
  {
    var x := s.pc.rt.item;
    if s'.pc.rt.NoRoute? {
      match s'.fates[|s.fates|].end
      case ToMailbox => BufferKeeps(s.mail, x);
      case ToOrphans => OrphanKeeps(s.mail, OrphanEvent(x.sev.ev, x.sev.at, x.sev.gen));
      case _ =>
    } else if s'.mail != s.mail {
      DropKeeps(s.mail, x.sev.gen);
    }
  }

  lemma EnterLock(s: St)
    requires RouteEnabled(s, RouteEnter)
    ensures LockHeld(RouteStep(s, RouteEnter).mail.router, RouteStep(s, RouteEnter).pc.rt)
  {
    if RouteStep(s, RouteEnter).pc.rt.NoRoute? {
    } else {
      assert RouteStep(s, RouteEnter) == s.(pc := s.pc.(rt := Full(s.pc.rt.item)));
    }
  }

  /** The second send finds room, so one event is dropped at most. */
  lemma RetryReturns(s: St)
    requires LockHeld(s.mail.router, s.pc.rt) && RouteEnabled(s, RouteRetry)
    ensures RouteStep(s, RouteRetry) == RouteToBox(s, s.pc.rt.item) && RouteStep(s, RouteRetry).pc.rt.NoRoute?
  {
  }

  lemma DropLock(s: St)
    requires LockHeld(s.mail.router, s.pc.rt) && RouteEnabled(s, RouteDrop)
    requires |s.mail.router.handles[s.pc.rt.item.sev.gen].buf| <= MAILBOX_CAP
    ensures LockHeld(RouteStep(s, RouteDrop).mail.router, RouteStep(s, RouteDrop).pc.rt)
  {
  }

  // ---- every reachable state ----

  ghost predicate Terms(s: St) {
    forall g :: TermInv(s, g)
  }

  /** The part of the invariant in which time plays no role. */
  ghost predicate Timeless(s: St) {
    && Mailboxes(s)
    && Control(s.pc, s.mail.router.shutdown)
    && PlainEvents(s)
    && ExitLast(s)
    && Switch(s)
    && Terms(s)
  }

  ghost predicate Inv(s: St) {
    Timeless(s) && Generations(s) && Stamps(s)
  }

  lemma TimePasses(s: St)
    requires Timeless(s)
    ensures Timeless(Tick(s))
  {
    forall g ensures TermInv(Tick(s), g) {
      assert TermInv(s, g);
    }
  }

  lemma InitMail()
    ensures MailInv(INIT.mail)
  {
  }

  lemma InitInv()
    ensures Inv(INIT)
  {
    InitMail();
    forall g ensures TermInv(INIT, g) {
    }
  }

  lemma CallerRest(s: St, a: CallerAction)
    requires PlainEvents(s) && ExitLast(s) && Switch(s) && CallerEnabled(s, a)
    ensures var s' := CallerStep(s, a); PlainEvents(s') && ExitLast(s') && Switch(s')
  {
  }

  lemma ReadRest(s: St, a: ReadAction)
    requires ExitLast(s) && Switch(s) && ReadEnabled(s, a)
    ensures var s' := ReadStep(s, a); ExitLast(s') && Switch(s')
  {
  }

  lemma CallerInv(s: St, a: CallerAction)
    requires Inv(s) && CallerEnabled(s, a)
    ensures Inv(Tick(CallerStep(s, a)))
  {
    var s' := CallerStep(s, a);
    CallerMail(s, a);
    CallerControl(s, a);
    CallerGenerations(s, a);
    CallerStamps(s, a);
    CallerRest(s, a);
    forall g ensures TermInv(s', g) {
      CallerTerms(s, a, g);
    }
    TimePasses(s');
  }

  lemma ClientInv(s: St, a: ClientAction)
    requires Inv(s) && ClientEnabled(s, a)
    ensures Inv(Tick(ClientStep(s, a)))
  {
    var s' := ClientStep(s, a);
    ClientMail(s, a);
    ClientControl(s, a);
    ClientGenerations(s, a);
    ClientStamps(s, a);
    ClientPlain(s, a);
    ClientExitLast(s, a);
    ClientSwitch(s, a);
    forall g ensures TermInv(s', g) {
      ClientTerms(s, a, g);
    }
    TimePasses(s');
  }

  lemma ReadInv(s: St, a: ReadAction)
    requires Inv(s) && ReadEnabled(s, a)
    ensures Inv(Tick(ReadStep(s, a)))
  {
    var s' := ReadStep(s, a);
    ReadMail(s, a);
    ReadControl(s, a);
    ReadGenerations(s, a);
    ReadStamps(s, a);
    ReadPlain(s, a);
    ReadRest(s, a);
    forall g ensures TermInv(s', g) {
      ReadTerms(s, a, g);
    }
    TimePasses(s');
  }

  lemma ExitInv(s: St, a: ExitAction)
    requires Inv(s) && ExitEnabled(s, a)
    ensures Inv(Tick(ExitStep(s, a)))
  {
    var s' := ExitStep(s, a);
    ExitMail(s, a);
    ExitControl(s, a);
    ExitGenerations(s, a);
    ExitStamps(s, a);
    ExitPlain(s, a);
    ExitExitLast(s, a);
    ExitSwitch(s, a);
    forall g ensures TermInv(s', g) {
      ExitTerms(s, a, g);
    }
    TimePasses(s');
  }

  lemma PumpInv(s: St, a: PumpAction)
    requires Inv(s) && PumpEnabled(s, a)
    ensures Inv(Tick(PumpStep(s, a)))
  {
    var s' := PumpStep(s, a);
    PumpMail(s, a);
    PumpControl(s, a);
    PumpGenerations(s, a);
    PumpStamps(s, a);
    PumpPlain(s, a);
    PumpExitLast(s, a);
    PumpSwitch(s, a);
    forall g ensures TermInv(s', g) {
      PumpTerms(s, a, g);
    }
    TimePasses(s');
  }

  lemma RouteInv(s: St, a: RouteAction)
    requires Inv(s) && RouteEnabled(s, a)
    ensures Inv(Tick(RouteStep(s, a)))
  {
    var s' := RouteStep(s, a);
    RouteEffect(s, a);
    RouteMail(s, s');
    match a {
      case RouteEnter => EnterLock(s);
      case RouteDrop => DropLock(s);
      case RouteRetry => RetryReturns(s);
    }
    RouteControl(s, s');
    RouteGenerations(s, s');
    RouteStamps(s, s');
    RoutePlain(s, s');
    RouteExitLast(s, a);
    RouteSwitch(s, s');
    forall g ensures TermInv(s', g) {
      RouteTerms(s, s', g);
    }
    TimePasses(s');
  }

  lemma StepInv(s: St, a: Action)
    requires Inv(s) && Enabled(s, a)
    ensures Inv(Step(s, a))
  {
    match a
    case ByCaller(x) => CallerInv(s, x);
    case ByClient(x) => ClientInv(s, x);
    case ByReadLoop(x) => ReadInv(s, x);
    case ByExit(x) => ExitInv(s, x);
    case ByPump(x) => PumpInv(s, x);
    case ByRouter(x) => RouteInv(s, x);
  }

  lemma NextInv(s: St, s': St)
    requires Inv(s) && Next(s, s')
    ensures Inv(s')
  {
    var a :| Enabled(s, a) && s' == Step(s, a);
    StepInv(s, a);
  }

  /** The invariant holds in every state of every run. */
  lemma {:induction false} Reachable(run: seq<St>, n: nat)
    requires IsRun(run) && n < |run|
    ensures Inv(run[n])
  {
    if n == 0 {
      InitInv();
    } else {
      Reachable(run, n - 1);
      assert Follows(run, n);
      NextInv(run[n - 1], run[n]);
    }
  }
}
