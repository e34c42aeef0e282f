/** The session end to end: the callers, the CLI and the read loop of Turns drive the routed session
    of Protocol, so that what arrives in a query's mailbox can be told from the CLI's turns. Callers
    use QueryCtx only, and no fatal error arrives. */
module EndToEnd {
  import opened Events
  import SessionModel
  import Turns
  import RightAnswer
  import Protocol
  import ProtocolSafety
  import opened ProtocolOrigins
  import ProtocolFates
  import ProtocolTheorems

  datatype Joint = Joint(y: Turns.Sys, s: Protocol.St)

  datatype Move =
    | Together(call: Turns.Action, step: Protocol.Action)
    | OnlyTurns(call: Turns.Action)
    | OnlyRouting(step: Protocol.Action)

  /** The same step of the code, in both models. */
  predicate SameStep(y: Turns.Sys, a: Turns.Action, b: Protocol.Action) {
    match a
    case ByCaller(x) => b.ByCaller? && SameCall(y, x, b.caller)
    case ByReadLoop(x) => b.ByReadLoop? && SameRead(y, x, b.read)
    case ByCli(_) => false
  }

  predicate SameCall(y: Turns.Sys, a: Turns.CallerAction, b: Protocol.CallerAction) {
    match a
    case Begin(query, routed, _) => query && routed && b == Protocol.PrepareQuery(y.nextId)
    case ArmGen(id) => b == Protocol.StoreGen(id)
    case WriteMsg(id) => b == Protocol.WriteOk(id)
    case ClearGen(id) => b == Protocol.WriteFails(id)
    case FailCall(id) => b == Protocol.MarkFailed(id)
    case _ => false
  }

  predicate SameRead(y: Turns.Sys, a: Turns.ReadAction, b: Protocol.ReadAction) {
    match a
    case ReadLine => y.lines != [] && y.lines[0].ResultLine? && b == Protocol.Arrive(ResultEvent(y.lines[0].result))
    case Decide => y.rl.Ended? && y.rl.line.ResultLine? && SessionModel.Holds(y.s, y.rl.line.result.origin) && b.Hold?
    case EmitHeld => b.Track?
    case LoadGen => b.LoadGen?
    case StoreZero => b.ClearGen?
    case TrackOwn => b.Track?
  }

  /** Steps that routing does not see: the CLI's, counting, and what is read besides results. */
  predicate TurnsAlone(j: Joint, a: Turns.Action) {
    match a
    case ByCaller(x) => x.CountMsg? || x.LoseMsg? || x.UncountMsg?
    case ByCli(_) => true
    case ByReadLoop(x) =>
      || (x.ReadLine? && j.s.pc.rl.Reading? && j.y.lines != [] && !j.y.lines[0].ResultLine?)
      || (x.Decide? && j.y.rl.Ended? && j.y.rl.line.ResultLine?
          && !SessionModel.Holds(j.y.s, j.y.rl.line.result.origin))
  }

  /** Steps that Turns has not: those of the router, of events that are no results, and of calls
      that go on after the stream's end. */
  predicate RoutingAlone(j: Joint, b: Protocol.Action) {
    match b
    case ByCaller(x) => x.AllocGen? || x.ArmRouter? || x.DetachFailed? || Protocol.PumpClosed(j.s.pc.rl)
    case ByReadLoop(x) => ProtocolSafety.Pushes(x) || (j.y.rl.Reading? && (x.Arrive? ==> !x.ev.Terminal()))
    case _ => true
  }

  predicate Enabled(j: Joint, a: Move) {
    match a
    case Together(x, z) => Turns.Enabled(j.y, x) && Protocol.Enabled(j.s, z) && SameStep(j.y, x, z)
    case OnlyTurns(x) => Turns.Enabled(j.y, x) && TurnsAlone(j, x)
    case OnlyRouting(z) => Protocol.Enabled(j.s, z) && RoutingAlone(j, z)
  }

  function Step(j: Joint, a: Move): Joint
    requires Enabled(j, a)
  {
    match a
    case Together(x, z) => Joint(Turns.Step(j.y, x), Protocol.Step(j.s, z))
    case OnlyTurns(x) => j.(y := Turns.Step(j.y, x))
    case OnlyRouting(z) => j.(s := Protocol.Step(j.s, z))
  }

  ghost predicate Next(j: Joint, j': Joint) {
    exists a :: Enabled(j, a) && j' == Step(j, a)
  }

  ghost predicate Follows(run: seq<Joint>, i: nat)
    requires 0 < i < |run|
  {
    Next(run[i - 1], run[i])
  }

  ghost predicate IsRun(run: seq<Joint>) {
    && run != [] && run[0] == Joint(Turns.START, Protocol.INIT)
    && forall i | 0 < i < |run| :: Follows(run, i)
  }

  // ---- both sides of a run are runs of their own ----

  lemma RoutingMove(j: Joint, j': Joint) returns (stays: bool, a: Protocol.Action)
    requires Next(j, j')
    ensures if stays then j'.s == j.s else Protocol.Enabled(j.s, a) && j'.s == Protocol.Step(j.s, a)
  {
    var b :| Enabled(j, b) && j' == Step(j, b);
    stays := b.OnlyTurns?;
    a := if stays then Protocol.ByClient(Protocol.Cancel) else b.step;
  }

  lemma RoutingMore(r: seq<Protocol.St>, j: Joint, j': Joint) returns (r': seq<Protocol.St>)
    requires Protocol.IsRun(r) && ProtocolTheorems.Last(r) == j.s && Next(j, j')
    ensures Protocol.IsRun(r') && ProtocolTheorems.Last(r') == j'.s
  {
    r' := r;
    var stays, a := RoutingMove(j, j');
    if !stays {
      r' := ProtocolTheorems.Extend(r, a);
    }
  }

  lemma {:induction false} RoutingRun(run: seq<Joint>, n: nat) returns (r: seq<Protocol.St>)
    requires IsRun(run) && n < |run|
    ensures Protocol.IsRun(r) && ProtocolTheorems.Last(r) == run[n].s
  {
    if n == 0 {
      r := [Protocol.INIT];
    } else {
      var before := RoutingRun(run, n - 1);
      assert Follows(run, n);
      r := RoutingMore(before, run[n - 1], run[n]);
    }
  }

  lemma TurnsMove(j: Joint, j': Joint) returns (stays: bool, a: Turns.Action)
    requires Next(j, j')
    ensures if stays then j'.y == j.y
            else Turns.Enabled(j.y, a) && j'.y == Turns.Step(j.y, a) && RightAnswer.QueryOnly(a)
  {
    var b :| Enabled(j, b) && j' == Step(j, b);
    stays := b.OnlyRouting?;
    a := if stays then Turns.ByReadLoop(Turns.ReadLine) else b.call;
  }

  /** A run of Turns, with callers that only query, that ends in y. */
  ghost predicate LeadsTo(r: seq<Turns.Sys>, actions: seq<Turns.Action>, y: Turns.Sys) {
    Turns.IsRun(r, actions) && RightAnswer.QueriesOnly(actions) && r[|r| - 1] == y
  }

  lemma TurnsMore(r: seq<Turns.Sys>, actions: seq<Turns.Action>, j: Joint, j': Joint)
    returns (r': seq<Turns.Sys>, actions': seq<Turns.Action>)
    requires LeadsTo(r, actions, j.y) && Next(j, j')
    ensures LeadsTo(r', actions', j'.y)
  {
    r', actions' := r, actions;
    var stays, a := TurnsMove(j, j');
    if !stays {
      r', actions' := Turns.Extend(r, actions, a);
    }
  }

  lemma {:induction false} TurnsRun(run: seq<Joint>, n: nat) returns (r: seq<Turns.Sys>, actions: seq<Turns.Action>)
    requires IsRun(run) && n < |run|
    ensures LeadsTo(r, actions, run[n].y)
  {
    if n == 0 {
      r, actions := [Turns.START], [];
    } else {
      r, actions := TurnsRun(run, n - 1);
      assert Follows(run, n);
      r, actions := TurnsMore(r, actions, run[n - 1], run[n]);
    }
  }

  // ---- what joins the sides ----

  /** The event that carries a delivered result, under its generation. */
  predicate Bears(x: Protocol.Item, o: Turns.Out) {
    x.sev.ev == ResultEvent(o.result) && x.sev.gen == o.gen
  }

  predicate Answer(x: Protocol.Item) {
    x.sev.ev.ResultEvent? && x.sev.gen != 0
  }

  ghost predicate Borne(x: Protocol.Item, outs: seq<Turns.Out>) {
    Answer(x) ==> exists k :: 0 <= k < |outs| && Bears(x, outs[k])
  }

  ghost predicate AllBorne(sent: seq<Protocol.Packet>, outs: seq<Turns.Out>) {
    forall i | 0 <= i < |sent| :: PacketBorne(sent[i], outs)
  }

  ghost predicate PacketBorne(p: Protocol.Packet, outs: seq<Turns.Out>) {
    match p
    case Packed(x) => Borne(x, outs)
    case Raw(ev) => !ev.Terminal()
  }

  /** The read loop of both sides is in one place. */
  ghost predicate SamePlace(y: Turns.Sys, rl: Protocol.ReadLoop) {
    match y.rl
    case Reading =>
      && (rl.Got? ==> !rl.ev.Terminal())
      && (rl.Loaded? || rl.Stamping? ==> !rl.item.sev.ev.Terminal())
      && (rl.Tracked? ==> Borne(rl.item, y.outs))
    case Ended(line) => line.ResultLine? && rl.Got? && rl.ev == ResultEvent(line.result)
    case Own(line) => line.ResultLine? && rl.Got? && rl.ev == ResultEvent(line.result)
    case Held(_) => rl.Stamping? && !rl.own && rl.item.sev.gen == 0
    case Loaded(line, gen) =>
      line.ResultLine? && rl.Loaded? && rl.item.sev.ev == ResultEvent(line.result) && rl.item.sev.gen == gen
    case Cleared(line, gen) =>
      line.ResultLine? && rl.Stamping? && rl.own && rl.item.sev.ev == ResultEvent(line.result) && rl.item.sev.gen == gen
  }

  /** The generations are the queries' numbers. */
  ghost predicate SameIds(j: Joint) {
    && j.y.s.activeGen == j.s.gens.activeGen
    && (j.y.query.Some? ==> 0 < j.y.query.value == j.y.nextId - 1 && j.y.routed) && j.y.nextId > 0
    && (forall c | c in j.s.callers ::
          if j.s.callers[c].Prepared? then c in j.y.calls && c + 1 == j.y.nextId && j.s.gens.genCounter + 1 == c
          else c < j.y.nextId && j.s.callers[c].gen == c)
    && ((forall c | c in j.s.callers :: !j.s.callers[c].Prepared?) ==> j.s.gens.genCounter + 1 == j.y.nextId)
  }

  /** Each call is as far on both sides. */
  ghost predicate SamePhases(y: Turns.Sys, callers: map<nat, Protocol.Caller>) {
    && (forall c | c in callers && !callers[c].Closing? :: c in y.calls && SamePhase(y.calls[c].phase, callers[c]))
    && (forall c | c in y.calls :: c in callers && !callers[c].Closing?)
  }

  predicate SamePhase(p: Turns.Phase, c: Protocol.Caller) {
    match c
    case Submitting(_) => p.Stored? || p.Counted? || p.Lost? || p.Clearing?
    case Failing(_) => p.Failing?
    case Closing(_) => false
    case _ => p.Begun?
  }

  /** Where the event of a delivered result is. */
  ghost predicate Placed(s: Protocol.St, o: Turns.Out) {
    || (s.pc.rl.Tracked? && Bears(s.pc.rl.item, o))
    || InSent(Sent(s), o)
    || InFates(s.fates, o)
  }

  ghost predicate InSent(sent: seq<Protocol.Packet>, o: Turns.Out) {
    exists i :: 0 <= i < |sent| && sent[i].Packed? && Bears(sent[i].item, o)
  }

  ghost predicate InFates(fates: seq<Protocol.Fate>, o: Turns.Out) {
    exists i :: 0 <= i < |fates| && Bears(fates[i].item, o)
  }

  ghost predicate AllPlaced(j: Joint) {
    forall k | 0 <= k < |j.y.outs| && j.y.outs[k].gen != 0 :: Placed(j.s, j.y.outs[k])
  }

  ghost predicate AllRouted(outs: seq<Turns.Out>) {
    forall k | 0 <= k < |outs| && outs[k].ended.Some? :: outs[k].routed && outs[k].ended.value > 0
  }

  /** Up to the stream's end the generations, the calls and the lifecycle agree. */
  ghost predicate InStep(j: Joint) {
    SameIds(j) && SamePhases(j.y, j.s.callers) && j.y.s.state == j.s.life
  }

  ghost predicate Joined(j: Joint) {
    && SamePlace(j.y, j.s.pc.rl)
    && AllBorne(Sent(j.s), j.y.outs)
    && AllPlaced(j)
    && AllRouted(j.y.outs)
    && (!Protocol.PumpClosed(j.s.pc.rl) ==> InStep(j))
  }

  // ---- what a step adds ----

  lemma BorneMore(sent: seq<Protocol.Packet>, outs: seq<Turns.Out>, outs': seq<Turns.Out>)
    requires AllBorne(sent, outs) && outs <= outs'
    ensures AllBorne(sent, outs')
  {
    forall i | 0 <= i < |sent| ensures PacketBorne(sent[i], outs') {
      assert PacketBorne(sent[i], outs);
      if sent[i].Packed? {
        BorneStays(sent[i].item, outs, outs');
      }
    }
  }

  lemma BorneStays(x: Protocol.Item, outs: seq<Turns.Out>, outs': seq<Turns.Out>)
    requires Borne(x, outs) && outs <= outs'
    ensures Borne(x, outs')
  {
    if Answer(x) {
      var k :| 0 <= k < |outs| && Bears(x, outs[k]);
      assert Bears(x, outs'[k]);
    }
  }

  lemma SendsBorne(s: Protocol.St, s': Protocol.St, outs: seq<Turns.Out>)
    requires Sends(s, s') && ProtocolSafety.PlainEvents(s)
    requires AllBorne(Sent(s), outs) && (s.pc.rl.Tracked? ==> Borne(s.pc.rl.item, outs))
    ensures AllBorne(Sent(s'), outs)
  {
    if Sent(s') != Sent(s) {
      var p :| Sent(s') == Sent(s) + [p] && MaySend(s, p);
      SentIsPlain(s, p, outs);
    }
  }

  lemma SentIsPlain(s: Protocol.St, p: Protocol.Packet, outs: seq<Turns.Out>)
    requires MaySend(s, p) && ProtocolSafety.PlainEvents(s) && (s.pc.rl.Tracked? ==> Borne(s.pc.rl.item, outs))
    ensures PacketBorne(p, outs)
  {
    if p.Packed? && IsSenders(s, p.item) {
      var i :| i in s.senders && s.senders[i] == Protocol.Sending(p.item);
      assert !ProtocolSafety.SenderEv(s.senders[i]).Terminal();
    }
  }

  /** What has been placed stays so: a tracked event is sent, or abandoned. */
  ghost predicate Hands(s: Protocol.St, s': Protocol.St) {
    && Sent(s) <= Sent(s') && s.fates <= s'.fates
    && (s.pc.rl.Tracked? && s.pc.rl != s'.pc.rl ==>
          || (|Sent(s')| > |Sent(s)| && Sent(s')[|Sent(s)|] == Protocol.Packed(s.pc.rl.item))
          || (|s'.fates| > |s.fates| && s'.fates[|s.fates|].item == s.pc.rl.item))
  }

  lemma PlacedStays(s: Protocol.St, s': Protocol.St, o: Turns.Out)
    requires Placed(s, o) && Hands(s, s')
    ensures Placed(s', o)
  {
    if InSent(Sent(s), o) {
      var i :| 0 <= i < |Sent(s)| && Sent(s)[i].Packed? && Bears(Sent(s)[i].item, o);
      assert Sent(s')[i] == Sent(s)[i];
    } else if InFates(s.fates, o) {
      var i :| 0 <= i < |s.fates| && Bears(s.fates[i].item, o);
      assert s'.fates[i] == s.fates[i];
    }
  }

  lemma ReadHands(s: Protocol.St, a: Protocol.ReadAction)
    requires Protocol.ReadEnabled(s, a)
    ensures Hands(s, Protocol.ReadStep(s, a))
  {
  }

  lemma ExitHands(s: Protocol.St, a: Protocol.ExitAction)
    requires Protocol.ExitEnabled(s, a)
    ensures Hands(s, Protocol.ExitStep(s, a))
  {
  }

  lemma PumpHands(s: Protocol.St, a: Protocol.PumpAction)
    requires Protocol.PumpEnabled(s, a)
    ensures Hands(s, Protocol.PumpStep(s, a))
  {
    PumpSends(s, a);
  }

  lemma ClientHands(s: Protocol.St, a: Protocol.ClientAction)
    requires Protocol.ClientEnabled(s, a)
    ensures Hands(s, Protocol.ClientStep(s, a))
  {
  }

  lemma RouteHands(s: Protocol.St, a: Protocol.RouteAction)
    requires Protocol.RouteEnabled(s, a)
    ensures Hands(s, Protocol.RouteStep(s, a))
  {
  }

  lemma StepHands(s: Protocol.St, a: Protocol.Action)
    requires Protocol.Enabled(s, a)
    ensures Hands(s, Protocol.Act(s, a))
  {
    match a
    case ByCaller(x) => assert Protocol.CallerStep(s, x).pc == s.pc;
    case ByClient(x) => ClientHands(s, x);
    case ByReadLoop(x) => ReadHands(s, x);
    case ByExit(x) => ExitHands(s, x);
    case ByPump(x) => PumpHands(s, x);
    case ByRouter(x) => RouteHands(s, x);
  }

  // ---- the sides stay in step ----

  /** What RightAnswer keeps of the calls and the read loop. */
  ghost predicate Usual(y: Turns.Sys) {
    && y.s.state in {Ready, Running, Failed}
    && (y.s.state != Running ==> y.calls == map[])
    && (y.rl.Reading? || y.rl.line.ResultLine?)
    && forall id | id in y.calls :: y.query == Some(id) && y.calls[id].query && y.calls[id].routed == y.routed
  }

  /** What ProtocolSafety keeps of the events and the router's end. */
  ghost predicate Safe(s: Protocol.St) {
    ProtocolSafety.PlainEvents(s) && (s.mail.router.shutdown ==> Protocol.PumpClosed(s.pc.rl))
  }

  lemma IsSafe(s: Protocol.St)
    requires ProtocolSafety.Inv(s)
    ensures Safe(s)
  {
  }

  lemma IsUsual(y: Turns.Sys, m: RightAnswer.Mode)
    requires RightAnswer.Inv(y, m)
    ensures Usual(y)
  {
  }

  lemma CallInStep(j: Joint, x: Turns.CallerAction, z: Protocol.CallerAction)
    requires Usual(j.y) && InStep(j)
    requires Turns.CallerEnabled(j.y, x) && Protocol.CallerEnabled(j.s, z) && SameCall(j.y, x, z)
    ensures InStep(Joint(Turns.CallerStep(j.y, x), Protocol.CallerStep(j.s, z)))
  {
  }

  lemma ReadInStep(j: Joint, x: Turns.ReadAction, z: Protocol.ReadAction)
    requires Usual(j.y) && InStep(j) && SamePlace(j.y, j.s.pc.rl)
    requires Turns.ReadEnabled(j.y, x) && Protocol.ReadEnabled(j.s, z) && SameRead(j.y, x, z)
    ensures InStep(Joint(Turns.ReadStep(j.y, x), Protocol.ReadStep(j.s, z)))
  {
  }

  lemma LineInStep(j: Joint)
    requires Usual(j.y) && InStep(j) && Turns.ReadEnabled(j.y, Turns.ReadLine)
    ensures InStep(j.(y := Turns.ReadOne(j.y)))
  {
  }

  lemma TurnsInStep(j: Joint, x: Turns.Action)
    requires Usual(j.y) && InStep(j) && Turns.Enabled(j.y, x) && TurnsAlone(j, x)
    ensures InStep(j.(y := Turns.Step(j.y, x)))
  {
    match x
    case ByCaller(a) =>
    case ByCli(a) =>
    case ByReadLoop(a) => if a.ReadLine? { LineInStep(j); }
  }

  lemma CallAloneInStep(j: Joint, z: Protocol.CallerAction)
    requires Usual(j.y) && InStep(j) && Protocol.CallerEnabled(j.s, z)
    requires (z.AllocGen? || z.ArmRouter? || z.DetachFailed?) && !j.s.mail.router.shutdown
    ensures InStep(j.(s := Protocol.CallerStep(j.s, z)))
  {
  }

  lemma ReadAloneInStep(j: Joint, z: Protocol.ReadAction)
    requires Usual(j.y) && InStep(j) && SamePlace(j.y, j.s.pc.rl) && Protocol.ReadEnabled(j.s, z)
    requires RoutingAlone(j, Protocol.ByReadLoop(z))
    ensures InStep(j.(s := Protocol.ReadStep(j.s, z)))
  {
  }

  /** What a step leaves as it is for InStep. */
  predicate LeavesCalls(s: Protocol.St, s': Protocol.St) {
    s'.gens == s.gens && s'.callers == s.callers && s'.life == s.life
  }

  lemma ClientLeaves(s: Protocol.St, a: Protocol.ClientAction)
    requires Protocol.ClientEnabled(s, a)
    ensures LeavesCalls(s, Protocol.ClientStep(s, a)) && Protocol.ClientStep(s, a).pc.rl == s.pc.rl
  {
  }

  lemma PumpLeaves(s: Protocol.St, a: Protocol.PumpAction)
    requires Protocol.PumpEnabled(s, a)
    ensures LeavesCalls(s, Protocol.PumpStep(s, a)) && Protocol.PumpStep(s, a).pc.rl == s.pc.rl
  {
  }

  predicate Returns(rl: Protocol.ReadLoop, rl': Protocol.ReadLoop) {
    rl' == rl || (rl.ExitRouting? && rl'.Delivered?)
  }

  lemma EnterLeaves(s: Protocol.St)
    requires Protocol.RouteEnabled(s, Protocol.RouteEnter)
    ensures var s' := Protocol.RouteStep(s, Protocol.RouteEnter); LeavesCalls(s, s') && Returns(s.pc.rl, s'.pc.rl)
  {
  }

  lemma RouteLeaves(s: Protocol.St, a: Protocol.RouteAction)
    requires Protocol.RouteEnabled(s, a)
    ensures LeavesCalls(s, Protocol.RouteStep(s, a)) && Returns(s.pc.rl, Protocol.RouteStep(s, a).pc.rl)
  {
    if a.RouteEnter? {
      EnterLeaves(s);
    }
  }

  lemma ElsewhereInStep(j: Joint, s': Protocol.St)
    requires InStep(j) && LeavesCalls(j.s, s')
    ensures InStep(j.(s := s'))
  {
  }

  lemma RoutingInStep(j: Joint, z: Protocol.Action)
    requires Usual(j.y) && SamePlace(j.y, j.s.pc.rl) && Protocol.Enabled(j.s, z) && RoutingAlone(j, z)
    requires !Protocol.PumpClosed(j.s.pc.rl) && !j.s.mail.router.shutdown && InStep(j) && !z.ByExit?
    ensures InStep(j.(s := Protocol.Act(j.s, z)))
  {
    match z
    case ByCaller(x) => CallAloneInStep(j, x);
    case ByClient(x) => ClientLeaves(j.s, x);
    case ByReadLoop(x) => ReadAloneInStep(j, x);
    case ByPump(x) => PumpLeaves(j.s, x);
    case ByRouter(x) => RouteLeaves(j.s, x);
  }

  lemma ExitCloses(s: Protocol.St, x: Protocol.ExitAction)
    requires Protocol.ExitEnabled(s, x)
    ensures Protocol.PumpClosed(Protocol.ExitStep(s, x).pc.rl)
  {
  }

  /** Nothing reopens the stream. */
  lemma StaysClosed(s: Protocol.St, z: Protocol.Action)
    requires Protocol.Enabled(s, z) && Protocol.PumpClosed(s.pc.rl)
    ensures Protocol.PumpClosed(Protocol.Act(s, z).pc.rl)
  {
    match z
    case ByCaller(x) => assert Protocol.CallerStep(s, x).pc == s.pc;
    case ByClient(x) => ClientLeaves(s, x);
    case ByReadLoop(x) =>
    case ByExit(x) => ExitCloses(s, x);
    case ByPump(x) => PumpLeaves(s, x);
    case ByRouter(x) => RouteLeaves(s, x);
  }

  // ---- the read loop is in one place ----

  lemma ReadsInPlace(j: Joint, x: Turns.ReadAction, z: Protocol.ReadAction)
    requires Usual(j.y) && SamePlace(j.y, j.s.pc.rl)
    requires Turns.ReadEnabled(j.y, x) && Protocol.ReadEnabled(j.s, z) && SameRead(j.y, x, z)
    requires !Protocol.PumpClosed(j.s.pc.rl) && j.y.s.activeGen == j.s.gens.activeGen
    ensures SamePlace(Turns.ReadStep(j.y, x), Protocol.ReadStep(j.s, z).pc.rl)
  {
    var y', rl' := Turns.ReadStep(j.y, x), Protocol.ReadStep(j.s, z).pc.rl;
    if x.TrackOwn? {
      assert Bears(rl'.item, y'.outs[|j.y.outs|]);
    } else if x.ReadLine? {
      assert y' == Turns.ReadOne(j.y);
    }
  }

  lemma TurnsInPlace(j: Joint, x: Turns.Action)
    requires Usual(j.y) && SamePlace(j.y, j.s.pc.rl) && Turns.Enabled(j.y, x) && TurnsAlone(j, x)
    ensures SamePlace(Turns.Step(j.y, x), j.s.pc.rl) && Turns.Step(j.y, x).outs == j.y.outs
  {
    match x
    case ByCaller(a) => assert Turns.CallerStep(j.y, a).rl == j.y.rl;
    case ByCli(a) =>
    case ByReadLoop(a) => if a.ReadLine? { assert Turns.ReadStep(j.y, a) == Turns.ReadOne(j.y); }
  }

  lemma ReadAloneInPlace(j: Joint, z: Protocol.ReadAction)
    requires SamePlace(j.y, j.s.pc.rl) && Protocol.ReadEnabled(j.s, z) && RoutingAlone(j, Protocol.ByReadLoop(z))
    ensures SamePlace(j.y, Protocol.ReadStep(j.s, z).pc.rl)
  {
  }

  lemma ExitInPlace(j: Joint, z: Protocol.ExitAction)
    requires SamePlace(j.y, j.s.pc.rl) && Protocol.ExitEnabled(j.s, z)
    ensures SamePlace(j.y, Protocol.ExitStep(j.s, z).pc.rl)
  {
  }

  lemma RoutingInPlace(j: Joint, z: Protocol.Action)
    requires SamePlace(j.y, j.s.pc.rl) && Protocol.Enabled(j.s, z) && RoutingAlone(j, z)
    ensures SamePlace(j.y, Protocol.Act(j.s, z).pc.rl)
  {
    match z
    case ByCaller(x) => assert Protocol.CallerStep(j.s, x).pc == j.s.pc;
    case ByClient(x) => ClientLeaves(j.s, x);
    case ByReadLoop(x) => ReadAloneInPlace(j, x);
    case ByExit(x) => ExitInPlace(j, x);
    case ByPump(x) => PumpLeaves(j.s, x);
    case ByRouter(x) => RouteLeaves(j.s, x);
  }

  // ---- every reachable state ----

  lemma TrackedIsBorne(y: Turns.Sys, rl: Protocol.ReadLoop)
    requires SamePlace(y, rl) && rl.Tracked?
    ensures Borne(rl.item, y.outs)
  {
  }

  lemma AllPlacedStays(j: Joint, s': Protocol.St)
    requires AllPlaced(j) && Hands(j.s, s')
    ensures AllPlaced(j.(s := s'))
  {
    forall k | 0 <= k < |j.y.outs| && j.y.outs[k].gen != 0 ensures Placed(s', j.y.outs[k]) {
      PlacedStays(j.s, s', j.y.outs[k]);
    }
  }

  lemma RoutingJoined(j: Joint, z: Protocol.Action)
    requires Usual(j.y) && Safe(j.s) && Joined(j)
    requires Protocol.Enabled(j.s, z) && RoutingAlone(j, z)
    ensures Joined(j.(s := Protocol.Act(j.s, z)))
  {
    var s' := Protocol.Act(j.s, z);
    RoutingInPlace(j, z);
    SentJoined(j, z);
    if Protocol.PumpClosed(j.s.pc.rl) {
      StaysClosed(j.s, z);
    } else if z.ByExit? {
      ExitCloses(j.s, z.exit);
    } else {
      RoutingInStep(j, z);
    }
  }

  lemma SentJoined(j: Joint, z: Protocol.Action)
    requires ProtocolSafety.PlainEvents(j.s) && Protocol.Enabled(j.s, z)
    requires SamePlace(j.y, j.s.pc.rl) && AllBorne(Sent(j.s), j.y.outs) && AllPlaced(j)
    ensures AllBorne(Sent(Protocol.Act(j.s, z)), j.y.outs) && AllPlaced(j.(s := Protocol.Act(j.s, z)))
  {
    var s' := Protocol.Act(j.s, z);
    StepSends(j.s, z);
    StepHands(j.s, z);
    if j.s.pc.rl.Tracked? {
      TrackedIsBorne(j.y, j.s.pc.rl);
    }
    SendsBorne(j.s, s', j.y.outs);
    AllPlacedStays(j, s');
  }

  lemma TurnsJoined(j: Joint, x: Turns.Action)
    requires Usual(j.y) && Joined(j) && Turns.Enabled(j.y, x) && TurnsAlone(j, x)
    ensures Joined(j.(y := Turns.Step(j.y, x)))
  {
    TurnsInPlace(j, x);
    assert AllPlaced(j.(y := Turns.Step(j.y, x)));
    if !Protocol.PumpClosed(j.s.pc.rl) {
      TurnsInStep(j, x);
    }
  }

  lemma CallJoined(j: Joint, x: Turns.CallerAction, z: Protocol.CallerAction)
    requires Usual(j.y) && Joined(j) && Safe(j.s)
    requires Turns.CallerEnabled(j.y, x) && Protocol.CallerEnabled(j.s, z) && SameCall(j.y, x, z)
    ensures Joined(Joint(Turns.CallerStep(j.y, x), Protocol.CallerStep(j.s, z)))
  {
    var y', s' := Turns.CallerStep(j.y, x), Protocol.CallerStep(j.s, z);
    assert y'.outs == j.y.outs && y'.rl == j.y.rl && s'.pc == j.s.pc;
    SentJoined(j, Protocol.ByCaller(z));
    if !Protocol.PumpClosed(j.s.pc.rl) {
      CallInStep(j, x, z);
    }
  }

  /** The result that a step delivers, if any, has been tracked, or was held. */
  lemma Delivers(j: Joint, x: Turns.ReadAction, z: Protocol.ReadAction)
    requires SamePlace(j.y, j.s.pc.rl)
    requires Turns.ReadEnabled(j.y, x) && Protocol.ReadEnabled(j.s, z) && SameRead(j.y, x, z)
    ensures var outs, outs', rl' := j.y.outs, Turns.ReadStep(j.y, x).outs, Protocol.ReadStep(j.s, z).pc.rl;
            && outs <= outs' && |outs'| <= |outs| + 1
            && (|outs'| > |outs| && outs'[|outs|].gen != 0 ==> rl'.Tracked? && Bears(rl'.item, outs'[|outs|]))
  {
    if x.ReadLine? {
      assert Turns.ReadStep(j.y, x) == Turns.ReadOne(j.y);
    }
  }

  lemma ReadJoined(j: Joint, x: Turns.ReadAction, z: Protocol.ReadAction)
    requires Usual(j.y) && Joined(j) && Safe(j.s) && !Protocol.PumpClosed(j.s.pc.rl)
    requires Turns.ReadEnabled(j.y, x) && Protocol.ReadEnabled(j.s, z) && SameRead(j.y, x, z)
    ensures Joined(Joint(Turns.ReadStep(j.y, x), Protocol.ReadStep(j.s, z)))
  {
    var y', s' := Turns.ReadStep(j.y, x), Protocol.ReadStep(j.s, z);
    ReadsInPlace(j, x, z);
    ReadInStep(j, x, z);
    SentJoined(j, Protocol.ByReadLoop(z));
    Delivers(j, x, z);
    BorneMore(Sent(s'), j.y.outs, y'.outs);
    forall k | 0 <= k < |y'.outs| && y'.outs[k].gen != 0 ensures Placed(s', y'.outs[k]) {
      if k < |j.y.outs| {
        assert y'.outs[k] == j.y.outs[k] && Placed(s', j.y.outs[k]);
      }
    }
  }

  lemma TickJoined(j: Joint)
    requires Joined(j)
    ensures Joined(j.(s := Protocol.Tick(j.s)))
  {
    var s' := Protocol.Tick(j.s);
    assert Hands(j.s, s') && Sent(s') == Sent(j.s);
    AllPlacedStays(j, s');
  }

  lemma StepJoined(j: Joint, a: Move)
    requires Usual(j.y) && Safe(j.s) && Joined(j) && Enabled(j, a)
    ensures Joined(Step(j, a))
  {
    match a
    case OnlyTurns(x) => TurnsJoined(j, x);
    case OnlyRouting(z) =>
      RoutingJoined(j, z);
      TickJoined(j.(s := Protocol.Act(j.s, z)));
    case Together(x, z) =>
      if x.ByCaller? {
        CallJoined(j, x.caller, z.caller);
      } else {
        ReadIsOpen(j.s, z.read);
        ReadJoined(j, x.read, z.read);
      }
      TickJoined(Joint(Turns.Step(j.y, x), Protocol.Act(j.s, z)));
  }

  lemma ReadIsOpen(s: Protocol.St, z: Protocol.ReadAction)
    requires Protocol.ReadEnabled(s, z) && !ProtocolSafety.Pushes(z)
    ensures !Protocol.PumpClosed(s.pc.rl)
  {
  }

  /** Each side of a state is a state of its own side's runs. */
  lemma SidesReachable(run: seq<Joint>, n: nat)
    requires IsRun(run) && n < |run|
    ensures Usual(run[n].y) && Safe(run[n].s)
  {
    var ys, actions := TurnsRun(run, n);
    var m := RightAnswer.Reachable(ys, actions, |ys| - 1);
    IsUsual(run[n].y, m);
    var ss := RoutingRun(run, n);
    ProtocolSafety.Reachable(ss, |ss| - 1);
    IsSafe(run[n].s);
  }

  lemma NextJoined(j: Joint, j': Joint)
    requires Usual(j.y) && Safe(j.s) && Joined(j) && Next(j, j')
    ensures Joined(j')
  {
    var a :| Enabled(j, a) && j' == Step(j, a);
    StepJoined(j, a);
  }

  lemma StartJoined()
    ensures Joined(Joint(Turns.START, Protocol.INIT))
  {
  }

  lemma {:induction false} Reachable(run: seq<Joint>, n: nat)
    requires IsRun(run) && n < |run|
    ensures Joined(run[n])
  {
    if n == 0 {
      StartJoined();
    } else {
      Reachable(run, n - 1);
      StaysJoined(run, n);
    }
  }

  lemma StaysJoined(run: seq<Joint>, n: nat)
    requires IsRun(run) && 0 < n < |run| && Joined(run[n - 1])
    ensures Joined(run[n])
  {
    SidesReachable(run, n - 1);
    assert Follows(run, n);
    NextJoined(run[n - 1], run[n]);
  }

  // ---- from the mailbox back to the turn ----

  /** A result that the pump is done with is one that Turns delivered. */
  lemma HandledIsBorne(s: Protocol.St, outs: seq<Turns.Out>, i: nat)
    requires ProtocolFates.PumpAccounts(s) && AllBorne(Sent(s), outs) && i < |s.fates| && s.fates[i].packet
    requires Answer(s.fates[i].item)
    ensures Borne(s.fates[i].item, outs)
  {
    var k := ProtocolFates.FateWasHandled(s.fates, i);
    assert ProtocolFates.Same(s.taken[k], (ProtocolFates.Handled(s.fates) + ProtocolFates.Hand(s.pc))[k]);
    assert PacketBorne(Sent(s)[k], outs);
  }

  lemma RoutedIsBorne(s: Protocol.St, outs: seq<Turns.Out>, g: nat, i: nat)
    requires ProtocolFates.FatesInv(s) && AllBorne(Sent(s), outs)
    requires g in s.mail.routedTo && i < |s.mail.routedTo[g]| && Answer(s.mail.routedTo[g][i])
    ensures Borne(s.mail.routedTo[g][i], outs)
  {
    assert ProtocolFates.BoxOf(s.mail, g) == ProtocolFates.RoutedOf(s.fates, g);
    var k := ProtocolFates.RoutedHasFate(s.fates, g, i);
    assert ProtocolFates.Excused(s, s.fates[k]);
    HandledIsBorne(s, outs, k);
  }

  lemma RoutedInRun(ss: seq<Protocol.St>, outs: seq<Turns.Out>, g: nat, i: nat)
    requires Protocol.IsRun(ss) && AllBorne(Sent(ProtocolTheorems.Last(ss)), outs)
    requires g in ProtocolTheorems.Last(ss).mail.routedTo && i < |ProtocolTheorems.Last(ss).mail.routedTo[g]|
    requires Answer(ProtocolTheorems.Last(ss).mail.routedTo[g][i])
    ensures Borne(ProtocolTheorems.Last(ss).mail.routedTo[g][i], outs)
  {
    ProtocolFates.FatesReachable(ss, |ss| - 1);
    RoutedIsBorne(ProtocolTheorems.Last(ss), outs, g, i);
  }

  lemma HasOwnStamp(ss: seq<Protocol.St>, g: nat, i: nat)
    requires Protocol.IsRun(ss)
    requires g in ProtocolTheorems.Last(ss).mail.routedTo && i < |ProtocolTheorems.Last(ss).mail.routedTo[g]|
    ensures ProtocolTheorems.Last(ss).mail.routedTo[g][i].sev.gen == g && g != 0
  {
    ProtocolTheorems.NoStaleAnswers(ss, |ss| - 1, g, i);
    ProtocolSafety.Reachable(ss, |ss| - 1);
  }

  lemma WhoseResult(run: seq<Joint>, n: nat, g: nat, i: nat) returns (k: nat)
    requires IsRun(run) && n < |run| && g in run[n].s.mail.routedTo && i < |run[n].s.mail.routedTo[g]|
    requires run[n].s.mail.routedTo[g][i].sev.ev.ResultEvent?
    ensures k < |run[n].y.outs| && Bears(run[n].s.mail.routedTo[g][i], run[n].y.outs[k])
    ensures run[n].s.mail.routedTo[g][i].sev.gen == g && g != 0
  {
    var ss := RoutingRun(run, n);
    HasOwnStamp(ss, g, i);
    Reachable(run, n);
    RoutedInRun(ss, run[n].y.outs, g, i);
    k :| 0 <= k < |run[n].y.outs| && Bears(run[n].s.mail.routedTo[g][i], run[n].y.outs[k]);
  }

  lemma IsRight(run: seq<Joint>, n: nat, k: nat)
    requires IsRun(run) && n < |run| && k < |run[n].y.outs|
    ensures RightAnswer.Right(run[n].y.outs[k])
  {
    var ys, actions := TurnsRun(run, n);
    RightAnswer.RightAnswers(ys, actions, |ys| - 1, k);
  }

  lemma OnlyTerminal(run: seq<Joint>, n: nat, g: nat, h: nat, i: nat)
    requires IsRun(run) && n < |run| && g in run[n].s.mail.routedTo
    requires h < |run[n].s.mail.routedTo[g]| && run[n].s.mail.routedTo[g][h].sev.ev.Terminal()
    requires i < |run[n].s.mail.routedTo[g]| && run[n].s.mail.routedTo[g][i].sev.ev.Terminal()
    ensures h == i
  {
    var ss := RoutingRun(run, n);
    ProtocolTheorems.OneAnswerPerQuery(ss, |ss| - 1, g, h, i);
  }

  /** Right answer, end to end. A result in a query's mailbox is that of the turn that consumed the
      query's prompt, and the mailbox gets no other terminal event. */
  lemma AnswersOwnQuery(run: seq<Joint>, n: nat, g: nat, i: nat) returns (k: nat)
    requires IsRun(run) && n < |run| && g in run[n].s.mail.routedTo && i < |run[n].s.mail.routedTo[g]|
    requires run[n].s.mail.routedTo[g][i].sev.ev.ResultEvent?
    ensures k < |run[n].y.outs|
    ensures var o := run[n].y.outs[k];
            && o.result == run[n].s.mail.routedTo[g][i].sev.ev.result
            && o.gen == g && o.ended == Some(g) && o.answers == [g]
    ensures forall h | 0 <= h < |run[n].s.mail.routedTo[g]| && run[n].s.mail.routedTo[g][h].sev.ev.Terminal() :: h == i
  {
    k := WhoseResult(run, n, g, i);
    IsRight(run, n, k);
    forall h | 0 <= h < |run[n].s.mail.routedTo[g]| && run[n].s.mail.routedTo[g][h].sev.ev.Terminal() ensures h == i {
      OnlyTerminal(run, n, g, h, i);
    }
  }

  // ---- from the turn to the mailbox ----

  lemma EndedByFate(fates: seq<Protocol.Fate>, g: nat, i: nat)
    requires i < |fates| && ProtocolSafety.IsTerm(fates[i].item, g)
    ensures ProtocolSafety.TFates(fates, g) > 0
  {
    ProtocolTheorems.FatesOfTerms(fates, g, i, i);
  }

  /** Once the session is over, the event of a delivered result has a fate. */
  lemma PlacedHasFate(s: Protocol.St, o: Turns.Out) returns (i: nat)
    requires ProtocolFates.PumpAccounts(s) && ProtocolFates.Leftovers(s)
    requires ProtocolSafety.Control(s.pc, s.mail.router.shutdown)
    requires Protocol.RouterIsOver(s.pc.rl) && Placed(s, o)
    ensures i < |s.fates| && Bears(s.fates[i].item, o)
  {
    if InFates(s.fates, o) {
      i :| 0 <= i < |s.fates| && Bears(s.fates[i].item, o);
    } else {
      var k :| 0 <= k < |Sent(s)| && Sent(s)[k].Packed? && Bears(Sent(s)[k].item, o);
      assert ProtocolFates.Hand(s.pc) == [];
      assert ProtocolFates.Handled(s.fates) + [] == ProtocolFates.Handled(s.fates);
      assert ProtocolFates.Same(s.taken[k], ProtocolFates.Handled(s.fates)[k]);
      i := ProtocolFates.HandledHasFate(s.fates, k);
    }
  }

  /** No answer is lost, end to end. When the session is over, the result of every turn that ended a
      query has exactly one fate: it was delivered to the query's mailbox, to the orphans or on
      s.events, unless the session was cancelled; and the query has no other terminal event. */
  lemma OwnAnswerArrives(run: seq<Joint>, n: nat, k: nat) returns (i: nat)
    requires IsRun(run) && n < |run| && Protocol.RouterIsOver(run[n].s.pc.rl)
    requires k < |run[n].y.outs| && run[n].y.outs[k].ended.Some?
    ensures i < |run[n].s.fates| && run[n].s.fates[i].item.sev.ev == ResultEvent(run[n].y.outs[k].result)
    ensures run[n].s.fates[i].item.sev.gen == run[n].y.outs[k].ended.value
    ensures forall h | 0 <= h < |run[n].s.fates|
                       && ProtocolSafety.IsTerm(run[n].s.fates[h].item, run[n].y.outs[k].ended.value) :: h == i
    ensures var end := run[n].s.fates[i].end;
            || end in {Protocol.ToMailbox, Protocol.ToOrphans, Protocol.ToEvents}
            || (end == Protocol.Abandoned && run[n].s.pc.ctxDone)
  {
    var j, o := run[n], run[n].y.outs[k];
    IsRight(run, n, k);
    Reachable(run, n);
    var ss := RoutingRun(run, n);
    OverState(ss);
    i := PlacedHasFate(j.s, o);
    EndedByFate(j.s.fates, o.gen, i);
    ProtocolTheorems.OneTerminalPerEnd(ss, |ss| - 1, o.gen);
    var one := ProtocolTheorems.EveryAnswerArrives(ss, |ss| - 1, o.gen);
  }

  lemma OverState(ss: seq<Protocol.St>)
    requires Protocol.IsRun(ss)
    ensures var s := ProtocolTheorems.Last(ss);
            && ProtocolFates.PumpAccounts(s) && ProtocolFates.Leftovers(s)
            && ProtocolSafety.Control(s.pc, s.mail.router.shutdown)
  {
    ProtocolFates.FatesReachable(ss, |ss| - 1);
    ProtocolSafety.Reachable(ss, |ss| - 1);
  }

  // ---- joining the sides forbids nothing ----

  /** The joint model takes this step of Turns, alone or together with the session's. */
  ghost predicate Takes(j: Joint, x: Turns.Action) {
    exists a :: Enabled(j, a) && !a.OnlyRouting? && a.call == x
  }

  /** What a step of Turns waits for: routing, the call's generation and handle, and the events
      before a line. */
  predicate MayWait(s: Protocol.St, x: Turns.Action) {
    match x
    case ByCaller(c) => (c.Begin? && !s.pc.en.On?) || (c.ArmGen? && c.id in s.callers && IsEarly(s.callers[c.id]))
    case ByReadLoop(r) => r.ReadLine? && !s.pc.rl.Reading?
    case ByCli(_) => false
  }

  predicate IsEarly(c: Protocol.Caller) {
    c.Prepared? || c.Allocated?
  }

  lemma LoopGoesOn(j: Joint, x: Turns.ReadAction)
    requires Usual(j.y) && SamePlace(j.y, j.s.pc.rl) && Turns.ReadEnabled(j.y, x)
    ensures Takes(j, Turns.ByReadLoop(x)) || MayWait(j.s, Turns.ByReadLoop(x))
  {
    var z := match x
      case ReadLine => Protocol.Arrive(if j.y.lines[0].ResultLine? then ResultEvent(j.y.lines[0].result) else TurnEvent)
      case Decide => Protocol.Hold
      case LoadGen => Protocol.LoadGen
      case StoreZero => Protocol.ClearGen
      case _ => Protocol.Track;
    if !Enabled(j, OnlyTurns(Turns.ByReadLoop(x))) && !MayWait(j.s, Turns.ByReadLoop(x)) {
      assert Enabled(j, Together(Turns.ByReadLoop(x), Protocol.ByReadLoop(z)));
    }
  }

  lemma CallGoesOn(j: Joint, x: Turns.CallerAction)
    requires InStep(j) && Turns.CallerEnabled(j.y, x) && (x.Begin? ==> x.query && x.routed)
    ensures Takes(j, Turns.ByCaller(x)) || MayWait(j.s, Turns.ByCaller(x))
  {
    var z := match x
      case Begin(_, _, _) => Protocol.PrepareQuery(j.y.nextId)
      case ArmGen(id) => Protocol.StoreGen(id)
      case WriteMsg(id) => Protocol.WriteOk(id)
      case ClearGen(id) => Protocol.WriteFails(id)
      case _ => Protocol.MarkFailed(x.id);
    if !Enabled(j, OnlyTurns(Turns.ByCaller(x))) && !MayWait(j.s, Turns.ByCaller(x)) {
      assert Enabled(j, Together(Turns.ByCaller(x), Protocol.ByCaller(z)));
    }
  }

  /** Until the stream ends, the joint model takes every step of Turns with QueryCtx callers, at the
      latest when the session has gone on by itself. */
  lemma JoiningForbidsNothing(run: seq<Joint>, n: nat, x: Turns.Action)
    requires IsRun(run) && n < |run| && !Protocol.PumpClosed(run[n].s.pc.rl) && Turns.Enabled(run[n].y, x)
    requires x.ByCaller? && x.caller.Begin? ==> x.caller.query && x.caller.routed
    ensures Takes(run[n], x) || MayWait(run[n].s, x)
  {
    Reachable(run, n);
    SidesReachable(run, n);
    match x
    case ByCaller(c) => CallGoesOn(run[n], c);
    case ByReadLoop(r) => LoopGoesOn(run[n], r);
    case ByCli(_) => assert Enabled(run[n], OnlyTurns(x));
  }

  // ---- a query that is answered ----

  function Last(run: seq<Joint>): Joint
    requires run != []
  {
    run[|run| - 1]
  }

  lemma Extend(run: seq<Joint>, a: Move) returns (longer: seq<Joint>)
    requires IsRun(run) && Enabled(Last(run), a)
    ensures IsRun(longer) && Last(longer) == Step(Last(run), a)
  {
    longer := run + [Step(Last(run), a)];
    forall i | 0 < i < |longer| ensures Follows(longer, i) {
      if i < |run| {
        assert Follows(run, i) && longer[i - 1] == run[i - 1] && longer[i] == run[i];
      } else {
        assert Next(longer[i - 1], Step(Last(run), a));
      }
    }
  }

  lemma Routed() returns (run: seq<Joint>)
    ensures IsRun(run) && Last(run).y == Turns.START
    ensures var s := Last(run).s;
            && s.pc == Protocol.INIT.pc.(en := Protocol.On, barrierDone := true)
            && s.life == Ready && s.gens == Protocol.INIT.gens && s.callers == map[] && s.queue == []
            && s.mail == Protocol.INIT.mail
  {
    run := [Joint(Turns.START, Protocol.INIT)];
    run := Extend(run, OnlyRouting(Protocol.ByClient(Protocol.EnableSet)));
    run := Extend(run, OnlyRouting(Protocol.ByClient(Protocol.EnableWake)));
    run := Extend(run, OnlyRouting(Protocol.ByClient(Protocol.EnablePush)));
    run := Extend(run, OnlyRouting(Protocol.ByPump(Protocol.PumpTake)));
    run := Extend(run, OnlyRouting(Protocol.ByPump(Protocol.PumpCheck)));
    run := Extend(run, OnlyRouting(Protocol.ByRouter(Protocol.RouteEnter)));
    run := Extend(run, OnlyRouting(Protocol.ByPump(Protocol.FlushEnd)));
  }

  /** The mailbox of the first query is empty, and its pump idle. */
  predicate Attends(s: Protocol.St) {
    && s.pc.pp.Waiting? && s.pc.rt.NoRoute? && s.pc.en.On? && s.queue == []
    && s.mail.router.active == Some(1) && !s.mail.router.shutdown && Protocol.HasBox(s.mail, 1)
    && s.mail.router.handles[1].buf == [] && !s.mail.router.handles[1].detached && s.mail.routedTo[1] == []
  }

  lemma Began() returns (run: seq<Joint>)
    ensures IsRun(run) && Last(run).y == Turns.CallerStep(Turns.START, Turns.Begin(true, true, true))
    ensures var s := Last(run).s;
            && s.pc == Protocol.INIT.pc.(en := Protocol.On, barrierDone := true)
            && s.gens == Protocol.INIT.gens && s.callers == map[1 := Protocol.Prepared] && s.queue == []
            && s.mail == Protocol.INIT.mail
  {
    run := Routed();
    var begin := Turns.ByCaller(Turns.Begin(true, true, true));
    run := Extend(run, Together(begin, Protocol.ByCaller(Protocol.PrepareQuery(1))));
  }

  lemma Armed() returns (run: seq<Joint>)
    ensures IsRun(run) && Last(run).y == Turns.CallerStep(Turns.START, Turns.Begin(true, true, true))
    ensures Last(run).s.pc.rl.Reading? && Attends(Last(run).s) && Last(run).s.callers == map[1 := Protocol.Armed(1)]
  {
    run := Began();
    run := Extend(run, OnlyRouting(Protocol.ByCaller(Protocol.AllocGen(1))));
    run := Extend(run, OnlyRouting(Protocol.ByCaller(Protocol.ArmRouter(1))));
  }

  predicate GenIsOne(j: Joint) {
    j.s.gens.activeGen == 1 && j.y.s.activeGen == 1
  }

  /** The query's call has stored its generation. */
  predicate Submits(j: Joint, phase: Turns.Phase) {
    && Attends(j.s) && j.s.pc.rl.Reading? && GenIsOne(j)
    && j.y.cli == Turns.START.cli && j.y.lines == [] && j.y.rl.Reading? && j.y.s.state == Running && j.y.outs == []
    && j.y.calls == map[1 := Turns.Call(true, true, true, phase)] && j.s.callers == map[1 := Protocol.Submitting(1)]
  }

  lemma Stored() returns (run: seq<Joint>)
    ensures IsRun(run) && Submits(Last(run), Turns.Stored)
  {
    run := Armed();
    run := Extend(run, Together(Turns.ByCaller(Turns.ArmGen(1)), Protocol.ByCaller(Protocol.StoreGen(1))));
  }

  lemma Counted() returns (run: seq<Joint>)
    ensures IsRun(run) && Submits(Last(run), Turns.Counted)
  {
    run := Stored();
    run := Extend(run, OnlyTurns(Turns.ByCaller(Turns.CountMsg(1))));
  }

  lemma Asked() returns (run: seq<Joint>)
    ensures IsRun(run) && Attends(Last(run).s) && Last(run).s.pc.rl.Reading? && GenIsOne(Last(run))
    ensures Last(run).y.cli == Turns.Cli([Turns.Msg(1, true)], Turns.NoTurn, 0, true) && Last(run).y.lines == []
    ensures Last(run).y.rl.Reading? && Last(run).y.s.state == Running && Last(run).y.outs == []
  {
    run := Counted();
    run := Extend(run, Together(Turns.ByCaller(Turns.WriteMsg(1)), Protocol.ByCaller(Protocol.WriteOk(1))));
  }

  const ANSWER := Result(0, NoOrigin, false, false)

  lemma TurnOver() returns (run: seq<Joint>)
    ensures IsRun(run) && Attends(Last(run).s) && Last(run).s.pc.rl.Reading? && GenIsOne(Last(run))
    ensures Last(run).y.lines == [Turns.InitLine(Some(1)), Turns.EchoLine(1), Turns.ResultLine(ANSWER, [1])]
    ensures Last(run).y.rl.Reading? && Last(run).y.s.state == Running && Last(run).y.outs == []
  {
    run := Asked();
    run := Extend(run, OnlyTurns(Turns.ByCli(Turns.StartCallerTurn)));
    run := Extend(run, OnlyTurns(Turns.ByCli(Turns.EndTurn(false, false))));
  }

  lemma Printed() returns (run: seq<Joint>)
    ensures IsRun(run) && Attends(Last(run).s) && Last(run).s.pc.rl.Reading? && GenIsOne(Last(run))
    ensures Last(run).y.lines == [Turns.ResultLine(ANSWER, [1])]
    ensures Last(run).y.rl.Reading? && Last(run).y.s.state == Running && Last(run).y.outs == []
  {
    run := TurnOver();
    run := Extend(run, OnlyTurns(Turns.ByReadLoop(Turns.ReadLine)));
    run := Extend(run, OnlyTurns(Turns.ByReadLoop(Turns.ReadLine)));
  }

  lemma Decided() returns (run: seq<Joint>)
    ensures IsRun(run) && Attends(Last(run).s) && GenIsOne(Last(run))
    ensures Last(run).s.pc.rl.Got? && Last(run).s.pc.rl.ev == ResultEvent(ANSWER)
    ensures Last(run).y.rl == Turns.Own(Turns.ResultLine(ANSWER, [1]))
  {
    run := Printed();
    var arrive := Protocol.ByReadLoop(Protocol.Arrive(ResultEvent(ANSWER)));
    run := Extend(run, Together(Turns.ByReadLoop(Turns.ReadLine), arrive));
    run := Extend(run, OnlyTurns(Turns.ByReadLoop(Turns.Decide)));
  }

  lemma Loaded() returns (run: seq<Joint>)
    ensures IsRun(run) && Attends(Last(run).s)
    ensures Last(run).s.pc.rl.Loaded? && Last(run).s.pc.rl.item.sev.ev == ResultEvent(ANSWER)
    ensures Last(run).s.pc.rl.item.sev.gen == 1
    ensures Last(run).y.rl == Turns.Loaded(Turns.ResultLine(ANSWER, [1]), 1)
  {
    run := Decided();
    run := Extend(run, Together(Turns.ByReadLoop(Turns.LoadGen), Protocol.ByReadLoop(Protocol.LoadGen)));
  }

  lemma Cleared() returns (run: seq<Joint>)
    ensures IsRun(run) && Attends(Last(run).s) && Last(run).s.pc.rl.Stamping? && Last(run).s.pc.rl.own
    ensures Last(run).s.pc.rl.item.sev.ev == ResultEvent(ANSWER) && Last(run).s.pc.rl.item.sev.gen == 1
    ensures Last(run).y.rl == Turns.Cleared(Turns.ResultLine(ANSWER, [1]), 1)
  {
    run := Loaded();
    run := Extend(run, Together(Turns.ByReadLoop(Turns.StoreZero), Protocol.ByReadLoop(Protocol.ClearGen)));
  }

  lemma Tracked() returns (run: seq<Joint>)
    ensures IsRun(run) && Attends(Last(run).s) && Last(run).s.pc.rl.Tracked?
    ensures Last(run).s.pc.rl.item.sev.ev == ResultEvent(ANSWER) && Last(run).s.pc.rl.item.sev.gen == 1
  {
    run := Cleared();
    run := Extend(run, Together(Turns.ByReadLoop(Turns.TrackOwn), Protocol.ByReadLoop(Protocol.Track)));
  }

  lemma PumpHolds() returns (run: seq<Joint>)
    ensures IsRun(run) && Last(run).s.pc.pp.Holding?
    ensures Attends(Last(run).s.(pc := Last(run).s.pc.(pp := Protocol.Waiting)))
    ensures Last(run).s.pc.pp.item.sev.ev == ResultEvent(ANSWER) && Last(run).s.pc.pp.item.sev.gen == 1
    ensures !Last(run).s.pc.rl.ExitRouting?
  {
    run := Tracked();
    run := Extend(run, OnlyRouting(Protocol.ByReadLoop(Protocol.PushEvent)));
    run := Extend(run, OnlyRouting(Protocol.ByPump(Protocol.PumpTake)));
  }

  /** A run, from a session without routing, in which a query's answer reaches its mailbox. */
  lemma QueryIsAnswered() returns (run: seq<Joint>)
    ensures IsRun(run) && 1 in Last(run).s.mail.routedTo
    ensures |Last(run).s.mail.routedTo[1]| == 1 && Last(run).s.mail.routedTo[1][0].sev.ev == ResultEvent(ANSWER)
  {
    run := PumpHolds();
    run := Extend(run, OnlyRouting(Protocol.ByPump(Protocol.PumpCheck)));
    run := Extend(run, OnlyRouting(Protocol.ByRouter(Protocol.RouteEnter)));
  }
}
