/** A routed session never waits for its consumers: unless it waits for the CLI, it has a step of its own to
    take, and left to itself it takes only so many. */
module ProtocolProgress {
  import opened Events
  import opened RouterModel
  import opened Protocol
  import opened ProtocolMail
  import opened ProtocolSafety

  /** The steps of the read loop on what it has read, of its exit, of the pump and of the router. The
      other steps are the CLI's, the callers', the senders' and the consumers', and the transition that
      may go before an event. */
  predicate IsOwn(a: Action) {
    match a
    case ByReadLoop(x) => !x.Arrive? && !x.PushStderr? && !x.PushTransition?
    case ByExit(x) => !x.Eof?
    case ByPump(_) => true
    case ByRouter(_) => true
    case _ => false
  }

  ghost predicate GoesOn(s: St) {
    exists a :: Enabled(s, a) && IsOwn(a)
  }

  predicate PumpIdle(s: St) {
    s.pc.pp.Stopped? || (s.pc.pp.Waiting? && s.queue == [])
  }

  lemma RouterGoesOn(s: St)
    requires !s.pc.rt.NoRoute? && MailInv(s.mail) && LockHeld(s.mail.router, s.pc.rt)
    ensures GoesOn(s)
  {
    var a := match s.pc.rt
      case Full(_) => RouteDrop
      case Retry(_) => RouteRetry
      case _ => RouteEnter;
    assert Enabled(s, ByRouter(a));
  }

  /** Once routing is on, nothing that the pump has to do waits for a consumer. */
  lemma PumpGoesOn(s: St)
    requires RoutedChClosed(s.pc.en) && !PumpIdle(s)
    requires Control(s.pc, s.mail.router.shutdown) && MailInv(s.mail) && LockHeld(s.mail.router, s.pc.rt)
    ensures GoesOn(s)
  {
    match s.pc.pp
    case Routing => RouterGoesOn(s);
    case Waiting => assert Enabled(s, ByPump(PumpTake));
    case Unstamped(_) => assert Enabled(s, ByPump(PumpStamp));
    case Holding(_) => assert Enabled(s, ByPump(PumpCheck));
    case Blocked(_) => assert Enabled(s, ByPump(PumpDivert));
    case FlushHolding(_) => assert Enabled(s, ByPump(FlushAdd));
    case Flushing =>
      if s.legacy.buf == [] {
        assert Enabled(s, ByPump(FlushEnd));
      } else {
        assert Enabled(s, ByPump(FlushTake));
      }
  }

  /** The read loop is about to exit, or it exits, or it has something to hand on. */
  lemma ReadLoopGoesOn(s: St)
    requires !s.pc.rl.Reading? && !s.pc.rl.Finished? && RoutedChClosed(s.pc.en)
    requires Control(s.pc, s.mail.router.shutdown) && MailInv(s.mail) && LockHeld(s.mail.router, s.pc.rt)
    ensures GoesOn(s)
  {
    match s.pc.rl
    case Got(_, _) => assert Enabled(s, ByReadLoop(LoadGen));
    case Loaded(_) => assert Enabled(s, ByReadLoop(ClearGen));
    case Stamping(_, _) => assert Enabled(s, ByReadLoop(Track));
    case Tracked(_) =>
      if |s.queue| < PUMP_CAP {
        assert Enabled(s, ByReadLoop(PushEvent));
      } else {
        PumpGoesOn(s);
      }
    case Draining =>
      if s.pc.pp.Stopped? {
        assert Enabled(s, ByExit(ExitLoad));
      } else if PumpIdle(s) {
        assert Enabled(s, ByPump(PumpStop));
      } else {
        PumpGoesOn(s);
      }
    case ExitRouting => RouterGoesOn(s);
    case _ => ExitGoesOn(s);
  }

  lemma ExitGoesOn(s: St)
    requires PumpIsOver(s.pc.rl) && !s.pc.rl.ExitRouting? && !s.pc.rl.Finished?
    requires Control(s.pc, s.mail.router.shutdown) && MailInv(s.mail)
    ensures GoesOn(s)
  {
    var a := match s.pc.rl
      case ExitLoaded(_) => ExitClear
      case ExitStamped(_) => ExitCheck
      case ExitDirect(_) => ExitGiveUp
      case Delivered => ShutCheck
      case Shutting => ShutRouter
      case RouterShut => CloseEvents
      case _ => SetDone;
    assert Enabled(s, ByExit(a));
  }

  /** Nobody holds a routed session up: in every state of every run, unless the session is over or waits
      for the CLI's next line with nothing left to hand on, it can take a step of its own. */
  lemma SessionGoesOn(run: seq<St>, n: nat)
    requires IsRun(run) && n < |run| && RoutedChClosed(run[n].pc.en)
    requires !run[n].pc.rl.Finished? && !(run[n].pc.rl.Reading? && PumpIdle(run[n]))
    ensures GoesOn(run[n])
  {
    Reachable(run, n);
    if run[n].pc.rl.Reading? {
      PumpGoesOn(run[n]);
    } else {
      ReadLoopGoesOn(run[n]);
    }
  }

  // ---- and it comes to an end ----

  function ReadLoopWork(rl: ReadLoop): nat {
    match rl
    case Reading => 0
    case Got(_, _) => 20
    case Loaded(_) => 19
    case Stamping(_, _) => 18
    case Tracked(_) => 17
    case Draining => 12
    case ExitLoaded(_) => 11
    case ExitStamped(_) => 10
    case ExitDirect(_) => 9
    case ExitRouting => 6
    case Delivered => 5
    case Shutting => 4
    case RouterShut => 3
    case EventsClosed => 2
    case Finished => 0
  }

  function PumpWork(pp: Pump): nat {
    match pp
    case Stopped => 0
    case Waiting => 1
    case Unstamped(_) => 11
    case Holding(_) => 10
    case Blocked(_) => 9
    case FlushHolding(_) => 6
    case Routing => 5
    case Flushing => 4
  }

  function RouteWork(rt: RoutePhase): nat {
    match rt
    case NoRoute => 0
    case Entering(_) => 3
    case Full(_) => 2
    case Retry(_) => 1
  }

  /** A bound on the steps that are left. */
  function Work(s: St): nat {
    ReadLoopWork(s.pc.rl) + PumpWork(s.pc.pp) + RouteWork(s.pc.rt) + 12 * |s.queue| + 3 * |s.legacy.buf|
  }

  lemma ReadWorks(s: St, a: ReadAction)
    requires ReadEnabled(s, a) && IsOwn(ByReadLoop(a))
    ensures Work(ReadStep(s, a)) < Work(s)
  {
  }

  lemma ExitWorks(s: St, a: ExitAction)
    requires ExitEnabled(s, a) && IsOwn(ByExit(a)) && Control(s.pc, s.mail.router.shutdown)
    ensures Work(ExitStep(s, a)) < Work(s)
  {
  }

  lemma PumpWorks(s: St, a: PumpAction)
    requires PumpEnabled(s, a) && Control(s.pc, s.mail.router.shutdown)
    ensures Work(PumpStep(s, a)) < Work(s)
  {
  }

  lemma RouteWorks(s: St, a: RouteAction)
    requires RouteEnabled(s, a) && Control(s.pc, s.mail.router.shutdown) && LockHeld(s.mail.router, s.pc.rt)
    ensures Work(RouteStep(s, a)) < Work(s)
  {
    if a.RouteRetry? {
      RetryReturns(s);
    }
  }

  /** Each step of its own brings the session nearer to its end, or to the CLI's next line. */
  lemma OwnStepsAreFinite(run: seq<St>, n: nat, a: Action)
    requires IsRun(run) && n < |run| && Enabled(run[n], a) && IsOwn(a)
    ensures Work(Step(run[n], a)) < Work(run[n])
  {
    Reachable(run, n);
    match a
    case ByReadLoop(x) => ReadWorks(run[n], x);
    case ByExit(x) => ExitWorks(run[n], x);
    case ByPump(x) => PumpWorks(run[n], x);
    case ByRouter(x) => RouteWorks(run[n], x);
  }

  /** The session is over for good: no query starts on it. */
  ghost predicate Over(s: St) {
    s.pc.rl.Finished? ==> s.life == Done || s.life == Failed
  }

  lemma OverStays(s: St, a: Action)
    requires Over(s) && Enabled(s, a)
    ensures Over(Step(s, a))
  {
    match a
    case ByCaller(x) => CallerOver(s, x);
    case ByClient(x) => ClientOver(s, x);
    case ByReadLoop(x) => ReadOver(s, x);
    case ByExit(x) => ExitOver(s, x);
    case ByPump(x) => PumpOver(s, x);
    case ByRouter(x) => RouteOver(s, x);
  }

  lemma CallerOver(s: St, a: CallerAction)
    requires Over(s) && CallerEnabled(s, a)
    ensures Over(CallerStep(s, a))
  {
  }

  lemma ClientOver(s: St, a: ClientAction)
    requires Over(s) && ClientEnabled(s, a)
    ensures Over(ClientStep(s, a))
  {
  }

  lemma ReadOver(s: St, a: ReadAction)
    requires Over(s) && ReadEnabled(s, a)
    ensures Over(ReadStep(s, a))
  {
  }

  lemma ExitOver(s: St, a: ExitAction)
    requires Over(s) && ExitEnabled(s, a)
    ensures Over(ExitStep(s, a))
  {
  }

  lemma PumpOver(s: St, a: PumpAction)
    requires Over(s) && PumpEnabled(s, a)
    ensures Over(PumpStep(s, a))
  {
  }

  lemma RouteOver(s: St, a: RouteAction)
    requires Over(s) && RouteEnabled(s, a)
    ensures Over(RouteStep(s, a))
  {
  }

  lemma {:induction false} OverForGood(run: seq<St>, n: nat, c: nat)
    requires IsRun(run) && n < |run|
    ensures Over(run[n])
    ensures run[n].pc.rl.Finished? ==> !CallerEnabled(run[n], PrepareQuery(c))
  {
    if n > 0 {
      OverForGood(run, n - 1, c);
      assert Follows(run, n);
      var a :| Enabled(run[n - 1], a) && run[n] == Step(run[n - 1], a);
      OverStays(run[n - 1], a);
    }
  }
}
