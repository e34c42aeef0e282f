/** Why a query's handle is closed: over every run, the reason a handle carries is that of the one step
    that closed it, and it never changes. */
module ProtocolReasons {
  import opened Events
  import opened RouterModel
  import opened Protocol
  import opened ProtocolMail
  import opened ProtocolSafety

  /** The reason for which a step closes the handle of g, if it does: the consumer detaches it, its
      own prompt could not be written, a later query takes its place, or the session has ended, be it
      while the handle is attached or before it is made. */
  function ReasonToClose(s: St, a: Action, g: nat): Option<Reason> {
    match a
    case ByClient(DetachHandle(h)) => if h == g then Some(QueryDetached) else None
    case ByCaller(DetachFailed(c)) =>
      if c in s.callers && s.callers[c].Closing? && s.callers[c].gen == g then Some(Failure("write")) else None
    case ByCaller(ArmRouter(c)) =>
      if c in s.callers && s.callers[c].Allocated? && s.callers[c].gen == g
      then if s.mail.router.shutdown then Some(SessionEnded) else None
      else if s.mail.router.active == Some(g) then Some(QueryDetached) else None
    case ByExit(ShutRouter) => if s.mail.router.active == Some(g) then Some(SessionEnded) else None
    case _ => None
  }

  predicate IsClosed(r: Router, g: nat) {
    g in r.handles && r.handles[g].closed
  }

  /** What a step does to the flags of g's handle, given the reason it has to close it. */
  predicate Tells(r: Router, r': Router, g: nat, why: Option<Reason>) {
    && (g in r.handles ==> g in r'.handles)
    && (if IsClosed(r, g) then IsClosed(r', g) && r'.handles[g].reason == r.handles[g].reason
        else if g in r'.handles then
          if why.Some? then IsClosed(r', g) && r'.handles[g].reason == why.value else !IsClosed(r', g)
        else true)
  }

  /** No flag of any handle changes, and none is made. */
  predicate SameFlags(r: Router, r': Router) {
    && r'.handles.Keys == r.handles.Keys
    && forall g | g in r.handles ::
         r'.handles[g].closed == r.handles[g].closed && r'.handles[g].reason == r.handles[g].reason
  }

  lemma ArmCloses(s: St, c: nat, g: nat)
    requires MailInv(s.mail) && CallerEnabled(s, ArmRouter(c)) && s.callers[c].gen !in s.mail.router.handles
    ensures Tells(s.mail.router, CallerStep(s, ArmRouter(c)).mail.router, g,
                  ReasonToClose(s, ByCaller(ArmRouter(c)), g))
  {
    ArmTells(s.mail.router, s.callers[c].gen);
  }

  lemma FailureCloses(s: St, c: nat, g: nat)
    requires MailInv(s.mail) && CallerEnabled(s, DetachFailed(c))
    ensures Tells(s.mail.router, CallerStep(s, DetachFailed(c)).mail.router, g,
                  ReasonToClose(s, ByCaller(DetachFailed(c)), g))
  {
    DetachTells(s.mail.router, s.callers[c].gen, Failure("write"));
  }

  lemma ConsumerCloses(s: St, h: nat, g: nat)
    requires MailInv(s.mail) && ClientEnabled(s, DetachHandle(h))
    ensures Tells(s.mail.router, ClientStep(s, DetachHandle(h)).mail.router, g,
                  ReasonToClose(s, ByClient(DetachHandle(h)), g))
  {
    DetachTells(s.mail.router, h, QueryDetached);
  }

  lemma EndCloses(s: St, g: nat)
    requires MailInv(s.mail) && ExitEnabled(s, ShutRouter)
    ensures Tells(s.mail.router, ExitStep(s, ShutRouter).mail.router, g, ReasonToClose(s, ByExit(ShutRouter), g))
  {
    ShutdownTells(s.mail.router, SessionEnded);
  }

  lemma CallerTells(s: St, a: CallerAction, g: nat)
    requires MailInv(s.mail) && Generations(s) && CallerEnabled(s, a)
    ensures Tells(s.mail.router, CallerStep(s, a).mail.router, g, ReasonToClose(s, ByCaller(a), g))
  {
    match a
    case ArmRouter(c) => ArmCloses(s, c, g);
    case DetachFailed(c) => FailureCloses(s, c, g);
    case _ => assert CallerStep(s, a).mail == s.mail;
  }

  lemma ConsumerKeepsFlags(s: St, a: ClientAction)
    requires ClientEnabled(s, a) && !a.DetachHandle?
    ensures SameFlags(s.mail.router, ClientStep(s, a).mail.router)
  {
  }

  lemma ClientTells(s: St, a: ClientAction, g: nat)
    requires MailInv(s.mail) && ClientEnabled(s, a)
    ensures Tells(s.mail.router, ClientStep(s, a).mail.router, g, ReasonToClose(s, ByClient(a), g))
  {
    match a
    case DetachHandle(h) => ConsumerCloses(s, h, g);
    case _ => ConsumerKeepsFlags(s, a);
  }

  lemma ExitTells(s: St, a: ExitAction, g: nat)
    requires MailInv(s.mail) && ExitEnabled(s, a)
    ensures Tells(s.mail.router, ExitStep(s, a).mail.router, g, ReasonToClose(s, ByExit(a), g))
  {
    if a.ShutRouter? {
      EndCloses(s, g);
    } else {
      assert ExitStep(s, a).mail == s.mail;
    }
  }

  lemma PumpKeepsFlags(s: St, a: PumpAction)
    requires PumpEnabled(s, a)
    ensures SameFlags(s.mail.router, PumpStep(s, a).mail.router)
  {
    if !a.FlushAdd? {
      assert PumpStep(s, a).mail == s.mail;
    }
  }

  lemma RouteKeepsFlags(s: St, a: RouteAction)
    requires RouteEnabled(s, a) && LockHeld(s.mail.router, s.pc.rt)
    ensures SameFlags(s.mail.router, RouteStep(s, a).mail.router)
  {
    RouteEffect(s, a);
  }

  lemma StepTells(s: St, a: Action, g: nat)
    requires Inv(s) && Enabled(s, a)
    ensures Tells(s.mail.router, Step(s, a).mail.router, g, ReasonToClose(s, a, g))
  {
    match a
    case ByCaller(x) => CallerTells(s, x, g);
    case ByClient(x) => ClientTells(s, x, g);
    case ByReadLoop(x) => assert ReadStep(s, x).mail == s.mail;
    case ByExit(x) => ExitTells(s, x, g);
    case ByPump(x) => PumpKeepsFlags(s, x);
    case ByRouter(x) => RouteKeepsFlags(s, x);
  }

  /** A closed handle stays closed for the same reason. */
  lemma {:induction false} ReasonNeverChanges(run: seq<St>, m: nat, n: nat, g: nat)
    requires IsRun(run) && m <= n < |run| && IsClosed(run[m].mail.router, g)
    ensures IsClosed(run[n].mail.router, g)
    ensures run[n].mail.router.handles[g].reason == run[m].mail.router.handles[g].reason
    decreases n
  {
    if m < n {
      ReasonNeverChanges(run, m, n - 1, g);
      var _ := TellsAt(run, n, g);
    }
  }

  /** The step before state n, and what it tells. */
  lemma TellsAt(run: seq<St>, n: nat, g: nat) returns (a: Action)
    requires IsRun(run) && 0 < n < |run|
    ensures Enabled(run[n - 1], a) && run[n] == Step(run[n - 1], a)
    ensures Tells(run[n - 1].mail.router, run[n].mail.router, g, ReasonToClose(run[n - 1], a, g))
  {
    Reachable(run, n - 1);
    assert Follows(run, n);
    a :| Enabled(run[n - 1], a) && run[n] == Step(run[n - 1], a);
    StepTells(run[n - 1], a, g);
  }

  /** Each closed handle was closed by one step, and carries that step's reason. */
  lemma {:induction false} ReasonIsTheCause(run: seq<St>, n: nat, g: nat) returns (k: nat, a: Action)
    requires IsRun(run) && n < |run| && IsClosed(run[n].mail.router, g)
    ensures k < n && Enabled(run[k], a) && run[k + 1] == Step(run[k], a)
    ensures !IsClosed(run[k].mail.router, g) && IsClosed(run[k + 1].mail.router, g)
    ensures ReasonToClose(run[k], a, g) == Some(run[n].mail.router.handles[g].reason)
  {
    assert n > 0;
    a := TellsAt(run, n, g);
    if IsClosed(run[n - 1].mail.router, g) {
      k, a := ReasonIsTheCause(run, n - 1, g);
    } else {
      k := n - 1;
    }
  }
}
