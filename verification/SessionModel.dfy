/** The session's state under its state lock, and each locked section as a function on it. */
module SessionModel {
  import opened Events
  import opened ActivityTracking

  datatype Session = Session(
    state: Lifecycle,
    result: Option<Result>,
    err: Option<string>,
    readyClosed: bool,   // the current query's resultReady is closed
    promptEchoed: bool,
    unread: int,
    turnEchoed: bool,
    sentAny: bool,
    activeGen: nat,
    tracker: Tracker)

  const NEW_SESSION := Session(Starting, None, None, false, false, 0, false, false, 0, NEW_TRACKER)

  datatype Refusal = SessionFailed | QueryInProgress | SessionEnded | NotReady

  const MAX_TURNS_ERROR := "reached maximum number of turns"

  function Refuses(s: Session): Option<Refusal> {
    match s.state
    case Failed => Some(SessionFailed)
    case Running => Some(QueryInProgress)
    case Done => Some(SessionEnded)
    case Starting => Some(NotReady)
    case Ready => None
  }

  /** prepareQuery past its checks. */
  function Prepare(s: Session): Session {
    s.(state := Running, result := None, err := None, promptEchoed := false, readyClosed := false)
  }

  function FirstError(err: Option<string>, e: string): Option<string> {
    if err.Some? then err else Some(e)
  }

  /** The locked part of failQuery, and trackState at a fatal error. */
  function Fail(s: Session, e: string): Session {
    s.(state := Failed, err := FirstError(s.err, e), readyClosed := true)
  }

  function TrackInit(s: Session): Session {
    if s.state == Starting then s.(state := Ready) else s
  }

  function TrackResult(s: Session, r: Result): Session {
    s.(state := Ready, result := Some(r),
       err := if r.maxTurns then FirstError(s.err, MAX_TURNS_ERROR) else s.err, readyClosed := true)
  }

  function Track(s: Session, ev: Event): Session {
    match ev
    case InitEvent(_) => TrackInit(s)
    case ResultEvent(r) => TrackResult(s, r)
    case ErrorEvent(e, fatal) => if fatal then Fail(s, e) else s
    case _ => s
  }

  /** The lifecycle alone, after an event and at the read loop's end. */
  function LifeAfter(l: Lifecycle, ev: Event): Lifecycle {
    match ev
    case InitEvent(_) => if l == Starting then Ready else l
    case ResultEvent(_) => Ready
    case ErrorEvent(_, fatal) => if fatal then Failed else l
    case _ => l
  }

  function LifeAtEnd(l: Lifecycle): Lifecycle {
    if l == Failed then Failed else Done
  }

  lemma TrackIsLifeAfter(s: Session, ev: Event)
    ensures Track(s, ev).state == LifeAfter(s.state, ev)
    ensures Refuses(s).None? <==> s.state == Ready
  {
  }

  function SetDone(s: Session): Session {
    s.(state := LifeAtEnd(s.state))
  }

  /** notePromptEcho; echoes of notifications and of subagent messages do not count. */
  function Echo(s: Session, parent: string, origin: Origin): Session {
    if parent != "" || !origin.FromCaller() then s
    else s.(promptEchoed := s.promptEchoed || s.state == Running,
            unread := if s.unread > 0 then s.unread - 1 else s.unread,
            turnEchoed := true)
  }

  /** noteTurnStart: whether the CLI opened this turn by itself. */
  predicate OpensUnsolicited(s: Session) {
    s.sentAny && s.unread == 0 && !s.turnEchoed
  }

  /** noteTurnEnd */
  function TurnEnd(s: Session, origin: Origin): Session {
    s.(unread := if origin.FromCaller() && !s.turnEchoed && s.unread > 0 then s.unread - 1 else s.unread,
       turnEchoed := false)
  }

  /** observeUnsolicitedResult: whether the result is held, and what holding it does. */
  predicate Holds(s: Session, origin: Origin) {
    origin.TaskNotification? && !(s.state == Running && s.promptEchoed)
  }

  function Hold(s: Session): Session {
    s.(tracker := React(s.tracker, Unsolicited(s.state == Running)))
  }

  /** sendUserMessage counts before it writes, and takes the count back when the write fails. */
  function Count(s: Session): Session {
    s.(unread := s.unread + 1, sentAny := true)
  }

  function Uncount(s: Session): Session {
    s.(unread := s.unread - 1)
  }

  // ---- the lifecycle ----

  datatype LifeStep =
    | Connects            // initialize succeeded
    | Prepares            // a caller starts a query
    | Tracks(ev: Event)   // by the read loop
    | Fails(err: string)  // a caller's submission failed
    | Exits               // the read loop ended: setDoneState
    | Notes(parent: string, origin: Origin) | Ends(origin: Origin) | Counts | Uncounts | Holding

  datatype Life = Life(s: Session, exited: bool)

  predicate LifeEnabled(l: Life, a: LifeStep) {
    match a
    case Prepares => Refuses(l.s).None?
    case Tracks(_) => !l.exited
    case Exits => !l.exited
    case Notes(_, _) => !l.exited
    case Ends(_) => !l.exited
    case Holding => !l.exited
    case _ => true
  }

  function LifeNext(l: Life, a: LifeStep): Life
    requires LifeEnabled(l, a)
  {
    match a
    case Connects => l.(s := TrackInit(l.s))
    case Prepares => l.(s := Prepare(l.s))
    case Tracks(ev) => l.(s := Track(l.s, ev))
    case Fails(e) => l.(s := Fail(l.s, e))
    case Exits => Life(SetDone(l.s), true)
    case Notes(parent, origin) => l.(s := Echo(l.s, parent, origin))
    case Ends(origin) => l.(s := TurnEnd(l.s, origin))
    case Counts => l.(s := Count(l.s))
    case Uncounts => l.(s := Uncount(l.s))
    case Holding => l.(s := Hold(l.s))
  }

  predicate IsLifeRun(run: seq<Life>, steps: seq<LifeStep>) {
    && |run| == |steps| + 1 && run[0] == Life(NEW_SESSION, false)
    && forall i | 0 <= i < |steps| :: LifeEnabled(run[i], steps[i]) && run[i + 1] == LifeNext(run[i], steps[i])
  }

  /** A pending query has no result, no error and an open resultReady; after the read
      loop's exit the session stays Done or Failed, so no query can start. */
  lemma {:induction false} LifecycleHolds(run: seq<Life>, steps: seq<LifeStep>, n: nat)
    requires IsLifeRun(run, steps) && n < |run|
    ensures run[n].s.state == Running ==> run[n].s.result.None? && run[n].s.err.None? && !run[n].s.readyClosed
    ensures run[n].exited ==> run[n].s.state in {Done, Failed} && Refuses(run[n].s).Some?
    ensures run[n].s.state == Failed ==> run[n].s.err.Some?
  {
    if n > 0 {
      LifecycleHolds(run, steps, n - 1);
      assert LifeEnabled(run[n - 1], steps[n - 1]);
    }
  }

  /** A query that stops being pending wakes its waiters: resultReady is closed,
      unless the read loop ended, which closes the session's done channel. */
  lemma EndedQueriesWake(run: seq<Life>, steps: seq<LifeStep>, n: nat)
    requires IsLifeRun(run, steps) && n < |steps|
    requires run[n].s.state == Running && run[n + 1].s.state != Running
    ensures run[n + 1].exited || run[n + 1].s.readyClosed
    ensures run[n + 1].exited || (run[n + 1].s.result.Some? && run[n + 1].s.state == Ready)
            || (run[n + 1].s.err.Some? && run[n + 1].s.state == Failed)
  {
    LifecycleHolds(run, steps, n);
    assert LifeEnabled(run[n], steps[n]) && run[n + 1] == LifeNext(run[n], steps[n]);
  }

  // ---- what each step leaves, told by the steps alone ----

  /** The error that a step raises, if any: a fatal error, a failed submission, or a turn that ended
      at its limit. */
  function Raised(a: LifeStep): Option<string> {
    match a
    case Fails(e) => Some(e)
    case Tracks(ErrorEvent(e, true)) => Some(e)
    case Tracks(ResultEvent(r)) => if r.maxTurns then Some(MAX_TURNS_ERROR) else None
    case _ => None
  }

  /** The last query before n, or the start. */
  function LastQuery(steps: seq<LifeStep>, n: nat): (k: nat)
    requires n <= |steps|
    ensures k <= n && (k == 0 || steps[k - 1].Prepares?)
    ensures forall i | k <= i < n :: !steps[i].Prepares?
  {
    if n == 0 || steps[n - 1].Prepares? then n else LastQuery(steps, n - 1)
  }

  predicate FirstRaised(steps: seq<LifeStep>, from: nat, n: nat, k: int)
    requires n <= |steps|
  {
    from <= k < n && Raised(steps[k]).Some? && NoneRaised(steps, from, k)
  }

  predicate NoneRaised(steps: seq<LifeStep>, from: nat, n: nat)
    requires n <= |steps|
  {
    forall i | from <= i < n :: Raised(steps[i]).None?
  }

  lemma ErrorStep(l: Life, a: LifeStep)
    requires LifeEnabled(l, a)
    ensures LifeNext(l, a).s.err == if a.Prepares? then None else if l.s.err.Some? then l.s.err else Raised(a)
  {
  }

  /** The error that Wait returns is the first one raised since the query began, and there is none if
      none was. */
  lemma {:induction false} FirstErrorStands(run: seq<Life>, steps: seq<LifeStep>, n: nat)
    requires IsLifeRun(run, steps) && n < |run|
    ensures run[n].s.err.None? <==> NoneRaised(steps, LastQuery(steps, n), n)
    ensures forall k | FirstRaised(steps, LastQuery(steps, n), n, k) :: run[n].s.err == Raised(steps[k])
  {
    if n > 0 {
      FirstErrorStands(run, steps, n - 1);
      assert LifeEnabled(run[n - 1], steps[n - 1]) && run[n] == LifeNext(run[n - 1], steps[n - 1]);
      ErrorStep(run[n - 1], steps[n - 1]);
      RaisedMore(steps, LastQuery(steps, n), n);
    }
  }

  lemma RaisedMore(steps: seq<LifeStep>, from: nat, n: nat)
    requires 0 < n <= |steps|
    ensures from < n ==> (NoneRaised(steps, from, n) <==> NoneRaised(steps, from, n - 1) && Raised(steps[n - 1]).None?)
    ensures forall k | FirstRaised(steps, from, n, k) :: k == n - 1 || FirstRaised(steps, from, n - 1, k)
  {
  }

  predicate IsResult(a: LifeStep) {
    a.Tracks? && a.ev.ResultEvent?
  }

  predicate LastResult(steps: seq<LifeStep>, from: nat, n: nat, k: int)
    requires n <= |steps|
  {
    from <= k < n && IsResult(steps[k]) && forall i | k < i < n :: !IsResult(steps[i])
  }

  lemma ResultStep(l: Life, a: LifeStep)
    requires LifeEnabled(l, a)
    ensures LifeNext(l, a).s.result
         == if a.Prepares? then None else if IsResult(a) then Some(a.ev.result) else l.s.result
  {
  }

  /** The result that Wait returns is the last one tracked since the query began, and there is none
      if none was. */
  lemma {:induction false} LastResultStands(run: seq<Life>, steps: seq<LifeStep>, n: nat)
    requires IsLifeRun(run, steps) && n < |run|
    ensures run[n].s.result.None? <==> forall i | LastQuery(steps, n) <= i < n :: !IsResult(steps[i])
    ensures forall k | LastResult(steps, LastQuery(steps, n), n, k) :: run[n].s.result == Some(steps[k].ev.result)
  {
    if n > 0 {
      LastResultStands(run, steps, n - 1);
      assert LifeEnabled(run[n - 1], steps[n - 1]) && run[n] == LifeNext(run[n - 1], steps[n - 1]);
      ResultStep(run[n - 1], steps[n - 1]);
      LastResultMore(steps, LastQuery(steps, n), n);
    }
  }

  lemma LastResultMore(steps: seq<LifeStep>, from: nat, n: nat)
    requires 0 < n <= |steps|
    ensures forall k | LastResult(steps, from, n, k) :: k == n - 1 || LastResult(steps, from, n - 1, k)
    ensures forall k | LastResult(steps, from, n, k) :: IsResult(steps[n - 1]) ==> k == n - 1
  {
  }

  /** So the result that ends a query is what Wait returns, without an error unless its turn ended at
      the limit. */
  lemma EndOfQuery(run: seq<Life>, steps: seq<LifeStep>, n: nat)
    requires IsLifeRun(run, steps) && n < |steps| && run[n].s.state == Running
    ensures forall r | steps[n] == Tracks(ResultEvent(r)) ::
              run[n + 1].s.result == Some(r)
              && run[n + 1].s.err == if r.maxTurns then Some("reached maximum number of turns") else None
    ensures forall e | steps[n] == Fails(e) || steps[n] == Tracks(ErrorEvent(e, true)) ::
              run[n + 1].s.err == Some(e) && run[n + 1].s.result.None?
  {
    LifecycleHolds(run, steps, n);
    assert LifeEnabled(run[n], steps[n]) && run[n + 1] == LifeNext(run[n], steps[n]);
  }

  /** The steps that decide the state, whatever it was. */
  predicate Decides(a: LifeStep) {
    a.Prepares? || a.Fails? || a.Exits? || (a.Tracks? && (a.ev.ResultEvent? || (a.ev.ErrorEvent? && a.ev.fatal)))
  }

  predicate Readies(a: LifeStep) {
    a.Connects? || (a.Tracks? && a.ev.InitEvent?)
  }

  predicate LastDecision(steps: seq<LifeStep>, n: nat, k: int)
    requires n <= |steps|
  {
    0 <= k < n && Decides(steps[k]) && forall i | k < i < n :: !Decides(steps[i])
  }

  predicate Undecided(steps: seq<LifeStep>, n: nat)
    requires n <= |steps|
  {
    forall i | 0 <= i < n :: !Decides(steps[i])
  }

  predicate Initialised(steps: seq<LifeStep>, n: nat)
    requires n <= |steps|
  {
    exists i :: 0 <= i < n && Readies(steps[i])
  }

  /** The state that a deciding step leaves; a failed session that exits stays failed. */
  function Decided(a: LifeStep, before: Lifecycle): Lifecycle
    requires Decides(a)
  {
    match a
    case Prepares => Running
    case Exits => if before == Failed then Failed else Done
    case Tracks(ResultEvent(_)) => Ready
    case _ => Failed
  }

  lemma StateStep(l: Life, a: LifeStep)
    requires LifeEnabled(l, a)
    ensures LifeNext(l, a).s.state == if Decides(a) then Decided(a, l.s.state)
                                      else if Readies(a) && l.s.state == Starting then Ready else l.s.state
  {
  }

  lemma DecidedMore(steps: seq<LifeStep>, n: nat)
    requires 0 < n <= |steps|
    ensures Undecided(steps, n) <==> Undecided(steps, n - 1) && !Decides(steps[n - 1])
    ensures Initialised(steps, n) <==> Initialised(steps, n - 1) || Readies(steps[n - 1])
    ensures forall k | LastDecision(steps, n, k) ::
              if Decides(steps[n - 1]) then k == n - 1 else LastDecision(steps, n - 1, k)
  {
  }

  /** The state is what the last deciding step made it; before any, the session is ready exactly
      once it has been initialised. */
  lemma {:induction false} StateIsDecided(run: seq<Life>, steps: seq<LifeStep>, n: nat)
    requires IsLifeRun(run, steps) && n < |run|
    ensures Undecided(steps, n) ==> run[n].s.state == if Initialised(steps, n) then Ready else Starting
    ensures forall k | LastDecision(steps, n, k) :: run[n].s.state == Decided(steps[k], run[k].s.state)
    ensures !Undecided(steps, n) ==> run[n].s.state != Starting
  {
    if n > 0 {
      StateIsDecided(run, steps, n - 1);
      assert LifeEnabled(run[n - 1], steps[n - 1]) && run[n] == LifeNext(run[n - 1], steps[n - 1]);
      StateStep(run[n - 1], steps[n - 1]);
      DecidedMore(steps, n);
    }
  }

  /** Why a query is refused. */
  lemma RefusalTellsWhy(run: seq<Life>, steps: seq<LifeStep>, n: nat, k: int)
    requires IsLifeRun(run, steps) && n < |run| && LastDecision(steps, n, k)
    ensures match steps[k]
            case Prepares => Refuses(run[n].s) == Some(QueryInProgress)
            case Fails(_) => Refuses(run[n].s) == Some(SessionFailed)
            case Exits => Refuses(run[n].s) == Some(if run[k].s.state == Failed then SessionFailed else SessionEnded)
            case Tracks(ResultEvent(_)) => Refuses(run[n].s).None?
            case _ => Refuses(run[n].s) == Some(SessionFailed)
  {
    StateIsDecided(run, steps, n);
  }

  /** A session that no init has reached refuses queries, and the init ends that. */
  lemma ReadyOnceInitialised(run: seq<Life>, steps: seq<LifeStep>, n: nat)
    requires IsLifeRun(run, steps) && n < |run| && Undecided(steps, n)
    ensures Refuses(run[n].s) == if Initialised(steps, n) then None else Some(NotReady)
  {
    StateIsDecided(run, steps, n);
  }

  /** Holding a result ends the tool uses; the tracker thinks if a query is pending, and else idles.
      Nothing else changes. */
  lemma HoldingMovesTracker(run: seq<Life>, steps: seq<LifeStep>, n: nat)
    requires IsLifeRun(run, steps) && n < |steps| && steps[n] == Holding
    ensures var t := run[n + 1].s.tracker;
            && t.pending == 0 && t.state == (if run[n].s.state == Running then Thinking else Idle)
            && run[n + 1] == run[n].(s := run[n].s.(tracker := t))
  {
    assert LifeEnabled(run[n], steps[n]) && run[n + 1] == LifeNext(run[n], steps[n]);
  }
}
