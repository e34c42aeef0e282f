/** Every interleaving of the CLI's reports with any number of submissions: no wake-up is lost,
    the first verdict stands, and only a rejection reported after a submission began is retryable.
    That rejection may be of an earlier submission's code, if that one was given up; it is one's own
    for certain exactly when no code was left unanswered at the beginning. */
module LoginMonitor {
  import opened Events
  import opened Bytes
  import opened Login

  /** Where a submission is: waiting for submitMu, holding it, or returned. Parked waits on a
      channel; a submission's verdict counts from the reports heard before `since`. */
  datatype Pc =
    | Queued
    | Holding
    | Begun(seen: nat)
    | Awaiting(seen: nat)
    | Parked(seen: nat, channel: nat)
    | Returned(result: Option<Error>, at: nat)

  /** `code` is how many codes had been written when the submission began: its own is next. */
  datatype Sub = Sub(pc: Pc, since: nat, code: nat)

  /** `reports` is everything the CLI has reported, and `written` the submissions whose codes were
      written to it, oldest first. */
  datatype Sys = Sys(o: Outcome, reports: seq<Report>, written: seq<nat>, subs: map<nat, Sub>, holder: Option<nat>)

  const INIT := Sys(NEW, [], [], map[], None)

  datatype Action =
    | Prints(line: string)
    | Exits(status: Option<string>)
    | Submits(i: nat)
    | Locks(i: nat)
    | Begins(i: nat)
    | Writes(i: nat, ok: bool)
    | Checks(i: nat)
    | Wakes(i: nat)
    | GivesUp(i: nat)

  function Told(s: Sys, r: Report): Sys {
    s.(o := Hear(s.o, r), reports := s.reports + [r])
  }

  function Put(s: Sys, i: nat, sub: Sub): Sys {
    s.(subs := s.subs[i := sub])
  }

  /** Returning releases submitMu. */
  function Returns(s: Sys, i: nat, result: Option<Error>): Sys
    requires i in s.subs
  {
    Put(s, i, s.subs[i].(pc := Returned(result, |s.reports|))).(holder := None)
  }

  function CheckStep(s: Sys, i: nat, seen: nat): Sys
    requires i in s.subs
  {
    match CheckAt(s.o, seen)
    case Return(err) => Returns(s, i, err)
    case Park => Put(s, i, s.subs[i].(pc := Parked(seen, s.o.channel)))
  }

  function BeginStep(s: Sys, i: nat): Sys
    requires i in s.subs
  {
    var (seen, error) := BeginAt(s.o);
    var n, k := |s.reports|, |s.written|;
    if error.Some? then Returns(s, i, error).(subs := s.subs[i := Sub(Returned(error, n), n, k)])
    else Put(s, i, Sub(Begun(seen), n, k))
  }

  /** The state after an action, or None where the action is not possible. */
  function Act(s: Sys, a: Action): Option<Sys> {
    match a
    case Prints(line) =>
      Some(match Classify(line) case None => s case Some(r) => Told(s, r))
    case Exits(status) => Some(Told(s, Final(ExitVerdict(status))))
    case Submits(i) => if i in s.subs then None else Some(Put(s, i, Sub(Queued, 0, 0)))
    case Locks(i) =>
      if i in s.subs && s.subs[i].pc == Queued && s.holder.None?
      then Some(Put(s, i, Sub(Holding, 0, 0)).(holder := Some(i))) else None
    case Begins(i) => if i in s.subs && s.subs[i].pc == Holding then Some(BeginStep(s, i)) else None
    case Writes(i, ok) =>
      if i in s.subs && s.subs[i].pc.Begun? then
        Some(if ok then Put(s, i, s.subs[i].(pc := Awaiting(s.subs[i].pc.seen))).(written := s.written + [i])
             else Returns(s, i, Some(WriteFailed)))
      else None
    case Checks(i) =>
      if i in s.subs && s.subs[i].pc.Awaiting? then Some(CheckStep(s, i, s.subs[i].pc.seen)) else None
    case Wakes(i) =>
      if i in s.subs && s.subs[i].pc.Parked? && s.subs[i].pc.channel < s.o.channel
      then Some(Put(s, i, s.subs[i].(pc := Awaiting(s.subs[i].pc.seen)))) else None
    case GivesUp(i) =>
      if i in s.subs && s.subs[i].pc.Parked? then Some(Returns(s, i, Some(Cancelled))) else None
  }

  function Run(actions: seq<Action>): Option<Sys> {
    if actions == [] then Some(INIT)
    else
      var k := |actions| - 1;
      match Run(actions[..k])
      case None => None
      case Some(s) => Act(s, actions[k])
  }

  // ---- what the monitor has heard ----

  function Heard(reports: seq<Report>): Outcome {
    if reports == [] then NEW else Hear(Heard(reports[..|reports| - 1]), reports[|reports| - 1])
  }

  predicate FirstFinal(reports: seq<Report>, k: nat) {
    k < |reports| && reports[k].Final? && forall j | 0 <= j < k :: reports[j].InvalidCode?
  }

  /** The verdict kept is the first one reported. */
  lemma {:induction false} HeardFirst(reports: seq<Report>)
    ensures Heard(reports).finished <==> exists k: nat :: FirstFinal(reports, k)
    ensures forall k: nat | FirstFinal(reports, k) :: Heard(reports).err == reports[k].verdict
  {
    if reports != [] {
      var n := |reports| - 1;
      HeardFirst(reports[..n]);
      forall k: nat | FirstFinal(reports, k) && k < n ensures FirstFinal(reports[..n], k) {
      }
      if k: nat :| FirstFinal(reports[..n], k) {
        assert FirstFinal(reports, k);
      } else if reports[n].Final? {
        NoFinalYet(reports[..n]);
        assert FirstFinal(reports, n);
      }
    }
  }

  lemma {:induction false} NoFinalYet(reports: seq<Report>)
    requires !exists k: nat :: FirstFinal(reports, k)
    ensures forall j | 0 <= j < |reports| :: reports[j].InvalidCode?
  {
    if reports != [] {
      var n := |reports| - 1;
      forall k: nat ensures !FirstFinal(reports[..n], k) {
        assert FirstFinal(reports[..n], k) ==> FirstFinal(reports, k);
      }
      NoFinalYet(reports[..n]);
      assert !FirstFinal(reports, n);
    }
  }

  /** More rejections now than at `since` means that one was reported in between. */
  lemma {:induction false} RejectedSince(reports: seq<Report>, since: nat) returns (k: nat)
    requires since <= |reports| && Heard(reports).invalid > Heard(reports[..since]).invalid
    ensures since <= k < |reports| && reports[k] == InvalidCode(Heard(reports).message)
  {
    var n := |reports| - 1;
    assert reports[..|reports|] == reports;
    if reports[n].InvalidCode? {
      k := n;
    } else {
      assert reports[..n][..since] == reports[..since];
      k := RejectedSince(reports[..n], since);
    }
  }

  lemma HeardMore(reports: seq<Report>, r: Report)
    ensures Heard(reports + [r]) == Hear(Heard(reports), r)
  {
    assert (reports + [r])[..|reports|] == reports;
  }

  // ---- the invariant ----

  predicate Inside(pc: Pc) {
    pc.Holding? || pc.Begun? || pc.Awaiting? || pc.Parked?
  }

  predicate Retryable(e: Option<Error>) {
    e.Some? && e.value.LoginError? && e.value.retryable
  }

  /** How a submission may have ended, given everything reported before it did. */
  predicate Ended(reports: seq<Report>, since: nat, result: Option<Error>, at: nat)
    requires since <= at <= |reports|
  {
    var begun, now := Heard(reports[..since]), Heard(reports[..at]);
    || result == Some(WriteFailed) || result == Some(Cancelled)
    || (now.finished && result == Some(AlreadyFinished(now.err)))
    || CheckAt(now, begun.invalid) == Return(result)
  }

  predicate SubInv(o: Outcome, reports: seq<Report>, sub: Sub) {
    && sub.since <= |reports|
    && match sub.pc
       case Queued => true
       case Holding => true
       case Begun(seen) => seen == Heard(reports[..sub.since]).invalid
       case Awaiting(seen) => seen == Heard(reports[..sub.since]).invalid
       case Parked(seen, channel) =>
         && seen == Heard(reports[..sub.since]).invalid
         && channel <= o.channel
         && (channel == o.channel ==> CheckAt(o, seen) == Park)
       case Returned(result, at) => sub.since <= at <= |reports| && Ended(reports, sub.since, result, at)
  }

  /** Where the submission's code stands among those written. */
  predicate CodeInv(written: seq<nat>, i: nat, sub: Sub) {
    match sub.pc
    case Begun(_) => sub.code == |written|
    case Awaiting(_) => |written| == sub.code + 1 && written[sub.code] == i
    case Parked(_, _) => |written| == sub.code + 1 && written[sub.code] == i
    case Returned(result, _) => Retryable(result) ==> sub.code < |written| && written[sub.code] == i
    case _ => true
  }

  ghost predicate Inv(s: Sys) {
    && s.o == Heard(s.reports)
    && (forall i | i in s.subs :: CodeInv(s.written, i, s.subs[i]))
    && (forall k | 0 <= k < |s.reports| && s.reports[k].Final? :: !Retryable(s.reports[k].verdict))
    && (forall i | i in s.subs :: SubInv(s.o, s.reports, s.subs[i]))
    && (forall i | i in s.subs :: Inside(s.subs[i].pc) <==> s.holder == Some(i))
    && (s.holder.Some? ==> s.holder.value in s.subs)
  }

  lemma SubHears(s: Sys, r: Report, sub: Sub)
    requires s.o == Heard(s.reports) && SubInv(s.o, s.reports, sub)
    ensures SubInv(Hear(s.o, r), s.reports + [r], sub)
  {
    assert (s.reports + [r])[..sub.since] == s.reports[..sub.since];
    if sub.pc.Returned? {
      assert (s.reports + [r])[..sub.pc.at] == s.reports[..sub.pc.at];
    }
  }

  lemma ToldKeeps(s: Sys, r: Report)
    requires Inv(s) && (r.Final? ==> !Retryable(r.verdict))
    ensures Inv(Told(s, r))
  {
    HeardMore(s.reports, r);
    forall i | i in s.subs ensures SubInv(Hear(s.o, r), s.reports + [r], s.subs[i]) {
      SubHears(s, r, s.subs[i]);
    }
  }

  /** Moving one submission along, with submitMu as its position says. */
  lemma MoveKeeps(s: Sys, i: nat, sub: Sub, holder: Option<nat>)
    requires Inv(s) && SubInv(s.o, s.reports, sub) && CodeInv(s.written, i, sub)
    requires if Inside(sub.pc) then (s.holder.None? || s.holder == Some(i)) && holder == Some(i)
             else if s.holder == Some(i) then holder == None
             else holder == s.holder
    ensures Inv(s.(subs := s.subs[i := sub], holder := holder))
  {
  }

  /** Only the holder of submitMu writes. */
  lemma WriteKeeps(s: Sys, i: nat)
    requires Inv(s) && Act(s, Writes(i, true)).Some?
    ensures Inv(Act(s, Writes(i, true)).value)
  {
    var t := Act(s, Writes(i, true)).value;
    assert s.holder == Some(i);
    forall j | j in t.subs ensures CodeInv(t.written, j, t.subs[j]) {
      assert CodeInv(s.written, j, s.subs[j]);
    }
  }

  lemma ActKeeps(s: Sys, a: Action)
    requires Inv(s) && Act(s, a).Some?
    ensures Inv(Act(s, a).value)
  {
    assert s.reports[..|s.reports|] == s.reports;
    var t := Act(s, a).value;
    match a
    case Prints(line) =>
      if Classify(line).Some? {
        ToldKeeps(s, Classify(line).value);
      }
    case Exits(status) => ToldKeeps(s, Final(ExitVerdict(status)));
    case Submits(i) => MoveKeeps(s, i, t.subs[i], t.holder);
    case Locks(i) => MoveKeeps(s, i, t.subs[i], t.holder);
    case Begins(i) => MoveKeeps(s, i, t.subs[i], t.holder);
    case Writes(i, ok) => if ok { WriteKeeps(s, i); } else { MoveKeeps(s, i, t.subs[i], t.holder); }
    case Checks(i) => MoveKeeps(s, i, t.subs[i], t.holder);
    case Wakes(i) => MoveKeeps(s, i, t.subs[i], t.holder);
    case GivesUp(i) => MoveKeeps(s, i, t.subs[i], t.holder);
  }

  lemma {:induction false} Reachable(actions: seq<Action>)
    requires Run(actions).Some?
    ensures Inv(Run(actions).value)
  {
    if actions != [] {
      var k := |actions| - 1;
      Reachable(actions[..k]);
      ActKeeps(Run(actions[..k]).value, actions[k]);
    }
  }

  // ---- the theorems ----

  /** No lost wake-up: once there is a verdict for a parked submission its channel is closed, so
      it can wake, and its next look returns that verdict. */
  lemma NoLostWakeUp(actions: seq<Action>, i: nat)
    requires Run(actions).Some?
    requires var s := Run(actions).value;
             i in s.subs && s.subs[i].pc.Parked? && CheckAt(s.o, s.subs[i].pc.seen).Return?
    ensures var s := Run(actions).value;
            var end := Run(actions + [Wakes(i)] + [Checks(i)]);
            && end.Some?
            && end.value.subs[i].pc == Returned(CheckAt(s.o, s.subs[i].pc.seen).err, |s.reports|)
  {
    Reachable(actions);
    assert (actions + [Wakes(i)])[..|actions|] == actions;
    assert (actions + [Wakes(i)] + [Checks(i)])[..|actions| + 1] == actions + [Wakes(i)];
  }

  /** The first final verdict is what every later state holds. */
  lemma FirstVerdictStands(actions: seq<Action>)
    requires Run(actions).Some?
    ensures var s := Run(actions).value;
            && (s.o.finished <==> exists k: nat :: FirstFinal(s.reports, k))
            && (forall k: nat | FirstFinal(s.reports, k) :: s.o.err == s.reports[k].verdict)
  {
    Reachable(actions);
    HeardFirst(Run(actions).value.reports);
  }

  /** A submission that returns a retryable error returns the text of a rejection reported after
      it began, and nothing final had been reported by then. */
  lemma RetryableOnlyForLaterRejection(actions: seq<Action>, i: nat) returns (k: nat)
    requires Run(actions).Some?
    requires var s := Run(actions).value;
             i in s.subs && s.subs[i].pc.Returned? && Retryable(s.subs[i].pc.result)
    ensures var s := Run(actions).value;
            var sub := s.subs[i];
            && sub.since <= k < sub.pc.at <= |s.reports|
            && s.reports[k].InvalidCode? && sub.pc.result == Some(LoginError(s.reports[k].message, true))
            && (forall j | 0 <= j < sub.pc.at :: s.reports[j].InvalidCode?)
  {
    Reachable(actions);
    var s := Run(actions).value;
    var sub := s.subs[i];
    var before := s.reports[..sub.pc.at];
    HeardFirst(before);
    var now := Heard(before);
    forall f: nat | FirstFinal(before, f) ensures !Retryable(before[f].verdict) {
      assert before[f] == s.reports[f];
    }
    assert !now.finished;
    NoFinalYet(before);
    assert before[..sub.since] == s.reports[..sub.since];
    k := RejectedSince(before, sub.since);
    assert forall j | 0 <= j < |before| :: s.reports[j] == before[j];
  }

  // ---- what the CLI said ----

  /** The line, or the exit, says that the login succeeded. */
  predicate SaysSuccess(a: Action) {
    (a.Prints? && Contains(a.line, "Login successful")) || a == Exits(None)
  }

  /** That it failed, and how. */
  ghost predicate SaysFailure(a: Action, e: Error) {
    || (a.Prints? && !Contains(a.line, "Login successful") && FailsWith(a.line, e))
    || (a.Exits? && a.status.Some? && e == ExitedWithout(a.status.value))
  }

  ghost predicate FailsWith(line: string, e: Error) {
    exists before: string, after: string, marks: string, l: string, message: string, t: string ::
      FirstCut(line, "Login failed", before, after) && IsMessage(after, marks, l, message, t)
      && e == LoginError(message, false)
  }

  /** That a code is invalid, in these words. */
  ghost predicate SaysInvalid(a: Action, message: string) {
    && a.Prints? && !Contains(a.line, "Login successful") && !Contains(a.line, "Login failed")
    && exists before: string, after: string, t: string ::
         FirstCut(a.line, "Invalid code", before, after) && "Invalid code" + after == message + t
         && AllBlank(t) && Trimmed(message)
  }

  /** What an action reports. */
  function Reported(a: Action): Option<Report> {
    match a
    case Prints(line) => Classify(line)
    case Exits(status) => Some(Final(ExitVerdict(status)))
    case _ => None
  }

  lemma SuccessSaid(a: Action)
    ensures Reported(a) == Some(Final(None)) <==> SaysSuccess(a)
  {
    if a.Prints? {
      SuccessLine(a.line);
    }
  }

  lemma FailureSaid(a: Action, e: Error)
    ensures Reported(a) == Some(Final(Some(e))) <==> SaysFailure(a, e)
  {
    if a.Prints? {
      SuccessLine(a.line);
      if Reported(a) == Some(Final(Some(e))) {
        FailureInWords(a.line, e);
      }
      if SaysFailure(a, e) {
        var before: string, after: string, marks: string, l: string, message: string, t: string :|
          FirstCut(a.line, "Login failed", before, after) && IsMessage(after, marks, l, message, t)
          && e == LoginError(message, false);
        FailedLine(a.line, before, after, marks, l, message, t);
      }
    }
  }

  lemma FailureInWords(line: string, e: Error)
    requires Classify(line) == Some(Final(Some(e)))
    ensures !Contains(line, "Login successful") && FailsWith(line, e)
  {
    SuccessLine(line);
    IndexCuts(line, FAILED);
    var before, after, marks, l, message, t := FailedLineCuts(line);
    FailedLine(line, before, after, marks, l, message, t);
  }

  lemma InvalidSaid(a: Action, message: string)
    ensures Reported(a) == Some(InvalidCode(message)) <==> SaysInvalid(a, message)
  {
    if a.Prints? {
      if Reported(a) == Some(InvalidCode(message)) {
        InvalidInWords(a, message);
      }
      if SaysInvalid(a, message) {
        var before: string, after: string, t: string :|
          FirstCut(a.line, "Invalid code", before, after) && "Invalid code" + after == message + t
          && AllBlank(t) && Trimmed(message);
        InvalidLine(a.line, before, after, message, t);
      }
    }
  }

  lemma InvalidInWords(a: Action, message: string)
    requires a.Prints? && Classify(a.line) == Some(InvalidCode(message))
    ensures SaysInvalid(a, message)
  {
    IndexCuts(a.line, SUCCESSFUL);
    IndexCuts(a.line, FAILED);
    IndexCuts(a.line, INVALID);
    var before, after, text, t := InvalidLineCuts(a.line);
    InvalidLine(a.line, before, after, text, t);
  }

  function ReportsOf(actions: seq<Action>): seq<Report> {
    ReportsBy(Reported, actions)
  }

  function ReportsBy(said: Action -> Option<Report>, actions: seq<Action>): seq<Report> {
    if actions == [] then []
    else ReportsBy(said, actions[..|actions| - 1]) + Listed(said(actions[|actions| - 1]))
  }

  function Listed(r: Option<Report>): seq<Report> {
    if r.Some? then [r.value] else []
  }

  lemma ReportStep(s: Sys, a: Action)
    requires Act(s, a).Some?
    ensures Act(s, a).value.reports == s.reports + Listed(Reported(a))
  {
    assert s.reports + [] == s.reports;
  }

  lemma {:induction false} ReportsAreSaid(actions: seq<Action>)
    requires Run(actions).Some?
    ensures Run(actions).value.reports == ReportsOf(actions)
  {
    if actions != [] {
      var k := |actions| - 1;
      ReportsAreSaid(actions[..k]);
      ReportStep(Run(actions[..k]).value, actions[k]);
    }
  }

  predicate IsFinal(r: Option<Report>) {
    r.Some? && r.value.Final?
  }

  /** The action reports something final. */
  predicate Concludes(a: Action) {
    IsFinal(Reported(a))
  }

  predicate OnlyRejections(reports: seq<Report>) {
    forall j | 0 <= j < |reports| :: reports[j].InvalidCode?
  }

  lemma InvalidBefore(before: seq<Report>, r: Option<Report>)
    requires OnlyRejections(before + Listed(r))
    ensures OnlyRejections(before)
    ensures r.Some? ==> r.value.InvalidCode?
  {
    assert forall j | 0 <= j < |before| :: before[j] == (before + Listed(r))[j];
    if r.Some? {
      assert (before + Listed(r))[|before|] == r.value;
    }
  }

  lemma {:induction false} NothingConcluded(said: Action -> Option<Report>, actions: seq<Action>)
    requires OnlyRejections(ReportsBy(said, actions))
    ensures forall q | 0 <= q < |actions| :: !IsFinal(said(actions[q]))
  {
    if actions != [] {
      var k := |actions| - 1;
      InvalidBefore(ReportsBy(said, actions[..k]), said(actions[k]));
      NothingConcluded(said, actions[..k]);
    }
  }

  /** The action that the k-th report came from. */
  lemma {:induction false} ActionOf(said: Action -> Option<Report>, actions: seq<Action>, k: nat) returns (p: nat)
    requires k < |ReportsBy(said, actions)|
    ensures p < |actions| && said(actions[p]) == Some(ReportsBy(said, actions)[k])
    ensures ReportsBy(said, actions[..p]) == ReportsBy(said, actions)[..k]
  {
    var n := |actions| - 1;
    var before := ReportsBy(said, actions[..n]);
    if k < |before| {
      p := ActionOf(said, actions[..n], k);
      assert actions[..n][..p] == actions[..p];
      assert before[..k] == ReportsBy(said, actions)[..k];
    } else {
      p := n;
    }
  }

  /** The first verdict is what the CLI said first, as a line or by its exit. */
  lemma FirstSaid(actions: seq<Action>, k: nat) returns (p: nat)
    requires Run(actions).Some? && FirstFinal(Run(actions).value.reports, k)
    ensures p < |actions| && Reported(actions[p]) == Some(Run(actions).value.reports[k])
    ensures |ReportsOf(actions[..p])| == k && forall q | 0 <= q < p :: !Concludes(actions[q])
  {
    ReportsAreSaid(actions);
    p := ActionOf(Reported, actions, k);
    NothingConcluded(Reported, actions[..p]);
    forall q | 0 <= q < p ensures !Concludes(actions[q]) {
      assert actions[..p][q] == actions[q];
    }
  }

  /** Every report is what the CLI said: that the login succeeded, how it failed, or in which words it
      rejected a code. */
  lemma EveryReportIsSaid(actions: seq<Action>, k: nat) returns (p: nat)
    requires Run(actions).Some? && k < |Run(actions).value.reports|
    ensures p < |actions| && |ReportsOf(actions[..p])| == k
    ensures match Run(actions).value.reports[k]
            case Final(None) => SaysSuccess(actions[p])
            case Final(Some(e)) => SaysFailure(actions[p], e)
            case InvalidCode(message) => SaysInvalid(actions[p], message)
  {
    ReportsAreSaid(actions);
    p := ActionOf(Reported, actions, k);
    match Run(actions).value.reports[k]
    case Final(None) => SuccessSaid(actions[p]);
    case Final(Some(e)) => FailureSaid(actions[p], e);
    case InvalidCode(message) => InvalidSaid(actions[p], message);
  }

  /** One that returns success returns it because the CLI said so, in a line or by exiting without an
      error, before it had said anything else that is final. */
  lemma SuccessIsReported(actions: seq<Action>, i: nat) returns (k: nat, p: nat)
    requires Run(actions).Some?
    requires var s := Run(actions).value; i in s.subs && s.subs[i].pc.Returned? && s.subs[i].pc.result == None
    ensures var s := Run(actions).value; FirstFinal(s.reports, k) && s.reports[k] == Final(None) && k < s.subs[i].pc.at
    ensures p < |actions| && SaysSuccess(actions[p]) && |ReportsOf(actions[..p])| == k
    ensures forall q | 0 <= q < p :: !SaysSuccess(actions[q]) && forall e :: !SaysFailure(actions[q], e)
  {
    Reachable(actions);
    var s := Run(actions).value;
    var before := s.reports[..s.subs[i].pc.at];
    HeardFirst(before);
    k :| FirstFinal(before, k);
    assert forall j | 0 <= j < |before| :: s.reports[j] == before[j];
    p := FirstSaid(actions, k);
    SuccessSaid(actions[p]);
    NothingSaid(actions, p);
  }

  lemma NothingSaid(actions: seq<Action>, p: nat)
    requires p <= |actions| && forall q | 0 <= q < p :: !Concludes(actions[q])
    ensures forall q | 0 <= q < p :: !SaysSuccess(actions[q]) && forall e :: !SaysFailure(actions[q], e)
  {
    forall q | 0 <= q < p ensures !SaysSuccess(actions[q]) && forall e :: !SaysFailure(actions[q], e) {
      SuccessSaid(actions[q]);
      forall e ensures !SaysFailure(actions[q], e) {
        FailureSaid(actions[q], e);
      }
    }
  }

  /** The step at which a submission returned, and what made it return that. */
  predicate ReturnsBecause(s: Sys, a: Action, i: nat, result: Option<Error>) {
    match a
    case Begins(j) => j == i && s.o.finished && result == Some(AlreadyFinished(s.o.err))
    case Writes(j, ok) => j == i && !ok && result == Some(WriteFailed)
    case GivesUp(j) => j == i && result == Some(Cancelled)
    case Checks(j) => j == i && result == if s.o.finished then s.o.err else Some(LoginError(s.o.message, true))
    case _ => false
  }

  lemma ReturnStep(s: Sys, a: Action, i: nat)
    requires Act(s, a).Some? && i in Act(s, a).value.subs && Act(s, a).value.subs[i].pc.Returned?
    requires !(i in s.subs && s.subs[i].pc.Returned?)
    ensures ReturnsBecause(s, a, i, Act(s, a).value.subs[i].pc.result)
    ensures Act(s, a).value.subs[i].pc.at == |s.reports|
  {
  }

  lemma ReturnedStays(s: Sys, a: Action, i: nat)
    requires Act(s, a).Some? && i in s.subs && s.subs[i].pc.Returned?
    ensures i in Act(s, a).value.subs && Act(s, a).value.subs[i] == s.subs[i]
  {
  }

  /** Every result has its reason: the login was over when the submission began, the write failed, its
      context ended, the verdict, or else the text of the latest rejection. */
  lemma {:induction false} ResultTellsWhy(actions: seq<Action>, i: nat) returns (k: nat)
    requires Run(actions).Some?
    requires var s := Run(actions).value; i in s.subs && s.subs[i].pc.Returned?
    ensures k < |actions| && Run(actions[..k]).Some?
    ensures var s := Run(actions[..k]).value;
            ReturnsBecause(s, actions[k], i, Run(actions).value.subs[i].pc.result)
            && Run(actions).value.subs[i].pc.at == |s.reports|
  {
    var n := |actions| - 1;
    var s := Run(actions[..n]).value;
    if i in s.subs && s.subs[i].pc.Returned? {
      ReturnedStays(s, actions[n], i);
      k := ResultTellsWhy(actions[..n], i);
      assert actions[..n][..k] == actions[..k];
    } else {
      ReturnStep(s, actions[n], i);
      k := n;
    }
  }

  /** submitMu: at most one submission is between its lock and its return. */
  lemma OneSubmissionAtATime(actions: seq<Action>, i: nat, j: nat)
    requires Run(actions).Some?
    requires var s := Run(actions).value;
             i in s.subs && j in s.subs && Inside(s.subs[i].pc) && Inside(s.subs[j].pc)
    ensures i == j
  {
    Reachable(actions);
  }

  // ---- whose code a rejection is about ----

  predicate Rejects(a: Action) {
    a.Prints? && Classify(a.line).Some? && Classify(a.line).value.InvalidCode?
  }

  /** The CLI answers the codes written to it in order: it rejects only a code that it has not
      answered yet. */
  predicate Orderly(actions: seq<Action>) {
    actions == []
    || (var k := |actions| - 1;
        && Orderly(actions[..k])
        && (Rejects(actions[k]) && Run(actions[..k]).Some? ==>
              var s := Run(actions[..k]).value; s.o.invalid < |s.written|))
  }

  /** The rejection that i returned, the last before it did, is about the code that i wrote: the n-th
      rejection answers the n-th code. */
  predicate Owns(s: Sys, i: nat) {
    && i in s.subs && s.subs[i].pc.Returned? && s.subs[i].pc.at <= |s.reports|
    && s.subs[i].code < |s.written| && s.written[s.subs[i].code] == i
    && Heard(s.reports[..s.subs[i].pc.at]).invalid == s.subs[i].code + 1
  }

  /** A submission that returned a retryable error had seen no more rejections than codes written. */
  predicate Answered(s: Sys, sub: Sub) {
    sub.pc.Returned? && Retryable(sub.pc.result) ==>
      sub.pc.at <= |s.reports| && Heard(s.reports[..sub.pc.at]).invalid <= sub.code + 1
  }

  ghost predicate OrderlyInv(s: Sys) {
    s.o.invalid <= |s.written| && forall i | i in s.subs :: Answered(s, s.subs[i])
  }

  lemma AnsweredStays(s: Sys, r: Report, sub: Sub)
    requires Answered(s, sub)
    ensures Answered(Told(s, r), sub)
  {
    if sub.pc.Returned? && sub.pc.at <= |s.reports| {
      assert (s.reports + [r])[..sub.pc.at] == s.reports[..sub.pc.at];
    }
  }

  lemma OrderlyKeeps(s: Sys, a: Action)
    requires Inv(s) && OrderlyInv(s) && Act(s, a).Some? && (Rejects(a) ==> s.o.invalid < |s.written|)
    ensures OrderlyInv(Act(s, a).value)
  {
    assert s.reports[..|s.reports|] == s.reports;
    var t := Act(s, a).value;
    if a.Prints? && Classify(a.line).Some? {
      forall i | i in t.subs ensures Answered(t, t.subs[i]) {
        AnsweredStays(s, Classify(a.line).value, s.subs[i]);
      }
    } else if a.Exits? {
      forall i | i in t.subs ensures Answered(t, t.subs[i]) {
        AnsweredStays(s, Final(ExitVerdict(a.status)), s.subs[i]);
      }
    } else if a.Checks? {
      CheckAnswered(s, a.i);
    }
  }

  lemma CheckAnswered(s: Sys, i: nat)
    requires Inv(s) && OrderlyInv(s) && Act(s, Checks(i)).Some?
    ensures OrderlyInv(Act(s, Checks(i)).value)
  {
    assert s.reports[..|s.reports|] == s.reports;
  }

  lemma {:induction false} OrderlyReachable(actions: seq<Action>)
    requires Orderly(actions) && Run(actions).Some?
    ensures OrderlyInv(Run(actions).value)
  {
    if actions != [] {
      var k := |actions| - 1;
      OrderlyReachable(actions[..k]);
      Reachable(actions[..k]);
      OrderlyKeeps(Run(actions[..k]).value, actions[k]);
    }
  }

  /** Once a submission has begun, the point it counts from and its place in line stay, and what was
      reported before stays reported. */
  predicate SameStart(s: Sys, t: Sys, i: nat) {
    && i in s.subs && i in t.subs && t.subs[i].since == s.subs[i].since && t.subs[i].code == s.subs[i].code
    && !t.subs[i].pc.Queued? && !t.subs[i].pc.Holding? && s.reports <= t.reports
  }

  lemma StartStays(s: Sys, t: Sys, a: Action, i: nat)
    requires SameStart(s, t, i) && Act(t, a).Some?
    ensures SameStart(s, Act(t, a).value, i)
  {
  }

  lemma {:induction false} StartFrom(actions: seq<Action>, more: seq<Action>, i: nat)
    requires Run(actions).Some? && Run(actions + more).Some?
    requires var s := Run(actions).value; i in s.subs && !s.subs[i].pc.Queued? && !s.subs[i].pc.Holding?
    ensures SameStart(Run(actions).value, Run(actions + more).value, i)
    decreases |more|
  {
    if more == [] {
      assert actions + more == actions;
    } else {
      var k := |more| - 1;
      assert (actions + more)[..|actions| + k] == actions + more[..k];
      StartFrom(actions, more[..k], i);
      StartStays(Run(actions).value, Run(actions + more[..k]).value, more[k], i);
    }
  }

  /** If every code written before had been answered when i began, a retryable error that i returns is
      about its own code. */
  lemma OwnIfNoneOutstanding(actions: seq<Action>, more: seq<Action>, i: nat)
    requires Orderly(actions + more) && Run(actions).Some? && Run(actions + more).Some?
    requires var s := Run(actions).value; i in s.subs && s.subs[i].pc.Begun? && s.subs[i].pc.seen == |s.written|
    requires var t := Run(actions + more).value;
             i in t.subs && t.subs[i].pc.Returned? && Retryable(t.subs[i].pc.result)
    ensures Owns(Run(actions + more).value, i)
  {
    Reachable(actions);
    Reachable(actions + more);
    OrderlyReachable(actions + more);
    StartFrom(actions, more, i);
    var s, t := Run(actions).value, Run(actions + more).value;
    var sub := t.subs[i];
    assert t.reports[..sub.since] == s.reports[..sub.since];
    assert Answered(t, sub) && CodeInv(t.written, i, sub) && SubInv(t.o, t.reports, sub);
    var n := Heard(t.reports[..sub.pc.at]).invalid;
    NotFinal(t, i);
    assert n > Heard(t.reports[..sub.since]).invalid;
  }

  /** A retryable error is returned only before any final verdict. */
  lemma NotFinal(s: Sys, i: nat)
    requires Inv(s) && i in s.subs && s.subs[i].pc.Returned? && Retryable(s.subs[i].pc.result)
    ensures s.subs[i].pc.at <= |s.reports| && !Heard(s.reports[..s.subs[i].pc.at]).finished
  {
    var before := s.reports[..s.subs[i].pc.at];
    HeardFirst(before);
    forall f: nat | FirstFinal(before, f) ensures !Retryable(before[f].verdict) {
      assert before[f] == s.reports[f];
    }
  }

  lemma NoSuch(line: string, sub: string)
    requires sub != "" && sub[0] !in line
    ensures Index(line, sub) < 0
  {
    assert forall i | 0 <= i <= |line| && sub <= line[i..] :: line[i..][0] in line;
  }

  lemma InvalidIsRejection()
    ensures Rejects(Prints(INVALID))
  {
    NoSuch(INVALID, SUCCESSFUL);
    NoSuch(INVALID, FAILED);
    assert INVALID[0..] == INVALID;
  }

  lemma Then(actions: seq<Action>, a: Action)
    requires Run(actions).Some? && Act(Run(actions).value, a).Some? && Orderly(actions)
    requires Rejects(a) ==> Run(actions).value.o.invalid < |Run(actions).value.written|
    ensures Run(actions + [a]) == Act(Run(actions).value, a) && Orderly(actions + [a])
  {
    assert (actions + [a])[..|actions|] == actions;
  }

  /** Submission i is written, and some rejection since it began is not of its code. */
  predicate Misled(s: Sys, i: nat) {
    && i in s.subs && s.subs[i].pc.Awaiting? && !s.o.finished
    && s.subs[i].pc.seen < s.o.invalid < |s.written|
  }

  lemma Rejection(s: Sys, i: nat)
    requires Inv(s) && i in s.subs && s.subs[i].pc.Awaiting? && !s.o.finished
    requires s.subs[i].pc.seen == s.o.invalid && s.o.invalid + 1 < |s.written|
    ensures Act(s, Prints(INVALID)).Some? && Misled(Act(s, Prints(INVALID)).value, i)
  {
    InvalidIsRejection();
  }

  lemma WritesCode(actions: seq<Action>, i: nat) returns (run: seq<Action>)
    requires Orderly(actions) && Run(actions).Some?
    requires var s := Run(actions).value; i in s.subs && s.subs[i].pc.Begun?
    ensures run == actions + [Writes(i, true)] && Orderly(run) && Run(run).Some?
    ensures var s, t := Run(actions).value, Run(run).value;
            && i in t.subs && t.subs[i].pc == Awaiting(s.subs[i].pc.seen)
            && t.o == s.o && t.written == s.written + [i]
  {
    Then(actions, Writes(i, true));
    run := actions + [Writes(i, true)];
  }

  lemma Misleads(actions: seq<Action>, i: nat) returns (more: seq<Action>)
    requires Orderly(actions) && Run(actions).Some?
    requires var s := Run(actions).value;
             i in s.subs && s.subs[i].pc.Begun? && s.subs[i].pc.seen < |s.written| && !s.o.finished
    ensures Orderly(actions + more) && Run(actions + more).Some? && Misled(Run(actions + more).value, i)
  {
    Reachable(actions);
    CodesLeft(actions, i);
    var s := Run(actions).value;
    InvalidGrows(s.reports, s.subs[i].since);
    var run := WritesCode(actions, i);
    if s.o.invalid == s.subs[i].pc.seen {
      more := MisledByNext(run, i);
      assert actions + ([Writes(i, true)] + more) == run + more;
      more := [Writes(i, true)] + more;
    } else {
      more := [Writes(i, true)];
    }
  }

  lemma MisledByNext(run: seq<Action>, i: nat) returns (more: seq<Action>)
    requires Orderly(run) && Run(run).Some?
    requires var s := Run(run).value;
             i in s.subs && s.subs[i].pc.Awaiting? && !s.o.finished
             && s.subs[i].pc.seen == s.o.invalid && s.o.invalid + 1 < |s.written|
    ensures Orderly(run + more) && Run(run + more).Some? && Misled(Run(run + more).value, i)
  {
    Reachable(run);
    Rejection(Run(run).value, i);
    Then(run, Prints(INVALID));
    more := [Prints(INVALID)];
  }

  /** The codes written exceed the rejections by more than i's own. */
  lemma CodesLeft(actions: seq<Action>, i: nat)
    requires Orderly(actions) && Run(actions).Some?
    ensures Run(actions).value.o.invalid <= |Run(actions).value.written|
  {
    OrderlyReachable(actions);
  }

  /** And if some code had not been answered, i may return the rejection of another's. */
  lemma OthersIfOutstanding(actions: seq<Action>, i: nat) returns (more: seq<Action>)
    requires Orderly(actions) && Run(actions).Some?
    requires var s := Run(actions).value;
             i in s.subs && s.subs[i].pc.Begun? && s.subs[i].pc.seen < |s.written| && !s.o.finished
    ensures Orderly(actions + more) && MayRetry(actions + more, i) && !Owns(Run(actions + more).value, i)
  {
    var misled := Misleads(actions, i);
    var run := actions + misled;
    Reachable(run);
    ReturnsOthers(Run(run).value, i);
    Then(run, Checks(i));
    more := misled + [Checks(i)];
    assert actions + more == run + [Checks(i)];
  }

  lemma ReturnsOthers(s: Sys, i: nat)
    requires Inv(s) && Misled(s, i)
    ensures var t := CheckStep(s, i, s.subs[i].pc.seen);
            t.subs[i].pc.Returned? && Retryable(t.subs[i].pc.result) && !Owns(t, i)
  {
    assert s.reports[..|s.reports|] == s.reports;
  }

  lemma {:induction false} InvalidGrows(reports: seq<Report>, k: nat)
    requires k <= |reports|
    ensures Heard(reports[..k]).invalid <= Heard(reports).invalid
  {
    if k < |reports| {
      var n := |reports| - 1;
      assert reports[..n][..k] == reports[..k];
      InvalidGrows(reports[..n], k);
    } else {
      assert reports[..k] == reports;
    }
  }

  /** So a submission can rely on its retryable error exactly when every code written before it had
      been answered when it began. */
  lemma OwnRejectionIff(actions: seq<Action>, i: nat)
    requires Orderly(actions) && Run(actions).Some?
    requires var s := Run(actions).value; i in s.subs && s.subs[i].pc.Begun? && !s.o.finished
    ensures Run(actions).value.subs[i].pc.seen == |Run(actions).value.written| <==>
              forall more | Orderly(actions + more) && MayRetry(actions + more, i) :: Owns(Run(actions + more).value, i)
  {
    Reachable(actions);
    OrderlyReachable(actions);
    var s := Run(actions).value;
    InvalidGrows(s.reports, s.subs[i].since);
    if s.subs[i].pc.seen == |s.written| {
      forall more | Orderly(actions + more) && MayRetry(actions + more, i) ensures Owns(Run(actions + more).value, i) {
        OwnIfNoneOutstanding(actions, more, i);
      }
    } else {
      var more := OthersIfOutstanding(actions, i);
      assert MayRetry(actions + more, i);
    }
  }

  /** The submission returned a retryable error in this run. */
  predicate MayRetry(actions: seq<Action>, i: nat) {
    && Run(actions).Some? && i in Run(actions).value.subs
    && Run(actions).value.subs[i].pc.Returned? && Retryable(Run(actions).value.subs[i].pc.result)
  }

  lemma Begin0() returns (actions: seq<Action>)
    ensures Orderly(actions) && Run(actions).Some?
    ensures var s := Run(actions).value;
            && s.o == NEW && s.reports == [] && s.written == [] && 1 !in s.subs
            && 0 in s.subs && s.subs[0] == Sub(Begun(0), 0, 0)
  {
    actions := [];
    actions := Next(actions, Submits(0));
    actions := Next(actions, Locks(0));
    actions := Next(actions, Begins(0));
  }

  /** One caller's code is written and given up. */
  lemma GivenUp() returns (actions: seq<Action>)
    ensures Orderly(actions) && Run(actions).Some?
    ensures var s := Run(actions).value;
            s.o == NEW && s.reports == [] && s.written == [0] && 1 !in s.subs && s.holder == None
  {
    actions := Begin0();
    actions := Next(actions, Writes(0, true));
    actions := Next(actions, Checks(0));
    actions := Next(actions, GivesUp(0));
  }

  lemma Next(actions: seq<Action>, a: Action) returns (more: seq<Action>)
    requires Run(actions).Some? && Act(Run(actions).value, a).Some? && Orderly(actions) && !a.Prints?
    ensures Run(more) == Act(Run(actions).value, a) && Orderly(more)
  {
    more := actions + [a];
    Then(actions, a);
  }

  /** The next caller's retryable error may be about that code. */
  lemma RejectionOfAnothersCode() returns (actions: seq<Action>)
    ensures Orderly(actions) && MayRetry(actions, 1) && !Owns(Run(actions).value, 1)
  {
    actions := GivenUp();
    actions := Next(actions, Submits(1));
    actions := Next(actions, Locks(1));
    actions := Next(actions, Begins(1));
    var more := OthersIfOutstanding(actions, 1);
    actions := actions + more;
  }
}
