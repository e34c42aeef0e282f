/** auth_submit.go: what a login CLI has reported, a channel that is closed and replaced on every
    report, and the submissions that wait for a verdict. */
module Login {
  import opened Events
  import opened Bytes

  // ---- what the CLI reports ----

  datatype Error =
    | LoginError(message: string, retryable: bool)
    | ExitedWithout(status: string)
    | AlreadyFinished(verdict: Option<Error>)
    | WriteFailed
    | Cancelled

  /** A report: a final verdict, None for success, or one more rejected code. */
  datatype Report = Final(verdict: Option<Error>) | InvalidCode(message: string)

  /** The first position of sub in line, or -1. */
  function Index(line: string, sub: string): (i: int)
    ensures -1 <= i <= |line|
    ensures i >= 0 ==> sub <= line[i..]
    ensures i < 0 ==> forall j | 0 <= j <= |line| :: !(sub <= line[j..])
    ensures forall j | 0 <= j < i :: !(sub <= line[j..])
  {
    FindFrom(line, sub, 0)
  }

  function FindFrom(line: string, sub: string, i: nat): (k: int)
    requires i <= |line|
    requires forall j | 0 <= j < i :: !(sub <= line[j..])
    ensures -1 <= k <= |line|
    ensures k >= 0 ==> sub <= line[k..]
    ensures k < 0 ==> forall j | 0 <= j <= |line| :: !(sub <= line[j..])
    ensures forall j | 0 <= j < k :: !(sub <= line[j..])
    decreases |line| - i
  {
    if sub <= line[i..] then i else if i == |line| then -1 else FindFrom(line, sub, i + 1)
  }

  function TrimColonOrDot(s: string): string {
    if s != "" && (s[0] == ':' || s[0] == '.') then TrimColonOrDot(s[1..]) else s
  }

  const SUCCESSFUL := "Login successful"
  const FAILED := "Login failed"
  const INVALID := "Invalid code"

  /** What one line of output reports, if anything. */
  function Classify(line: string): Option<Report> {
    if Index(line, SUCCESSFUL) >= 0 then Some(Final(None))
    else if Index(line, FAILED) >= 0 then
      var after := line[Index(line, FAILED)..][|FAILED|..];
      Some(Final(Some(LoginError(Trim(TrimColonOrDot(after)), false))))
    else if Index(line, INVALID) >= 0 then Some(InvalidCode(Trim(line[Index(line, INVALID)..])))
    else None
  }

  predicate Contains(line: string, sub: string) {
    exists i :: 0 <= i <= |line| && sub <= line[i..]
  }

  /** The line is `before`, the first occurrence of sub, and `after`. */
  predicate FirstCut(line: string, sub: string, before: string, after: string) {
    && line == before + (sub + after)
    && forall i | 0 <= i < |before| :: !(sub <= line[i..])
  }

  lemma IndexCuts(line: string, sub: string)
    ensures Contains(line, sub) <==> Index(line, sub) >= 0
    ensures Index(line, sub) >= 0 ==>
              var i := Index(line, sub);
              FirstCut(line, sub, line[..i], line[i..][|sub|..]) && line[i..] == sub + line[i..][|sub|..]
  {
    var i := Index(line, sub);
    if i >= 0 {
      assert line == line[..i] + line[i..];
    }
  }

  /** There is only one such cut. */
  lemma FirstCutIsIndex(line: string, sub: string, before: string, after: string)
    requires FirstCut(line, sub, before, after)
    ensures Index(line, sub) == |before| && line[|before|..] == sub + after && line[|before|..][|sub|..] == after
  {
    assert line[|before|..] == sub + after;
    assert sub <= line[|before|..];
    assert |before| <= |line|;
  }

  predicate Mark(c: char) {
    c == ':' || c == '.'
  }

  lemma {:induction false} MarksTrimmed(marks: string, text: string)
    requires (forall i | 0 <= i < |marks| :: Mark(marks[i])) && (text == "" || !Mark(text[0]))
    ensures TrimColonOrDot(marks + text) == text
  {
    if marks == "" {
      assert marks + text == text;
    } else {
      assert (marks + text)[1..] == marks[1..] + text;
      MarksTrimmed(marks[1..], text);
    }
  }

  /** A line reports success exactly when it says so. */
  lemma SuccessLine(line: string)
    ensures Classify(line) == Some(Final(None)) <==> Contains(line, "Login successful")
  {
    IndexCuts(line, SUCCESSFUL);
  }

  /** Else a line that says that a code is invalid reports that text, without outer blanks. */
  lemma InvalidLine(line: string, before: string, after: string, message: string, t: string)
    requires !Contains(line, "Login successful") && !Contains(line, "Login failed")
    requires FirstCut(line, "Invalid code", before, after)
    requires "Invalid code" + after == message + t && AllBlank(t) && Trimmed(message)
    ensures Classify(line) == Some(InvalidCode(message))
  {
    IndexCuts(line, SUCCESSFUL);
    IndexCuts(line, FAILED);
    FirstCutIsIndex(line, INVALID, before, after);
    assert message + t == "" + message + t;
    TrimIs("", message, t);
  }

  lemma {:induction false} MarksOf(s: string) returns (marks: string, text: string)
    ensures s == marks + text && (forall i | 0 <= i < |marks| :: Mark(marks[i])) && (text == "" || !Mark(text[0]))
  {
    if s != "" && Mark(s[0]) {
      marks, text := MarksOf(s[1..]);
      assert s == [s[0]] + (marks + text);
      marks := [s[0]] + marks;
    } else {
      marks, text := "", s;
    }
  }

  /** What follows "Login failed", in parts. */
  predicate IsMessage(after: string, marks: string, l: string, message: string, t: string) {
    && after == marks + (l + (message + t))
    && (forall i | 0 <= i < |marks| :: Mark(marks[i]))
    && (l + (message + t) == "" || !Mark((l + (message + t))[0]))
    && AllBlank(l) && AllBlank(t) && Trimmed(message)
  }

  lemma MessageOf(after: string) returns (marks: string, l: string, message: string, t: string)
    ensures IsMessage(after, marks, l, message, t)
  {
    var text;
    marks, text := MarksOf(after);
    l, t := TrimParts(text);
    message := Trim(text);
    Regroup(l, message, t);
  }

  lemma Regroup(l: string, message: string, t: string)
    ensures l + message + t == l + (message + t)
  {
  }

  /** Else a line that says that the login failed reports what it says after that, without the colons
      and dots that follow and without outer blanks, as an error that no other code will mend. */
  lemma FailedLine(line: string, before: string, after: string, marks: string, l: string, message: string, t: string)
    requires !Contains(line, "Login successful") && FirstCut(line, "Login failed", before, after)
    requires IsMessage(after, marks, l, message, t)
    ensures Classify(line) == Some(Final(Some(LoginError(message, false))))
  {
    var text := l + (message + t);
    IndexCuts(line, SUCCESSFUL);
    FirstCutIsIndex(line, FAILED, before, after);
    MarksTrimmed(marks, text);
    Regroup(l, message, t);
    TrimIs(l, message, t);
  }

  /** Every line that says so has these parts. */
  lemma FailedLineCuts(line: string)
    returns (before: string, after: string, marks: string, l: string, message: string, t: string)
    requires Contains(line, "Login failed")
    ensures FirstCut(line, "Login failed", before, after) && IsMessage(after, marks, l, message, t)
  {
    IndexCuts(line, FAILED);
    before, after := line[..Index(line, FAILED)], line[Index(line, FAILED)..][|FAILED|..];
    marks, l, message, t := MessageOf(after);
  }

  lemma InvalidLineCuts(line: string) returns (before: string, after: string, message: string, t: string)
    requires Contains(line, "Invalid code")
    ensures FirstCut(line, "Invalid code", before, after)
    ensures "Invalid code" + after == message + t && AllBlank(t) && Trimmed(message)
  {
    IndexCuts(line, INVALID);
    before, after := line[..Index(line, INVALID)], line[Index(line, INVALID)..][|INVALID|..];
    var text := INVALID + after;
    assert text[0] == 'I' && !Blank('I') && Leading(text) == 0;
    t := TrimRightParts(text);
    message := TrimRight(text);
    StillTrimmed(message, t);
  }

  /** And any other line reports nothing. */
  lemma OtherLine(line: string)
    ensures Classify(line).None? <==>
              !Contains(line, "Login successful") && !Contains(line, "Login failed") && !Contains(line, "Invalid code")
  {
    IndexCuts(line, SUCCESSFUL);
    IndexCuts(line, FAILED);
    IndexCuts(line, INVALID);
  }

  function ExitVerdict(status: Option<string>): Option<Error> {
    match status
    case None => None
    case Some(s) => Some(ExitedWithout(s))
  }

  // ---- the monitor's state; channels are numbered, and all before `channel` are closed ----

  datatype Outcome = Outcome(invalid: nat, message: string, finished: bool, err: Option<Error>, channel: nat)

  const NEW := Outcome(0, "", false, None, 0)

  function Hear(o: Outcome, r: Report): Outcome {
    match r
    case Final(verdict) =>
      if o.finished then o else o.(finished := true, err := verdict, channel := o.channel + 1)
    case InvalidCode(message) => o.(invalid := o.invalid + 1, message := message, channel := o.channel + 1)
  }

  class Channel {
    var closed: bool

    constructor ()
      ensures !closed
    {
      closed := false;
    }

    method Close()
      requires !closed
      modifies this
      ensures closed
    {
      closed := true;
    }
  }

  class LoginOutcome {
    var changed: Channel
    var invalid: nat
    var invalidMsg: string
    var finished: bool
    var err: Option<Error>
    ghost var channels: seq<Channel>

    /** Every channel ever made is closed, but for the current one. */
    ghost predicate Valid()
      reads this, channels
    {
      && channels != [] && changed == channels[|channels| - 1] && changed !in channels[..|channels| - 1]
      && forall c | c in channels :: c.closed <==> c != changed
    }

    ghost function View(): Outcome
      reads this
      requires channels != []
    {
      Outcome(invalid, invalidMsg, finished, err, |channels| - 1)
    }

    constructor ()
      ensures Valid() && View() == NEW && fresh(channels)
    {
      changed := new Channel();
      invalid, invalidMsg, finished, err := 0, "", false, None;
      channels := [changed];
    }

    method NotifyLocked()
      requires Valid()
      modifies this`changed, this`channels, changed
      ensures Valid() && fresh(changed) && channels == old(channels) + [changed]
      ensures View() == old(View()).(channel := old(View()).channel + 1)
    {
      changed.Close();
      changed := new Channel();
      channels := channels + [changed];
    }

    method Finish(verdict: Option<Error>)
      requires Valid()
      modifies this, changed
      ensures Valid() && View() == Hear(old(View()), Final(verdict))
      ensures channels == old(channels) || (channels == old(channels) + [changed] && fresh(changed))
    {
      if finished {
        return;
      }
      finished := true;
      err := verdict;
      NotifyLocked();
    }

    method Exit(status: Option<string>)
      requires Valid()
      modifies this, changed
      ensures Valid() && View() == Hear(old(View()), Final(ExitVerdict(status)))
    {
      Finish(if status.None? then None else Some(ExitedWithout(status.value)));
    }

    method Observe(line: string)
      requires Valid()
      modifies this, changed
      ensures Valid()
      ensures View() == match Classify(line) case None => old(View()) case Some(r) => Hear(old(View()), r)
    {
      if Index(line, SUCCESSFUL) >= 0 {
        Finish(None);
      } else if Index(line, FAILED) >= 0 {
        var msg := line[Index(line, FAILED)..][|FAILED|..];
        msg := Trim(TrimColonOrDot(msg));
        Finish(Some(LoginError(msg, false)));
      } else {
        var i := Index(line, INVALID);
        if i >= 0 {
          invalid := invalid + 1;
          invalidMsg := Trim(line[i..]);
          NotifyLocked();
        }
      }
    }

    method Begin() returns (seen: nat, error: Option<Error>)
      requires Valid()
      ensures (seen, error) == BeginAt(View())
    {
      if finished {
        return 0, Some(AlreadyFinished(err));
      }
      return invalid, None;
    }

    /** The locked half of one pass through await's loop: a result, or the channel to wait on. */
    method Check(seen: nat) returns (r: Checked, ch: Channel)
      requires Valid()
      ensures r == CheckAt(View(), seen)
      ensures ch == channels[View().channel] && !ch.closed
    {
      ch := changed;
      if finished {
        r := Return(err);
      } else if invalid > seen {
        r := Return(Some(LoginError(invalidMsg, true)));
      } else {
        r := Park;
      }
    }
  }

  function BeginAt(o: Outcome): (nat, Option<Error>) {
    if o.finished then (0, Some(AlreadyFinished(o.err))) else (o.invalid, None)
  }

  /** One pass of await's loop returns, or waits on the channel of that moment. */
  datatype Checked = Return(err: Option<Error>) | Park

  function CheckAt(o: Outcome, seen: nat): Checked {
    if o.finished then Return(o.err)
    else if o.invalid > seen then Return(Some(LoginError(o.message, true)))
    else Park
  }
}
