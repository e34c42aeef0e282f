/** With callers that only query, a query ends at exactly the result of the turn that
    consumed its prompt, whatever turns the CLI runs on its own. */
module RightAnswer {
  import opened Events
  import opened SessionModel
  import opened Turns

  /** How far the lines have come with the latest query: nothing read of it, its prompt
      consumed into a turn (echoed or not; a notification turn or its own), answered. */
  datatype Mode = Quiet | Open(echoed: bool, notification: bool) | Answered(result: Result)

  /** A line about a turn that the CLI started by itself. */
  predicate IsQuiet(line: Line) {
    match line
    case InitLine(opens) => opens.None?
    case EchoLine(_) => false
    case OtherEcho(parent, origin) => parent != "" || !origin.FromCaller()
    case ResultLine(r, answers) => answers == [] && r.origin.TaskNotification? && !r.unsolicited
  }

  predicate Answers(line: Line, q: nat, notification: bool) {
    && line.ResultLine? && line.answers == [q] && !line.result.unsolicited
    && (if notification then line.result.origin.TaskNotification? else line.result.origin.FromCaller())
  }

  /** Which line may come next. A prompt folded into a notification turn is echoed; its
      own turn opens with an init and ends with a result of no other origin. */
  predicate Legal(m: Mode, line: Line, q: nat) {
    match m
    case Quiet => IsQuiet(line) || line == InitLine(Some(q)) || line == EchoLine(q)
    case Answered(_) => IsQuiet(line)
    case Open(echoed, notification) =>
      || (line.OtherEcho? && IsQuiet(line))
      || (line == EchoLine(q) && !echoed && !notification)
      || (Answers(line, q, notification) && (notification ==> echoed))
  }

  function Advance(m: Mode, line: Line): Mode {
    match m
    case Quiet => if line.EchoLine? then Open(true, true) else if IsQuiet(line) then Quiet else Open(false, false)
    case Answered(_) => m
    case Open(_, notification) =>
      if line.EchoLine? then Open(true, notification) else if line.ResultLine? then Answered(line.result) else m
  }

  predicate LegalAll(m: Mode, lines: seq<Line>, q: nat)
    decreases |lines|
  {
    lines == [] || (Legal(m, lines[0], q) && LegalAll(Advance(m, lines[0]), lines[1..], q))
  }

  function AdvanceAll(m: Mode, lines: seq<Line>): Mode
    decreases |lines|
  {
    if lines == [] then m else AdvanceAll(Advance(m, lines[0]), lines[1..])
  }

  predicate AllQuiet(lines: seq<Line>) {
    forall i | 0 <= i < |lines| :: IsQuiet(lines[i])
  }

  lemma {:induction false} Append(m: Mode, a: seq<Line>, b: seq<Line>, q: nat)
    ensures LegalAll(m, a + b, q) <==> LegalAll(m, a, q) && LegalAll(AdvanceAll(m, a), b, q)
    ensures AdvanceAll(m, a + b) == AdvanceAll(AdvanceAll(m, a), b)
    decreases |a|
  {
    if a == [] {
      assert a + b == b;
    } else {
      assert (a + b)[1..] == a[1..] + b;
      Append(Advance(m, a[0]), a[1..], b, q);
    }
  }

  lemma OneLine(m: Mode, line: Line, q: nat)
    ensures LegalAll(m, [line], q) <==> Legal(m, line, q)
    ensures AdvanceAll(m, [line]) == Advance(m, line)
  {
    assert [line][1..] == [];
  }

  lemma {:induction false} QuietStays(m: Mode, lines: seq<Line>, q: nat)
    requires AllQuiet(lines) && !m.Open?
    ensures LegalAll(m, lines, q) && AdvanceAll(m, lines) == m
  {
    if lines != [] {
      QuietStays(m, lines[1..], q);
    }
  }

  // ---- the invariant ----

  /** A turn without any caller's message. */
  predicate OwnTurn(t: Turn) {
    t.NoTurn? || (t.notification && t.consumed == [] && !t.echoed)
  }

  /** The read loop has read the pending query's result and not yet tracked it. */
  predicate Answering(y: Sys) {
    y.rl.Own? || y.rl.Loaded? || y.rl.Cleared? || (y.rl.Ended? && y.rl.line.ResultLine? && y.rl.line.answers != [])
  }

  /** Where the pending query is, given how far the lines will have come. */
  ghost predicate Position(y: Sys, q: nat, m: Mode) {
    match m
    case Quiet =>
      && OwnTurn(y.cli.turn)
      && (if y.cli.stdin == [] then q in y.calls || y.lost
          else q !in y.calls && |y.cli.stdin| == 1 && y.cli.stdin[0].id == q && !y.lost)
    case Open(echoed, notification) =>
      && q !in y.calls && y.cli.stdin == [] && !y.lost
      && y.cli.turn.Turn? && y.cli.turn.consumed == [q]
      && y.cli.turn.notification == notification && y.cli.turn.echoed == echoed && (notification ==> echoed)
    case Answered(_) => q !in y.calls && y.cli.stdin == [] && !y.lost && OwnTurn(y.cli.turn)
  }

  /** The state that waits for q: the session has seen the prompt exactly when m says so. */
  ghost predicate Waiting(y: Sys, q: nat, m: Mode) {
    && !Answering(y) && !m.Answered?
    && LegalAll(m, y.lines, q)
    && Position(y, q, AdvanceAll(m, y.lines))
    && y.s.promptEchoed == (m.Open? && m.echoed)
  }

  ghost predicate Tracking(y: Sys, q: nat, m: Mode) {
    && Answering(y) && y.rl.line.ResultLine? && y.rl.line.answers == [q] && !y.rl.line.result.unsolicited
    && m == Answered(y.rl.line.result)
    && (y.rl.Ended? && y.rl.line.result.origin.TaskNotification? ==> y.s.promptEchoed)
    && AllQuiet(y.lines) && Position(y, q, m)
  }

  ghost predicate Resting(y: Sys, m: Mode) {
    && !Answering(y) && !m.Open?
    && AllQuiet(y.lines) && y.cli.stdin == [] && OwnTurn(y.cli.turn) && y.calls == map[]
    && (y.s.state == Ready && m.Answered? ==> y.s.result == Some(m.result))
    && (m.Answered? ==> y.s.state == Ready)
  }

  /** The generation that the pending query's events are stamped with. */
  function GenOf(y: Sys): nat {
    if y.routed && y.query.Some? then y.query.value else 0
  }

  ghost predicate ActiveGen(y: Sys, q: nat) {
    y.s.activeGen == if y.rl.Cleared? || (q in y.calls && (y.calls[q].phase.Begun? || y.calls[q].phase.Failing?)) then 0
                     else GenOf(y)
  }

  ghost predicate Calls(y: Sys) {
    forall id | id in y.calls ::
      y.query == Some(id) && y.calls[id].query && y.calls[id].routed == y.routed && y.s.state == Running
      && (y.calls[id].phase.Begun? || y.calls[id].phase.Stored? || y.calls[id].phase.Counted? <==> !y.lost)
      && (y.calls[id].phase.Stored? || y.calls[id].phase.Clearing? || y.calls[id].phase.Failing? ==> y.routed)
  }

  /** Held results are marked, stamped with no generation, and answer nobody; every
      other result ends the query whose prompt its turn consumed, under its generation. */
  predicate Right(o: Out) {
    if o.ended.None? then
      o.result.unsolicited && o.result.origin.TaskNotification? && o.gen == 0 && o.answers == []
    else
      !o.result.unsolicited && o.answers == [o.ended.value] && o.gen == if o.routed then o.ended.value else 0
  }

  ghost predicate Inv(y: Sys, m: Mode) {
    && (y.s.state == Ready || y.s.state == Running || y.s.state == Failed)
    && (y.cli.silent ==> y.cli.turn.NoTurn?)
    && (y.query.Some? ==> y.query.value < y.nextId)
    && (y.rl.Reading? || y.rl.line.ResultLine?)
    && ((y.rl.Ended? && !Answering(y)) || y.rl.Held? ==> IsQuiet(y.rl.line) && !m.Open?)
    && (y.rl.Loaded? || y.rl.Cleared? ==> y.rl.gen == GenOf(y))
    && Calls(y)
    && (forall i | 0 <= i < |y.outs| :: Right(y.outs[i]))
    && if y.s.state == Running then
         && y.query.Some? && ActiveGen(y, y.query.value)
         && (Waiting(y, y.query.value, m) || Tracking(y, y.query.value, m))
       else
         y.s.activeGen == 0 && Resting(y, m)
  }

  predicate QueryOnly(a: Action) {
    a.ByCaller? && a.caller.Begin? ==> a.caller.query
  }

  /** If nothing of the query was printed yet, all lines are about the CLI's own turns. */
  lemma {:induction false} StillQuiet(m: Mode, lines: seq<Line>, q: nat)
    requires LegalAll(m, lines, q) && AdvanceAll(m, lines) == Quiet
    ensures m == Quiet && AllQuiet(lines)
    decreases |lines|
  {
    if lines != [] {
      StillQuiet(Advance(m, lines[0]), lines[1..], q);
    }
  }

  lemma CallerInv(y: Sys, a: CallerAction, m: Mode) returns (m': Mode)
    requires Inv(y, m) && CallerEnabled(y, a) && (a.Begin? ==> a.query)
    ensures Inv(CallerStep(y, a), m')
  {
    m' := m;
    var y' := CallerStep(y, a);
    match a
    case Begin(_, _, _) =>
      m' := Quiet;
      QuietStays(Quiet, y.lines, y.nextId);
    case FailCall(id) =>
      StillQuiet(m, y.lines, id);
      assert y'.calls == map[];
    case _ =>
  }

  /** What one CLI step prints fits the query's progress, and its position follows. */
  lemma CliPrints(c: Cli, a: CliAction, q: nat, m: Mode)
    requires CliEnabled(c, a) && (c.silent ==> c.turn.NoTurn?)
    requires match m
             case Quiet => OwnTurn(c.turn) && (c.stdin != [] ==> |c.stdin| == 1 && c.stdin[0].id == q)
             case Open(e, n) => c.stdin == [] && c.turn.Turn? && c.turn.consumed == [q] && c.turn.notification == n
                                && c.turn.echoed == e && (n ==> e)
             case Answered(_) => c.stdin == [] && OwnTurn(c.turn)
    ensures LegalAll(m, Prints(c, a), q)
    ensures var c' := CliStep(c, a);
            match AdvanceAll(m, Prints(c, a))
            case Quiet => OwnTurn(c'.turn) && c'.stdin == c.stdin
            case Open(e, n) => c'.stdin == [] && c'.turn.Turn? && c'.turn.consumed == [q] && c'.turn.notification == n
                               && c'.turn.echoed == e && (n ==> e) && (m.Open? || c.stdin != [])
            case Answered(_) => c'.stdin == [] && OwnTurn(c'.turn) && !m.Quiet?
    ensures CliStep(c, a).silent ==> CliStep(c, a).turn.NoTurn?
  {
    var p := Prints(c, a);
    if p != [] {
      OneLine(m, p[0], q);
      if |p| == 1 {
        assert p == [p[0]];
      } else {
        assert p == [p[0]] + [p[1]];
        Append(m, [p[0]], [p[1]], q);
        OneLine(Advance(m, p[0]), p[1], q);
      }
    }
  }

  lemma CliWaits(y: Sys, a: CliAction, m: Mode)
    requires Inv(y, m) && CliEnabled(y.cli, a) && y.s.state == Running && !Answering(y)
    ensures Inv(CliMoves(y, a), m)
  {
    var q := y.query.value;
    var y' := CliMoves(y, a);
    CliPrints(y.cli, a, q, AdvanceAll(m, y.lines));
    Append(m, y.lines, Prints(y.cli, a), q);
    assert Waiting(y', q, m);
    assert y'.s == y.s && y'.rl == y.rl && y'.outs == y.outs && y'.query == y.query && y'.calls == y.calls;
  }

  lemma CliRests(y: Sys, a: CliAction, m: Mode)
    requires Inv(y, m) && CliEnabled(y.cli, a) && (y.s.state == Running ==> Answering(y))
    ensures Inv(CliMoves(y, a), m)
  {
    CliPrints(y.cli, a, if y.query.Some? then y.query.value else 0, m);
    assert AllQuiet(Prints(y.cli, a));
  }

  lemma CliInv(y: Sys, a: CliAction, m: Mode)
    requires Inv(y, m) && CliEnabled(y.cli, a)
    ensures Inv(CliMoves(y, a), m)
  {
    if y.s.state == Running && !Answering(y) {
      CliWaits(y, a, m);
    } else {
      CliRests(y, a, m);
    }
  }

  lemma ReadLineInv(y: Sys, m: Mode)
    requires Inv(y, m) && ReadEnabled(y, ReadLine)
    ensures Inv(ReadOne(y), Advance(m, y.lines[0]))
  {
    var y' := ReadOne(y);
    if y.s.state == Running && Answers(y.lines[0], y.query.value, m.Open? && m.notification) && m.Open? {
      // everything printed after the answer is about the CLI's own turns
      OnlyQuietAfter(m, y.lines, y.query.value);
    }
  }

  lemma OnlyQuietAfter(m: Mode, lines: seq<Line>, q: nat)
    requires LegalAll(m, lines, q) && lines != [] && Advance(m, lines[0]).Answered?
    ensures AllQuiet(lines[1..]) && AdvanceAll(m, lines) == Advance(m, lines[0])
  {
    AnsweredQuiet(Advance(m, lines[0]), lines[1..], q);
  }

  lemma {:induction false} AnsweredQuiet(m: Mode, lines: seq<Line>, q: nat)
    requires LegalAll(m, lines, q) && m.Answered?
    ensures AllQuiet(lines) && AdvanceAll(m, lines) == m
    decreases |lines|
  {
    if lines != [] {
      AnsweredQuiet(m, lines[1..], q);
    }
  }

  lemma DecideInv(y: Sys, m: Mode)
    requires Inv(y, m) && ReadEnabled(y, Decide)
    ensures Inv(ReadStep(y, Decide), m)
  {
  }

  lemma EmitInv(y: Sys, m: Mode)
    requires Inv(y, m) && ReadEnabled(y, EmitHeld)
    ensures Inv(ReadStep(y, EmitHeld), m)
  {
  }

  lemma StampInv(y: Sys, a: ReadAction, m: Mode)
    requires Inv(y, m) && ReadEnabled(y, a) && (a.LoadGen? || a.StoreZero?)
    ensures Inv(ReadStep(y, a), m)
  {
  }

  lemma TrackInv(y: Sys, m: Mode)
    requires Inv(y, m) && ReadEnabled(y, TrackOwn)
    ensures Inv(ReadStep(y, TrackOwn), m)
  {
    assert y.calls == map[];
  }

  lemma ReadInv(y: Sys, a: ReadAction, m: Mode) returns (m': Mode)
    requires Inv(y, m) && ReadEnabled(y, a)
    ensures Inv(ReadStep(y, a), m') && m' == if a.ReadLine? then Advance(m, y.lines[0]) else m
  {
    m' := m;
    match a
    case ReadLine =>
      ReadLineInv(y, m);
      m' := Advance(m, y.lines[0]);
    case Decide => DecideInv(y, m);
    case EmitHeld => EmitInv(y, m);
    case TrackOwn => TrackInv(y, m);
    case _ => StampInv(y, a, m);
  }

  ghost predicate QueriesOnly(actions: seq<Action>) {
    forall i | 0 <= i < |actions| :: QueryOnly(actions[i])
  }

  lemma {:induction false} Reachable(run: seq<Sys>, actions: seq<Action>, n: nat) returns (m: Mode)
    requires IsRun(run, actions) && QueriesOnly(actions) && n < |run|
    ensures Inv(run[n], m)
  {
    if n == 0 {
      m := Quiet;
    } else {
      var before := Reachable(run, actions, n - 1);
      assert Enabled(run[n - 1], actions[n - 1]) && QueryOnly(actions[n - 1]);
      match actions[n - 1]
      case ByCaller(x) => m := CallerInv(run[n - 1], x, before);
      case ByCli(x) => CliInv(run[n - 1], x, before); m := before;
      case ByReadLoop(x) => m := ReadInv(run[n - 1], x, before);
    }
  }

  /** Right answer. Every result that ends a query is that of the turn that consumed
      the query's prompt, stamped with the query's generation; every other result is
      marked Unsolicited and is stamped with no generation. */
  lemma RightAnswers(run: seq<Sys>, actions: seq<Action>, n: nat, i: nat)
    requires IsRun(run, actions) && QueriesOnly(actions) && n < |run| && i < |run[n].outs|
    ensures Right(run[n].outs[i])
  {
    var _ := Reachable(run, actions, n);
  }

  /** Alike to Wait, to the next query and to stamps. */
  predicate SeenAlike(s: Session, t: Session) {
    t.state == s.state && t.result == s.result && t.err == s.err && t.readyClosed == s.readyClosed
    && t.activeGen == s.activeGen
  }

  predicate Unanswering(o: Out) {
    o.result.unsolicited && o.gen == 0 && o.ended.None?
  }

  /** z is y to all who look, but for results delivered as unsolicited. */
  predicate LooksLike(y: Sys, z: Sys) {
    && SeenAlike(y.s, z.s) && z.query == y.query
    && |y.outs| <= |z.outs| && z.outs[..|y.outs|] == y.outs
    && forall i | |y.outs| <= i < |z.outs| :: Unanswering(z.outs[i])
  }

  lemma LooksLikeTrans(x: Sys, y: Sys, z: Sys)
    requires LooksLike(x, y) && LooksLike(y, z)
    ensures LooksLike(x, z)
  {
    forall i | |x.outs| <= i < |z.outs| ensures Unanswering(z.outs[i]) {
      if i < |y.outs| {
        assert z.outs[..|y.outs|][i] == y.outs[i];
      }
    }
    assert z.outs[..|y.outs|][..|x.outs|] == z.outs[..|x.outs|];
  }

  lemma PassCli(y: Sys, a: CliAction)
    requires CliEnabled(y.cli, a)
    ensures LooksLike(y, CliMoves(y, a))
  {
  }

  lemma PassLine(s: Session, line: Line)
    requires s.state != Starting
    ensures SeenAlike(s, Reads(s, line))
  {
  }

  lemma PassRead(y: Sys, a: ReadAction)
    requires ReadEnabled(y, a) && (a.ReadLine? || a.Decide? || a.EmitHeld?) && y.s.state != Starting
    ensures LooksLike(y, ReadStep(y, a))
  {
    if a.ReadLine? {
      PassLine(y.s, y.lines[0]);
      assert ReadStep(y, a) == ReadOne(y);
    }
  }

  /** While the prompt waits in stdin, no call is under way, and nothing printed so far answers it. */
  lemma PromptWaits(y: Sys, m: Mode)
    requires Inv(y, m) && y.cli.stdin != []
    ensures y.s.state == Running && y.calls == map[] && !Answering(y)
    ensures y.rl.Ended? ==> Holds(y.s, y.rl.line.result.origin)
  {
    if AdvanceAll(m, y.lines).Quiet? {
      StillQuiet(m, y.lines, y.query.value);
    }
  }

  lemma PassStep(y: Sys, a: Action, m: Mode)
    requires Inv(y, m) && y.cli.stdin != [] && Enabled(y, a) && QueryOnly(a)
    ensures LooksLike(y, Step(y, a))
  {
    PromptWaits(y, m);
    match a
    case ByCli(x) => PassCli(y, x);
    case ByReadLoop(x) => PassRead(y, x);
    case ByCaller(x) =>
  }

  lemma PassInRun(run: seq<Sys>, actions: seq<Action>, n: nat)
    requires IsRun(run, actions) && QueriesOnly(actions) && n < |actions| && run[n].cli.stdin != []
    ensures LooksLike(run[n], run[n + 1])
  {
    var mode := Reachable(run, actions, n);
    assert Enabled(run[n], actions[n]) && run[n + 1] == Step(run[n], actions[n]);
    assert QueryOnly(actions[n]);
    PassStep(run[n], actions[n], mode);
  }

  lemma {:induction false} LooksLikeAlong(run: seq<Sys>, m: nat, n: nat)
    requires m <= n < |run| && forall i | m <= i < n :: LooksLike(run[i], run[i + 1])
    ensures LooksLike(run[m], run[n])
    decreases n
  {
    if m < n {
      LooksLikeAlong(run, m, n - 1);
      assert LooksLike(run[n - 1], run[n - 1 + 1]);
      LooksLikeTrans(run[m], run[n - 1], run[n]);
    }
  }

  /** Unsolicited turns are invisible: while a query's prompt waits in stdin, however many turns the
      CLI takes by itself, the state, result, error, resultReady and generation stay what they were,
      the same query is pending, and everything delivered is marked and belongs to no query. */
  lemma HeldResultsAreInvisible(run: seq<Sys>, actions: seq<Action>, m: nat, n: nat)
    requires IsRun(run, actions) && QueriesOnly(actions) && m <= n < |run|
    requires forall i | m <= i < n :: run[i].cli.stdin != []
    ensures LooksLike(run[m], run[n])
  {
    forall i | m <= i < n ensures LooksLike(run[i], run[i + 1]) {
      PassInRun(run, actions, i);
    }
    LooksLikeAlong(run, m, n);
  }

  /** Until the next query starts, the session stays idle and keeps its result. */
  lemma ResultIsKept(run: seq<Sys>, actions: seq<Action>, n: nat)
    requires IsRun(run, actions) && QueriesOnly(actions) && n < |actions|
    requires run[n].s.state == Ready && !(actions[n].ByCaller? && actions[n].caller.Begin?)
    ensures run[n + 1].s.state == Ready && run[n + 1].s.result == run[n].s.result
  {
    var m := Reachable(run, actions, n);
    assert Enabled(run[n], actions[n]) && run[n + 1] == Step(run[n], actions[n]) && QueryOnly(actions[n]);
    if actions[n].ByReadLoop? {
      RestStep(run[n], actions[n].read, m);
    }
  }

  // ---- no query hangs ----

  /** How many read-loop steps are left until all lines are dealt with. */
  function Work(y: Sys): nat {
    5 * |y.lines| + match y.rl {
      case Reading => 0
      case Ended(_) => 4
      case Held(_) => 1
      case Own(_) => 3
      case Loaded(_, _) => 2
      case Cleared(_, _) => 1
    }
  }

  /** The read loop's next step; it never has a choice. */
  function NextRead(y: Sys): ReadAction {
    match y.rl
    case Reading => ReadLine
    case Ended(_) => Decide
    case Held(_) => EmitHeld
    case Own(_) => LoadGen
    case Loaded(_, _) => StoreZero
    case Cleared(_, _) => TrackOwn
  }

  /** The read loop runs until it has dealt with everything the CLI printed. */
  function ReadAll(y: Sys): Sys
    decreases Work(y)
  {
    if !ReadEnabled(y, NextRead(y)) then y else ReadAll(ReadStep(y, NextRead(y)))
  }

  lemma {:induction false} ReadingEndsQuery(y: Sys, m: Mode)
    requires Inv(y, m) && y.s.state == Running
    requires if Answering(y) then true else AdvanceAll(m, y.lines).Answered?
    ensures ReadAll(y).s.state == Ready && ReadAll(y).s.result.Some?
    decreases Work(y)
  {
    var a := NextRead(y);
    assert y.rl.Reading? ==> y.lines != [];
    var y' := ReadStep(y, a);
    var m' := ReadInv(y, a, m);
    if a.TrackOwn? {
      RestingStays(y', m');
    } else {
      ReadingEndsQuery(y', m');
    }
  }

  lemma {:induction false} RestingStays(y: Sys, m: Mode)
    requires Inv(y, m) && y.s.state == Ready && y.s.result.Some?
    ensures ReadAll(y).s.state == Ready && ReadAll(y).s.result == y.s.result
    decreases Work(y)
  {
    var a := NextRead(y);
    if ReadEnabled(y, a) {
      var m' := ReadInv(y, a, m);
      RestStep(y, a, m);
      RestingStays(ReadStep(y, a), m');
    }
  }

  lemma RestStep(y: Sys, a: ReadAction, m: Mode)
    requires Inv(y, m) && y.s.state == Ready && ReadEnabled(y, a)
    ensures ReadStep(y, a).s.state == Ready && ReadStep(y, a).s.result == y.s.result
  {
    NothingToTrack(y, m);
    OnlyTracking(y, a);
  }

  lemma NothingToTrack(y: Sys, m: Mode)
    requires Inv(y, m) && y.s.state == Ready
    ensures !y.rl.Cleared?
  {
  }

  lemma OnlyTracking(y: Sys, a: ReadAction)
    requires ReadEnabled(y, a) && !y.rl.Cleared? && y.s.state == Ready
    ensures ReadStep(y, a).s.state == Ready && ReadStep(y, a).s.result == y.s.result
  {
    if a.ReadLine? {
      ReadsAtRest(y.s, y.lines[0]);
      assert ReadStep(y, a) == ReadOne(y);
    }
  }

  lemma ReadsAtRest(s: Session, line: Line)
    requires s.state == Ready
    ensures Reads(s, line).state == Ready && Reads(s, line).result == s.result
  {
  }

  /** The CLI is done with the query: no call is submitting it, it does not wait in
      stdin, and the running turn, if any, is the CLI's own. */
  ghost predicate CliIsDone(y: Sys) {
    y.query.Some? && y.query.value !in y.calls && y.cli.stdin == [] && OwnTurn(y.cli.turn)
  }

  /** No query hangs: once the CLI is done with a query whose message it got, in a turn
      of its own or folded into another, reading what is printed ends the query. */
  lemma NoQueryHangs(run: seq<Sys>, actions: seq<Action>, n: nat)
    requires IsRun(run, actions) && QueriesOnly(actions) && n < |run|
    requires run[n].s.state == Running && !run[n].lost && CliIsDone(run[n])
    ensures ReadAll(run[n]).s.state == Ready && ReadAll(run[n]).s.result.Some?
  {
    var m := Reachable(run, actions, n);
    ReadingEndsQuery(run[n], m);
  }

  /** A Query, not a QueryCtx, whose write failed is pending for good. */
  ghost predicate Stuck(y: Sys) {
    && y.s.state == Running && y.query.Some? && y.calls == map[] && y.cli.stdin == []
    && OwnTurn(y.cli.turn) && !Answering(y) && AllQuiet(y.lines) && !y.s.promptEchoed
    && ((y.rl.Ended? || y.rl.Held?) ==> IsQuiet(y.rl.line))
  }

  lemma StuckStep(y: Sys, a: Action)
    requires Stuck(y) && Enabled(y, a) && QueryOnly(a)
    ensures Stuck(Step(y, a))
  {
  }

  /** Exactly the failed writes hang: a plain query whose call returned after a failed
      write stays pending through every continuation of the run. */
  lemma {:induction false} LostQueryHangs(run: seq<Sys>, actions: seq<Action>, n: nat, k: nat)
    requires IsRun(run, actions) && QueriesOnly(actions) && n <= k < |run|
    requires run[n].s.state == Running && run[n].lost && run[n].calls == map[]
    ensures Stuck(run[k])
    decreases k
  {
    if k == n {
      var m := Reachable(run, actions, n);
      var y := run[n];
      if !Answering(y) && AdvanceAll(m, y.lines).Quiet? {
        StillQuiet(m, y.lines, y.query.value);
      }
    } else {
      LostQueryHangs(run, actions, n, k - 1);
      assert Enabled(run[k - 1], actions[k - 1]) && QueryOnly(actions[k - 1]);
      StuckStep(run[k - 1], actions[k - 1]);
    }
  }

  /** A query that is lost: it begins, counts its message, fails to write it and uncounts it. */
  lemma QueryCanBeLost()
    ensures exists run: seq<Sys>, actions: seq<Action> ::
              && IsRun(run, actions) && QueriesOnly(actions)
              && var y := run[|run| - 1]; y.s.state == Running && y.lost && y.calls == map[] && Stuck(y)
  {
    var run, actions := [START], [];
    run, actions := Extend(run, actions, ByCaller(Begin(true, false, true)));
    run, actions := Extend(run, actions, ByCaller(CountMsg(1)));
    run, actions := Extend(run, actions, ByCaller(LoseMsg(1)));
    run, actions := Extend(run, actions, ByCaller(UncountMsg(1)));
    var y := run[|run| - 1];
    assert y.calls == map[];
    LostQueryHangs(run, actions, |run| - 1, |run| - 1);
  }

  // ---- why callers that also send are excluded ----

  /** A message sent while the session is idle has had its turn, and then a query began. */
  lemma SentThenQueried() returns (run: seq<Sys>, actions: seq<Action>)
    ensures IsRun(run, actions)
    ensures var y := run[|run| - 1];
            && y.lines == [InitLine(Some(1)), EchoLine(1), ResultLine(Result(0, NoOrigin, false, false), [1])]
            && y.rl == Reading && y.s.state == Running && y.query == Some(2) && y.outs == []
  {
    run, actions := [START], [];
    run, actions := Extend(run, actions, ByCaller(Begin(false, false, true)));
    run, actions := Extend(run, actions, ByCaller(CountMsg(1)));
    run, actions := Extend(run, actions, ByCaller(WriteMsg(1)));
    run, actions := Extend(run, actions, ByCaller(Begin(true, false, true)));
    run, actions := Extend(run, actions, ByCli(StartCallerTurn));
    run, actions := Extend(run, actions, ByCli(EndTurn(false, false)));
  }

  /** A turn started by SendMessage while the session is idle can end a later query. */
  lemma SentTurnCanEndQuery()
    ensures exists run: seq<Sys>, actions: seq<Action> ::
              && IsRun(run, actions)
              && var y := run[|run| - 1];
                 |y.outs| == 1 && y.outs[0].ended == Some(2) && y.outs[0].answers == [1]
  {
    var run, actions := SentThenQueried();
    run, actions := Extend(run, actions, ByReadLoop(ReadLine));
    run, actions := Extend(run, actions, ByReadLoop(ReadLine));
    run, actions := Extend(run, actions, ByReadLoop(ReadLine));
    run, actions := Extend(run, actions, ByReadLoop(Decide));
    run, actions := Extend(run, actions, ByReadLoop(LoadGen));
    run, actions := Extend(run, actions, ByReadLoop(StoreZero));
    run, actions := Extend(run, actions, ByReadLoop(TrackOwn));
  }

  predicate NoCallerTurn(actions: seq<Action>) {
    forall i | 0 <= i < |actions| :: !(actions[i].ByCli? && actions[i].cli.StartCallerTurn?)
  }

  /** Two messages wait in stdin, the query's behind one that was sent before. */
  lemma SentAhead() returns (run: seq<Sys>, actions: seq<Action>)
    ensures IsRun(run, actions) && NoCallerTurn(actions)
    ensures var y := run[|run| - 1];
            && y.cli == Cli([Msg(1, true), Msg(2, true)], NoTurn, 0, true) && y.lines == [] && y.rl == Reading
            && y.s.state == Running && !y.s.promptEchoed && y.s.unread == 2 && y.query == Some(2) && y.outs == []
  {
    run, actions := [START], [];
    run, actions := Extend(run, actions, ByCaller(Begin(false, false, true)));
    run, actions := Extend(run, actions, ByCaller(CountMsg(1)));
    run, actions := Extend(run, actions, ByCaller(WriteMsg(1)));
    run, actions := Extend(run, actions, ByCaller(Begin(true, false, true)));
    run, actions := Extend(run, actions, ByCaller(CountMsg(2)));
    run, actions := Extend(run, actions, ByCaller(WriteMsg(2)));
  }

  /** The first joins a notification turn, and the turn's result is printed. */
  lemma SentFolded() returns (run: seq<Sys>, actions: seq<Action>)
    ensures IsRun(run, actions) && NoCallerTurn(actions)
    ensures var y := run[|run| - 1];
            && y.lines == [EchoLine(1), ResultLine(Result(0, TaskNotification, false, false), [1])]
            && y.rl == Reading && y.s.state == Running && y.query == Some(2) && y.outs == []
  {
    run, actions := SentAhead();
    run, actions := Extend(run, actions, ByCli(StartNotification(false)));
    run, actions := Extend(run, actions, ByCli(Fold));
    assert run[|run| - 1].lines == [EchoLine(1)] && run[|run| - 1].cli.turn == Turn(0, true, [1], true);
    run, actions := Extend(run, actions, ByCli(EndTurn(false, false)));
  }

  /** Nor need a sent message have a turn of its own: one that is ahead of the query and joins a
      notification turn passes for the query's prompt, and the turn's result ends the query. */
  lemma FoldedSendCanEndQuery()
    ensures exists run: seq<Sys>, actions: seq<Action> ::
              && IsRun(run, actions) && NoCallerTurn(actions)
              && var y := run[|run| - 1];
                 |y.outs| == 1 && y.outs[0].ended == Some(2) && y.outs[0].answers == [1]
  {
    var run, actions := SentFolded();
    run, actions := Extend(run, actions, ByReadLoop(ReadLine));
    run, actions := Extend(run, actions, ByReadLoop(ReadLine));
    run, actions := Extend(run, actions, ByReadLoop(Decide));
    run, actions := Extend(run, actions, ByReadLoop(LoadGen));
    run, actions := Extend(run, actions, ByReadLoop(StoreZero));
    run, actions := Extend(run, actions, ByReadLoop(TrackOwn));
  }
}
