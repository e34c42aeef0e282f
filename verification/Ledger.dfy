/** The unread count: what it counts, and what the init flag computed from it means. */
module Ledger {
  import opened Events
  import opened SessionModel
  import opened Turns

  /** The calls whose message is counted but not written. */
  function InFlight(calls: map<nat, Call>): set<nat> {
    set id | id in calls && (calls[id].phase.Counted? || calls[id].phase.Lost?)
  }

  /** How often reading these lines takes a message off the count: at each echo, and at
      the result of a caller's turn without an echo since the result before. */
  function Cost(lines: seq<Line>, turnEchoed: bool): nat {
    if lines == [] then 0
    else match lines[0]
      case EchoLine(_) => 1 + Cost(lines[1..], true)
      case ResultLine(r, _) => (if r.origin.FromCaller() && !turnEchoed then 1 else 0) + Cost(lines[1..], false)
      case _ => Cost(lines[1..], turnEchoed)
  }

  /** Whether turnEchoed is set once these lines are read. */
  function EchoedAfter(lines: seq<Line>, turnEchoed: bool): bool {
    if lines == [] then turnEchoed
    else match lines[0]
      case EchoLine(_) => EchoedAfter(lines[1..], true)
      case ResultLine(_, _) => EchoedAfter(lines[1..], false)
      case _ => EchoedAfter(lines[1..], turnEchoed)
  }

  /** What the result of the running turn will take off the count. */
  function Due(t: Turn): nat {
    if t.Turn? && !t.notification && !t.echoed then 1 else 0
  }

  lemma {:induction false} CostAppend(a: seq<Line>, b: seq<Line>, e: bool)
    ensures Cost(a + b, e) == Cost(a, e) + Cost(b, EchoedAfter(a, e))
    ensures EchoedAfter(a + b, e) == EchoedAfter(b, EchoedAfter(a, e))
  {
    if a == [] {
      assert a + b == b;
    } else {
      assert (a + b)[1..] == a[1..] + b;
      var e1 := if a[0].EchoLine? then true else if a[0].ResultLine? then false else e;
      CostAppend(a[1..], b, e1);
    }
  }

  lemma {:induction false} NoCostNoEcho(a: seq<Line>)
    requires Cost(a, false) == 0
    ensures !EchoedAfter(a, false)
  {
    if a != [] {
      NoCostNoEcho(a[1..]);
    }
  }

  /** Every caller's turn that was opened will still take something off the count. */
  ghost predicate Owes(lines: seq<Line>, t: Turn) {
    forall i | 0 <= i < |lines| && lines[i].InitLine? && lines[i].opens.Some? ::
      Cost(lines[i + 1..], false) + Due(t) >= 1
  }

  predicate Ignored(line: Line) {
    line.OtherEcho? ==> line.parent != "" || !line.origin.FromCaller()
  }

  /** The account: unread is exactly the messages in flight, those waiting in stdin,
      those whose reading is still to be noticed, and the surplus. */
  ghost predicate Account(s: Session, outside: nat, lines: seq<Line>, t: Turn, surplus: nat) {
    && s.unread == outside + Cost(lines, s.turnEchoed) + Due(t) + surplus
    && EchoedAfter(lines, s.turnEchoed) == (t.Turn? && t.echoed)
    && Owes(lines, t)
    && forall i | 0 <= i < |lines| :: Ignored(lines[i])
  }

  ghost predicate Balanced(y: Sys) {
    && Account(y.s, |InFlight(y.calls)| + |y.cli.stdin|, y.lines, y.cli.turn, y.surplus)
    && forall id | id in y.calls :: id < y.nextId
  }

  lemma CountedIn(y: Sys, a: CallerAction)
    requires CallerEnabled(y, a) && a.CountMsg?
    ensures InFlight(CallerStep(y, a).calls) == InFlight(y.calls) + {a.id} && a.id !in InFlight(y.calls)
  {
  }

  lemma CountedOut(y: Sys, a: CallerAction)
    requires CallerEnabled(y, a) && (a.WriteMsg? || a.UncountMsg?)
    ensures InFlight(CallerStep(y, a).calls) == InFlight(y.calls) - {a.id} && a.id in InFlight(y.calls)
  {
  }

  lemma NotCounted(y: Sys, a: CallerAction)
    requires CallerEnabled(y, a) && !a.CountMsg? && !a.WriteMsg? && !a.UncountMsg?
    requires forall id | id in y.calls :: id < y.nextId
    ensures InFlight(CallerStep(y, a).calls) == InFlight(y.calls)
  {
  }

  lemma CallsInFlight(y: Sys, a: CallerAction)
    requires CallerEnabled(y, a) && (forall id | id in y.calls :: id < y.nextId)
    ensures |InFlight(CallerStep(y, a).calls)|
            == |InFlight(y.calls)| + if a.CountMsg? then 1 else if a.WriteMsg? || a.UncountMsg? then -1 else 0
  {
    if a.CountMsg? {
      CountedIn(y, a);
    } else if a.WriteMsg? || a.UncountMsg? {
      CountedOut(y, a);
    } else {
      NotCounted(y, a);
    }
  }

  lemma CallerBalance(y: Sys, a: CallerAction)
    requires Balanced(y) && CallerEnabled(y, a)
    ensures Balanced(CallerStep(y, a))
  {
    CallsInFlight(y, a);
  }

  /** What the lines of one CLI step cost, from the echo flag that they are read with. */
  lemma PrintsCost(c: Cli, a: CliAction, e: bool)
    requires CliEnabled(c, a) && e == (c.turn.Turn? && c.turn.echoed)
    ensures Cost(Prints(c, a), e) == if a.Fold? || (a.StartCallerTurn? && c.stdin[0].echoed) then 1
                                     else if a.EndTurn? then Due(c.turn) else 0
    ensures EchoedAfter(Prints(c, a), e) == (CliStep(c, a).turn.Turn? && CliStep(c, a).turn.echoed)
  {
    var p := Prints(c, a);
    if a.StartCallerTurn? && c.stdin[0].echoed {
      var echo := [EchoLine(c.stdin[0].id)];
      assert p[1..] == echo && Cost(echo, e) == 1 && EchoedAfter(echo, e);
    } else if p != [] {
      assert p[1..] == [];
    }
  }

  lemma CliAccount(y: Sys, a: CliAction)
    requires Balanced(y) && CliEnabled(y.cli, a)
    ensures var y' := CliMoves(y, a);
            && Cost(y'.lines, y.s.turnEchoed)
               == Cost(y.lines, y.s.turnEchoed) + Cost(Prints(y.cli, a), EchoedAfter(y.lines, y.s.turnEchoed))
            && |y'.cli.stdin| + Cost(y'.lines, y.s.turnEchoed) + Due(y'.cli.turn) + y'.surplus
               == |y.cli.stdin| + Cost(y.lines, y.s.turnEchoed) + Due(y.cli.turn) + y.surplus
            && EchoedAfter(y'.lines, y.s.turnEchoed) == (y'.cli.turn.Turn? && y'.cli.turn.echoed)
  {
    CostAppend(y.lines, Prints(y.cli, a), y.s.turnEchoed);
    PrintsCost(y.cli, a, EchoedAfter(y.lines, y.s.turnEchoed));
  }

  lemma CliOwes(y: Sys, a: CliAction)
    requires Balanced(y) && CliEnabled(y.cli, a)
    ensures Owes(CliMoves(y, a).lines, CliStep(y.cli, a).turn)
  {
    var p := Prints(y.cli, a);
    var lines := y.lines + p;
    var t := CliStep(y.cli, a).turn;
    forall i | 0 <= i < |lines| && lines[i].InitLine? && lines[i].opens.Some?
      ensures Cost(lines[i + 1..], false) + Due(t) >= 1
    {
      if i < |y.lines| {
        var rest := y.lines[i + 1..];
        assert lines[i + 1..] == rest + p;
        CostAppend(rest, p, false);
        if Cost(rest, false) == 0 {
          NoCostNoEcho(rest);
        }
      } else {
        assert lines[i + 1..] == p[1..];
      }
    }
  }

  lemma CliBalance(y: Sys, a: CliAction)
    requires Balanced(y) && CliEnabled(y.cli, a)
    ensures Balanced(CliMoves(y, a))
  {
    CliAccount(y, a);
    CliOwes(y, a);
  }

  lemma ReadOwes(lines: seq<Line>, t: Turn)
    requires lines != [] && Owes(lines, t)
    ensures Owes(lines[1..], t)
  {
    var rest := lines[1..];
    forall i | 0 <= i < |rest| && rest[i].InitLine? && rest[i].opens.Some?
      ensures Cost(rest[i + 1..], false) + Due(t) >= 1
    {
      assert rest[i + 1..] == lines[i + 2..] && rest[i] == lines[i + 1];
    }
  }

  lemma ReadAccount(s: Session, outside: nat, lines: seq<Line>, t: Turn, surplus: nat)
    requires Account(s, outside, lines, t, surplus) && lines != []
    ensures Account(Reads(s, lines[0]), outside, lines[1..], t, surplus)
  {
    ReadOwes(lines, t);
    assert Ignored(lines[0]);
  }

  lemma ReadBalance(y: Sys, a: ReadAction)
    requires Balanced(y) && ReadEnabled(y, a)
    ensures Balanced(ReadStep(y, a))
  {
    if a.ReadLine? {
      ReadAccount(y.s, |InFlight(y.calls)| + |y.cli.stdin|, y.lines, y.cli.turn, y.surplus);
    } else {
      var y' := ReadStep(y, a);
      assert y' == y.(s := y'.s, rl := y'.rl, outs := y'.outs);
      assert y'.s.unread == y.s.unread && y'.s.turnEchoed == y.s.turnEchoed;
    }
  }

  lemma {:induction false} AlwaysBalanced(run: seq<Sys>, actions: seq<Action>, n: nat)
    requires IsRun(run, actions) && n < |run|
    ensures Balanced(run[n])
  {
    if n > 0 {
      AlwaysBalanced(run, actions, n - 1);
      assert Enabled(run[n - 1], actions[n - 1]);
      match actions[n - 1]
      case ByCaller(x) => CallerBalance(run[n - 1], x);
      case ByCli(x) => CliBalance(run[n - 1], x);
      case ByReadLoop(x) => ReadBalance(run[n - 1], x);
    } else {
      assert InFlight(START.calls) == {};
    }
  }

  /** Soundness of the count: it covers every message in flight and every message that
      waits in stdin, and what is still owed for those the CLI consumed. */
  lemma UnreadCovers(run: seq<Sys>, actions: seq<Action>, n: nat)
    requires IsRun(run, actions) && n < |run|
    ensures run[n].s.unread >= |InFlight(run[n].calls)| + |run[n].cli.stdin|
  {
    AlwaysBalanced(run, actions, n);
  }

  /** Soundness of the flag: an init marked Unsolicited opens no caller's turn. */
  lemma FlagIsSound(run: seq<Sys>, actions: seq<Action>, n: nat)
    requires IsRun(run, actions) && n < |run|
    requires run[n].rl.Reading? && run[n].lines != [] && run[n].lines[0].InitLine?
    requires OpensUnsolicited(run[n].s)
    ensures run[n].lines[0].opens.None? && run[n].cli.stdin == [] && InFlight(run[n].calls) == {}
  {
    AlwaysBalanced(run, actions, n);
    var lines := run[n].lines;
    assert Cost(lines, false) == Cost(lines[1..], false);
  }

  /** Exactly when the flag is set: the caller has sent something, nothing is in flight,
      waiting or owed, no echo came since the last result, and there is no surplus. */
  lemma FlagIsExact(run: seq<Sys>, actions: seq<Action>, n: nat)
    requires IsRun(run, actions) && n < |run|
    ensures OpensUnsolicited(run[n].s) <==>
              && run[n].s.sentAny && !run[n].s.turnEchoed && run[n].surplus == 0
              && InFlight(run[n].calls) == {} && run[n].cli.stdin == []
              && Cost(run[n].lines, run[n].s.turnEchoed) == 0 && Due(run[n].cli.turn) == 0
  {
    AlwaysBalanced(run, actions, n);
  }

  // ---- the surplus ----

  lemma SurplusStays(y: Sys, a: Action)
    requires Enabled(y, a)
    ensures y.surplus <= Step(y, a).surplus
    ensures Step(y, a).inits == y.inits
         || (|Step(y, a).inits| == |y.inits| + 1 && Step(y, a).inits[..|y.inits|] == y.inits
             && Step(y, a).inits[|y.inits|].flagged == OpensUnsolicited(y.s))
  {
    match a
    case ByCaller(x) => assert CallerStep(y, x).inits == y.inits && CallerStep(y, x).surplus == y.surplus;
    case ByCli(x) => assert CliMoves(y, x).inits == y.inits;
    case ByReadLoop(x) => ReadInits(y, x);
  }

  lemma ReadInits(y: Sys, a: ReadAction)
    requires ReadEnabled(y, a)
    ensures ReadStep(y, a).surplus == y.surplus
    ensures ReadStep(y, a).inits == y.inits
         || ReadStep(y, a).inits == y.inits + [Opened(y.lines[0].opens, OpensUnsolicited(y.s))]
  {
    if a.ReadLine? {
      assert ReadStep(y, a) == ReadOne(y);
    }
  }

  lemma {:induction false} SurplusLasts(run: seq<Sys>, actions: seq<Action>, m: nat, n: nat)
    requires IsRun(run, actions) && m <= n < |run|
    ensures run[m].surplus <= run[n].surplus
    decreases n
  {
    if m < n {
      SurplusLasts(run, actions, m, n - 1);
      assert Enabled(run[n - 1], actions[n - 1]) && run[n] == Step(run[n - 1], actions[n - 1]);
      SurplusStays(run[n - 1], actions[n - 1]);
    }
  }

  /** What was opened since was not flagged. */
  predicate NoneFlagged(before: seq<Opened>, after: seq<Opened>) {
    && |before| <= |after| && after[..|before|] == before
    && forall i | |before| <= i < |after| :: !after[i].flagged
  }

  lemma NoneFlaggedTrans(a: seq<Opened>, b: seq<Opened>, c: seq<Opened>)
    requires NoneFlagged(a, b) && NoneFlagged(b, c)
    ensures NoneFlagged(a, c)
  {
    assert c[..|b|][..|a|] == c[..|a|];
    forall i | |a| <= i < |c| ensures !c[i].flagged {
      if i < |b| {
        assert c[..|b|][i] == b[i];
      }
    }
  }

  lemma NoFlagInStep(y: Sys, a: Action)
    requires Enabled(y, a) && !OpensUnsolicited(y.s)
    ensures NoneFlagged(y.inits, Step(y, a).inits)
  {
    SurplusStays(y, a);
  }

  lemma NoFlagUnderSurplus(run: seq<Sys>, actions: seq<Action>, n: nat)
    requires IsRun(run, actions) && n < |actions| && run[n].surplus > 0
    ensures NoneFlagged(run[n].inits, run[n + 1].inits)
  {
    FlagIsExact(run, actions, n);
    assert Enabled(run[n], actions[n]) && run[n + 1] == Step(run[n], actions[n]);
    NoFlagInStep(run[n], actions[n]);
  }

  lemma {:induction false} NoneFlaggedAlong(run: seq<Sys>, m: nat, n: nat)
    requires m <= n < |run| && forall i | m <= i < n :: NoneFlagged(run[i].inits, run[i + 1].inits)
    ensures NoneFlagged(run[m].inits, run[n].inits)
    decreases n
  {
    if m < n {
      NoneFlaggedAlong(run, m, n - 1);
      assert NoneFlagged(run[n - 1].inits, run[n - 1 + 1].inits);
      NoneFlaggedTrans(run[m].inits, run[n - 1].inits, run[n].inits);
    }
  }

  /** One such fold is enough: from then on no init of the session is flagged. */
  lemma SurplusHidesAllFlags(run: seq<Sys>, actions: seq<Action>, m: nat, n: nat)
    requires IsRun(run, actions) && m <= n < |run| && run[m].surplus > 0
    ensures NoneFlagged(run[m].inits, run[n].inits)
  {
    forall i | m <= i < n ensures NoneFlagged(run[i].inits, run[i + 1].inits) {
      SurplusLasts(run, actions, m, i);
      NoFlagUnderSurplus(run, actions, i);
    }
    NoneFlaggedAlong(run, m, n);
  }

  /** A slash command and a message after it, both written. */
  lemma TwoMessages() returns (run: seq<Sys>, actions: seq<Action>)
    ensures IsRun(run, actions)
    ensures run[|run| - 1] == START.(s := START.s.(unread := 2, sentAny := true), nextId := 3,
                                     cli := START.cli.(stdin := [Msg(1, false), Msg(2, true)]))
  {
    run, actions := [START], [];
    run, actions := Extend(run, actions, ByCaller(Begin(false, false, false)));
    run, actions := Extend(run, actions, ByCaller(CountMsg(1)));
    run, actions := Extend(run, actions, ByCaller(WriteMsg(1)));
    run, actions := Extend(run, actions, ByCaller(Begin(false, false, true)));
    run, actions := Extend(run, actions, ByCaller(CountMsg(2)));
    run, actions := Extend(run, actions, ByCaller(WriteMsg(2)));
    assert run[|run| - 1].calls == map[];
  }

  /** The message joins the slash command's turn; all lines of the turn are read. */
  lemma FoldedIntoSlashCommand() returns (run: seq<Sys>, actions: seq<Action>)
    ensures IsRun(run, actions)
    ensures var y := run[|run| - 1];
            && y.calls == map[] && y.cli == Cli([], NoTurn, 1, false) && y.lines == []
            && y.rl.Ended? && y.rl.line.ResultLine?
            && y.rl.line.result.origin == NoOrigin
            && y.s.sentAny && !y.s.turnEchoed && y.s.unread == 1
  {
    run, actions := TwoMessages();
    run, actions := Extend(run, actions, ByCli(StartCallerTurn));
    assert run[|run| - 1].cli.stdin == [Msg(2, true)];
    run, actions := Extend(run, actions, ByCli(Fold));
    assert run[|run| - 1].cli.stdin == [] && run[|run| - 1].cli.turn.consumed == [1, 2];
    run, actions := Extend(run, actions, ByCli(EndTurn(false, false)));
    assert run[|run| - 1].lines
        == [InitLine(Some(1)), EchoLine(2), ResultLine(Result(0, NoOrigin, false, false), [1, 2])];
    run, actions := Extend(run, actions, ByReadLoop(ReadLine));
    run, actions := Extend(run, actions, ByReadLoop(ReadLine));
    run, actions := Extend(run, actions, ByReadLoop(ReadLine));
  }

  /** Such a fold leaves unread at 1 with nothing outstanding, so the init of the CLI's
      own next turn is not marked. */
  lemma SurplusHidesFlag()
    ensures exists run: seq<Sys>, actions: seq<Action> ::
              && IsRun(run, actions)
              && var y := run[|run| - 1];
                 y.calls == map[] && y.cli.stdin == [] && y.cli.turn == Turn(1, true, [], false)
                 && y.rl.Reading? && y.lines == [InitLine(None)] && y.s.sentAny && !OpensUnsolicited(y.s)
  {
    var run, actions := FoldedIntoSlashCommand();
    run, actions := Extend(run, actions, ByReadLoop(Decide));
    run, actions := Extend(run, actions, ByReadLoop(LoadGen));
    run, actions := Extend(run, actions, ByReadLoop(StoreZero));
    run, actions := Extend(run, actions, ByReadLoop(TrackOwn));
    run, actions := Extend(run, actions, ByCli(StartNotification(true)));
  }
}
