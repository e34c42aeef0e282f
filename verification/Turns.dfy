/** The session against the CLI: callers write messages to the CLI's stdin, the CLI
    runs turns and prints lines, and the read loop decides from those lines alone
    which turn answers which query. */
module Turns {
  import opened Events
  import opened SessionModel

  /** A message; a slash command is not echoed. */
  datatype Msg = Msg(id: nat, echoed: bool)

  /** A turn of the CLI and the messages it has consumed; `echoed` tells whether the
      CLI echoed any of them. */
  datatype Turn = NoTurn | Turn(number: nat, notification: bool, consumed: seq<nat>, echoed: bool)

  datatype Cli = Cli(stdin: seq<Msg>, turn: Turn, turns: nat, silent: bool)

  /** A line on the CLI's stdout, with what it is about: the message whose turn an init
      opens, the message echoed, the messages that a result answers. */
  datatype Line =
    | InitLine(opens: Option<nat>)
    | EchoLine(msg: nat)
    | OtherEcho(parent: string, origin: Origin)
    | ResultLine(result: Result, answers: seq<nat>)

  // ---- the CLI ----

  datatype CliAction =
    | StartupInit                                   // older CLIs, before anything else
    | StartCallerTurn
    | StartNotification(init: bool)                 // ahead of any message that waits
    | Fold                                          // a waiting message joins the turn
    | EchoOther(parent: string, origin: Origin)     // a notification or a subagent's message
    | EndTurn(human: bool, maxTurns: bool)

  predicate CliEnabled(c: Cli, a: CliAction) {
    match a
    case StartupInit => c.silent
    case StartCallerTurn => c.turn.NoTurn? && c.stdin != []
    case StartNotification(_) => c.turn.NoTurn?
    case Fold => c.turn.Turn? && c.stdin != [] && c.stdin[0].echoed
    case EchoOther(parent, origin) => c.turn.Turn? && (parent != "" || !origin.FromCaller())
    case EndTurn(_, _) => c.turn.Turn?
  }

  function CliStep(c: Cli, a: CliAction): Cli
    requires CliEnabled(c, a)
  {
    match a
    case StartupInit => c.(silent := false)
    case StartCallerTurn =>
      var m := c.stdin[0];
      Cli(c.stdin[1..], Turn(c.turns, false, [m.id], m.echoed), c.turns + 1, false)
    case StartNotification(_) => Cli(c.stdin, Turn(c.turns, true, [], false), c.turns + 1, false)
    case Fold =>
      c.(stdin := c.stdin[1..], turn := c.turn.(consumed := c.turn.consumed + [c.stdin[0].id], echoed := true))
    case EchoOther(_, _) => c
    case EndTurn(_, _) => c.(turn := NoTurn)
  }

  function ResultOf(t: Turn, human: bool, maxTurns: bool): Result
    requires t.Turn?
  {
    Result(t.number, if t.notification then TaskNotification else if human then Human else NoOrigin, maxTurns, false)
  }

  /** What the step prints. An init opens a turn, and a message's echo follows it. */
  function Prints(c: Cli, a: CliAction): seq<Line>
    requires CliEnabled(c, a)
  {
    match a
    case StartupInit => [InitLine(None)]
    case StartCallerTurn =>
      [InitLine(Some(c.stdin[0].id))] + if c.stdin[0].echoed then [EchoLine(c.stdin[0].id)] else []
    case StartNotification(init) => if init then [InitLine(None)] else []
    case Fold => [EchoLine(c.stdin[0].id)]
    case EchoOther(parent, origin) => [OtherEcho(parent, origin)]
    case EndTurn(human, maxTurns) => [ResultLine(ResultOf(c.turn, human, maxTurns), c.turn.consumed)]
  }

  // ---- the callers ----

  datatype Phase =
    | Begun       // prepareQuery, or validateSendable, let the caller go on
    | Stored      // QueryCtx: activeGen holds the query's generation
    | Counted     // unread counts the message; it is not written yet
    | Lost        // the write failed; unread still counts the message
    | Clearing    // QueryCtx after a failed write: about to clear activeGen
    | Failing     // about to set the state

  /** One call of Query, QueryCtx (routed) or SendMessage that has not returned. */
  datatype Call = Call(query: bool, routed: bool, echoed: bool, phase: Phase)

  datatype CallerAction =
    | Begin(query: bool, routed: bool, echoed: bool)
    | ArmGen(id: nat) | CountMsg(id: nat) | WriteMsg(id: nat)
    | LoseMsg(id: nat) | UncountMsg(id: nat) | ClearGen(id: nat) | FailCall(id: nat)

  // ---- the read loop ----

  datatype ReadLoop =
    | Reading
    | Ended(line: Line)                // noteTurnEnd ran
    | Held(line: Line)                 // observeUnsolicitedResult held the result
    | Own(line: Line)                  // it did not
    | Loaded(line: Line, gen: nat)     // stamp read activeGen
    | Cleared(line: Line, gen: nat)    // stamp cleared it; about to track

  datatype ReadAction = ReadLine | Decide | EmitHeld | LoadGen | StoreZero | TrackOwn

  /** A delivered result: its stamp, the messages its turn consumed, and the query it
      ended, if one was pending; `routed` tells whether that was a QueryCtx. */
  datatype Out = Out(result: Result, gen: nat, answers: seq<nat>, ended: Option<nat>, routed: bool)

  /** An init line and whether the session marked it Unsolicited. */
  datatype Opened = Opened(opens: Option<nat>, flagged: bool)

  datatype Sys = Sys(
    s: Session,
    cli: Cli,
    lines: seq<Line>,        // printed and not yet read
    calls: map<nat, Call>,
    nextId: nat,
    rl: ReadLoop,
    query: Option<nat>,      // the latest query
    routed: bool,            // whether it was a QueryCtx
    lost: bool,              // whether writing its message failed
    outs: seq<Out>,
    inits: seq<Opened>,
    surplus: nat)            // slash-command turns that an echoed message joined first

  const START :=
    Sys(NEW_SESSION.(state := Ready), Cli([], NoTurn, 0, true), [], map[], 1, Reading, None, false, false, [], [], 0)

  predicate CallerEnabled(y: Sys, a: CallerAction) {
    match a
    case Begin(query, routed, echoed) =>
      if query then Refuses(y.s).None? else y.s.state == Ready || y.s.state == Running
    case ArmGen(id) => id in y.calls && y.calls[id].phase.Begun? && y.calls[id].query && y.calls[id].routed
    case CountMsg(id) =>
      id in y.calls
      && if y.calls[id].query && y.calls[id].routed then y.calls[id].phase.Stored? else y.calls[id].phase.Begun?
    case WriteMsg(id) => id in y.calls && y.calls[id].phase.Counted?
    case LoseMsg(id) => id in y.calls && y.calls[id].phase.Counted?
    case UncountMsg(id) => id in y.calls && y.calls[id].phase.Lost?
    case ClearGen(id) => id in y.calls && y.calls[id].phase.Clearing?
    case FailCall(id) => id in y.calls && y.calls[id].phase.Failing?
  }

  function At(y: Sys, id: nat, phase: Phase): map<nat, Call>
    requires id in y.calls
  {
    y.calls[id := y.calls[id].(phase := phase)]
  }

  function CallerStep(y: Sys, a: CallerAction): Sys
    requires CallerEnabled(y, a)
  {
    match a
    case Begin(query, routed, echoed) =>
      var y1 := y.(calls := y.calls[y.nextId := Call(query, routed, echoed, Begun)], nextId := y.nextId + 1);
      if query then y1.(s := Prepare(y.s), query := Some(y.nextId), routed := routed, lost := false) else y1
    // the model names a query's generation after the query
    case ArmGen(id) => y.(s := y.s.(activeGen := id), calls := At(y, id, Stored))
    case CountMsg(id) => y.(s := Count(y.s), calls := At(y, id, Counted))
    case WriteMsg(id) =>
      y.(cli := y.cli.(stdin := y.cli.stdin + [Msg(id, y.calls[id].echoed)]), calls := y.calls - {id})
    case LoseMsg(id) => y.(calls := At(y, id, Lost), lost := y.lost || y.query == Some(id))
    case UncountMsg(id) =>
      y.(s := Uncount(y.s),
         calls := if y.calls[id].query && y.calls[id].routed then At(y, id, Clearing) else y.calls - {id})
    case ClearGen(id) => y.(s := y.s.(activeGen := 0), calls := At(y, id, Failing))
    case FailCall(id) => y.(s := Fail(y.s, "write"), calls := y.calls - {id})
  }

  predicate ReadEnabled(y: Sys, a: ReadAction) {
    match a
    case ReadLine => y.rl.Reading? && y.lines != []
    case Decide => y.rl.Ended? && y.rl.line.ResultLine?
    case EmitHeld => y.rl.Held? && y.rl.line.ResultLine?
    case LoadGen => y.rl.Own?
    case StoreZero => y.rl.Loaded?
    case TrackOwn => y.rl.Cleared? && y.rl.line.ResultLine?
  }

  /** What reading a line does to the session's state. */
  function Reads(s: Session, line: Line): Session {
    match line
    case InitLine(_) => TrackInit(s)
    case EchoLine(_) => Echo(s, "", NoOrigin)
    case OtherEcho(parent, origin) => Echo(s, parent, origin)
    case ResultLine(r, _) => TurnEnd(s, r.origin)
  }

  function ReadOne(y: Sys): Sys
    requires ReadEnabled(y, ReadLine)
  {
    var line := y.lines[0];
    y.(s := Reads(y.s, line), lines := y.lines[1..],
       rl := if line.ResultLine? then Ended(line) else Reading,
       inits := if line.InitLine? then y.inits + [Opened(line.opens, OpensUnsolicited(y.s))] else y.inits)
  }

  function ReadStep(y: Sys, a: ReadAction): Sys
    requires ReadEnabled(y, a)
  {
    var line := if y.rl.Reading? then InitLine(None) else y.rl.line;
    match a
    case ReadLine => ReadOne(y)
    case Decide =>
      if Holds(y.s, line.result.origin) then y.(s := Hold(y.s), rl := Held(line)) else y.(rl := Own(line))
    case EmitHeld =>
      y.(rl := Reading, outs := y.outs + [Out(line.result.(unsolicited := true), 0, line.answers, None, y.routed)])
    case LoadGen => y.(rl := Loaded(line, y.s.activeGen))
    case StoreZero => y.(rl := Cleared(line, y.rl.gen), s := y.s.(activeGen := 0))
    case TrackOwn =>
      y.(rl := Reading, s := TrackResult(y.s, line.result),
         outs := y.outs + [Out(line.result, y.rl.gen, line.answers,
                               if y.s.state == Running then y.query else None, y.routed)])
  }

  datatype Action = ByCaller(caller: CallerAction) | ByCli(cli: CliAction) | ByReadLoop(read: ReadAction)

  predicate Enabled(y: Sys, a: Action) {
    match a
    case ByCaller(x) => CallerEnabled(y, x)
    case ByCli(x) => CliEnabled(y.cli, x)
    case ByReadLoop(x) => ReadEnabled(y, x)
  }

  /** A slash command's turn that an echoed message joins before any other echo. */
  predicate JoinsSilentTurn(c: Cli, a: CliAction) {
    a.Fold? && c.turn.Turn? && !c.turn.notification && !c.turn.echoed
  }

  function CliMoves(y: Sys, a: CliAction): Sys
    requires CliEnabled(y.cli, a)
  {
    y.(cli := CliStep(y.cli, a), lines := y.lines + Prints(y.cli, a),
       surplus := y.surplus + if JoinsSilentTurn(y.cli, a) then 1 else 0)
  }

  function Step(y: Sys, a: Action): Sys
    requires Enabled(y, a)
  {
    match a
    case ByCaller(x) => CallerStep(y, x)
    case ByCli(x) => CliMoves(y, x)
    case ByReadLoop(x) => ReadStep(y, x)
  }

  predicate IsRun(run: seq<Sys>, actions: seq<Action>) {
    && |run| == |actions| + 1 && run[0] == START
    && forall i | 0 <= i < |actions| :: Enabled(run[i], actions[i]) && run[i + 1] == Step(run[i], actions[i])
  }

  lemma Extend(run: seq<Sys>, actions: seq<Action>, a: Action) returns (run': seq<Sys>, actions': seq<Action>)
    requires IsRun(run, actions) && Enabled(run[|run| - 1], a)
    ensures IsRun(run', actions') && run'[|run'| - 1] == Step(run[|run| - 1], a)
    ensures actions' == actions + [a]
  {
    run', actions' := run + [Step(run[|run| - 1], a)], actions + [a];
  }
}
