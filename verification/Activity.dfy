/** The activity tracker: what the CLI is doing, derived from the event stream. */
module ActivityTracking {
  import opened Events

  /** The first outstanding top-level tool use; the empty id stands for none. */
  datatype ToolUse = ToolUse(id: string, name: string, startedAt: nat)

  const NO_TOOL_USE := ToolUse("", "", 0)

  datatype Tracker = Tracker(state: Activity, pending: nat, first: ToolUse)

  const NEW_TRACKER := Tracker(Idle, 0, NO_TOOL_USE)

  /** What reaches the tracker: an event and the time, a result the session holds as
      unsolicited, or a message sent by the caller. */
  datatype Input = Observed(ev: Event, now: nat) | Unsolicited(queryPending: bool) | Query

  function CountToolResults(blocks: seq<string>): nat {
    if blocks == [] then 0
    else CountToolResults(blocks[..|blocks| - 1]) + if blocks[|blocks| - 1] == "tool_result" then 1 else 0
  }

  /** The places of the tool results. */
  function ToolResultsAt(blocks: seq<string>): set<nat> {
    set i: nat | i < |blocks| && blocks[i] == "tool_result"
  }

  lemma PlacesMore(blocks: seq<string>, block: string)
    ensures ToolResultsAt(blocks + [block])
         == ToolResultsAt(blocks) + if block == "tool_result" then {|blocks|} else {}
  {
  }

  /** The count is of the blocks of that kind. */
  lemma {:induction false} CountsToolResults(blocks: seq<string>)
    ensures CountToolResults(blocks) == |ToolResultsAt(blocks)|
  {
    if blocks != [] {
      var k := |blocks| - 1;
      CountsToolResults(blocks[..k]);
      assert blocks == blocks[..k] + [blocks[k]];
      PlacesMore(blocks[..k], blocks[k]);
    }
  }

  function Minus(p: nat, n: nat): nat {
    if n < p then p - n else 0
  }

  /** Top-level tool uses and tool results that an input carries; the two resets. */

  predicate IsUse(i: Input) {
    i.Observed? && i.ev.ToolUseEvent? && i.ev.parent == ""
  }

  function ResultsIn(i: Input): nat {
    if !i.Observed? then 0
    else if i.ev.ToolResultEvent? && i.ev.parent == "" then 1
    else if i.ev.UserEvent? && i.ev.parent == "" then CountToolResults(i.ev.blocks)
    else 0
  }

  predicate IsReset(i: Input) {
    i.Unsolicited? || (i.Observed? && (i.ev.ResultEvent? || (i.ev.ErrorEvent? && i.ev.fatal)))
  }

  function MoveTo(t: Tracker, next: Activity): Tracker {
    if next == t.state then t
    else t.(state := next, first := if next == AwaitingToolResult then t.first else NO_TOOL_USE)
  }

  /** observe, observeUnsolicitedResult and markQuery. */
  function React(t: Tracker, i: Input): Tracker {
    match i
    case Query => if t.state == Idle then t.(state := Thinking) else t
    case Unsolicited(queryPending) => MoveTo(t.(pending := 0), if queryPending then Thinking else Idle)
    case Observed(ev, now) =>
      var wake := if t.state == Idle then Thinking else t.state;
      match ev {
        case TurnEvent => MoveTo(t, wake)
        case TextEvent(parent) => if parent == "" then MoveTo(t, wake) else t
        case ThinkingEvent(parent) => if parent == "" then MoveTo(t, wake) else t
        case ToolUseEvent(parent, id, name) =>
          if parent != "" then t
          else
            var t1 := if t.pending == 0 then t.(first := ToolUse(id, name, now)) else t;
            MoveTo(t1.(pending := t.pending + 1), AwaitingToolResult)
        case ToolResultEvent(parent) =>
          if parent != "" then t
          else
            var t1 := t.(pending := Minus(t.pending, 1));
            if t1.pending == 0 then MoveTo(t1, Thinking) else t1
        case UserEvent(parent, blocks) =>
          if parent != "" then t
          else
            var t1 := t.(pending := Minus(t.pending, CountToolResults(blocks)));
            if t1.pending == 0 && t.state == AwaitingToolResult then MoveTo(t1, Thinking) else t1
        case ResultEvent(_) => MoveTo(t.(pending := 0), Idle)
        case ErrorEvent(_, fatal) => if fatal then MoveTo(t.(pending := 0), Idle) else t
        case _ => t
      }
  }

  /** The transition to emit when the tracker goes from t to t1. */
  function Emits(t: Tracker, t1: Tracker): Option<Activity> {
    if t.state == t1.state then None else Some(t1.state)
  }

  class ActivityTracker {
    var state: Activity
    var pendingToolUses: nat
    var firstPending: ToolUse

    ghost function View(): Tracker
      reads this
    {
      Tracker(state, pendingToolUses, firstPending)
    }

    constructor ()
      ensures View() == NEW_TRACKER
    {
      state, pendingToolUses, firstPending := Idle, 0, NO_TOOL_USE;
    }

    method ChangeTo(next: Activity) returns (change: Option<Activity>)
      modifies this
      ensures View() == MoveTo(old(View()), next) && change == Emits(old(View()), View())
    {
      if next == state {
        return None;
      }
      state := next;
      if next != AwaitingToolResult {
        firstPending := NO_TOOL_USE;
      }
      return Some(next);
    }

    method Observe(ev: Event, now: nat) returns (change: Option<Activity>)
      modifies this
      ensures View() == React(old(View()), Observed(ev, now)) && change == Emits(old(View()), View())
    {
      var next := state;
      match ev {
        case TurnEvent =>
          if state == Idle { next := Thinking; }
        case TextEvent(parent) =>
          if parent == "" && state == Idle { next := Thinking; }
        case ThinkingEvent(parent) =>
          if parent == "" && state == Idle { next := Thinking; }
        case ToolUseEvent(parent, id, name) =>
          if parent == "" {
            if pendingToolUses == 0 {
              firstPending := ToolUse(id, name, now);
            }
            pendingToolUses := pendingToolUses + 1;
            next := AwaitingToolResult;
          }
        case ToolResultEvent(parent) =>
          if parent == "" {
            if pendingToolUses > 0 {
              pendingToolUses := pendingToolUses - 1;
            }
            if pendingToolUses == 0 {
              next := Thinking;
            }
          }
        case UserEvent(parent, blocks) =>
          if parent == "" {
            SettleBlocks(blocks);
            if pendingToolUses == 0 && state == AwaitingToolResult {
              next := Thinking;
            }
          }
        case ResultEvent(_) =>
          pendingToolUses := 0;
          next := Idle;
        case ErrorEvent(_, fatal) =>
          if fatal {
            pendingToolUses := 0;
            next := Idle;
          }
        case _ =>
      }
      change := ChangeTo(next);
    }

    /** The tool results in a user message. */
    method SettleBlocks(blocks: seq<string>)
      modifies this`pendingToolUses
      ensures pendingToolUses == Minus(old(pendingToolUses), CountToolResults(blocks))
    {
      for i := 0 to |blocks|
        invariant pendingToolUses == Minus(old(pendingToolUses), CountToolResults(blocks[..i]))
      {
        assert blocks[..i + 1][..i] == blocks[..i];
        if blocks[i] == "tool_result" && pendingToolUses > 0 {
          pendingToolUses := pendingToolUses - 1;
        }
      }
      assert blocks[..|blocks|] == blocks;
    }

    method ObserveUnsolicitedResult(queryPending: bool) returns (change: Option<Activity>)
      modifies this
      ensures View() == React(old(View()), Unsolicited(queryPending)) && change == Emits(old(View()), View())
    {
      pendingToolUses := 0;
      if queryPending {
        change := ChangeTo(Thinking);
      } else {
        change := ChangeTo(Idle);
      }
    }

    method MarkQuery() returns (change: Option<Activity>)
      modifies this
      ensures View() == React(old(View()), Query) && change == Emits(old(View()), View())
    {
      if state != Idle {
        return None;
      }
      state := Thinking;
      return Some(Thinking);
    }

    /** The first outstanding tool use, while a result is awaited. */
    method FirstPending() returns (use: Option<ToolUse>)
      ensures use == Reported(View())
    {
      if state != AwaitingToolResult || firstPending.id == "" {
        return None;
      }
      return Some(firstPending);
    }
  }

  function Reported(t: Tracker): Option<ToolUse> {
    if t.state != AwaitingToolResult || t.first.id == "" then None else Some(t.first)
  }

  // ---- whole runs ----

  function After(h: seq<Input>): Tracker {
    if h == [] then NEW_TRACKER else React(After(h[..|h| - 1]), h[|h| - 1])
  }

  /** Tool uses, and tool results, since the last reset. */
  function Uses(h: seq<Input>): nat {
    if h == [] || IsReset(h[|h| - 1]) then 0
    else Uses(h[..|h| - 1]) + if IsUse(h[|h| - 1]) then 1 else 0
  }

  function Results(h: seq<Input>): nat {
    if h == [] || IsReset(h[|h| - 1]) then 0 else Results(h[..|h| - 1]) + ResultsIn(h[|h| - 1])
  }

  /** Since the last reset the results never outnumbered the uses. */
  predicate Paired(h: seq<Input>) {
    h == [] || IsReset(h[|h| - 1]) || (Paired(h[..|h| - 1]) && Results(h) <= Uses(h))
  }

  lemma {:induction false} AwaitingIffPending(h: seq<Input>)
    ensures After(h).state == AwaitingToolResult <==> After(h).pending > 0
    ensures After(h).state != AwaitingToolResult ==> After(h).first == NO_TOOL_USE
  {
    if h != [] {
      AwaitingIffPending(h[..|h| - 1]);
    }
  }

  /** The pending count is uses minus results exactly when the results never
      outnumbered the uses; otherwise it is larger, since surplus results are ignored. */
  lemma {:induction false} PendingIsUsesMinusResults(h: seq<Input>)
    ensures After(h).pending >= Uses(h) - Results(h)
    ensures After(h).pending == Uses(h) - Results(h) <==> Paired(h)
  {
    if h != [] {
      PendingIsUsesMinusResults(h[..|h| - 1]);
    }
  }

  // ---- the state and the count, told by the history alone ----

  /** A top-level tool result, by itself. */
  predicate IsToolResult(i: Input) {
    i.Observed? && i.ev.ToolResultEvent? && i.ev.parent == ""
  }

  /** Inputs after which the CLI is at work, whatever it did before. */
  predicate Stirs(i: Input) {
    || i.Query? || i == Unsolicited(true) || IsUse(i) || IsToolResult(i)
    || (i.Observed? && (i.ev.TurnEvent? || i.ev == TextEvent("") || i.ev == ThinkingEvent("")))
  }

  /** Inputs after which it is done: the end of a turn with no query waiting, or a fatal error. */
  predicate Settles(i: Input) {
    || i == Unsolicited(false)
    || (i.Observed? && (i.ev.ResultEvent? || (i.ev.ErrorEvent? && i.ev.fatal)))
  }

  /** Nothing has stirred since the last end, or ever. */
  predicate AtRest(h: seq<Input>) {
    forall i | 0 <= i < |h| && Stirs(h[i]) :: SettledAfter(h, i)
  }

  predicate SettledAfter(h: seq<Input>, i: int) {
    exists j: nat :: i < j < |h| && Settles(h[j])
  }

  lemma RestMore(h: seq<Input>)
    requires h != []
    ensures var last := h[|h| - 1];
            AtRest(h) <==> Settles(last) || (!Stirs(last) && AtRest(h[..|h| - 1]))
  {
    var before, last := h[..|h| - 1], h[|h| - 1];
    if Settles(last) {
      forall i | 0 <= i < |h| && Stirs(h[i]) ensures SettledAfter(h, i) {
        assert i < |h| - 1 < |h| && Settles(h[|h| - 1]);
      }
    } else {
      if AtRest(before) && !Stirs(last) {
        forall i | 0 <= i < |h| && Stirs(h[i]) ensures SettledAfter(h, i) {
          assert before[i] == h[i];
          var j: nat :| i < j < |before| && Settles(before[j]);
          assert h[j] == before[j];
        }
      }
      if AtRest(h) {
        forall i | 0 <= i < |before| && Stirs(before[i]) ensures SettledAfter(before, i) {
          assert SettledAfter(h, i);
          var j: nat :| i < j < |h| && Settles(h[j]);
          assert before[j] == h[j];
        }
        assert Stirs(last) ==> SettledAfter(h, |h| - 1);
      }
    }
  }

  /** Idle exactly at rest. */
  lemma {:induction false} IdleIffAtRest(h: seq<Input>)
    ensures After(h).state == Idle <==> AtRest(h)
  {
    if h != [] {
      IdleIffAtRest(h[..|h| - 1]);
      AwaitingIffPending(h[..|h| - 1]);
      RestMore(h);
    }
  }

  /** Uses less results in the stretch from k on. */
  function Excess(h: seq<Input>, k: nat): int
    decreases |h|
  {
    if |h| <= k then 0
    else Excess(h[..|h| - 1], k) + (if IsUse(h[|h| - 1]) then 1 else 0) - ResultsIn(h[|h| - 1])
  }

  /** The stretch has no reset. */
  predicate Stretch(h: seq<Input>, k: int) {
    0 <= k <= |h| && forall i | k <= i < |h| :: !IsReset(h[i])
  }

  /** The pending count, for every history: the largest excess of uses over results in any stretch up
      to now without a reset. */
  lemma {:induction false} PendingIsLargestExcess(h: seq<Input>) returns (k: nat)
    ensures Stretch(h, k) && After(h).pending == Excess(h, k)
    ensures forall i | Stretch(h, i) :: Excess(h, i) <= After(h).pending
  {
    if h == [] {
      k := 0;
    } else {
      var before, last := h[..|h| - 1], h[|h| - 1];
      var b := PendingIsLargestExcess(before);
      k := if After(h).pending == 0 || IsReset(last) then |h| else b;
      forall i | Stretch(h, i) ensures Excess(h, i) <= After(h).pending {
        if i < |h| {
          assert Stretch(before, i);
        }
      }
    }
  }

  /** So awaiting exactly when some stretch without a reset has more uses than results. */
  lemma AwaitingIffExcess(h: seq<Input>)
    ensures After(h).state == AwaitingToolResult <==> exists k: nat :: Stretch(h, k) && Excess(h, k) > 0
  {
    AwaitingIffPending(h);
    var k := PendingIsLargestExcess(h);
  }

  /** And thinking at any other time: after the last tool result, and after the CLI's own turn while a
      query waits, until an event moves it. */
  lemma ThinkingOtherwise(h: seq<Input>)
    ensures After(h).state == Thinking <==> !AtRest(h) && forall k: nat | Stretch(h, k) :: Excess(h, k) <= 0
  {
    IdleIffAtRest(h);
    AwaitingIffExcess(h);
  }

  lemma ThinkingAfterOwnTurn(h: seq<Input>, more: seq<Input>)
    requires forall i | 0 <= i < |more| :: !IsUse(more[i]) && !IsReset(more[i])
    ensures After(h + [Unsolicited(true)] + more).state == Thinking
  {
    var g := h + [Unsolicited(true)] + more;
    assert g[|h|] == Unsolicited(true);
    forall j | |h| < j < |g| ensures !Settles(g[j]) && !IsReset(g[j]) {
      assert g[j] == more[j - |h| - 1];
    }
    assert Stirs(g[|h|]) && !SettledAfter(g, |h|);
    forall k: nat | Stretch(g, k) ensures Excess(g, k) <= 0 {
      assert k > |h|;
      forall j | k <= j < |g| ensures !IsUse(g[j]) {
        assert g[j] == more[j - |h| - 1];
      }
      NoUseNoExcess(g, k);
    }
    ThinkingOtherwise(g);
  }

  lemma {:induction false} NoUseNoExcess(h: seq<Input>, k: nat)
    requires forall j | k <= j < |h| :: !IsUse(h[j])
    ensures Excess(h, k) <= 0
    decreases |h|
  {
    if k < |h| {
      NoUseNoExcess(h[..|h| - 1], k);
    }
  }

  lemma ThinkingAfterLastResult(h: seq<Input>, now: nat)
    requires After(h).pending <= 1
    ensures After(h + [Observed(ToolResultEvent(""), now)]).state == Thinking
  {
    var last := Observed(ToolResultEvent(""), now);
    assert (h + [last])[..|h|] == h;
    assert After(h + [last]) == React(After(h), last);
  }

  /** A result that no use precedes is ignored: the count is then not the difference. */
  lemma StrayResult()
    ensures var h := [Observed(ToolResultEvent(""), 0)];
            !Paired(h) && After(h).pending == 0 && Uses(h) - Results(h) == -1
  {
    var h := [Observed(ToolResultEvent(""), 0)];
    assert h[..0] == [];
    PendingIsUsesMinusResults(h);
  }

  /** The count has been positive after every input from i on. */
  predicate PositiveSince(h: seq<Input>, i: nat)
    decreases |h|
  {
    |h| <= i || (After(h).pending > 0 && PositiveSince(h[..|h| - 1], i))
  }

  /** The tool use at i opened the current stretch without a zero count. */
  predicate OpenedAt(h: seq<Input>, i: nat) {
    i < |h| && IsUse(h[i]) && After(h[..i]).pending == 0 && PositiveSince(h, i)
  }

  function UseOf(i: Input): ToolUse
    requires IsUse(i)
  {
    ToolUse(i.ev.id, i.ev.name, i.now)
  }

  lemma OpenedMore(h: seq<Input>, i: nat)
    requires h != [] && OpenedAt(h[..|h| - 1], i) && After(h).pending > 0
    ensures OpenedAt(h, i)
  {
    assert h[..|h| - 1][..i] == h[..i];
  }

  lemma {:induction false} EarliestUse(h: seq<Input>) returns (i: nat)
    requires After(h).pending > 0
    ensures OpenedAt(h, i) && After(h).first == UseOf(h[i])
  {
    var before := h[..|h| - 1];
    AwaitingIffPending(before);
    if After(before).pending == 0 {
      i := |h| - 1;
    } else {
      i := EarliestUse(before);
      OpenedMore(h, i);
    }
  }

  /** While results are awaited, the first pending tool use is the earliest one
      since the pending count was last zero; FirstPending reports it if it has an
      id, and reports nothing at any other time. */
  lemma FirstIsEarliest(h: seq<Input>)
    ensures After(h).state == AwaitingToolResult ==>
              exists i: nat :: OpenedAt(h, i) && After(h).first == UseOf(h[i])
                               && Reported(After(h)) == (if h[i].ev.id == "" then None else Some(UseOf(h[i])))
    ensures After(h).state != AwaitingToolResult ==> Reported(After(h)).None?
  {
    AwaitingIffPending(h);
    if After(h).pending > 0 {
      var _ := EarliestUse(h);
    }
  }

  /** The transitions that a run emits, in order. */
  function Emitted(h: seq<Input>): seq<Activity> {
    if h == [] then []
    else
      var before := h[..|h| - 1];
      var e := Emits(After(before), After(h));
      Emitted(before) + if e.Some? then [e.value] else []
  }

  function LastOr(s: seq<Activity>, d: Activity): Activity {
    if s == [] then d else s[|s| - 1]
  }

  /** Replaying the emitted transitions gives the current state, and none repeats
      the state before it. */
  lemma {:induction false} TransitionsReplay(h: seq<Input>)
    ensures LastOr(Emitted(h), Idle) == After(h).state
    ensures forall i | 0 <= i < |Emitted(h)| :: Emitted(h)[i] != LastOr(Emitted(h)[..i], Idle)
  {
    if h != [] {
      var before := h[..|h| - 1];
      TransitionsReplay(before);
      forall i | 0 <= i < |Emitted(h)|
        ensures Emitted(h)[i] != LastOr(Emitted(h)[..i], Idle)
      {
        if i < |Emitted(before)| {
          assert Emitted(h)[..i] == Emitted(before)[..i];
        } else {
          assert Emitted(h)[..i] == Emitted(before);
        }
      }
    }
  }

  // ---- the tool progress ticker ----

  /** The read loop observes, then emits; callers mark queries at any time. `due` is a
      transition that was observed and not yet emitted. */
  datatype Ticking = Ticking(t: Tracker, running: bool, due: Option<Activity>)

  datatype TickStep = Observes(i: Input) | EmitsDue | Marks

  predicate TickEnabled(s: Ticking, a: TickStep) {
    match a
    case Observes(i) => s.due.None? && !i.Query?
    case EmitsDue => s.due.Some?
    case Marks => true
  }

  function TickNext(s: Ticking, a: TickStep): Ticking
    requires TickEnabled(s, a)
  {
    match a
    case Observes(i) => s.(t := React(s.t, i), due := Emits(s.t, React(s.t, i)))
    // emitTransition starts or stops the ticker after it has sent the transition
    case EmitsDue => s.(running := s.due.value == AwaitingToolResult, due := None)
    case Marks => s.(t := React(s.t, Query))
  }

  predicate IsTickRun(run: seq<Ticking>, steps: seq<TickStep>) {
    && |run| == |steps| + 1 && run[0] == Ticking(NEW_TRACKER, false, None)
    && forall i | 0 <= i < |steps| :: TickEnabled(run[i], steps[i]) && run[i + 1] == TickNext(run[i], steps[i])
  }

  /** Whenever the read loop has no transition left to emit, the ticker runs exactly
      while a tool result is awaited, however callers interleave. */
  lemma {:induction false} TickerFollowsState(run: seq<Ticking>, steps: seq<TickStep>, n: nat)
    requires IsTickRun(run, steps) && n < |run|
    ensures run[n].due.None? ==> (run[n].running <==> run[n].t.state == AwaitingToolResult)
    ensures run[n].due.Some? ==> (run[n].due.value == AwaitingToolResult <==> run[n].t.state == AwaitingToolResult)
  {
    if n > 0 {
      TickerFollowsState(run, steps, n - 1);
      assert TickEnabled(run[n - 1], steps[n - 1]);
    }
  }
}
