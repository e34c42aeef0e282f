/** parse.go's context tracker: a running token measurement, withheld until the model's context
    window is known, and the windows a session learns out of band (context_usage.go). */
module Context {
  import opened Events

  datatype Snapshot = Snapshot(input: int, cacheRead: int, cacheCreate: int, output: int, window: int)

  datatype Phase = AtStart | AtEnd

  datatype Measurement = Measurement(counts: Snapshot, model: string, session: string, phase: Phase)

  /** An inner stream event; Ignored stands for any other type and for malformed payloads. */
  datatype Inner =
    | MessageStart(model: string, input: int, cacheRead: int, cacheCreate: int)
    | MessageDelta(output: int)
    | Ignored

  /** Models to context windows: what a result's usage says, or what has been learned. */
  type Windows = map<string, int>

  /** key is the model's name with a suffix in brackets, such as "[1m]". */
  predicate Suffixed(key: string, model: string) {
    |model| < |key| && key[..|model|] == model && key[|model|] == '['
  }

  lemma SuffixedIs(key: string, model: string)
    ensures Suffixed(key, model) <==> exists rest: string :: key == model + ("[" + rest)
  {
    if Suffixed(key, model) {
      assert key == model + ("[" + key[|model| + 1..]);
    }
  }

  predicate AllPositive(windows: Windows) {
    forall m | m in windows :: windows[m] > 0
  }

  /** What a lookup by bare name may return: the exact entry, else some suffixed one. */
  predicate MayFind(windows: Windows, model: string, w: Option<int>) {
    if model in windows then w == Some(windows[model])
    else if w.Some? then exists k | k in windows :: Suffixed(k, model) && w.value == windows[k]
    else forall k | k in windows :: !Suffixed(k, model)
  }

  method LookupModelUsage(usage: Windows, model: string) returns (w: Option<int>)
    ensures MayFind(usage, model, w)
  {
    if model in usage {
      return Some(usage[model]);
    }
    var keys := usage.Keys;
    while keys != {}
      invariant keys <= usage.Keys
      invariant forall k | k in usage.Keys - keys :: !Suffixed(k, model)
      decreases |keys|
    {
      var k :| k in keys;
      if Suffixed(k, model) {
        return Some(usage[k]);
      }
      keys := keys - {k};
    }
    w := None;
  }

  function Learn(windows: Windows, model: string, window: int): Windows {
    if model == "" || window <= 0 then windows else windows[model := window]
  }

  /** Every positive window of a result's usage overwrites what was known. */
  function LearnAll(windows: Windows, usage: Windows): Windows {
    map m | m in windows.Keys + usage.Keys && (m in windows || (m != "" && usage[m] > 0)) ::
      if m in usage && m != "" && usage[m] > 0 then usage[m] else windows[m]
  }

  /** The tracker's fields. */
  datatype State = State(snapshot: Option<Snapshot>, lastModel: string, windows: Windows)

  const ZERO := State(None, "", map[])

  /** What windowFor may return, given what the out-of-band source would say. */
  predicate MayBeWindow(windows: Windows, model: string, external: nat, w: int) {
    if model == "" then w == 0
    else MayFind(windows, model, Some(w)) || (MayFind(windows, model, None) && w == external)
  }

  function Reset(s: State): State {
    s.(snapshot := None, lastModel := "")
  }

  /** The measurement after an inner event, if the event is part of one. */
  function Measure(s: State, e: Inner): Option<State> {
    match e
    case MessageStart(model, i, r, c) => Some(s.(snapshot := Some(Snapshot(i, r, c, 0, 0)), lastModel := model))
    case MessageDelta(output) =>
      if s.snapshot.None? then None else Some(s.(snapshot := Some(s.snapshot.value.(output := output))))
    case Ignored => None
  }

  ghost predicate Observes(s: State, e: Inner, session: string, external: nat, t: State, out: Option<Measurement>) {
    match Measure(s, e)
    case None => t == s && out == None
    case Some(m) =>
      && t == m
      && exists w: int :: MayReport(m, e, session, external, w, out)
  }

  predicate MayReport(m: State, e: Inner, session: string, external: nat, w: int, out: Option<Measurement>) {
    && m.snapshot.Some?
    && MayBeWindow(m.windows, m.lastModel, external, w)
    && out == if w == 0 then None
              else Some(Measurement(m.snapshot.value.(window := w), m.lastModel, session,
                                    if e.MessageStart? then AtStart else AtEnd))
  }

  ghost predicate Finishes(s: State, usage: Windows, t: State, out: Option<Snapshot>) {
    && t == Reset(s).(windows := LearnAll(s.windows, usage))
    && match s.snapshot
       case None => out == None
       case Some(c) =>
         if s.lastModel == "" then out == Some(c)
         else exists w: Option<int> :: MayFind(usage, s.lastModel, w) &&
                out == Some(if w.Some? then c.(window := w.value) else c)
  }

  lemma LearnNothing(windows: Windows)
    ensures LearnAll(windows, map[]) == windows
  {
  }

  lemma LearnOneMore(windows: Windows, learned: Windows, model: string, window: int)
    requires model !in learned
    ensures LearnAll(windows, learned[model := window]) == Learn(LearnAll(windows, learned), model, window)
  {
  }

  class ContextTracker {
    var snapshot: Option<Snapshot>
    var lastModel: string
    var windows: Windows

    function View(): State
      reads this
    {
      State(snapshot, lastModel, windows)
    }

    constructor ()
      ensures View() == ZERO
    {
      snapshot, lastModel, windows := None, "", map[];
    }

    method DoReset()
      modifies this`snapshot, this`lastModel
      ensures View() == Reset(old(View()))
    {
      snapshot := None;
      lastModel := "";
    }

    method LearnWindow(model: string, window: int)
      modifies this`windows
      ensures windows == Learn(old(windows), model, window)
    {
      if model == "" || window <= 0 {
        return;
      }
      windows := windows[model := window];
    }

    method LearnWindows(usage: Windows)
      modifies this`windows
      ensures windows == LearnAll(old(windows), usage)
    {
      var keys := usage.Keys;
      ghost var learned: Windows := map[];
      LearnNothing(windows);
      while keys != {}
        invariant keys <= usage.Keys && learned.Keys == usage.Keys - keys
        invariant forall m | m in learned :: learned[m] == usage[m]
        invariant windows == LearnAll(old(windows), learned)
        decreases |keys|
      {
        var k :| k in keys;
        LearnOneMore(old(windows), learned, k, usage[k]);
        LearnWindow(k, usage[k]);
        learned := learned[k := usage[k]];
        keys := keys - {k};
      }
      assert learned == usage;
    }

    method WindowFor(model: string, external: nat) returns (w: int)
      ensures MayBeWindow(windows, model, external, w)
    {
      if model == "" {
        return 0;
      }
      var found := LookupModelUsage(windows, model);
      w := if found.Some? then found.value else external;
    }

    method Observe(e: Inner, session: string, external: nat) returns (out: Option<Measurement>)
      modifies this`snapshot, this`lastModel
      ensures Observes(old(View()), e, session, external, View(), out)
    {
      out := None;
      var phase := AtStart;
      match e {
        case MessageStart(model, input, cacheRead, cacheCreate) =>
          snapshot := Some(Snapshot(input, cacheRead, cacheCreate, 0, 0));
          lastModel := model;
        case MessageDelta(output) =>
          if snapshot.None? {
            return;
          }
          snapshot := Some(snapshot.value.(output := output));
          phase := AtEnd;
        case Ignored =>
          return;
      }
      var w := WindowFor(lastModel, external);
      if w != 0 {
        out := Some(Measurement(snapshot.value.(window := w), lastModel, session, phase));
      }
      assert MayReport(View(), e, session, external, w, out);
    }

    method Finish(usage: Windows) returns (out: Option<Snapshot>)
      modifies this
      ensures Finishes(old(View()), usage, View(), out)
    {
      LearnWindows(usage);
      out := snapshot;
      if out.Some? && lastModel != "" {
        var m := LookupModelUsage(usage, lastModel);
        if m.Some? {
          out := Some(out.value.(window := m.value));
        }
      }
      DoReset();
    }
  }

  // ---- every sequence of inner events, results and resets ----

  datatype Input =
    | Streams(inner: Inner, session: string, external: nat)
    | Ends(usage: Windows)
    | Restarts

  datatype Output = Quiet | Emits(measurement: Measurement) | Hands(snapshot: Snapshot)

  datatype Taken = Taken(input: Input, output: Output, after: State)

  ghost predicate Moves(s: State, k: Taken) {
    match k.input
    case Streams(e, session, external) =>
      (k.output.Quiet? && Observes(s, e, session, external, k.after, None))
      || (k.output.Emits? && Observes(s, e, session, external, k.after, Some(k.output.measurement)))
    case Ends(usage) =>
      (k.output.Quiet? && Finishes(s, usage, k.after, None))
      || (k.output.Hands? && Finishes(s, usage, k.after, Some(k.output.snapshot)))
    case Restarts => k.output.Quiet? && k.after == Reset(s)
  }

  function Last(run: seq<Taken>): State {
    if run == [] then ZERO else run[|run| - 1].after
  }

  ghost predicate IsRun(run: seq<Taken>) {
    forall i | 0 <= i < |run| :: Moves(Last(run[..i]), run[i])
  }

  predicate IsStart(i: Input) {
    i.Streams? && i.inner.MessageStart?
  }

  predicate IsDelta(i: Input) {
    i.Streams? && i.inner.MessageDelta?
  }

  /** The measurement that message_start j opened is still the current one. */
  predicate Current(run: seq<Taken>, j: nat) {
    && j < |run| && IsStart(run[j].input)
    && forall k | j < k < |run| :: run[k].input.Streams? && !IsStart(run[k].input)
  }

  /** The output of the latest message_delta after j, or 0. */
  function OutputSince(run: seq<Taken>, j: nat): int {
    if |run| <= j + 1 then 0
    else
      var k := |run| - 1;
      if IsDelta(run[k].input) then run[k].input.inner.output else OutputSince(run[..k], j)
  }

  function Counts(run: seq<Taken>, j: nat): Snapshot
    requires Current(run, j)
  {
    var e := run[j].input.inner;
    Snapshot(e.input, e.cacheRead, e.cacheCreate, OutputSince(run, j), 0)
  }

  lemma CurrentBefore(run: seq<Taken>, j: nat)
    requires run != [] && Current(run, j)
    ensures var k := |run| - 1;
            if j == k then Counts(run, j).output == 0
            else Current(run[..k], j) && run[k].input.Streams? && !IsStart(run[k].input)
  {
  }

  lemma CurrentAfter(run: seq<Taken>, j: nat)
    requires run != [] && Current(run[..|run| - 1], j)
    ensures var k := |run| - 1; run[k].input.Streams? && !IsStart(run[k].input) ==> Current(run, j)
  {
  }

  lemma RunBefore(run: seq<Taken>)
    requires IsRun(run) && run != []
    ensures IsRun(run[..|run| - 1]) && Moves(Last(run[..|run| - 1]), run[|run| - 1])
  {
    var before := run[..|run| - 1];
    forall i | 0 <= i < |before| ensures Moves(Last(before[..i]), before[i]) {
      assert before[..i] == run[..i];
    }
  }

  /** The tracker holds the prompt counts of the current message_start and the output of the
      latest message_delta, and nothing when no measurement is current. */
  lemma {:induction false} HoldsCurrent(run: seq<Taken>)
    requires IsRun(run)
    ensures forall j: nat | Current(run, j) ::
              Last(run).snapshot == Some(Counts(run, j)) && Last(run).lastModel == run[j].input.inner.model
    ensures Last(run).snapshot.Some? ==> exists j: nat :: Current(run, j)
    ensures Last(run).snapshot.None? ==> Last(run).lastModel == ""
  {
    if run != [] {
      var k := |run| - 1;
      RunBefore(run);
      HoldsCurrent(run[..k]);
      forall j: nat | Current(run, j)
        ensures Last(run).snapshot == Some(Counts(run, j)) && Last(run).lastModel == run[j].input.inner.model
      {
        CurrentBefore(run, j);
        if j < k {
          assert run[..k][j] == run[j];
        }
      }
      if Last(run).snapshot.Some? {
        if IsStart(run[k].input) {
          assert Current(run, k);
        } else {
          var j: nat :| Current(run[..k], j);
          CurrentAfter(run, j);
        }
      }
    }
  }

  /** The latest positive window that a result disclosed for a model. */
  predicate Disclosed(run: seq<Taken>, model: string, i: nat) {
    && i < |run| && Discloses(run[i].input, model)
    && forall k | i < k < |run| :: !Discloses(run[k].input, model)
  }

  predicate Discloses(i: Input, model: string) {
    i.Ends? && model != "" && model in i.usage && i.usage[model] > 0
  }

  lemma WindowStep(s: State, k: Taken, model: string)
    requires Moves(s, k)
    ensures model in k.after.windows <==> model in s.windows || Discloses(k.input, model)
    ensures model in k.after.windows ==>
              k.after.windows[model] == if Discloses(k.input, model) then k.input.usage[model] else s.windows[model]
  {
  }

  /** Learned windows outlive resets: of each model the latest disclosed one is kept. */
  lemma {:induction false} WindowsSurvive(run: seq<Taken>, model: string)
    requires IsRun(run)
    ensures model in Last(run).windows <==> exists i: nat :: Disclosed(run, model, i)
    ensures forall i: nat | Disclosed(run, model, i) ::
              model in Last(run).windows && Last(run).windows[model] == run[i].input.usage[model]
  {
    if run != [] {
      var k := |run| - 1;
      RunBefore(run);
      WindowStep(Last(run[..k]), run[k], model);
      WindowsSurvive(run[..k], model);
      DisclosedMore(run, model);
    }
  }

  lemma DisclosedMore(run: seq<Taken>, model: string)
    requires run != []
    ensures var k := |run| - 1;
            var before := run[..k];
            if Discloses(run[k].input, model) then
              Disclosed(run, model, k) && forall i: nat | Disclosed(run, model, i) :: i == k
            else forall i: nat :: (Disclosed(run, model, i) <==> Disclosed(before, model, i))
                                  && (Disclosed(run, model, i) ==> before[i] == run[i])
  {
  }

  lemma {:induction false} WindowsPositive(run: seq<Taken>)
    requires IsRun(run)
    ensures AllPositive(Last(run).windows)
  {
    if run != [] {
      var k := |run| - 1;
      RunBefore(run);
      WindowsPositive(run[..k]);
      forall m | m in Last(run).windows ensures Last(run).windows[m] > 0 {
        WindowStep(Last(run[..k]), run[k], m);
      }
    }
  }

  /** The window that the run so far tells of a model: the latest one disclosed for it, or else for
      its name with some suffix, or else what the source outside knows. */
  ghost predicate IsWindowOf(run: seq<Taken>, model: string, external: nat, w: int) {
    if exists i: nat :: Disclosed(run, model, i) then
      exists i: nat :: Disclosed(run, model, i) && w == run[i].input.usage[model]
    else if SomeSuffixed(run, model) then
      exists key: string, i: nat :: Suffixed(key, model) && Disclosed(run, key, i) && w == run[i].input.usage[key]
    else w == external
  }

  ghost predicate SomeSuffixed(run: seq<Taken>, model: string) {
    exists key: string, i: nat :: Suffixed(key, model) && Disclosed(run, key, i)
  }

  lemma FoundIsDisclosed(run: seq<Taken>, model: string, external: nat, w: int)
    requires IsRun(run) && model != "" && MayBeWindow(Last(run).windows, model, external, w)
    ensures IsWindowOf(run, model, external, w)
  {
    var windows := Last(run).windows;
    WindowsSurvive(run, model);
    if model !in windows {
      SuffixedSurvive(run, model);
      if SomeSuffixed(run, model) {
        var key :| key in windows && Suffixed(key, model) && w == windows[key];
        WindowsSurvive(run, key);
        var i: nat :| Disclosed(run, key, i);
      }
    }
  }

  lemma SuffixedSurvive(run: seq<Taken>, model: string)
    requires IsRun(run)
    ensures SomeSuffixed(run, model) <==> exists key | key in Last(run).windows :: Suffixed(key, model)
  {
    if SomeSuffixed(run, model) {
      var key: string, i: nat :| Suffixed(key, model) && Disclosed(run, key, i);
      WindowsSurvive(run, key);
    }
    if key :| key in Last(run).windows && Suffixed(key, model) {
      WindowsSurvive(run, key);
      var i: nat :| Disclosed(run, key, i);
    }
  }

  /** An emitted measurement has its event's session and its model's window. */
  lemma EmitsKnownWindow(run: seq<Taken>)
    requires IsRun(run) && run != [] && run[|run| - 1].output.Emits?
    ensures var m, last := run[|run| - 1].output.measurement, run[|run| - 1].input;
            && last.Streams? && m.session == last.session && m.model != ""
            && m.counts.window > 0 && IsWindowOf(run, m.model, last.external, m.counts.window)
  {
    var k := |run| - 1;
    RunBefore(run);
    WindowsPositive(run);
    EmitShape(Last(run[..k]), run[k]);
    var m := run[k].output.measurement;
    FoundIsDisclosed(run, m.model, run[k].input.external, m.counts.window);
  }

  /** Every emitted measurement has the prompt counts and model of the latest message_start, output
      zero on that start, else the latest message_delta's, the session of its event, and that model's
      window, which is positive. */
  lemma EmitsCurrentMeasurement(run: seq<Taken>) returns (j: nat)
    requires IsRun(run) && run != [] && run[|run| - 1].output.Emits?
    ensures Current(run, j)
    ensures var m, last := run[|run| - 1].output.measurement, run[|run| - 1].input;
            && last.Streams? && m.session == last.session
            && m.counts.window > 0 && IsWindowOf(run, m.model, last.external, m.counts.window)
            && m.counts.(window := 0) == Counts(run, j)
            && m.model == run[j].input.inner.model != ""
            && m.phase == (if j == |run| - 1 then AtStart else AtEnd)
            && (m.phase == AtStart ==> m.counts.output == 0)
            && (m.phase == AtEnd ==> IsDelta(last) && m.counts.output == last.inner.output)
  {
    EmitsKnownWindow(run);
    j := EmitsCounts(run);
  }

  lemma EmitsCounts(run: seq<Taken>) returns (j: nat)
    requires IsRun(run) && run != [] && run[|run| - 1].output.Emits?
    ensures Current(run, j)
    ensures var m, last := run[|run| - 1].output.measurement, run[|run| - 1].input;
            && m.counts.(window := 0) == Counts(run, j)
            && m.model == run[j].input.inner.model
            && m.phase == (if j == |run| - 1 then AtStart else AtEnd)
            && (m.phase == AtStart ==> m.counts.output == 0)
            && (m.phase == AtEnd ==> IsDelta(last) && m.counts.output == last.inner.output)
  {
    var k := |run| - 1;
    RunBefore(run);
    HoldsCurrent(run[..k]);
    HoldsCurrent(run);
    WindowsPositive(run);
    EmitShape(Last(run[..k]), run[k]);
    j :| Current(run, j);
    CurrentBefore(run, j);
  }

  lemma EmitShape(s: State, k: Taken)
    requires Moves(s, k) && k.output.Emits? && AllPositive(k.after.windows)
    ensures k.input.Streams? && !k.input.inner.Ignored? && k.after.snapshot.Some?
    ensures var m := k.output.measurement;
            && m.counts.window > 0 && m.counts == k.after.snapshot.value.(window := m.counts.window)
            && m.model == k.after.lastModel != ""
            && m.phase == (if IsStart(k.input) then AtStart else AtEnd)
            && (IsDelta(k.input) ==> m.counts.output == k.input.inner.output)
            && m.session == k.input.session
            && MayBeWindow(k.after.windows, m.model, k.input.external, m.counts.window)
  {
  }

  /** A start, or a delta of a current measurement, stays quiet only while the window is unknown:
      no learned key fits the model, and the out-of-band source knows none. */
  lemma QuietOnlyWhileUnknown(run: seq<Taken>, j: nat)
    requires IsRun(run) && Current(run, j) && run[|run| - 1].output.Quiet?
    requires IsStart(run[|run| - 1].input) || IsDelta(run[|run| - 1].input)
    ensures var s, model := Last(run), run[j].input.inner.model;
            model == "" || (run[|run| - 1].input.external == 0
                            && forall m | m in s.windows :: m != model && !Suffixed(m, model))
  {
    RunBefore(run);
    HoldsCurrent(run[..|run| - 1]);
    HoldsCurrent(run);
    WindowsPositive(run);
    CurrentBefore(run, j);
  }

  /** The window that a result's usage gives a model: that of its name, or of its name with some
      suffix, or none. */
  predicate UsageSays(usage: Windows, model: string, w: int) {
    if model == "" then w == 0
    else if model in usage then w == usage[model]
    else if exists key | key in usage :: Suffixed(key, model) then
      exists key | key in usage :: Suffixed(key, model) && w == usage[key]
    else w == 0
  }

  /** A result hands over exactly the counts of the last measurement, if there is one, with the window
      that its own usage gives the measured model. */
  lemma ResultHandsLastMeasurement(run: seq<Taken>, j: nat)
    requires IsRun(run) && run != [] && run[|run| - 1].input.Ends?
    requires Current(run[..|run| - 1], j)
    ensures run[|run| - 1].output.Hands?
    ensures var handed := run[|run| - 1].output.snapshot;
            && handed.(window := 0) == Counts(run[..|run| - 1], j)
            && UsageSays(run[|run| - 1].input.usage, run[j].input.inner.model, handed.window)
  {
    RunBefore(run);
    HoldsCurrent(run[..|run| - 1]);
    assert run[..|run| - 1][j] == run[j];
  }

  lemma ResultWithoutMeasurement(run: seq<Taken>)
    requires IsRun(run) && run != [] && run[|run| - 1].input.Ends?
    requires var before := run[..|run| - 1]; forall j: nat :: !Current(before, j)
    ensures run[|run| - 1].output.Quiet?
  {
    RunBefore(run);
    HoldsCurrent(run[..|run| - 1]);
  }

  // ---- windows learned out of band ----

  /** The session's own store; either name may carry the suffix. */
  class SessionWindows {
    var windows: Windows

    ghost predicate Valid()
      reads this
    {
      AllPositive(windows) && "" !in windows
    }

    constructor ()
      ensures Valid() && windows == map[]
    {
      windows := map[];
    }

    method Record(model: string, rawMaxTokens: int, maxTokens: int)
      requires Valid()
      modifies this
      ensures Valid()
      ensures windows == Learn(old(windows), model, if rawMaxTokens > 0 then rawMaxTokens else maxTokens)
    {
      if model == "" {
        return;
      }
      var window := rawMaxTokens;
      if window <= 0 {
        window := maxTokens;
      }
      if window <= 0 {
        return;
      }
      windows := windows[model := window];
    }

    /** Zero exactly when no recorded name fits. */
    method Observed(model: string) returns (w: nat)
      requires Valid()
      ensures w == 0 <==> model == "" || forall m | m in windows ::
                m != model && !Suffixed(m, model) && !Suffixed(model, m)
      ensures model in windows ==> w == windows[model]
      ensures w > 0 ==> exists m | m in windows ::
                (m == model || Suffixed(m, model) || Suffixed(model, m)) && windows[m] == w
    {
      if model == "" {
        return 0;
      }
      if model in windows {
        return windows[model];
      }
      w := 0;
      var keys := windows.Keys;
      while keys != {}
        invariant keys <= windows.Keys
        invariant forall m | m in windows.Keys - keys :: !Suffixed(m, model) && !Suffixed(model, m)
        decreases |keys|
      {
        var k :| k in keys;
        if Suffixed(k, model) || Suffixed(model, k) {
          return windows[k];
        }
        keys := keys - {k};
      }
    }
  }
}
