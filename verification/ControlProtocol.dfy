/** Every interleaving of callers that send control requests with the read loop that answers and
    finally fails them. */
module ControlProtocol {
  import opened Events
  import opened Control

  datatype Result = Got(reply: Reply) | WriteFailed | TimedOut

  datatype Pc = Fresh | Numbered | Registered | Waiting | Leaving(result: Result) | Gone(result: Result)

  /** A caller, its request's id and its one-slot channel. `early` tells whether it registered
      before the read loop began to fail the pending requests. */
  datatype Caller = Caller(pc: Pc, id: nat, ch: Slot, early: bool)

  /** Between two lines the read loop is Reading; Sending is between the LoadAndDelete of a
      response and its send; Visiting and Visited are within one call-back of the final Range. */
  datatype Reader =
    | Reading
    | Sending(c: nat, reply: Reply)
    | Failing
    | Visiting(id: nat, c: nat)
    | Visited(id: nat, c: nat)
    | Exited

  /** `pending` maps ids to the callers whose channels it holds. */
  datatype State = State(counter: nat, callers: map<nat, Caller>, pending: map<nat, nat>, reader: Reader)

  const INIT := State(0, map[], map[], Reading)

  datatype Action =
    | Arrives(c: nat)
    | Numbers(c: nat)
    | Registers(c: nat)
    | Writes(c: nat, ok: bool)
    | Receives(c: nat)
    | TimesOut(c: nat)
    | Leaves(c: nat)
    | Responds(id: nat, isError: bool, body: string)
    | Sends
    | Exits
    | Visits(id: nat)
    | Fails
    | Deletes
    | Finishes

  predicate At(s: State, c: nat, pc: Pc) {
    c in s.callers && s.callers[c].pc == pc
  }

  function Put(s: State, c: nat, caller: Caller): State {
    s.(callers := s.callers[c := caller])
  }

  predicate Enabled(s: State, a: Action) {
    match a
    case Arrives(c) => c !in s.callers
    case Numbers(c) => At(s, c, Fresh)
    case Registers(c) => At(s, c, Numbered)
    case Writes(c, _) => At(s, c, Registered)
    case Receives(c) => At(s, c, Waiting) && s.callers[c].ch.value.Some?
    case TimesOut(c) => At(s, c, Waiting)
    case Leaves(c) => c in s.callers && s.callers[c].pc.Leaving?
    case Responds(_, _, _) => s.reader == Reading
    case Sends => s.reader.Sending? && s.reader.c in s.callers && s.callers[s.reader.c].ch.value.None?
    case Exits => s.reader == Reading
    case Visits(id) => s.reader == Failing && id in s.pending
    case Fails => s.reader.Visiting? && s.reader.c in s.callers
    case Deletes => s.reader.Visited?
    case Finishes => s.reader == Failing && NoneLeft(s)
  }

  /** Range has visited at least the keys that were there when it began. */
  predicate NoneLeft(s: State) {
    forall id | id in s.pending :: s.pending[id] in s.callers ==> !s.callers[s.pending[id]].early
  }

  function Step(s: State, a: Action): State
    requires Enabled(s, a)
  {
    match a
    case Arrives(c) => Put(s, c, Caller(Fresh, 0, EMPTY_SLOT, false))
    case Numbers(c) => Put(s, c, s.callers[c].(pc := Numbered, id := s.counter + 1)).(counter := s.counter + 1)
    case Registers(c) =>
      Put(s, c, s.callers[c].(pc := Registered, early := s.reader.Reading? || s.reader.Sending?))
        .(pending := s.pending[s.callers[c].id := c])
    case Writes(c, ok) => Put(s, c, s.callers[c].(pc := if ok then Waiting else Leaving(WriteFailed)))
    case Receives(c) =>
      Put(s, c, s.callers[c].(pc := Leaving(Got(s.callers[c].ch.value.value)), ch := Take(s.callers[c].ch)))
    case TimesOut(c) => Put(s, c, s.callers[c].(pc := Leaving(TimedOut)))
    case Leaves(c) =>
      Put(s, c, s.callers[c].(pc := Gone(s.callers[c].pc.result))).(pending := s.pending - {s.callers[c].id})
    case Responds(id, isError, body) =>
      if id in s.pending
      then s.(pending := s.pending - {id}, reader := Sending(s.pending[id], Answer(id, isError, body)))
      else s
    case Sends =>
      var x := s.callers[s.reader.c];
      Put(s, s.reader.c, x.(ch := Fill(x.ch, s.reader.reply))).(reader := Reading)
    case Exits => s.(reader := Failing)
    case Visits(id) => s.(reader := Visiting(id, s.pending[id]))
    case Fails =>
      var c := s.reader.c;
      Put(s, c, s.callers[c].(ch := TryFill(s.callers[c].ch, SessionEnded))).(reader := Visited(s.reader.id, c))
    case Deletes => s.(pending := s.pending - {s.reader.id}, reader := Failing)
    case Finishes => s.(reader := Exited)
  }

  /** The state after the actions, if each was possible when it came. */
  function Continue(s: State, actions: seq<Action>): Option<State> {
    if actions == [] then Some(s)
    else
      var k := |actions| - 1;
      var before := Continue(s, actions[..k]);
      if before.Some? && Enabled(before.value, actions[k]) then Some(Step(before.value, actions[k])) else None
  }

  function Run(actions: seq<Action>): Option<State> {
    Continue(INIT, actions)
  }

  // ---- the invariant ----

  predicate Sent(p: Caller) {
    p.pc.Registered? || p.pc.Waiting?
  }

  /** Its request has been put in the map, at some time. */
  predicate Stored(p: Caller) {
    !p.pc.Fresh? && !p.pc.Numbered?
  }

  predicate OwnReply(p: Caller, r: Reply) {
    r.Answer? ==> r.id == p.id
  }

  /** A channel gets at most one value, and that is for its own request. */
  predicate OneValue(p: Caller) {
    && (p.ch.value.Some? ==> p.ch.sent == 1 && OwnReply(p, p.ch.value.value))
    && p.ch.sent <= 1
    && (!Stored(p) ==> p.ch.sent == 0)
    && (Sent(p) && p.ch.sent == 1 ==> p.ch.value.Some?)
    && (p.pc.Leaving? && p.pc.result.Got? ==> OwnReply(p, p.pc.result.reply))
    && (p.pc.Gone? && p.pc.result.Got? ==> OwnReply(p, p.pc.result.reply))
  }

  predicate InMap(c: nat, p: Caller, pending: map<nat, nat>) {
    p.id in pending && pending[p.id] == c
  }

  /** Nothing has been sent to a channel that is in the map, or that the read loop has taken from
      it to send to; but the final Range deletes an entry only after it has sent. */
  predicate NotYet(c: nat, p: Caller, pending: map<nat, nat>, reader: Reader) {
    && (InMap(c, p, pending) && reader != Visited(p.id, c) ==> p.ch.sent == 0)
    && (reader.Sending? && reader.c == c ==>
          p.ch.sent == 0 && Stored(p) && reader.reply.Answer? && reader.reply.id == p.id && p.id !in pending)
    && (reader.Visiting? && reader.c == c ==> p.ch.sent == 0 && Stored(p) && reader.id == p.id)
    && (reader.Visited? && reader.c == c ==> p.ch.sent == 1 && Stored(p) && reader.id == p.id)
  }

  predicate Live(reader: Reader) {
    reader.Reading? || reader.Sending?
  }

  /** A request is answered, or it is in the map, or the read loop has taken it from there and will
      answer it; and after the loop no early one is left in the map. */
  predicate Served(c: nat, p: Caller, pending: map<nat, nat>, reader: Reader) {
    && (Live(reader) && Stored(p) ==> p.early)
    && (Sent(p) ==>
          p.ch.sent == 1 || InMap(c, p, pending)
          || (reader.Sending? && reader.c == c) || (reader.Visiting? && reader.c == c))
    && (reader.Exited? && p.early ==> !InMap(c, p, pending))
  }

  predicate Local(c: nat, p: Caller, pending: map<nat, nat>, reader: Reader) {
    OneValue(p) && NotYet(c, p, pending, reader) && Served(c, p, pending, reader)
  }

  /** Ids never collide. */
  predicate Ids(counter: nat, callers: map<nat, Caller>) {
    && (forall c | c in callers && callers[c].pc != Fresh :: 1 <= callers[c].id <= counter)
    && forall c, d | c in callers && d in callers && callers[c].pc != Fresh && callers[d].pc != Fresh
                     && callers[c].id == callers[d].id :: c == d
  }

  /** The map holds each request under its own id. */
  predicate Maps(callers: map<nat, Caller>, pending: map<nat, nat>) {
    forall id | id in pending ::
      pending[id] in callers && callers[pending[id]].id == id && Stored(callers[pending[id]])
  }

  predicate ReaderKnows(s: State) {
    s.reader.Sending? || s.reader.Visiting? || s.reader.Visited? ==> s.reader.c in s.callers
  }

  ghost predicate Inv(s: State) {
    && Ids(s.counter, s.callers)
    && Maps(s.callers, s.pending)
    && ReaderKnows(s)
    && forall c | c in s.callers :: Local(c, s.callers[c], s.pending, s.reader)
  }

  /** The caller an action is about, if there is one. */
  predicate Concerns(s: State, a: Action, c: nat) {
    match a
    case Arrives(d) => c == d
    case Numbers(d) => c == d
    case Registers(d) => c == d
    case Writes(d, _) => c == d
    case Receives(d) => c == d
    case TimesOut(d) => c == d
    case Leaves(d) => c == d
    case Responds(id, _, _) => id in s.pending && s.pending[id] == c
    case Sends => s.reader.Sending? && s.reader.c == c
    case Exits => false
    case Visits(id) => id in s.pending && s.pending[id] == c
    case Fails => s.reader.Visiting? && s.reader.c == c
    case Deletes => s.reader.Visited? && s.reader.c == c
    case Finishes => false
  }

  lemma IdsKept(s: State, a: Action)
    requires Ids(s.counter, s.callers) && ReaderKnows(s) && Enabled(s, a)
    ensures Ids(Step(s, a).counter, Step(s, a).callers)
  {
    if !a.Numbers? {
      var t := Step(s, a);
      forall c | c in t.callers && t.callers[c].pc != Fresh
        ensures c in s.callers && s.callers[c].pc != Fresh && t.callers[c].id == s.callers[c].id
      {
        IdStays(s, a, c);
      }
    }
  }

  lemma IdStays(s: State, a: Action, c: nat)
    requires Enabled(s, a) && !a.Numbers? && c in Step(s, a).callers && Step(s, a).callers[c].pc != Fresh
    ensures c in s.callers && s.callers[c].pc != Fresh && Step(s, a).callers[c].id == s.callers[c].id
    ensures Step(s, a).counter == s.counter
  {
  }

  predicate ByCaller(a: Action) {
    a.Arrives? || a.Numbers? || a.Registers? || a.Writes? || a.Receives? || a.TimesOut? || a.Leaves?
  }

  lemma MapsKept(s: State, a: Action)
    requires Ids(s.counter, s.callers) && Maps(s.callers, s.pending) && ReaderKnows(s) && Enabled(s, a)
    ensures Maps(Step(s, a).callers, Step(s, a).pending) && ReaderKnows(Step(s, a))
  {
    if ByCaller(a) {
      CallerMapsKept(s, a);
    } else {
      ReaderMapsKept(s, a);
    }
  }

  lemma CallerMapsKept(s: State, a: Action)
    requires Ids(s.counter, s.callers) && Maps(s.callers, s.pending) && ReaderKnows(s) && Enabled(s, a) && ByCaller(a)
    ensures Maps(Step(s, a).callers, Step(s, a).pending) && ReaderKnows(Step(s, a))
  {
  }

  lemma ReaderMapsKept(s: State, a: Action)
    requires Maps(s.callers, s.pending) && ReaderKnows(s) && Enabled(s, a) && !ByCaller(a)
    ensures Maps(Step(s, a).callers, Step(s, a).pending) && ReaderKnows(Step(s, a))
  {
  }

  /** What is known of the caller an action is about. */
  lemma OwnKept(s: State, a: Action, c: nat)
    requires Ids(s.counter, s.callers) && Maps(s.callers, s.pending) && ReaderKnows(s)
    requires Enabled(s, a) && Concerns(s, a, c)
    requires c in s.callers ==> Local(c, s.callers[c], s.pending, s.reader)
    ensures var t := Step(s, a); c in t.callers ==> Local(c, t.callers[c], t.pending, t.reader)
  {
  }

  /** And of every other caller. */
  lemma OtherKept(s: State, a: Action, c: nat)
    requires Ids(s.counter, s.callers) && Maps(s.callers, s.pending) && ReaderKnows(s)
    requires Enabled(s, a) && !Concerns(s, a, c)
    requires c in s.callers && Local(c, s.callers[c], s.pending, s.reader)
    requires s.reader.Visited? ==> Local(s.reader.c, s.callers[s.reader.c], s.pending, s.reader)
    ensures var t := Step(s, a); c in t.callers && Local(c, t.callers[c], t.pending, t.reader)
  {
    if ByCaller(a) {
      CallerLeavesOthers(s, a, c);
    } else {
      ReaderLeavesOthers(s, a, c);
    }
  }

  lemma CallerLeavesOthers(s: State, a: Action, c: nat)
    requires Ids(s.counter, s.callers) && Maps(s.callers, s.pending)
    requires Enabled(s, a) && !Concerns(s, a, c) && ByCaller(a)
    requires c in s.callers && Local(c, s.callers[c], s.pending, s.reader)
    requires s.reader.Visited? ==>
               s.reader.c in s.callers && Local(s.reader.c, s.callers[s.reader.c], s.pending, s.reader)
    ensures var t := Step(s, a); c in t.callers && Local(c, t.callers[c], t.pending, t.reader)
  {
  }

  lemma ReaderLeavesOthers(s: State, a: Action, c: nat)
    requires Ids(s.counter, s.callers) && Maps(s.callers, s.pending) && ReaderKnows(s)
    requires Enabled(s, a) && !Concerns(s, a, c) && !ByCaller(a)
    requires c in s.callers && Local(c, s.callers[c], s.pending, s.reader)
    requires s.reader.Visited? ==> Local(s.reader.c, s.callers[s.reader.c], s.pending, s.reader)
    ensures var t := Step(s, a); c in t.callers && Local(c, t.callers[c], t.pending, t.reader)
  {
  }

  lemma StepKeeps(s: State, a: Action)
    requires Inv(s) && Enabled(s, a)
    ensures Inv(Step(s, a))
  {
    IdsKept(s, a);
    MapsKept(s, a);
    var t := Step(s, a);
    forall c | c in t.callers ensures Local(c, t.callers[c], t.pending, t.reader) {
      if Concerns(s, a, c) {
        OwnKept(s, a, c);
      } else {
        OtherKept(s, a, c);
      }
    }
  }

  lemma {:induction false} Reachable(actions: seq<Action>)
    requires Run(actions).Some?
    ensures Inv(Run(actions).value)
  {
    if actions != [] {
      var k := |actions| - 1;
      Reachable(actions[..k]);
      StepKeeps(Run(actions[..k]).value, actions[k]);
    }
  }

  // ---- the theorems ----

  /** No two requests ever have the same id. */
  lemma IdsNeverCollide(actions: seq<Action>, c: nat, d: nat)
    requires Run(actions).Some?
    requires var s := Run(actions).value;
             c in s.callers && d in s.callers && s.callers[c].pc != Fresh && s.callers[d].pc != Fresh && c != d
    ensures Run(actions).value.callers[c].id != Run(actions).value.callers[d].id
  {
    Reachable(actions);
  }

  /** The read loop never blocks on a channel, whatever became of its waiter, and the final Range
      never finds a slot taken; no channel is ever sent a second value. */
  lemma SendsNeverBlock(actions: seq<Action>)
    requires Run(actions).Some?
    ensures var s := Run(actions).value;
            && (s.reader.Sending? ==> Enabled(s, Sends))
            && (s.reader.Visiting? ==> Enabled(s, Fails) && s.callers[s.reader.c].ch.value.None?)
            && (forall c | c in s.callers :: s.callers[c].ch.sent <= 1)
  {
    Reachable(actions);
  }

  /** A waiter returns the answer to its own request, or the end of the session. */
  lemma OnlyOwnAnswers(actions: seq<Action>, c: nat)
    requires Run(actions).Some?
    requires var s := Run(actions).value; c in s.callers && s.callers[c].pc.Gone? && s.callers[c].pc.result.Got?
    ensures var p := Run(actions).value.callers[c];
            p.pc.result.reply == SessionEnded || (p.pc.result.reply.Answer? && p.pc.result.reply.id == p.id)
  {
    Reachable(actions);
  }

  /** What a waiter may be told: an answer that the CLI gave, or the end of the session once it has
      begun. */
  predicate Said(actions: seq<Action>, r: Reply) {
    match r
    case Answer(id, isError, body) => Responds(id, isError, body) in actions
    case SessionEnded => Exits in actions
  }

  predicate CallerTold(actions: seq<Action>, p: Caller) {
    && (p.ch.value.Some? ==> Said(actions, p.ch.value.value))
    && (p.pc.Leaving? && p.pc.result.Got? ==> Said(actions, p.pc.result.reply))
    && (p.pc.Gone? && p.pc.result.Got? ==> Said(actions, p.pc.result.reply))
  }

  predicate Told(actions: seq<Action>, s: State) {
    && (s.reader.Sending? ==> Said(actions, s.reader.reply))
    && (Live(s.reader) || Exits in actions)
    && forall c | c in s.callers :: CallerTold(actions, s.callers[c])
  }

  lemma ToldLonger(actions: seq<Action>, a: Action, s: State)
    requires Told(actions, s)
    ensures Told(actions + [a], s)
  {
  }

  lemma ToldStep(actions: seq<Action>, a: Action, s: State)
    requires a in actions && Told(actions, s) && ReaderKnows(s) && Enabled(s, a)
    ensures Told(actions, Step(s, a))
  {
  }

  lemma {:induction false} EveryoneToldTheTruth(actions: seq<Action>)
    requires Run(actions).Some?
    ensures Told(actions, Run(actions).value)
  {
    if actions != [] {
      var k := |actions| - 1;
      EveryoneToldTheTruth(actions[..k]);
      Reachable(actions[..k]);
      assert actions[..k] + [actions[k]] == actions;
      ToldLonger(actions[..k], actions[k], Run(actions[..k]).value);
      ToldStep(actions, actions[k], Run(actions[..k]).value);
    }
  }

  /** What a waiter returns was said: its answer is one that the CLI gave to its id, error flag and
      body alike, and it is told that the session has ended only once the end has begun. */
  lemma RepliesAreTrue(actions: seq<Action>, c: nat)
    requires Run(actions).Some?
    requires var s := Run(actions).value; c in s.callers && s.callers[c].pc.Gone? && s.callers[c].pc.result.Got?
    ensures var p := Run(actions).value.callers[c];
            match p.pc.result.reply
            case Answer(id, isError, body) => id == p.id && Responds(p.id, isError, body) in actions
            case SessionEnded => Exits in actions
  {
    EveryoneToldTheTruth(actions);
    OnlyOwnAnswers(actions, c);
  }

  /** After the read loop has ended, every request registered before it began to end has its value
      waiting: its caller returns without its timeout. */
  lemma EveryEarlyRequestIsServed(actions: seq<Action>, c: nat)
    requires Run(actions).Some? && Run(actions).value.reader.Exited?
    requires At(Run(actions).value, c, Waiting) && Run(actions).value.callers[c].early
    ensures Enabled(Run(actions).value, Receives(c))
  {
    Reachable(actions);
  }

  /** Once a request is stored it is early or late for good. */
  lemma EarlyStays(s: State, a: Action, c: nat)
    requires Enabled(s, a) && c in s.callers && Stored(s.callers[c]) && s.callers[c].early
    ensures c in Step(s, a).callers && Stored(Step(s, a).callers[c]) && Step(s, a).callers[c].early
  {
  }

  lemma {:induction false} EarlyFrom(actions: seq<Action>, k: nat, c: nat)
    requires Run(actions).Some? && k < |actions| && actions[k] == Registers(c)
    requires var before := Run(actions[..k]); before.Some? && Live(before.value.reader)
    ensures var s := Run(actions).value; c in s.callers && Stored(s.callers[c]) && s.callers[c].early
  {
    var n := |actions| - 1;
    if k < n {
      assert actions[..n][..k] == actions[..k];
      EarlyFrom(actions[..n], k, c);
      EarlyStays(Run(actions[..n]).value, actions[n], c);
    }
  }

  lemma {:induction false} RunsBefore(actions: seq<Action>, k: nat)
    requires Run(actions).Some? && k <= |actions|
    ensures Run(actions[..k]).Some?
  {
    if k < |actions| {
      var n := |actions| - 1;
      assert actions[..n][..k] == actions[..k];
      RunsBefore(actions[..n], k);
    } else {
      assert actions[..k] == actions;
    }
  }

  /** A request registered while the read loop still reads is answered, or failed, by the time
      the loop has ended: in every run, its caller, if it still waits, finds its value. */
  lemma RegisteredWhileReading(actions: seq<Action>, k: nat, c: nat)
    requires Run(actions).Some? && k < |actions| && actions[k] == Registers(c)
    requires Run(actions[..k]).Some? ==> Live(Run(actions[..k]).value.reader)
    requires Run(actions).value.reader.Exited? && At(Run(actions).value, c, Waiting)
    ensures Enabled(Run(actions).value, Receives(c))
    ensures var p := Run(actions).value.callers[c]; OwnReply(p, p.ch.value.value)
  {
    RunsBefore(actions, k);
    EarlyFrom(actions, k, c);
    EveryEarlyRequestIsServed(actions, c);
    Reachable(actions);
  }

  /** Exactly which waiters are served once the read loop has ended: those whose requests are no
      longer in the map. */
  lemma ServedIffTaken(actions: seq<Action>, c: nat)
    requires Run(actions).Some? && Run(actions).value.reader.Exited? && At(Run(actions).value, c, Waiting)
    ensures var s := Run(actions).value; Enabled(s, Receives(c)) <==> !InMap(c, s.callers[c], s.pending)
  {
    Reachable(actions);
  }

  /** And a waiter that is not served then never is, through every continuation: only its timeout,
      or the session's, ends it. */
  lemma {:induction false} LateRequestIsNeverServed(s: State, actions: seq<Action>, c: nat)
    requires s.reader.Exited? && c in s.callers && s.callers[c].ch.value.None?
    ensures var t := Continue(s, actions);
            t.Some? ==> t.value.reader.Exited? && c in t.value.callers && t.value.callers[c].ch.value.None?
  {
    if actions != [] {
      LateRequestIsNeverServed(s, actions[..|actions| - 1], c);
    }
  }

  lemma Then(actions: seq<Action>, a: Action) returns (more: seq<Action>)
    requires Run(actions).Some? && Enabled(Run(actions).value, a)
    ensures Run(more) == Some(Step(Run(actions).value, a)) && more == actions + [a]
  {
    more := actions + [a];
    assert more[..|actions|] == actions;
  }

  lemma ReadLoopGone() returns (actions: seq<Action>)
    ensures Run(actions) == Some(INIT.(reader := Exited))
  {
    actions := [];
    actions := Then(actions, Exits);
    actions := Then(actions, Finishes);
  }

  /** There is such a request. */
  lemma RequestCanBeLate() returns (actions: seq<Action>)
    ensures Run(actions).Some? && Run(actions).value.reader.Exited?
    ensures At(Run(actions).value, 0, Waiting) && Run(actions).value.callers[0].ch.value.None?
  {
    actions := ReadLoopGone();
    actions := Then(actions, Arrives(0));
    actions := Then(actions, Numbers(0));
    actions := Then(actions, Registers(0));
    actions := Then(actions, Writes(0, true));
  }

  /** So can one that was registered during the final Range, which need not visit it. */
  lemma RequestDuringRange() returns (actions: seq<Action>)
    ensures Run(actions).Some? && Run(actions).value.reader.Exited?
    ensures At(Run(actions).value, 0, Waiting) && Run(actions).value.callers[0].ch.value.None?
    ensures exists k | 0 <= k < |actions| ::
              actions[k] == Registers(0) && Run(actions[..k]).Some? && Run(actions[..k]).value.reader == Failing
  {
    actions := [];
    actions := Then(actions, Arrives(0));
    actions := Then(actions, Numbers(0));
    actions := Then(actions, Exits);
    ghost var before := actions;
    actions := Then(actions, Registers(0));
    var k := |before|;
    actions := Then(actions, Writes(0, true));
    actions := Then(actions, Finishes);
    assert actions[..k] == before && actions[k] == Registers(0);
  }

  lemma RegisteredInRange() returns (actions: seq<Action>)
    ensures Run(actions).Some? && Run(actions).value.reader.Failing?
    ensures var s := Run(actions).value;
            At(s, 0, Waiting) && s.callers[0].id == 1 && s.callers[0].ch == EMPTY_SLOT && !s.callers[0].early
    ensures Run(actions).value.pending == map[1 := 0]
  {
    actions := [];
    actions := Then(actions, Arrives(0));
    actions := Then(actions, Numbers(0));
    actions := Then(actions, Exits);
    actions := Then(actions, Registers(0));
    actions := Then(actions, Writes(0, true));
  }

  /** But one that the Range does visit is failed like any other. */
  lemma RequestCaughtByRange() returns (actions: seq<Action>)
    ensures Run(actions).Some? && Run(actions).value.reader.Exited?
    ensures At(Run(actions).value, 0, Waiting) && !Run(actions).value.callers[0].early
    ensures Enabled(Run(actions).value, Receives(0))
  {
    actions := RegisteredInRange();
    actions := Then(actions, Visits(1));
    actions := Then(actions, Fails);
    actions := Then(actions, Deletes);
    actions := Then(actions, Finishes);
  }
}
