/** task_backfill.go: identity that the CLI reports once per task, restored onto the task's later
    events, and the resolution of a workflow tick's description to one agent. */
module Backfill {
  import opened Events

  // ---- which agent a tick names ----

  datatype AgentRef = AgentRef(phaseTitle: string, agentLabel: string, agentID: string)

  datatype ProgressEntry = ProgressEntry(kind: string, phaseTitle: string, agentLabel: string, agentID: string)

  predicate IsAgent(p: ProgressEntry) {
    p.kind == "workflow_agent"
  }

  function Refs(progress: seq<ProgressEntry>): seq<AgentRef> {
    RefsBy(IsAgent, progress)
  }

  function RefsBy(agent: ProgressEntry -> bool, progress: seq<ProgressEntry>): seq<AgentRef> {
    if progress == [] then []
    else
      var k := |progress| - 1;
      var p := progress[k];
      RefsBy(agent, progress[..k]) + if agent(p) then [AgentRef(p.phaseTitle, p.agentLabel, p.agentID)] else []
  }

  method WorkflowAgentRefs(progress: seq<ProgressEntry>) returns (refs: seq<AgentRef>)
    ensures refs == Refs(progress)
  {
    refs := [];
    for i := 0 to |progress|
      invariant refs == Refs(progress[..i])
    {
      assert progress[..i + 1][..i] == progress[..i];
      var p := progress[i];
      if IsAgent(p) {
        refs := refs + [AgentRef(p.phaseTitle, p.agentLabel, p.agentID)];
      }
    }
    assert progress[..|progress|] == progress;
  }

  /** `at` lists, in order, the places of such entries. */
  predicate Places(agent: ProgressEntry -> bool, progress: seq<ProgressEntry>, at: seq<nat>) {
    && (forall j | 0 <= j < |at| :: at[j] < |progress| && agent(progress[at[j]]))
    && (forall i, j | 0 <= i < j < |at| :: at[i] < at[j])
    && (forall i: nat | i < |progress| && agent(progress[i]) :: i in at)
  }

  /** The references are of the entries at these places, each with its own phase, label and id. */
  predicate ReferTo(progress: seq<ProgressEntry>, at: seq<nat>, refs: seq<AgentRef>) {
    && |refs| == |at|
    && forall j | 0 <= j < |at| :: at[j] < |progress| && refs[j] == RefTo(progress[at[j]])
  }

  function RefTo(p: ProgressEntry): (a: AgentRef)
    ensures a.phaseTitle == p.phaseTitle && a.agentLabel == p.agentLabel && a.agentID == p.agentID
  {
    AgentRef(p.phaseTitle, p.agentLabel, p.agentID)
  }

  lemma PlacesMore(agent: ProgressEntry -> bool, before: seq<ProgressEntry>, p: ProgressEntry, at: seq<nat>)
    requires Places(agent, before, at) && agent(p)
    ensures Places(agent, before + [p], at + [|before|])
  {
    var all, at' := before + [p], at + [|before|];
    forall i: nat | i < |all| && agent(all[i]) ensures i in at' {
      if i < |before| {
        assert i in at;
      } else {
        assert at'[|at|] == i;
      }
    }
  }

  lemma PlacesSame(agent: ProgressEntry -> bool, before: seq<ProgressEntry>, p: ProgressEntry, at: seq<nat>)
    requires Places(agent, before, at) && !agent(p)
    ensures Places(agent, before + [p], at)
  {
  }

  lemma ReferMore(before: seq<ProgressEntry>, p: ProgressEntry, at: seq<nat>, refs: seq<AgentRef>)
    requires ReferTo(before, at, refs)
    ensures ReferTo(before + [p], at, refs)
    ensures ReferTo(before + [p], at + [|before|], refs + [AgentRef(p.phaseTitle, p.agentLabel, p.agentID)])
  {
  }

  lemma LastRef(agent: ProgressEntry -> bool, before: seq<ProgressEntry>, p: ProgressEntry)
    ensures RefsBy(agent, before + [p])
         == if agent(p) then RefsBy(agent, before) + [AgentRef(p.phaseTitle, p.agentLabel, p.agentID)]
            else RefsBy(agent, before)
  {
    assert (before + [p])[..|before|] == before;
  }

  lemma PlacedMore(agent: ProgressEntry -> bool, before: seq<ProgressEntry>, p: ProgressEntry, at: seq<nat>)
    returns (at': seq<nat>)
    requires Places(agent, before, at) && ReferTo(before, at, RefsBy(agent, before))
    ensures Places(agent, before + [p], at') && ReferTo(before + [p], at', RefsBy(agent, before + [p]))
  {
    LastRef(agent, before, p);
    ReferMore(before, p, at, RefsBy(agent, before));
    if agent(p) {
      PlacesMore(agent, before, p, at);
      at' := at + [|before|];
    } else {
      PlacesSame(agent, before, p, at);
      at' := at;
    }
  }

  lemma {:induction false} RefsArePlaced(agent: ProgressEntry -> bool, progress: seq<ProgressEntry>)
    returns (at: seq<nat>)
    ensures Places(agent, progress, at) && ReferTo(progress, at, RefsBy(agent, progress))
  {
    if progress == [] {
      at := [];
    } else {
      var rest, p := progress[..|progress| - 1], progress[|progress| - 1];
      assert rest + [p] == progress;
      at := RefsArePlaced(agent, rest);
      at := PlacedMore(agent, rest, p, at);
    }
  }

  /** The references are those of the tree's agents, in order, each with its own phase, label and id. */
  lemma RefsAreAgents(progress: seq<ProgressEntry>) returns (at: seq<nat>)
    ensures Places((p: ProgressEntry) => p.kind == "workflow_agent", progress, at)
    ensures ReferTo(progress, at, Refs(progress))
  {
    at := RefsArePlaced(IsAgent, progress);
  }

  /** How the CLI names an agent in a tick's description. */
  function Name(a: AgentRef): string {
    if a.phaseTitle == "" then a.agentLabel else a.phaseTitle + ": " + a.agentLabel
  }

  predicate SamePlace(a: AgentRef, b: AgentRef) {
    a.phaseTitle == b.phaseTitle && a.agentLabel == b.agentLabel
  }

  function Matches(name: AgentRef -> string, agents: seq<AgentRef>, description: string): seq<AgentRef> {
    if agents == [] then []
    else
      var k := |agents| - 1;
      Matches(name, agents[..k], description) + if name(agents[k]) == description then [agents[k]] else []
  }

  lemma {:induction false} MatchesAre(name: AgentRef -> string, agents: seq<AgentRef>, description: string)
    ensures forall a :: a in Matches(name, agents, description) <==> a in agents && name(a) == description
  {
    if agents != [] {
      var k := |agents| - 1;
      MatchesAre(name, agents[..k], description);
      assert agents == agents[..k] + [agents[k]];
    }
  }

  /** What a list of matches says: their common place, and their common id if there is one. */
  function Consensus(matches: seq<AgentRef>): Option<AgentRef> {
    if matches == [] || exists i | 0 <= i < |matches| :: !SamePlace(matches[i], matches[0]) then None
    else Some(matches[0].(agentID := CommonID(matches)))
  }

  function CommonID(matches: seq<AgentRef>): string
    requires matches != []
  {
    if forall i | 0 <= i < |matches| :: matches[i].agentID == matches[0].agentID then matches[0].agentID else ""
  }

  function Resolution(agents: seq<AgentRef>, description: string): Option<AgentRef> {
    if description == "" then None else Consensus(Matches(Name, agents, description))
  }

  /** A tick's description is about an agent: "phase: label", or the label of one without a phase. */
  predicate IsAbout(description: string, a: AgentRef) {
    if a.phaseTitle == "" then description == a.agentLabel
    else description == a.phaseTitle + (": " + a.agentLabel)
  }

  lemma NameIsAbout(description: string, a: AgentRef)
    ensures Name(a) == description <==> IsAbout(description, a)
  {
    assert a.phaseTitle + ": " + a.agentLabel == a.phaseTitle + (": " + a.agentLabel);
  }

  /** The agent fields are set exactly when the description is about some agent and all that it is
      about are in one place; the id exactly when they also carry one and the same non-empty id. */
  lemma ResolutionIff(agents: seq<AgentRef>, description: string)
    ensures var r := Resolution(agents, description);
            && (r.Some? <==>
                  && description != ""
                  && (exists a :: a in agents && IsAbout(description, a))
                  && (forall a, b | a in agents && b in agents && IsAbout(description, a) && IsAbout(description, b) ::
                        SamePlace(a, b)))
            && (r.Some? ==>
                  && (forall a | a in agents && IsAbout(description, a) :: SamePlace(a, r.value))
                  && (r.value.agentID != "" ==>
                        forall a | a in agents && IsAbout(description, a) :: a.agentID == r.value.agentID)
                  && (r.value.agentID == "" ==>
                        forall a | a in agents && IsAbout(description, a) && a.agentID != "" ::
                          exists b :: b in agents && IsAbout(description, b) && b.agentID != a.agentID))
  {
    var ms := Matches(Name, agents, description);
    AboutAre(agents, description, ms);
    if ms != [] {
      assert ms[0] in ms;
      assert forall i | 0 <= i < |ms| :: ms[i] in ms;
    }
  }

  lemma AboutAre(agents: seq<AgentRef>, description: string, ms: seq<AgentRef>)
    requires ms == Matches(Name, agents, description)
    ensures forall a :: a in ms <==> a in agents && IsAbout(description, a)
  {
    MatchesAre(Name, agents, description);
    forall a ensures a in ms <==> a in agents && IsAbout(description, a) {
      NameIsAbout(description, a);
    }
  }

  /** So an agent that no other in the tree shares its name with is named in full. */
  lemma NamedInFull(agents: seq<AgentRef>, a: AgentRef, description: string)
    requires a in agents && description != "" && IsAbout(description, a)
    requires forall b | b in agents && IsAbout(description, b) :: b == a
    ensures Resolution(agents, description) == Some(a)
  {
    ResolutionIff(agents, description);
  }

  /** Two agents in different places may have one name; a tick that gives it names neither. */
  lemma TwoPlaces(a: AgentRef, b: AgentRef, agents: seq<AgentRef>)
    requires a in agents && b in agents && Name(a) == Name(b) && !SamePlace(a, b)
    ensures Resolution(agents, Name(a)).None?
  {
    NameIsAbout(Name(a), a);
    NameIsAbout(Name(a), b);
    ResolutionIff(agents, Name(a));
  }

  lemma NamesMayCollide(x: string, y: string, z: string, id: string, other: string)
    requires x != ""
    ensures var a, b := AgentRef(x + ": " + y, z, id), AgentRef(x, y + ": " + z, other);
            Name(a) == Name(b) && Resolution([a, b], Name(a)).None?
  {
    var a, b := AgentRef(x + ": " + y, z, id), AgentRef(x, y + ": " + z, other);
    assert (x + ": " + y) + ": " + z == x + ": " + (y + ": " + z);
    assert |a.phaseTitle| > |b.phaseTitle|;
    TwoPlaces(a, b, [a, b]);
  }

  /** A label alone may read like a phase and a label. */
  lemma BareLabelMayCollide(x: string, y: string, id: string, other: string)
    requires x != ""
    ensures var a, b := AgentRef("", x + ": " + y, id), AgentRef(x, y, other);
            Name(a) == Name(b) && Resolution([a, b], Name(a)).None?
  {
    var a, b := AgentRef("", x + ": " + y, id), AgentRef(x, y, other);
    TwoPlaces(a, b, [a, b]);
  }

  // ---- the memo, as a function ----

  datatype Ev = Ev(
    subtype: string, taskID: string, taskType: string, workflowName: string, owned: bool,
    status: string, description: string, progress: Option<seq<ProgressEntry>>, agent: AgentRef)
  {
    predicate IsWorkflow() {
      taskType == "local_workflow"
    }
  }

  datatype Identity = Identity(taskType: string, workflowName: string, owned: bool, agents: seq<AgentRef>)

  type Memo = map<string, Identity>

  predicate Terminal(status: string) {
    status in ["completed", "stopped", "killed", "failed", "error"]
  }

  predicate Starts(e: Ev, t: string) {
    e.taskID == t != "" && e.taskType != ""
  }

  predicate Ends(e: Ev, t: string) {
    e.taskID == t && e.subtype == "task_notification" && Terminal(e.status)
  }

  /** An event with its task's identity put back where the CLI left it out. */
  function Restore(e: Ev, id: Identity): Ev {
    if e.taskType != "" then e
    else e.(taskType := id.taskType,
            workflowName := if e.workflowName == "" then id.workflowName else e.workflowName,
            owned := e.owned || id.owned)
  }

  function Resolve(e: Ev, agents: seq<AgentRef>): Ev {
    match Resolution(agents, e.description)
    case None => e
    case Some(a) => e.(agent := a)
  }

  /** One event of a known task: the identity to keep and the event to hand on. */
  function Known(id: Identity, e: Ev): (Identity, Ev) {
    var r := Restore(e, id);
    if r.IsWorkflow() && e.subtype == "task_progress" then
      var agents := if e.progress.Some? then Refs(e.progress.value) else id.agents;
      (id.(agents := agents), Resolve(r, agents))
    else (id, r)
  }

  function Apply(m: Memo, e: Ev): (Memo, Ev) {
    var t := e.taskID;
    if t == "" || (e.taskType == "" && t !in m) then (m, e)
    else
      var id := if e.taskType != "" then Identity(e.taskType, e.workflowName, e.owned, []) else m[t];
      var (kept, out) := Known(id, e);
      (if Ends(e, t) then m - {t} else m[t := kept], out)
  }

  // ---- the same in place ----

  class TaskEvent {
    const subtype: string
    const taskID: string
    var taskType: string
    var workflowName: string
    var owned: bool
    const status: string
    const description: string
    const progress: Option<seq<ProgressEntry>>
    var agentLabel: string
    var agentPhase: string
    var agentID: string

    ghost function View(): Ev
      reads this
    {
      Ev(subtype, taskID, taskType, workflowName, owned, status, description, progress,
         AgentRef(agentPhase, agentLabel, agentID))
    }

    constructor (e: Ev)
      ensures View() == e
    {
      subtype, taskID, taskType, workflowName := e.subtype, e.taskID, e.taskType, e.workflowName;
      owned, status, description, progress := e.owned, e.status, e.description, e.progress;
      agentLabel, agentPhase, agentID := e.agent.agentLabel, e.agent.phaseTitle, e.agent.agentID;
    }
  }

  /** What the loop of FindAgent knows after these matches. */
  predicate SoFar(ms: seq<AgentRef>, matched: Option<AgentRef>, agentID: string) {
    && (matched.None? <==> ms == [])
    && (matched.Some? ==> matched.value == ms[0] && agentID == CommonID(ms))
    && (forall k | 0 <= k < |ms| :: SamePlace(ms[k], ms[0]))
  }

  /** The loop of ResolveWorkflowAgent. */
  method FindAgent(name: AgentRef -> string, agents: seq<AgentRef>, description: string) returns (r: Option<AgentRef>)
    ensures r == Consensus(Matches(name, agents, description))
  {
    var matched: Option<AgentRef> := None;
    var agentID := "";
    ghost var ms: seq<AgentRef> := [];
    for i := 0 to |agents|
      invariant ms == Matches(name, agents[..i], description) && SoFar(ms, matched, agentID)
    {
      var a := agents[i];
      MatchesStep(name, agents, i, description);
      if name(a) != description {
        continue;
      }
      ms := ms + [a];
      if matched.None? {
        matched, agentID := Some(a), a.agentID;
        continue;
      }
      if !SamePlace(a, matched.value) {
        Ambiguous(name, agents, i + 1, description);
        return None;
      }
      SoFarMore(ms[..|ms| - 1], matched, agentID, a);
      if a.agentID != agentID {
        agentID := "";
      }
    }
    assert agents[..|agents|] == agents;
    r := if matched.None? then None else Some(matched.value.(agentID := agentID));
  }

  method ResolveWorkflowAgent(ev: TaskEvent, agents: seq<AgentRef>)
    modifies ev
    ensures ev.View() == Resolve(old(ev.View()), agents)
  {
    if ev.description == "" {
      return;
    }
    var found := FindAgent(Name, agents, ev.description);
    if found.Some? {
      ev.agentPhase := found.value.phaseTitle;
      ev.agentLabel := found.value.agentLabel;
      ev.agentID := found.value.agentID;
    }
  }

  lemma MatchesStep(name: AgentRef -> string, agents: seq<AgentRef>, i: nat, description: string)
    requires i < |agents|
    ensures Matches(name, agents[..i + 1], description)
         == if name(agents[i]) == description then Matches(name, agents[..i], description) + [agents[i]]
            else Matches(name, agents[..i], description)
  {
    assert agents[..i + 1][..i] == agents[..i];
  }

  lemma SoFarMore(ms: seq<AgentRef>, matched: Option<AgentRef>, agentID: string, a: AgentRef)
    requires SoFar(ms, matched, agentID) && matched.Some? && SamePlace(a, matched.value)
    ensures SoFar(ms + [a], matched, if a.agentID == agentID then agentID else "")
  {
    CommonIDStep(ms, a);
  }

  lemma Ambiguous(name: AgentRef -> string, agents: seq<AgentRef>, i: nat, description: string)
    requires i <= |agents|
    requires var ms := Matches(name, agents[..i], description); ms != [] && !SamePlace(ms[|ms| - 1], ms[0])
    ensures Consensus(Matches(name, agents, description)).None?
  {
    MatchesOfMore(name, agents, i, description);
    var ms, all := Matches(name, agents[..i], description), Matches(name, agents, description);
    assert all[0] == ms[0] && all[|ms| - 1] == ms[|ms| - 1];
  }

  lemma {:induction false} MatchesOfMore(name: AgentRef -> string, agents: seq<AgentRef>, i: nat, description: string)
    requires i <= |agents|
    ensures Matches(name, agents[..i], description) <= Matches(name, agents, description)
  {
    if i < |agents| {
      var k := |agents| - 1;
      assert agents[..k][..i] == agents[..i];
      MatchesOfMore(name, agents[..k], i, description);
    } else {
      assert agents[..i] == agents;
    }
  }

  lemma CommonIDStep(ms: seq<AgentRef>, a: AgentRef)
    requires ms != []
    ensures CommonID(ms + [a]) == if a.agentID == CommonID(ms) then CommonID(ms) else ""
  {
    var more := ms + [a];
    assert forall i | 0 <= i < |ms| :: more[i] == ms[i];
    assert more[|ms|] == a;
    if CommonID(ms) == "" && ms[0].agentID != "" {
      var i :| 0 <= i < |ms| && ms[i].agentID != ms[0].agentID;
      assert more[i].agentID != more[0].agentID;
    }
  }

  class TaskTypeBackfiller {
    var byID: Memo

    constructor ()
      ensures byID == map[]
    {
      byID := map[];
    }

    method ApplyTo(ev: TaskEvent?) returns (r: TaskEvent?)
      modifies this, ev
      ensures r == ev
      ensures ev == null ==> byID == old(byID)
      ensures ev != null ==> (byID, ev.View()) == Apply(old(byID), old(ev.View()))
    {
      r := ev;
      if ev == null || ev.taskID == "" {
        return;
      }
      var known := ev.taskID in byID;
      var id := if known then byID[ev.taskID] else Identity("", "", false, []);
      if ev.taskType != "" {
        id := Identity(ev.taskType, ev.workflowName, ev.owned, []);
        known := true;
      } else if known {
        ev.taskType := id.taskType;
        if ev.workflowName == "" {
          ev.workflowName := id.workflowName;
        }
        ev.owned := ev.owned || id.owned;
      }
      if known && ev.taskType == "local_workflow" && ev.subtype == "task_progress" {
        if ev.progress.Some? {
          var refs := WorkflowAgentRefs(ev.progress.value);
          id := id.(agents := refs);
        }
        ResolveWorkflowAgent(ev, id.agents);
      }
      if known {
        byID := byID[ev.taskID := id];
      }
      Pruned(old(byID), ev.taskID, id);
      if ev.subtype == "task_notification" && Terminal(ev.status) {
        byID := byID - {ev.taskID};
      }
    }
  }

  lemma Pruned(m: Memo, t: string, id: Identity)
    ensures m[t := id] - {t} == m - {t} && (t !in m ==> m - {t} == m)
  {
  }

  // ---- a stream of events ----

  /** The memo after the events, and what was handed on for each. */
  function Run(evs: seq<Ev>): (r: (Memo, seq<Ev>))
    ensures |r.1| == |evs|
  {
    if evs == [] then (map[], [])
    else
      var k := |evs| - 1;
      var (m, outs) := Run(evs[..k]);
      var (after, out) := Apply(m, evs[k]);
      (after, outs + [out])
  }

  function OfTask(evs: seq<Ev>, t: string): seq<Ev> {
    if evs == [] then []
    else
      var k := |evs| - 1;
      OfTask(evs[..k], t) + if evs[k].taskID == t then [evs[k]] else []
  }

  function Lookup(m: Memo, t: string): Option<Identity> {
    if t in m then Some(m[t]) else None
  }

  lemma ApplyIsLocal(m: Memo, n: Memo, e: Ev, t: string)
    requires Lookup(m, t) == Lookup(n, t)
    ensures e.taskID != t ==> Lookup(Apply(m, e).0, t) == Lookup(n, t)
    ensures e.taskID == t ==> Lookup(Apply(m, e).0, t) == Lookup(Apply(n, e).0, t) && Apply(m, e).1 == Apply(n, e).1
    ensures Apply(m, e).1.taskID == e.taskID
  {
  }

  lemma RunMore(evs: seq<Ev>, e: Ev)
    ensures Run(evs + [e]).0 == Apply(Run(evs).0, e).0
    ensures Run(evs + [e]).1 == Run(evs).1 + [Apply(Run(evs).0, e).1]
  {
    assert (evs + [e])[..|evs|] == evs;
  }

  lemma OfTaskMore(evs: seq<Ev>, e: Ev, t: string)
    ensures OfTask(evs + [e], t) == OfTask(evs, t) + if e.taskID == t then [e] else []
  {
    assert (evs + [e])[..|evs|] == evs;
  }

  /** The events of one task alone determine what is handed on for it and what is remembered of
      it, however they are interleaved with others. */
  lemma {:induction false} NonInterference(evs: seq<Ev>, t: string)
    ensures OfTask(Run(evs).1, t) == Run(OfTask(evs, t)).1
    ensures Lookup(Run(evs).0, t) == Lookup(Run(OfTask(evs, t)).0, t)
  {
    if evs != [] {
      var k := |evs| - 1;
      var before, e := evs[..k], evs[k];
      assert evs == before + [e];
      NonInterference(before, t);
      var own := OfTask(before, t);
      ApplyIsLocal(Run(before).0, Run(own).0, e, t);
      RunMore(before, e);
      OfTaskMore(before, e, t);
      OfTaskMore(Run(before).1, Apply(Run(before).0, e).1, t);
      if e.taskID == t {
        RunMore(own, e);
      } else {
        assert own + [] == own && OfTask(Run(before).1, t) + [] == OfTask(Run(before).1, t);
      }
    }
  }

  /** Task t was last started by event j, and has not ended since. */
  predicate OpenSince(evs: seq<Ev>, t: string, j: nat) {
    && j < |evs| && Starts(evs[j], t)
    && (forall k | j < k < |evs| :: !Starts(evs[k], t))
    && (forall k | j <= k < |evs| :: !Ends(evs[k], t))
  }

  /** The agents of the latest progress tree of t from event j on. */
  function LatestTree(evs: seq<Ev>, t: string, j: nat): seq<AgentRef> {
    if |evs| <= j then []
    else
      var k := |evs| - 1;
      if evs[k].taskID == t && evs[k].subtype == "task_progress" && evs[k].progress.Some?
      then Refs(evs[k].progress.value)
      else LatestTree(evs[..k], t, j)
  }

  function Started(evs: seq<Ev>, t: string, j: nat): Identity
    requires j < |evs|
  {
    Identity(evs[j].taskType, evs[j].workflowName, evs[j].owned,
             if evs[j].IsWorkflow() then LatestTree(evs, t, j) else [])
  }

  /** The memo holds exactly the tasks that were started and have not ended since; of each, what
      its latest start said and its latest progress tree. A terminal task_updated ends nothing. */
  lemma {:induction false} MemoIsOpenTasks(evs: seq<Ev>, t: string)
    ensures t in Run(evs).0 <==> exists j :: OpenSince(evs, t, j)
    ensures forall j | OpenSince(evs, t, j) :: t in Run(evs).0 && Run(evs).0[t] == Started(evs, t, j)
  {
    if evs != [] {
      var k := |evs| - 1;
      var before, e := evs[..k], evs[k];
      MemoIsOpenTasks(before, t);
      forall j | OpenSince(evs, t, j) ensures t in Run(evs).0 && Run(evs).0[t] == Started(evs, t, j) {
        OpenStep(evs, t, j);
      }
      if t in Run(evs).0 {
        if Starts(e, t) {
          assert OpenSince(evs, t, k);
        } else {
          var j :| OpenSince(before, t, j);
          assert OpenSince(evs, t, j);
        }
      }
    }
  }

  lemma OpenStep(evs: seq<Ev>, t: string, j: nat)
    requires OpenSince(evs, t, j)
    requires var before := evs[..|evs| - 1];
             forall i | OpenSince(before, t, i) :: t in Run(before).0 && Run(before).0[t] == Started(before, t, i)
    ensures t in Run(evs).0 && Run(evs).0[t] == Started(evs, t, j)
  {
    var k := |evs| - 1;
    var before := evs[..k];
    if j < k {
      assert OpenSince(before, t, j);
    } else {
      assert LatestTree(before, t, j) == [];
    }
  }

  /** Every event of an open task, its terminal notification included, is handed on with the
      identity of the latest start; and an event of a task that is not open is left alone. */
  lemma CarriesIdentity(evs: seq<Ev>, i: nat, j: nat)
    requires i < |evs| && evs[i].taskID != "" && evs[i].taskType == ""
    requires OpenSince(evs[..i], evs[i].taskID, j)
    ensures var e, out, start := evs[i], Run(evs).1[i], evs[j];
            && out.taskType == start.taskType
            && out.workflowName == (if e.workflowName == "" then start.workflowName else e.workflowName)
            && out.owned == (e.owned || start.owned)
  {
    OutputAt(evs, i);
    MemoIsOpenTasks(evs[..i], evs[i].taskID);
    RestoredBy(Run(evs[..i]).0, evs[i]);
  }

  lemma RestoredBy(m: Memo, e: Ev)
    requires e.taskID != "" && e.taskType == "" && e.taskID in m
    ensures var r, out := Restore(e, m[e.taskID]), Apply(m, e).1;
            out.taskType == r.taskType && out.workflowName == r.workflowName && out.owned == r.owned
  {
  }

  /** A workflow's tick names the agent that its description resolves to in the latest tree, the
      tick's own included. */
  lemma TickNamesAgent(evs: seq<Ev>, i: nat, j: nat)
    requires i < |evs| && evs[i].taskID != "" && evs[i].taskType == "" && evs[i].subtype == "task_progress"
    requires OpenSince(evs[..i], evs[i].taskID, j) && evs[j].IsWorkflow()
    ensures var a := Resolution(LatestTree(evs[..i + 1], evs[i].taskID, j), evs[i].description);
            Run(evs).1[i].agent == if a.Some? then a.value else evs[i].agent
  {
    var e := evs[i];
    OutputAt(evs, i);
    MemoIsOpenTasks(evs[..i], e.taskID);
    assert evs[..i + 1][..i] == evs[..i];
    ResolvedBy(Run(evs[..i]).0, e);
  }

  lemma ResolvedBy(m: Memo, e: Ev)
    requires e.taskID != "" && e.taskType == "" && e.taskID in m && m[e.taskID].taskType == "local_workflow"
    requires e.subtype == "task_progress"
    ensures var agents := if e.progress.Some? then Refs(e.progress.value) else m[e.taskID].agents;
            var a := Resolution(agents, e.description);
            Apply(m, e).1.agent == if a.Some? then a.value else e.agent
  {
  }

  /** An event that carries its own task type keeps its identity; if it is a workflow's tick, it names
      the agent that its description resolves to in its own tree. */
  lemma OwnTypeStands(evs: seq<Ev>, i: nat)
    requires i < |evs| && evs[i].taskType != ""
    ensures var e, out := evs[i], Run(evs).1[i];
            && out.taskType == e.taskType && out.workflowName == e.workflowName && out.owned == e.owned
            && out.agent
               == if e.taskID != "" && e.taskType == "local_workflow" && e.subtype == "task_progress"
                     && e.progress.Some? && Resolution(Refs(e.progress.value), e.description).Some?
                  then Resolution(Refs(e.progress.value), e.description).value else e.agent
  {
    OutputAt(evs, i);
    ResolutionIff([], evs[i].description);
  }

  /** Nothing but the identity and the agent of an event is ever touched, and the agent only on a
      workflow's tick. */
  lemma TouchesOnlyIdentity(evs: seq<Ev>, i: nat)
    requires i < |evs|
    ensures var e, out := evs[i], Run(evs).1[i];
            && out == e.(taskType := out.taskType, workflowName := out.workflowName, owned := out.owned,
                         agent := out.agent)
            && (out.agent != e.agent ==> out.taskType == "local_workflow" && e.subtype == "task_progress")
  {
    OutputAt(evs, i);
    AppliesOnly(Run(evs[..i]).0, evs[i]);
  }

  lemma AppliesOnly(m: Memo, e: Ev)
    ensures var out := Apply(m, e).1;
            && out == e.(taskType := out.taskType, workflowName := out.workflowName, owned := out.owned,
                         agent := out.agent)
            && (out.agent != e.agent ==> out.taskType == "local_workflow" && e.subtype == "task_progress")
  {
  }

  /** Exactly these notifications end a task. */
  lemma EndsWith(evs: seq<Ev>, e: Ev)
    requires e.taskID in Run(evs).0 && e.taskID != ""
    ensures e.taskID in Run(evs + [e]).0
       <==> !(e.subtype == "task_notification"
              && (e.status == "completed" || e.status == "stopped" || e.status == "killed"
                  || e.status == "failed" || e.status == "error"))
  {
    RunMore(evs, e);
  }

  lemma LeavesAlone(evs: seq<Ev>, i: nat)
    requires i < |evs| && evs[i].taskType == "" && !exists j :: OpenSince(evs[..i], evs[i].taskID, j)
    ensures Run(evs).1[i] == evs[i]
  {
    OutputAt(evs, i);
    MemoIsOpenTasks(evs[..i], evs[i].taskID);
  }

  lemma {:induction false} OutputAt(evs: seq<Ev>, i: nat)
    requires i < |evs|
    ensures Run(evs).1[i] == Apply(Run(evs[..i]).0, evs[i]).1
  {
    var k := |evs| - 1;
    if i < k {
      OutputAt(evs[..k], i);
      assert evs[..k][..i] == evs[..i];
    }
  }
}
