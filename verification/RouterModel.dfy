/** The router's critical sections as functions on values: what each one does to
    the query mailboxes and to the orphan mailbox. */
module RouterModel {
  import opened Events
  import opened Bytes

  const ORPHAN_CAP: nat := 128
  const MAILBOX_CAP: nat := 256

  /** An event with its arrival stamp: time, and the query generation active then. */
  datatype Stamped = Stamped(ev: Event, at: nat, gen: nat)

  /** An event that left a mailbox, and whether the router dropped it. */
  datatype Removal = Removal(ev: Event, dropped: bool)

  datatype OrphanEvent = OrphanEvent(ev: Event, arrivedAt: nat, gen: nat)

  datatype Reason = NoReason | QueryDetached | SessionEnded | Failure(err: string)

  /** A query's private stream: the buffered channel and the handle's flags. */
  datatype Mailbox = Mailbox(buf: seq<Event>, closed: bool, detached: bool, reason: Reason, dropped: nat)

  /** Handles are named by their generation, which is unique. */
  datatype Router = Router(
    active: Option<nat>,
    handles: map<nat, Mailbox>,
    orphans: seq<OrphanEvent>,
    orphansDropped: nat,
    mailboxDropped: nat,
    shutdown: bool)

  const EMPTY_ROUTER := Router(None, map[], [], 0, 0, false)

  /** A new handle's mailbox; after shutdown it is closed from the start. */
  function NewMailbox(shutdown: bool): Mailbox {
    if shutdown then Mailbox([], true, true, SessionEnded, 0) else Mailbox([], false, false, NoReason, 0)
  }

  /** At most one handle is attached and it is the active one; a channel is
      closed exactly when its handle is detached; the buffers are bounded. */
  ghost predicate Wf(r: Router) {
    && |r.orphans| <= ORPHAN_CAP
    && (r.active.Some? ==> r.active.value in r.handles)
    && (r.shutdown ==> r.active.None?)
    && forall g | g in r.handles ::
         && |r.handles[g].buf| <= MAILBOX_CAP
         && (r.handles[g].detached <==> r.active != Some(g))
         && (r.handles[g].closed <==> r.handles[g].detached)
  }

  function AddOrphan(r: Router, oe: OrphanEvent): Router {
    if |r.orphans| == ORPHAN_CAP then
      r.(orphans := r.orphans[1..] + [oe], orphansDropped := r.orphansDropped + 1)
    else
      r.(orphans := r.orphans + [oe])
  }

  function Detach(r: Router, g: nat, reason: Reason): Router
    requires g in r.handles
  {
    var m := r.handles[g];
    if m.detached then r else
      r.(handles := r.handles[g := m.(closed := true, detached := true, reason := reason)],
         active := if r.active == Some(g) then None else r.active)
  }

  function DetachActive(r: Router, reason: Reason): Router
    requires r.active.Some? ==> r.active.value in r.handles
  {
    if r.active.Some? then Detach(r, r.active.value, reason) else r
  }

  function Arm(r: Router, g: nat): Router
    requires r.active.Some? ==> r.active.value in r.handles
  {
    var r1 := if r.shutdown then r else DetachActive(r, QueryDetached);
    r1.(handles := r1.handles[g := NewMailbox(r.shutdown)], active := if r.shutdown then None else Some(g))
  }

  function Shutdown(r: Router, reason: Reason): Router
    requires r.active.Some? ==> r.active.value in r.handles
  {
    DetachActive(r, reason).(shutdown := true)
  }

  function Drain(r: Router): (seq<OrphanEvent>, Router) {
    (r.orphans, r.(orphans := []))
  }

  /** Whether routing delivers the event to a query's mailbox. */
  predicate Matches(r: Router, sev: Stamped) {
    && r.active == Some(sev.gen)
    && sev.gen in r.handles
    && !r.handles[sev.gen].detached
  }

  function Buffer(m: Mailbox, ev: Event): Mailbox {
    m.(buf := m.buf + [ev])
  }

  function DropOldest(m: Mailbox): Mailbox
    requires |m.buf| > 0
  {
    m.(buf := m.buf[1..], dropped := m.dropped + 1)
  }

  function Taken(m: Mailbox, n: nat): (t: Mailbox)
    ensures |t.buf| == (if n < |m.buf| then |m.buf| - n else 0) && t == m.(buf := t.buf)
  {
    m.(buf := m.buf[if n < |m.buf| then n else |m.buf|..])
  }

  /** The oldest event makes way, unless the consumer emptied the channel first. */
  function MakeRoom(m: Mailbox, taken: nat): (t: Mailbox)
    ensures |t.buf| == (if taken < |m.buf| then |m.buf| - taken - 1 else 0)
    ensures t == m.(buf := t.buf, dropped := t.dropped)
    // it drops one unless the consumer emptied the channel
    ensures t.dropped == m.dropped + (if taken < |m.buf| then 1 else 0)
  {
    var m1 := Taken(m, taken);
    if |m1.buf| > 0 then DropOldest(m1) else m1
  }

  /** The drop-oldest send. Before its k-th attempt on the channel, a send or the
      receive that drops, the consumer takes takes(k) events: it needs no lock. */
  function Deliver(m: Mailbox, ev: Event, takes: nat -> nat): Mailbox {
    var m0 := Taken(m, takes(0));
    if |m0.buf| < MAILBOX_CAP then Buffer(m0, ev)
    else Buffer(Taken(MakeRoom(m0, takes(1)), takes(2)), ev)
  }

  lemma TakenNone(m: Mailbox, n: nat)
    requires n == 0 || m.buf == []
    ensures Taken(m, n) == m
  {
    assert m.buf[0..] == m.buf;
  }

  lemma TakenTwice(m: Mailbox, n: nat)
    ensures Taken(Taken(m, n), 1) == Taken(m, n + 1)
  {
  }

  lemma TakenAll(m: Mailbox, n: nat, k: nat)
    requires n <= k && (n == k || Taken(m, n).buf == [])
    ensures Taken(m, k) == Taken(m, n)
  {
  }

  /** Delivery by cases: there is room, or one event makes way and there is room. */
  lemma DeliverCases(m: Mailbox, ev: Event, takes: nat -> nat)
    requires |m.buf| <= MAILBOX_CAP
    ensures var m0 := Taken(m, takes(0));
            var left := Taken(MakeRoom(m0, takes(1)), takes(2));
            && |m0.buf| <= MAILBOX_CAP && |left.buf| < MAILBOX_CAP
            && Deliver(m, ev, takes) == Buffer(if |m0.buf| < MAILBOX_CAP then m0 else left, ev)
  {
  }

  /** routeStamped for an event that is not the barrier. */
  function Route(r: Router, sev: Stamped, takes: nat -> nat): Router {
    if r.shutdown then r
    else if Matches(r, sev) then
      var m := r.handles[sev.gen];
      var m1 := Deliver(m, sev.ev, takes);
      r.(handles := r.handles[sev.gen := m1], mailboxDropped := r.mailboxDropped + (m1.dropped - m.dropped))
    else
      AddOrphan(r, OrphanEvent(sev.ev, sev.at, sev.gen))
  }

  lemma RouteMatched(r: Router, sev: Stamped, takes: nat -> nat)
    requires !r.shutdown && Matches(r, sev)
    ensures var m, m1 := r.handles[sev.gen], Deliver(r.handles[sev.gen], sev.ev, takes);
            Route(r, sev, takes)
            == r.(handles := r.handles[sev.gen := m1], mailboxDropped := r.mailboxDropped + (m1.dropped - m.dropped))
  {
  }

  // ---- what left a mailbox ----

  function RemovedEvs(removed: seq<Removal>): (es: seq<Event>)
    ensures |es| == |removed|
  {
    seq(|removed|, i requires 0 <= i < |removed| => removed[i].ev)
  }

  function DroppedOf(removed: seq<Removal>): nat {
    if removed == [] then 0 else DroppedOf(removed[..|removed| - 1]) + if removed[|removed| - 1].dropped then 1 else 0
  }

  lemma RemovedPush(removed: seq<Removal>, x: Removal)
    ensures RemovedEvs(removed + [x]) == RemovedEvs(removed) + [x.ev]
    ensures DroppedOf(removed + [x]) == DroppedOf(removed) + if x.dropped then 1 else 0
  {
    assert (removed + [x])[..|removed|] == removed;
  }

  lemma MoveOne(a: seq<Event>, b: seq<Event>)
    requires b != []
    ensures a + b == (a + [b[0]]) + b[1..]
  {
  }

  // ---- every critical section keeps the router well formed ----

  lemma DetachWf(r: Router, g: nat, reason: Reason)
    requires Wf(r) && g in r.handles
    ensures Wf(Detach(r, g, reason)) && Detach(r, g, reason).active != Some(g)
    ensures Detach(r, g, reason).handles.Keys == r.handles.Keys
    ensures r.active == Some(g) ==> Detach(r, g, reason).active.None?
  {
  }

  lemma ArmWf(r: Router, g: nat)
    requires Wf(r) && g !in r.handles
    ensures Wf(Arm(r, g))
    ensures Arm(r, g).active == (if r.shutdown then None else Some(g))
    ensures forall h | h in r.handles :: h in Arm(r, g).handles && Arm(r, g).handles[h].detached
  {
    if r.active.Some? {
      DetachWf(r, r.active.value, QueryDetached);
    }
  }

  lemma ShutdownWf(r: Router, reason: Reason)
    requires Wf(r)
    ensures var r' := Shutdown(r, reason);
            Wf(r') && forall g | g in r.handles :: g in r'.handles && r'.handles[g].closed
  {
    if r.active.Some? {
      DetachWf(r, r.active.value, reason);
    }
  }

  // ---- why a handle is closed ----

  /** Detaching closes an attached handle for the reason given; one that was detached before keeps
      its own, and no other handle changes. */
  lemma DetachTells(r: Router, g: nat, reason: Reason)
    requires Wf(r) && g in r.handles
    ensures var m, m' := r.handles[g], Detach(r, g, reason).handles[g];
            && m'.closed && m'.detached && m'.reason == (if m.detached then m.reason else reason)
            && m'.buf == m.buf && m'.dropped == m.dropped
    ensures forall h | h in r.handles && h != g :: Detach(r, g, reason).handles[h] == r.handles[h]
  {
  }

  /** The end of the session closes the attached handle for the reason given, and no other changes. */
  lemma ShutdownTells(r: Router, reason: Reason)
    requires Wf(r)
    ensures var r' := Shutdown(r, reason);
            && r'.handles.Keys == r.handles.Keys && r'.shutdown
            && forall h | h in r.handles ::
                 r'.handles[h]
                 == if r.active == Some(h) then r.handles[h].(closed := true, detached := true, reason := reason)
                    else r.handles[h]
  {
  }

  /** A new query's handle supersedes the attached one, which is told so; after shutdown the new one is
      told that the session has ended. */
  lemma ArmTells(r: Router, g: nat)
    requires Wf(r) && g !in r.handles
    ensures var r' := Arm(r, g);
            && r'.handles.Keys == r.handles.Keys + {g}
            && r'.handles[g].buf == [] && (r'.handles[g].closed <==> r.shutdown)
            && r'.handles[g].reason == (if r.shutdown then SessionEnded else NoReason)
            && forall h | h in r.handles ::
                 r'.handles[h]
                 == if r.active == Some(h) then r.handles[h].(closed := true, detached := true, reason := QueryDetached)
                    else r.handles[h]
  {
  }

  lemma DeliverBounded(m: Mailbox, ev: Event, takes: nat -> nat)
    requires |m.buf| <= MAILBOX_CAP
    ensures var m' := Deliver(m, ev, takes);
            && 0 < |m'.buf| <= MAILBOX_CAP && m'.buf[|m'.buf| - 1] == ev
            && m.dropped <= m'.dropped <= m.dropped + 1
            && m' == m.(buf := m'.buf, dropped := m'.dropped)
  {
    var m0 := Taken(m, takes(0));
    if |m0.buf| == MAILBOX_CAP {
      var m2 := Taken(MakeRoom(m0, takes(1)), takes(2));
      assert Deliver(m, ev, takes) == Buffer(m2, ev);
    }
  }

  // ---- how old a dropped event is ----

  predicate Drops(m: Mailbox, ev: Event, takes: nat -> nat) {
    Deliver(m, ev, takes).dropped > m.dropped
  }

  /** What is dropped when the consumer takes n events between the send that found the mailbox
      full and the receive that drops; those newer than it are the rest and the new event. */
  function Newer(m: Mailbox, ev: Event, n: nat): seq<Event>
    requires n < |m.buf|
  {
    m.buf[n + 1..] + [ev]
  }

  lemma DropIff(m: Mailbox, ev: Event, takes: nat -> nat)
    requires |m.buf| <= MAILBOX_CAP
    ensures Drops(m, ev, takes) <==> |m.buf| == MAILBOX_CAP && takes(0) == 0 && takes(1) < MAILBOX_CAP
  {
    var m0 := Taken(m, takes(0));
    if |m0.buf| == MAILBOX_CAP {
      DeliverFull(m, ev, takes);
    }
  }

  lemma DeliverFull(m: Mailbox, ev: Event, takes: nat -> nat)
    requires |m.buf| == MAILBOX_CAP && takes(0) == 0
    ensures Deliver(m, ev, takes) == Buffer(Taken(MakeRoom(m, takes(1)), takes(2)), ev)
    ensures Deliver(m, ev, takes).dropped == MakeRoom(m, takes(1)).dropped
  {
    assert m.buf[0..] == m.buf;
    assert Taken(m, takes(0)) == m;
  }

  lemma RoomMade(m: Mailbox, n: nat)
    requires n < |m.buf|
    ensures MakeRoom(m, n).buf == m.buf[n + 1..]
  {
  }

  /** What stays buffered is the end of those. */
  lemma DropLeaves(m: Mailbox, ev: Event, takes: nat -> nat) returns (k: nat)
    requires |m.buf| <= MAILBOX_CAP && Drops(m, ev, takes)
    ensures takes(1) < |m.buf| && k <= |Newer(m, ev, takes(1))|
    ensures Deliver(m, ev, takes).buf == Newer(m, ev, takes(1))[k..]
  {
    DropIff(m, ev, takes);
    DeliverFull(m, ev, takes);
    RoomMade(m, takes(1));
    var room := m.buf[takes(1) + 1..];
    k := if takes(2) < |room| then takes(2) else |room|;
    assert room[k..] + [ev] == (room + [ev])[k..];
  }

  /** An event that is dropped has a full capacity of newer ones behind it exactly when the
      consumer took nothing between the failed send and the drop. */
  lemma DropAge(m: Mailbox, ev: Event, takes: nat -> nat)
    requires |m.buf| <= MAILBOX_CAP && Drops(m, ev, takes)
    ensures takes(1) < |m.buf| && |Newer(m, ev, takes(1))| == MAILBOX_CAP - takes(1)
    ensures |Newer(m, ev, takes(1))| >= MAILBOX_CAP <==> takes(1) == 0
  {
    DropIff(m, ev, takes);
  }

  /** Otherwise an event may be lost with only one newer and the mailbox all but empty. */
  lemma YoungEventMayBeDropped(m: Mailbox, ev: Event)
    requires |m.buf| == MAILBOX_CAP
    ensures var takes: nat -> nat := k => if k == 1 then 255 else 0;
            Drops(m, ev, takes) && |Newer(m, ev, takes(1))| == 1 && Deliver(m, ev, takes).buf == [ev]
  {
    var takes: nat -> nat := k => if k == 1 then 255 else 0;
    DropIff(m, ev, takes);
    DropAge(m, ev, takes);
    var k := DropLeaves(m, ev, takes);
  }

  lemma RouteWf(r: Router, sev: Stamped, takes: nat -> nat)
    requires Wf(r)
    ensures Wf(Route(r, sev, takes))
    // one drop at most, and the event is always buffered last
    ensures Matches(r, sev) ==>
              var m, m' := r.handles[sev.gen], Route(r, sev, takes).handles[sev.gen];
              m.dropped <= m'.dropped <= m.dropped + 1 && |m'.buf| > 0 && m'.buf[|m'.buf| - 1] == sev.ev
  {
    if !r.shutdown && Matches(r, sev) {
      DeliverBounded(r.handles[sev.gen], sev.ev, takes);
    }
  }

  // ---- the orphan mailbox keeps the newest events and counts the rest ----

  function AddOrphans(r: Router, oes: seq<OrphanEvent>): Router {
    if oes == [] then r else AddOrphan(AddOrphans(r, oes[..|oes| - 1]), oes[|oes| - 1])
  }

  lemma NewestMore(oes: seq<OrphanEvent>, oe: OrphanEvent, n: nat)
    requires n > 0
    ensures LastN(oes + [oe], n) == (if |oes| >= n then LastN(oes, n)[1..] else oes) + [oe]
  {
  }

  lemma {:induction false} OrphansAreTheNewest(r: Router, oes: seq<OrphanEvent>)
    requires r.orphans == []
    ensures var r' := AddOrphans(r, oes);
            && r'.orphans == LastN(oes, ORPHAN_CAP)
            && r'.orphansDropped == r.orphansDropped + (|oes| - |r'.orphans|)
            && r' == r.(orphans := r'.orphans, orphansDropped := r'.orphansDropped)
  {
    if oes != [] {
      var init, last := oes[..|oes| - 1], oes[|oes| - 1];
      OrphansAreTheNewest(r, init);
      assert oes == init + [last];
      NewestMore(init, last, ORPHAN_CAP);
    }
  }
}
