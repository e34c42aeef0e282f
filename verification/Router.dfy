/** The router's objects: the orphan ring over a fixed array, the handles with
    their bounded channels, and the router that moves events between them. */
module Router {
  import opened Events
  import opened RouterModel

  class QueryHandle {
    const gen: nat
    var ch: seq<Event>  // what the buffered channel holds
    var closed: bool
    var dropped: nat
    var detached: bool
    var closeReason: Reason
    ghost var routed: seq<Event>     // every event delivered to this handle, in order
    ghost var removed: seq<Removal>  // every event that left the channel, in order

    ghost predicate Valid()
      reads this
    {
      && |ch| <= MAILBOX_CAP
      && routed == RemovedEvs(removed) + ch  // what left the channel, then what is in it
      && closed == detached
    }

    ghost function View(): Mailbox
      reads this
    {
      Mailbox(ch, closed, detached, closeReason, dropped)
    }

    constructor (gen: nat)
      ensures Valid() && View() == NewMailbox(false) && this.gen == gen && routed == []
    {
      this.gen := gen;
      ch, closed, dropped, detached, closeReason := [], false, 0, false, NoReason;
      routed, removed := [], [];
    }

    /** A non-blocking send. Sending on a closed channel panics in Go, so the
        caller has to know that it is open. */
    method TrySend(ev: Event) returns (sent: bool)
      requires Valid() && !closed
      modifies this`ch, this`routed
      ensures Valid() && sent == (|old(ch)| < MAILBOX_CAP)
      ensures View() == (if sent then Buffer(old(View()), ev) else old(View()))
      ensures routed == (if sent then old(routed) + [ev] else old(routed))
    {
      sent := |ch| < MAILBOX_CAP;
      if sent {
        ch := ch + [ev];
        routed := routed + [ev];
      }
    }

    /** A non-blocking receive, by the consumer or by the drop-oldest loop. */
    method TryReceive(drop: bool) returns (ev: Option<Event>)
      requires Valid()
      modifies this`ch, this`removed
      ensures Valid() && ev.Some? == (old(ch) != [])
      ensures View() == Taken(old(View()), 1)
      ensures ev.Some? ==> ev.value == old(ch)[0]
                           && removed == old(removed) + [Removal(ev.value, drop)]
      ensures ev.None? ==> ch == old(ch) && removed == old(removed)
    {
      if ch == [] {
        ev := None;
      } else {
        ev := Some(ch[0]);
        RemovedPush(removed, Removal(ch[0], drop));
        MoveOne(RemovedEvs(removed), ch);
        removed := removed + [Removal(ch[0], drop)];
        ch := ch[1..];
      }
    }

    /** The consumer takes up to n events. */
    method Consume(n: nat)
      requires Valid()
      modifies this`ch, this`removed
      ensures Valid() && View() == Taken(old(View()), n)
    {
      ghost var m := View();
      TakenNone(m, 0);
      var i := 0;
      while i < n && ch != []
        invariant 0 <= i <= n && Valid()
        invariant View() == Taken(m, i)
      {
        TakenTwice(m, i);
        var _ := TryReceive(false);
        i := i + 1;
      }
      TakenAll(m, i, n);
    }

    /** Makes room in a full channel: what the consumer left of it loses its oldest event. */
    method DropOne(takes: nat) returns (drops: nat)
      requires Valid()
      modifies this`ch, this`dropped, this`removed
      ensures Valid() && drops <= 1
      ensures View() == MakeRoom(old(View()), takes)
      ensures drops == dropped - old(dropped)
    {
      Consume(takes);
      ghost var left := View();
      var oldest := TryReceive(true);
      drops := 0;
      if oldest.Some? {
        dropped := dropped + 1;
        drops := 1;
      }
      assert View() == if left.buf != [] then DropOldest(left) else left;
    }

    /** And the consumer may take more before the next attempt to send. */
    method DropThenWait(before: nat, after: nat) returns (drops: nat)
      requires Valid()
      modifies this`ch, this`dropped, this`removed
      ensures Valid() && View() == Taken(MakeRoom(old(View()), before), after)
      ensures drops == dropped - old(dropped) <= 1
    {
      drops := DropOne(before);
      Consume(after);
    }

    /** The drop-oldest loop of routeStamped, and how many events it dropped. */
    method SendDropOldest(ev: Event, takes: nat -> nat) returns (drops: nat)
      requires Valid() && !closed
      modifies this`ch, this`dropped, this`routed, this`removed
      ensures Valid() && routed == old(routed) + [ev]
      ensures View() == Deliver(old(View()), ev, takes)
      ensures drops == dropped - old(dropped) <= 1
    {
      ghost var goal := Deliver(View(), ev, takes);
      DeliverCases(View(), ev, takes);
      drops := 0;
      Consume(takes(0));
      ghost var m0 := View();
      var sent := TrySend(ev);
      var step := 1;
      while !sent
        invariant Valid() && routed == (if sent then old(routed) + [ev] else old(routed))
        invariant drops == dropped - old(dropped) <= 1
        invariant if sent then View() == goal else step == 1 && drops == 0 && View() == m0 && |m0.buf| == MAILBOX_CAP
        decreases !sent
      {
        drops := DropThenWait(takes(step), takes(step + 1));
        sent := TrySend(ev);
        step := step + 2;
      }
    }

    /** Closing a closed channel panics in Go. */
    method Close()
      requires !closed
      modifies this`closed
      ensures closed
    {
      closed := true;
    }
  }

  /** Where an index that ran past the end of the ring wraps to. */
  function Wrap(i: nat, n: nat): (j: nat)
    requires i < 2 * n
    ensures j < n
  {
    if i < n then i else i - n
  }

  lemma WrapIsMod(i: nat, n: nat)
    requires i < 2 * n
    ensures i % n == Wrap(i, n)
  {
    if i >= n {
      assert i == n + (i - n);
    }
  }

  /** The ring's entries, oldest first. */
  function Ring<T>(a: seq<T>, head: nat, count: nat): (s: seq<T>)
    requires head < |a| && count <= |a|
    ensures |s| == count && forall i | 0 <= i < count :: s[i] == a[Wrap(head + i, |a|)]
  {
    seq(count, i requires 0 <= i < count => a[Wrap(head + i, |a|)])
  }

  lemma RingPush<T>(a: seq<T>, head: nat, count: nat, x: T)
    requires head < |a| && count < |a|
    ensures (head + count) % |a| == Wrap(head + count, |a|)
    ensures Ring(a[Wrap(head + count, |a|) := x], head, count + 1) == Ring(a, head, count) + [x]
  {
    WrapIsMod(head + count, |a|);
    var b := a[Wrap(head + count, |a|) := x];
    forall i | 0 <= i <= count
      ensures Ring(b, head, count + 1)[i] == (Ring(a, head, count) + [x])[i]
    {
    }
  }

  lemma RingPop<T>(a: seq<T>, head: nat, count: nat, blank: T)
    requires head < |a| && 0 < count <= |a|
    ensures (head + 1) % |a| == Wrap(head + 1, |a|)
    ensures Ring(a[head := blank], Wrap(head + 1, |a|), count - 1) == Ring(a, head, count)[1..]
  {
    WrapIsMod(head + 1, |a|);
    var b := a[head := blank];
    forall i | 0 <= i < count - 1
      ensures Ring(b, Wrap(head + 1, |a|), count - 1)[i] == Ring(a, head, count)[1..][i]
    {
    }
  }

  const NO_ORPHAN := OrphanEvent(OtherEvent(""), 0, 0)

  /** The orphan mailbox: a fixed ring that overwrites its oldest entry. */
  class OrphanRing {
    const orphans: array<OrphanEvent>
    var head: nat
    var count: nat
    var orphansDropped: nat

    ghost predicate Valid()
      reads this
    {
      orphans.Length == ORPHAN_CAP && head < ORPHAN_CAP && count <= ORPHAN_CAP
    }

    ghost function Contents(): (s: seq<OrphanEvent>)
      requires Valid()
      reads this, orphans
      ensures |s| == count
    {
      Ring(orphans[..], head, count)
    }

    constructor ()
      ensures Valid() && Contents() == [] && orphansDropped == 0 && fresh(orphans)
    {
      orphans := new OrphanEvent[ORPHAN_CAP](_ => NO_ORPHAN);
      head, count, orphansDropped := 0, 0, 0;
    }

    /** addOrphanLocked */
    method Add(oe: OrphanEvent)
      requires Valid()
      modifies this, orphans
      ensures Valid()
      ensures Contents() == (if |old(Contents())| == ORPHAN_CAP then old(Contents())[1..] else old(Contents())) + [oe]
      ensures orphansDropped == old(orphansDropped) + (if |old(Contents())| == ORPHAN_CAP then 1 else 0)
    {
      if count == orphans.Length {
        DropOldest();
      }
      RingPush(orphans[..], head, count, oe);
      orphans[(head + count) % orphans.Length] := oe;
      count := count + 1;
    }

    method DropOldest()
      requires Valid() && count > 0
      modifies this, orphans
      ensures Valid() && Contents() == old(Contents())[1..] && orphansDropped == old(orphansDropped) + 1
    {
      RingPop(orphans[..], head, count, NO_ORPHAN);
      orphans[head] := NO_ORPHAN;
      head := (head + 1) % orphans.Length;
      count := count - 1;
      orphansDropped := orphansDropped + 1;
    }

    /** DrainOrphans */
    method Drain() returns (out: seq<OrphanEvent>)
      requires Valid()
      modifies this`head, this`count, orphans
      ensures Valid() && out == old(Contents()) && Contents() == []
    {
      ghost var was := Contents();
      out := [];
      for i := 0 to count
        invariant out == was[..i]
        invariant head == old(head) && count == old(count)
        invariant forall j | i <= j < count :: orphans[Wrap(head + j, ORPHAN_CAP)] == was[j]
      {
        WrapIsMod(head + i, orphans.Length);
        var idx := (head + i) % orphans.Length;
        out := out + [orphans[idx]];
        orphans[idx] := NO_ORPHAN;
      }
      head, count := 0, 0;
    }
  }

  class EventRouter {
    var active: QueryHandle?
    const ring: OrphanRing
    var mailboxDropped: nat
    var shutdown: bool
    ghost var handles: map<nat, QueryHandle>  // every handle armed so far

    ghost predicate Valid()
      reads this, ring, handles.Values
    {
      && ring.Valid()
      && (shutdown ==> active == null)
      && (active != null ==> active.gen in handles && handles[active.gen] == active)
      && forall g | g in handles ::
           && handles[g].gen == g
           && handles[g].Valid()
           && (handles[g].detached <==> active != handles[g])
    }

    ghost function Boxes(): (m: map<nat, Mailbox>)
      reads this, handles.Values
      ensures m.Keys == handles.Keys
      ensures forall g | g in handles :: m[g] == handles[g].View()
    {
      map g | g in handles :: handles[g].View()
    }

    /** What a step that touches one handle does to the mailboxes. */
    twostate lemma OneBoxChanged(h: QueryHandle)
      requires old(Valid()) && handles == old(handles)
      requires h.gen in handles && handles[h.gen] == h
      requires forall g | g in handles && g != h.gen :: unchanged(handles[g])
      ensures Boxes() == old(Boxes())[h.gen := h.View()]
    {
    }

    /** And one that adds a handle. */
    twostate lemma OneBoxAdded(h: QueryHandle)
      requires handles == old(handles)[h.gen := h] && h.gen !in old(handles)
      requires forall g | g in old(handles) :: unchanged(handles[g])
      ensures Boxes() == old(Boxes())[h.gen := h.View()]
    {
    }

    ghost function View(): (r: RouterModel.Router)
      requires Valid()
      reads this, ring, ring.orphans, handles.Values
    {
      RouterModel.Router(
        if active == null then None else Some(active.gen),
        Boxes(), ring.Contents(), ring.orphansDropped, mailboxDropped, shutdown)
    }

    constructor ()
      ensures Valid() && View() == EMPTY_ROUTER && fresh(ring) && fresh(ring.orphans)
    {
      active := null;
      ring := new OrphanRing();
      mailboxDropped, shutdown := 0, false;
      handles := map[];
    }

    method AddOrphanLocked(oe: OrphanEvent)
      requires Valid()
      modifies ring, ring.orphans
      ensures Valid() && View() == AddOrphan(old(View()), oe)
    {
      ring.Add(oe);
      assert Boxes() == old(Boxes());
    }

    method DrainOrphans() returns (out: seq<OrphanEvent>)
      requires Valid()
      modifies ring, ring.orphans
      ensures Valid() && (out, View()) == Drain(old(View()))
    {
      out := ring.Drain();
      assert Boxes() == old(Boxes());
    }

    /** detachLocked past its guard. */
    method CloseHandle(h: QueryHandle, reason: Reason)
      requires Valid() && h.gen in handles && handles[h.gen] == h && !h.detached
      modifies this`active, h`detached, h`closeReason, h`closed
      ensures Valid() && active == null
      ensures Boxes() == old(Boxes())[h.gen := old(h.View()).(closed := true, detached := true, reason := reason)]
    {
      h.detached := true;
      h.closeReason := reason;
      h.Close();
      if active == h {
        active := null;
      }
      OneBoxChanged(h);
    }

    method DetachLocked(h: QueryHandle?, reason: Reason)
      requires Valid()
      requires h != null ==> h.gen in handles && handles[h.gen] == h
      modifies this`active, h
      ensures Valid()
      ensures View() == (if h == null then old(View()) else Detach(old(View()), h.gen, reason))
    {
      if h == null || h.detached {
        return;
      }
      CloseHandle(h, reason);
    }

    /** Records a new handle, which is attached unless the router is shut down. */
    method Register(h: QueryHandle)
      requires Valid() && active == null && h.gen !in handles && h.Valid() && h.detached == shutdown
      modifies this`active, this`handles
      ensures Valid() && handles == old(handles)[h.gen := h]
      ensures View() == old(View()).(
                          handles := old(View()).handles[h.gen := h.View()],
                          active := if shutdown then None else Some(h.gen))
    {
      if !shutdown {
        active := h;
      }
      handles := handles[h.gen := h];
      OneBoxAdded(h);
    }

    /** Detaches a handle left over from an earlier query. */
    method DetachActive(reason: Reason)
      requires Valid()
      modifies this`active, active
      ensures Valid() && active == null
      ensures View() == RouterModel.DetachActive(old(View()), reason)
    {
      if active != null {
        DetachLocked(active, reason);
      }
    }

    /** An open handle, or one that is closed from the start after shutdown. */
    method NewHandle(gen: nat) returns (h: QueryHandle)
      requires Valid()
      ensures fresh(h) && h.gen == gen && h.Valid() && h.View() == NewMailbox(shutdown)
    {
      h := new QueryHandle(gen);
      if shutdown {
        h.detached := true;
        h.closeReason := SessionEnded;
        h.Close();
      }
    }

    /** The router's half of armQuery. */
    method ArmQuery(gen: nat) returns (h: QueryHandle)
      requires Valid() && gen !in handles
      modifies this`active, this`handles, active
      ensures Valid() && fresh(h) && handles == old(handles)[gen := h]
      ensures View() == Arm(old(View()), gen)
    {
      h := NewHandle(gen);
      if !shutdown {
        DetachActive(QueryDetached);
      }
      Register(h);
    }

    method MarkShutdown()
      requires Valid() && active == null
      modifies this`shutdown
      ensures Valid() && View() == old(View()).(shutdown := true)
    {
      shutdown := true;
      assert Boxes() == old(Boxes());
    }

    /** The router's half of shutdownRouter. */
    method ShutdownRouter(reason: Reason)
      requires Valid()
      modifies this`active, this`shutdown, active
      ensures Valid() && View() == Shutdown(old(View()), reason)
    {
      DetachActive(reason);
      MarkShutdown();
    }

    /** Delivery to the active handle. */
    method DeliverToActive(ev: Event, takes: nat -> nat)
      requires Valid() && active != null
      modifies this`mailboxDropped, active`ch, active`dropped, active`routed, active`removed
      ensures Valid()
      ensures Boxes() == old(Boxes())[active.gen := Deliver(old(active.View()), ev, takes)]
      ensures active.View() == Deliver(old(active.View()), ev, takes)
      ensures mailboxDropped == old(mailboxDropped) + (active.dropped - old(active.dropped))
    {
      var drops := active.SendDropOldest(ev, takes);
      OneBoxChanged(active);
      mailboxDropped := mailboxDropped + drops;
    }

    /** routeStamped for an event that is not the barrier; before each attempt on
        the mailbox its consumer takes some events, as given by `takes`. */
    method RouteStamped(sev: Stamped, takes: nat -> nat)
      requires Valid()
      modifies this`mailboxDropped, ring, ring.orphans, active
      ensures Valid() && View() == Route(old(View()), sev, takes)
    {
      var h := active;
      ghost var r := View();
      if !shutdown {
        if h != null && !h.detached && sev.gen == h.gen {
          DeliverToActive(sev.ev, takes);
          RouteMatched(r, sev, takes);
        } else {
          AddOrphanLocked(OrphanEvent(sev.ev, sev.at, sev.gen));
        }
      }
    }
  }
}
