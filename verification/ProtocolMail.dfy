/** The mailboxes of the routed session: what each operation on them keeps. */
module ProtocolMail {
  import opened Events
  import opened Bytes
  import opened RouterModel
  import opened Protocol

  function Evs(xs: seq<Item>): (es: seq<Event>)
    ensures |es| == |xs|
  {
    seq(|xs|, i requires 0 <= i < |xs| => xs[i].sev.ev)
  }

  function Occurs(g: nat, gs: seq<nat>): nat {
    if gs == [] then 0 else Occurs(g, gs[..|gs| - 1]) + if gs[|gs| - 1] == g then 1 else 0
  }

  /** What left a mailbox, then what is still in it, is exactly what was routed to it, in order;
      all of it was stamped for this query; and the counter counts what was dropped. */
  ghost predicate BoxAccounts(g: nat, routed: seq<Item>, removed: seq<Removal>, box: Mailbox) {
    && Evs(routed) == RemovedEvs(removed) + box.buf
    && box.dropped == DroppedOf(removed)
    && forall i | 0 <= i < |routed| :: routed[i].sev.gen == g
  }

  /** Every drop is counted once on its handle and once in all. */
  ghost predicate Drops(m: Mail) {
    && |m.dropLog| == m.router.mailboxDropped
    && (forall g | g in m.router.handles :: m.router.handles[g].dropped == Occurs(g, m.dropLog))
    && (forall i | 0 <= i < |m.dropLog| :: m.dropLog[i] in m.router.handles)
  }

  ghost predicate Boxes(m: Mail) {
    && m.routedTo.Keys == m.router.handles.Keys == m.removed.Keys
    && forall g | g in m.router.handles :: BoxAccounts(g, m.routedTo[g], m.removed[g], m.router.handles[g])
  }

  /** The orphan mailbox holds the newest orphans since the last drain, and every
      other orphan was drained or is counted as dropped. */
  ghost predicate Orphans(m: Mail) {
    && m.router.orphans == LastN(m.sinceDrain, ORPHAN_CAP)
    && |m.sinceDrain| <= |m.orphanLog|
    && m.sinceDrain == m.orphanLog[|m.orphanLog| - |m.sinceDrain|..]
    && m.drained + m.router.orphansDropped + |m.router.orphans| == |m.orphanLog|
  }

  ghost predicate MailInv(m: Mail) {
    Wf(m.router) && Boxes(m) && Drops(m) && Orphans(m) && m.panics == 0
  }

  lemma DetachKeeps(m: Mail, g: nat, reason: Reason)
    requires MailInv(m) && g in m.router.handles
    ensures MailInv(MailDetach(m, g, reason))
  {
    DetachWf(m.router, g, reason);
  }

  lemma ArmKeeps(m: Mail, g: nat)
    requires MailInv(m) && g !in m.router.handles
    ensures MailInv(MailArm(m, g))
  {
    ArmWf(m.router, g);
    var m' := MailArm(m, g);
    forall h | h in m'.router.handles
      ensures BoxAccounts(h, m'.routedTo[h], m'.removed[h], m'.router.handles[h])
    {
      if h != g {
        ArmLeaves(m, g, h);
      }
    }
    ArmElse(m, g);
    ArmDrops(m, g);
  }

  lemma ArmLeaves(m: Mail, g: nat, h: nat)
    requires Attached(m) && h in m.router.handles && h != g
    ensures h in Arm(m.router, g).handles
    ensures Arm(m.router, g).handles[h].buf == m.router.handles[h].buf
    ensures Arm(m.router, g).handles[h].dropped == m.router.handles[h].dropped
  {
  }

  lemma ArmElse(m: Mail, g: nat)
    requires MailInv(m) && g !in m.router.handles
    ensures var m' := MailArm(m, g);
            && m'.panics == 0 && Orphans(m')
            && m'.routedTo.Keys == m'.router.handles.Keys == m'.removed.Keys
  {
  }

  lemma ArmDrops(m: Mail, g: nat)
    requires Attached(m) && Drops(m) && g !in m.router.handles
    ensures Drops(MailArm(m, g))
  {
    NeverDropped(g, m.dropLog);
    var r' := MailArm(m, g).router;
    assert r'.mailboxDropped == m.router.mailboxDropped;
    forall h | h in r'.handles ensures r'.handles[h].dropped == Occurs(h, m.dropLog) {
      if h != g {
        ArmLeaves(m, g, h);
      }
    }
  }

  lemma {:induction false} NeverDropped(g: nat, gs: seq<nat>)
    requires forall i | 0 <= i < |gs| :: gs[i] != g
    ensures Occurs(g, gs) == 0
  {
    if gs != [] {
      NeverDropped(g, gs[..|gs| - 1]);
    }
  }

  lemma ShutdownKeeps(m: Mail, reason: Reason)
    requires MailInv(m)
    ensures MailInv(MailShutdown(m, reason))
  {
    ShutdownWf(m.router, reason);
    if m.router.active.Some? {
      DetachKeeps(m, m.router.active.value, reason);
    }
  }

  lemma DrainKeeps(m: Mail)
    requires MailInv(m)
    ensures MailInv(MailDrain(m))
  {
  }

  lemma OrphanKeeps(m: Mail, oe: OrphanEvent)
    requires MailInv(m)
    ensures MailInv(MailOrphan(m, oe))
  {
    var m' := MailOrphan(m, oe);
    if |m.sinceDrain| >= ORPHAN_CAP {
      assert m'.router.orphans == LastN(m.sinceDrain, ORPHAN_CAP)[1..] + [oe] == LastN(m'.sinceDrain, ORPHAN_CAP);
    }
    assert Boxes(m');
  }

  lemma BufferKeeps(m: Mail, x: Item)
    requires MailInv(m) && Matches(m.router, x.sev) && HasBox(m, x.sev.gen) && HasRoom(m, x.sev.gen)
    ensures MailInv(MailBuffer(m, x))
  {
    var g, m' := x.sev.gen, MailBuffer(m, x);
    assert BoxAccounts(g, m.routedTo[g], m.removed[g], m.router.handles[g]);
    assert Evs(m'.routedTo[g]) == Evs(m.routedTo[g]) + [x.sev.ev];
    assert BoxAccounts(g, m'.routedTo[g], m'.removed[g], m'.router.handles[g]);
  }

  lemma RemoveOldest(g: nat, routed: seq<Item>, removed: seq<Removal>, box: Mailbox, dropped: bool)
    requires BoxAccounts(g, routed, removed, box) && box.buf != []
    ensures BoxAccounts(g, routed, removed + [Removal(box.buf[0], dropped)],
                        if dropped then DropOldest(box) else Taken(box, 1))
  {
    RemovedPush(removed, Removal(box.buf[0], dropped));
    MoveOne(RemovedEvs(removed), box.buf);
  }

  /** Only this mailbox and its account change. */
  ghost predicate Only(m: Mail, m': Mail, g: nat) {
    && m'.router == m.router.(handles := m'.router.handles, mailboxDropped := m'.router.mailboxDropped)
    && g in m.router.handles && g in m'.router.handles && g in m.routedTo && g in m.removed && g in m'.removed
    && m'.router.handles == m.router.handles[g := m'.router.handles[g]]
    && m'.routedTo == m.routedTo && m'.removed == m.removed[g := m'.removed[g]]
  }

  lemma OnlyBoxes(m: Mail, m': Mail, g: nat)
    requires Boxes(m) && Only(m, m', g) && BoxAccounts(g, m.routedTo[g], m'.removed[g], m'.router.handles[g])
    ensures Boxes(m')
  {
  }

  lemma OnlyWf(m: Mail, m': Mail, g: nat)
    requires Wf(m.router) && Only(m, m', g) && |m'.router.handles[g].buf| <= MAILBOX_CAP
    requires var b, b' := m.router.handles[g], m'.router.handles[g]; b'.detached == b.detached && b'.closed == b.closed
    ensures Wf(m'.router)
  {
  }

  lemma TakeKeeps(m: Mail, g: nat)
    requires MailInv(m) && HasBox(m, g) && m.router.handles[g].buf != []
    ensures MailInv(MailTake(m, g))
  {
    var m' := MailTake(m, g);
    RemoveOldest(g, m.routedTo[g], m.removed[g], m.router.handles[g], false);
    OnlyBoxes(m, m', g);
    OnlyWf(m, m', g);
  }

  lemma DropBox(m: Mail, g: nat)
    requires Boxes(m) && HasBox(m, g) && m.router.handles[g].buf != []
    ensures Only(m, MailDrop(m, g), g) && Boxes(MailDrop(m, g))
  {
    RemoveOldest(g, m.routedTo[g], m.removed[g], m.router.handles[g], true);
    OnlyBoxes(m, MailDrop(m, g), g);
  }

  lemma DropKeeps(m: Mail, g: nat)
    requires MailInv(m) && HasBox(m, g) && m.router.handles[g].buf != []
    ensures MailInv(MailDrop(m, g))
  {
    DropBox(m, g);
    DropWf(m, g);
    DropCounted(m, g);
  }

  lemma DropWf(m: Mail, g: nat)
    requires Wf(m.router) && HasBox(m, g) && m.router.handles[g].buf != []
    ensures Wf(MailDrop(m, g).router)
    ensures Orphans(m) ==> Orphans(MailDrop(m, g))
  {
  }

  lemma DropCounted(m: Mail, g: nat)
    requires Drops(m) && HasBox(m, g) && m.router.handles[g].buf != []
    ensures Drops(MailDrop(m, g))
  {
    assert (m.dropLog + [g])[..|m.dropLog|] == m.dropLog;
  }
}
