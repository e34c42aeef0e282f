/** routeStamped in steps is routeStamped in one: whatever the consumers take in between, the locked
    section of Protocol leaves the router as RouterModel.Route does, which the router object of Router
    refines, but for what other consumers took from other mailboxes. */
module ProtocolRouting {
  import opened Events
  import opened RouterModel
  import opened Protocol
  import opened ProtocolMail
  import opened ProtocolSafety

  /** The routers differ at most in the mailboxes. */
  predicate SameButBoxes(q: Router, r: Router) {
    q.handles.Keys == r.handles.Keys && q == r.(handles := q.handles)
  }

  /** The routers agree but for the mailboxes of other handles. */
  predicate AgreeOn(q: Router, r: Router, g: nat) {
    SameButBoxes(q, r) && g in q.handles && q.handles[g] == r.handles[g]
  }

  /** What the consumers do while the section waits: n events are received from g's mailbox. */
  predicate Received(s: St, t: St, g: nat, n: nat) {
    && HasBox(s.mail, g) && HasBox(t.mail, g) && t.pc.rt == s.pc.rt
    && SameButBoxes(t.mail.router, s.mail.router)
    && t.mail.router.handles[g] == Taken(s.mail.router.handles[g], n)
  }

  lemma ReceivedMore(s: St, t: St, u: St, g: nat, n: nat, k: nat)
    requires Received(s, t, g, n) && Received(t, u, g, k) && k <= 1
    requires k == 1 ==> t.mail.router.handles[g].buf != []
    ensures Received(s, u, g, n + k)
  {
    TakenTwice(s.mail.router.handles[g], n);
    TakenNone(t.mail.router.handles[g], 0);
  }

  /** The router ends with this mailbox of g and this count of drops. */
  predicate EndsWith(q: Router, r: Router, g: nat, box: Mailbox, drops: nat) {
    && g in q.handles && q.handles[g] == box && q.handles.Keys == r.handles.Keys
    && q == r.(handles := q.handles, mailboxDropped := drops)
  }

  lemma DropStep(s: St, box: Mailbox)
    requires s.pc.rt.Full? && HasBox(s.mail, s.pc.rt.item.sev.gen)
    requires box == s.mail.router.handles[s.pc.rt.item.sev.gen]
    ensures var t, g := RouteStep(s, RouteDrop), s.pc.rt.item.sev.gen;
            && t.pc.rt == Retry(s.pc.rt.item) && HasBox(t.mail, g)
            && EndsWith(t.mail.router, s.mail.router, g, MakeRoom(box, 0),
                        s.mail.router.mailboxDropped + MakeRoom(box, 0).dropped - box.dropped)
  {
    TakenNone(box, 0);
  }

  lemma RetryStep(s: St, box: Mailbox)
    requires s.pc.rt.Retry? && HasBox(s.mail, s.pc.rt.item.sev.gen)
    requires box == s.mail.router.handles[s.pc.rt.item.sev.gen] && |box.buf| < MAILBOX_CAP
    ensures var x := s.pc.rt.item;
            EndsWith(RouteStep(s, RouteRetry).mail.router, s.mail.router, x.sev.gen, Buffer(box, x.sev.ev),
                     s.mail.router.mailboxDropped)
  {
  }

  /** Making room after n receives. */
  lemma MakeRoomAfter(box: Mailbox, n: nat)
    ensures MakeRoom(Taken(box, n), 0) == MakeRoom(box, n)
  {
    TakenNone(Taken(box, n), 0);
  }

  /** Changes of mailboxes and of the count of drops, one after the other. */
  lemma EndsOn(t: Router, q: Router, r: Router, g: nat, box: Mailbox, drops: nat)
    requires EndsWith(t, q, g, box, drops)
    requires q.handles.Keys == r.handles.Keys && q == r.(handles := q.handles, mailboxDropped := q.mailboxDropped)
    ensures EndsWith(t, r, g, box, drops)
  {
  }

  /** From the failed send to the drop: s0 is where the mailbox was found full, s where the drop is. */
  lemma ToTheDrop(s0: St, s: St, r: Router, n: nat)
    requires s0.pc.rt.Full? && s0.mail.router == r && Received(s0, s, s0.pc.rt.item.sev.gen, n)
    ensures var g := s0.pc.rt.item.sev.gen;
            var room := MakeRoom(r.handles[g], n);
            && RouteEnabled(s, RouteDrop) && RouteStep(s, RouteDrop).pc.rt == Retry(s0.pc.rt.item)
            && EndsWith(RouteStep(s, RouteDrop).mail.router, r, g, room,
                        r.mailboxDropped + room.dropped - r.handles[g].dropped)
  {
    var g := s0.pc.rt.item.sev.gen;
    var box := r.handles[g];
    DropStep(s, Taken(box, n));
    MakeRoomAfter(box, n);
    var room := MakeRoom(box, n);
    EndsOn(RouteStep(s, RouteDrop).mail.router, s.mail.router, r, g, room,
           r.mailboxDropped + room.dropped - box.dropped);
  }

  /** From the drop to the end of the retry. */
  lemma ToTheEnd(s0: St, s: St, r: Router, room: Mailbox, drops: nat, k: nat)
    requires s0.pc.rt.Retry? && Received(s0, s, s0.pc.rt.item.sev.gen, k) && |room.buf| < MAILBOX_CAP
    requires EndsWith(s0.mail.router, r, s0.pc.rt.item.sev.gen, room, drops)
    ensures var x := s0.pc.rt.item;
            && RouteEnabled(s, RouteRetry)
            && EndsWith(RouteStep(s, RouteRetry).mail.router, r, x.sev.gen, Buffer(Taken(room, k), x.sev.ev), drops)
  {
    var x := s0.pc.rt.item;
    RetryStep(s, Taken(room, k));
    EndsOn(RouteStep(s, RouteRetry).mail.router, s.mail.router, r, x.sev.gen, Buffer(Taken(room, k), x.sev.ev), drops);
  }

  /** What the consumer of the mailbox takes in a section: nothing before the lock. */
  function Receives(n: nat, k: nat): nat -> nat {
    i => if i == 1 then n else if i == 2 then k else 0
  }

  /** The section on a full mailbox is one Route. */
  lemma FullIsRoute(r: Router, sev: Stamped, q: Router, n: nat, k: nat)
    requires Matches(r, sev) && !r.shutdown && |r.handles[sev.gen].buf| == MAILBOX_CAP
    requires var box := r.handles[sev.gen];
             var left := Taken(MakeRoom(box, n), k);
             EndsWith(q, r, sev.gen, Buffer(left, sev.ev), r.mailboxDropped + left.dropped - box.dropped)
    ensures AgreeOn(q, Route(r, sev, Receives(n, k)), sev.gen)
  {
    TakenNone(r.handles[sev.gen], 0);
    RouteIs(r, sev, Receives(n, k));
  }

  /** A mailbox with room is served at once. */
  lemma RoomIsRoute(s: St, takes: nat -> nat)
    requires s.pc.rt.Entering? && HasBox(s.mail, s.pc.rt.item.sev.gen) && !s.pc.rt.item.sev.ev.BarrierEvent?
    requires Matches(s.mail.router, s.pc.rt.item.sev) && !s.mail.router.shutdown && takes(0) == 0
    requires |s.mail.router.handles[s.pc.rt.item.sev.gen].buf| < MAILBOX_CAP
    ensures RouteEnabled(s, RouteEnter)
    ensures RouteStep(s, RouteEnter).mail.router == Route(s.mail.router, s.pc.rt.item.sev, takes)
  {
    TakenNone(s.mail.router.handles[s.pc.rt.item.sev.gen], 0);
    RouteIs(s.mail.router, s.pc.rt.item.sev, takes);
  }

  /** RouterModel.Route for the attached query, at its mailbox. */
  lemma RouteIs(r: Router, sev: Stamped, takes: nat -> nat)
    requires Matches(r, sev) && !r.shutdown
    ensures var box := r.handles[sev.gen];
            var b0 := Taken(box, takes(0));
            Route(r, sev, takes)
            == if |b0.buf| < MAILBOX_CAP then WithBox(r, sev.gen, Buffer(b0, sev.ev))
               else var left := Taken(MakeRoom(b0, takes(1)), takes(2));
                    WithBox(r, sev.gen, Buffer(left, sev.ev)).(
                      mailboxDropped := r.mailboxDropped + left.dropped - b0.dropped)
  {
  }

  /** And so they do for any other event, in their first step. */
  lemma EnterIsRoute(s: St, takes: nat -> nat)
    requires s.pc.rt.Entering? && !s.pc.rt.item.sev.ev.BarrierEvent? && !Matches(s.mail.router, s.pc.rt.item.sev)
    ensures RouteEnabled(s, RouteEnter)
    ensures RouteStep(s, RouteEnter).mail.router == Route(s.mail.router, s.pc.rt.item.sev, takes)
  {
  }

  // ---- in runs ----

  /** Outside the router's own steps only consumers touch it while the lock is held, and nothing
      touches the phase of a section that has begun. */
  lemma OthersKeepPhase(s: St, a: Action)
    requires Control(s.pc, s.mail.router.shutdown) && !s.pc.rt.NoRoute? && Enabled(s, a) && !a.ByRouter?
    ensures Step(s, a).pc.rt == s.pc.rt
  {
    match a
    case ByCaller(x) => assert CallerStep(s, x).pc == s.pc;
    case ByClient(x) => ClientKeepsPhase(s, x);
    case ByReadLoop(x) => assert ReadStep(s, x).pc.rt == s.pc.rt;
    case ByExit(x) => ExitKeepsPhase(s, x);
    case ByPump(x) => PumpIsElsewhere(s, x);
  }

  lemma ClientKeepsPhase(s: St, a: ClientAction)
    requires ClientEnabled(s, a)
    ensures ClientStep(s, a).pc.rt == s.pc.rt
  {
  }

  lemma ExitKeepsPhase(s: St, a: ExitAction)
    requires Control(s.pc, s.mail.router.shutdown) && !s.pc.rt.NoRoute? && ExitEnabled(s, a)
    ensures ExitStep(s, a).pc.rt == s.pc.rt
  {
  }

  /** The pump is in the section itself, or has stopped. */
  lemma PumpIsElsewhere(s: St, a: PumpAction)
    requires Control(s.pc, s.mail.router.shutdown) && !s.pc.rt.NoRoute?
    ensures !PumpEnabled(s, a)
  {
  }

  lemma OnlyConsumersReach(s: St, a: Action)
    requires Control(s.pc, s.mail.router.shutdown) && !LockFree(s.pc.rt) && Enabled(s, a) && !a.ByRouter?
    requires !(a.ByClient? && a.client.Consume?)
    ensures Step(s, a).mail == s.mail && Step(s, a).pc.rt == s.pc.rt
  {
    OthersKeepPhase(s, a);
    match a
    case ByCaller(x) => assert CallerStep(s, x).mail == s.mail;
    case ByClient(x) => assert ClientStep(s, x).mail == s.mail;
    case ByReadLoop(x) => assert ReadStep(s, x).mail == s.mail;
    case ByExit(x) => assert ExitStep(s, x).mail == s.mail;
    case ByPump(x) => PumpIsElsewhere(s, x);
  }

  /** So a step that keeps the phase while the lock is held is a receive, or does not count. */
  lemma WaitStep(s: St, a: Action) returns (n: nat)
    requires Inv(s) && !LockFree(s.pc.rt) && Enabled(s, a) && Step(s, a).pc.rt == s.pc.rt
    ensures n <= 1 && Received(s, Step(s, a), s.pc.rt.item.sev.gen, n)
    ensures n == 1 ==> s.mail.router.handles[s.pc.rt.item.sev.gen].buf != []
  {
    var g := s.pc.rt.item.sev.gen;
    if a.ByRouter? {
      RouterMoves(s, a.route);
    }
    n := if a.ByClient? && a.client.Consume? && a.client.g == g then 1 else 0;
    TakenNone(s.mail.router.handles[g], 0);
    if a.ByClient? && a.client.Consume? {
      ReceiveStep(s, g, a.client.g);
    } else {
      OnlyConsumersReach(s, a);
    }
  }

  lemma RouterMoves(s: St, a: RouteAction)
    requires LockHeld(s.mail.router, s.pc.rt) && !LockFree(s.pc.rt) && RouteEnabled(s, a)
    ensures RouteStep(s, a).pc.rt != s.pc.rt
  {
  }

  lemma ReceiveStep(s: St, g: nat, h: nat)
    requires HasBox(s.mail, g) && ClientEnabled(s, Consume(h))
    ensures var u := ClientStep(s, Consume(h));
            && HasBox(u.mail, g) && SameButBoxes(u.mail.router, s.mail.router) && u.pc == s.pc
            && u.mail.router.handles[g]
               == if h == g then Taken(s.mail.router.handles[g], 1) else s.mail.router.handles[g]
  {
  }

  lemma WaitNext(run: seq<St>, k: nat) returns (n: nat)
    requires IsRun(run) && 0 < k < |run| && !LockFree(run[k - 1].pc.rt) && run[k].pc.rt == run[k - 1].pc.rt
    ensures n <= 1 && Received(run[k - 1], run[k], run[k].pc.rt.item.sev.gen, n)
    ensures n == 1 ==> run[k - 1].mail.router.handles[run[k].pc.rt.item.sev.gen].buf != []
  {
    Reachable(run, k - 1);
    var a := StepAt(run, k);
    n := WaitStep(run[k - 1], a);
  }

  lemma StepAt(run: seq<St>, k: nat) returns (a: Action)
    requires IsRun(run) && 0 < k < |run|
    ensures Enabled(run[k - 1], a) && run[k] == Step(run[k - 1], a)
  {
    assert Follows(run, k);
    a :| Enabled(run[k - 1], a) && run[k] == Step(run[k - 1], a);
  }

  lemma ReceivedNone(s: St, g: nat)
    requires HasBox(s.mail, g)
    ensures Received(s, s, g, 0)
  {
    TakenNone(s.mail.router.handles[g], 0);
  }

  lemma BoxOfSection(run: seq<St>, m: nat)
    requires IsRun(run) && m < |run| && !LockFree(run[m].pc.rt)
    ensures HasBox(run[m].mail, run[m].pc.rt.item.sev.gen)
  {
    Reachable(run, m);
  }

  /** While the phase stays, only receives happen. */
  lemma {:induction false} Waits(run: seq<St>, m: nat, k: nat, rt: RoutePhase) returns (n: nat)
    requires IsRun(run) && m <= k < |run| && !LockFree(rt)
    requires forall i | m <= i <= k :: run[i].pc.rt == rt
    ensures Received(run[m], run[k], rt.item.sev.gen, n)
    decreases k
  {
    if m == k {
      BoxOfSection(run, m);
      ReceivedNone(run[m], rt.item.sev.gen);
      n := 0;
    } else {
      var before := Waits(run, m, k - 1, rt);
      var one := WaitNext(run, k);
      ReceivedMore(run[m], run[k - 1], run[k], rt.item.sev.gen, before, one);
      n := before + one;
    }
  }

  /** A step that changes the phase of a section that has begun is the router's. */
  lemma PhaseStep(run: seq<St>, n: nat) returns (a: RouteAction)
    requires IsRun(run) && n + 1 < |run| && !run[n].pc.rt.NoRoute? && run[n + 1].pc.rt != run[n].pc.rt
    ensures RouteEnabled(run[n], a) && run[n + 1] == Tick(RouteStep(run[n], a))
  {
    Reachable(run, n);
    var b := StepAt(run, n + 1);
    if !b.ByRouter? {
      OthersKeepPhase(run[n], b);
    }
    a := b.route;
  }

  /** The section that takes its first step at e is over at z. */
  ghost predicate IsSection(run: seq<St>, e: nat, z: nat) {
    && IsRun(run) && e < z < |run| && run[e].pc.rt.Entering? && !run[e].pc.rt.item.sev.ev.BarrierEvent?
    && run[e + 1].pc.rt != run[e].pc.rt && run[z].pc.rt.NoRoute?
    && forall i | e < i < z :: !run[i].pc.rt.NoRoute?
  }

  lemma FirstStep(run: seq<St>, e: nat, z: nat) returns (a: RouteAction)
    requires IsSection(run, e, z)
    ensures a == RouteEnter && RouteEnabled(run[e], a) && run[e + 1] == Tick(RouteStep(run[e], a))
  {
    a := PhaseStep(run, e);
  }

  lemma EnterEnds(s: St)
    requires s.pc.rt.Entering? && RouteEnabled(s, RouteEnter) && !s.mail.router.shutdown
    requires !s.pc.rt.item.sev.ev.BarrierEvent?
    requires Matches(s.mail.router, s.pc.rt.item.sev) ==>
               |s.mail.router.handles[s.pc.rt.item.sev.gen].buf| < MAILBOX_CAP
    ensures RouteStep(s, RouteEnter).pc.rt.NoRoute?
  {
  }

  lemma EnterWaits(s: St)
    requires s.pc.rt.Entering? && RouteEnabled(s, RouteEnter) && !s.mail.router.shutdown
    requires !s.pc.rt.item.sev.ev.BarrierEvent? && Matches(s.mail.router, s.pc.rt.item.sev)
    requires |s.mail.router.handles[s.pc.rt.item.sev.gen].buf| >= MAILBOX_CAP
    ensures RouteStep(s, RouteEnter) == s.(pc := s.pc.(rt := Full(s.pc.rt.item)))
  {
  }

  /** A phase that ends has a last state. */
  lemma {:induction false} LastOfPhase(run: seq<St>, m: nat, z: nat) returns (k: nat)
    requires m < z < |run| && run[z].pc.rt != run[m].pc.rt
    ensures m <= k < z && run[k + 1].pc.rt != run[k].pc.rt
    ensures forall i | m <= i <= k :: run[i].pc.rt == run[m].pc.rt
    decreases z
  {
    if forall i | m <= i < z :: run[i].pc.rt == run[m].pc.rt {
      k := z - 1;
    } else {
      var y :| m <= y < z && run[y].pc.rt != run[m].pc.rt;
      k := LastOfPhase(run, m, y);
    }
  }

  /** From the failed send to the drop. */
  lemma ToRetry(run: seq<St>, m: nat, z: nat, r: Router, x: Item) returns (d: nat, n: nat)
    requires IsRun(run) && m < z < |run| && run[m].pc.rt == Full(x) && run[z].pc.rt.NoRoute?
    requires run[m].mail.router == r && HasBox(run[m].mail, x.sev.gen)
    ensures m < d <= z && run[d].pc.rt == Retry(x) && HasBox(run[d].mail, x.sev.gen)
    ensures EndsWith(run[d].mail.router, r, x.sev.gen, MakeRoom(r.handles[x.sev.gen], n),
                     r.mailboxDropped + MakeRoom(r.handles[x.sev.gen], n).dropped - r.handles[x.sev.gen].dropped)
  {
    var k := LastOfPhase(run, m, z);
    n := Waits(run, m, k, Full(x));
    ToTheDrop(run[m], run[k], r, n);
    var a := PhaseStep(run, k);
    assert a == RouteDrop;
    DropStep(run[k], run[k].mail.router.handles[x.sev.gen]);
    d := k + 1;
  }

  /** From the drop to the end of the section. */
  lemma ToReturn(run: seq<St>, m: nat, z: nat, r: Router, x: Item, room: Mailbox, drops: nat)
    returns (d: nat, k: nat)
    requires IsRun(run) && m < z < |run| && run[m].pc.rt == Retry(x) && run[z].pc.rt.NoRoute?
    requires HasBox(run[m].mail, x.sev.gen) && |room.buf| < MAILBOX_CAP
    requires EndsWith(run[m].mail.router, r, x.sev.gen, room, drops)
    ensures m < d <= z && run[d].pc.rt.NoRoute?
    ensures EndsWith(run[d].mail.router, r, x.sev.gen, Buffer(Taken(room, k), x.sev.ev), drops)
  {
    var j := LastOfPhase(run, m, z);
    k := Waits(run, m, j, Retry(x));
    ToTheEnd(run[m], run[j], r, room, drops, k);
    var a := PhaseStep(run, j);
    assert a == RouteRetry;
    Reachable(run, j);
    RetryReturns(run[j]);
    d := j + 1;
  }

  /** The section on a full mailbox. */
  lemma FullSection(run: seq<St>, e: nat, z: nat, r: Router, x: Item) returns (takes: nat -> nat)
    requires IsSection(run, e, z) && run[e + 1].pc.rt == Full(x) && run[e + 1].mail.router == r
    requires HasBox(run[e + 1].mail, x.sev.gen) && Matches(r, x.sev) && !r.shutdown
    requires |r.handles[x.sev.gen].buf| == MAILBOX_CAP
    ensures AgreeOn(run[z].mail.router, Route(r, x.sev, takes), x.sev.gen)
  {
    var box := r.handles[x.sev.gen];
    var d, n := ToRetry(run, e + 1, z, r, x);
    var room := MakeRoom(box, n);
    var y, k := ToReturn(run, d, z, r, x, room, r.mailboxDropped + room.dropped - box.dropped);
    assert y == z;
    FullIsRoute(r, x.sev, run[z].mail.router, n, k);
    takes := Receives(n, k);
  }
}
