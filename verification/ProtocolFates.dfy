/** What becomes of every event: the fates of all that left the pipeline account for what each
    channel was sent, in order, and for everything the pump took. */
module ProtocolFates {
  import opened Events
  import opened RouterModel
  import opened Protocol
  import opened ProtocolMail
  import opened ProtocolSafety

  // ---- what the fates say was sent where ----

  function RoutedOf(fates: seq<Fate>, g: nat): seq<Item> {
    if fates == [] then []
    else
      var f := fates[|fates| - 1];
      RoutedOf(fates[..|fates| - 1], g) + if f.end.ToMailbox? && f.item.sev.gen == g then [f.item] else []
  }

  function OrphansOf(fates: seq<Fate>): seq<OrphanEvent> {
    if fates == [] then []
    else
      var f := fates[|fates| - 1];
      OrphansOf(fates[..|fates| - 1])
      + if f.end.ToOrphans? || f.end.Flushed? then [OrphanEvent(f.item.sev.ev, f.item.sev.at, f.item.sev.gen)] else []
  }

  function EventsOf(fates: seq<Fate>): seq<Event> {
    if fates == [] then []
    else
      var f := fates[|fates| - 1];
      EventsOf(fates[..|fates| - 1]) + if f.end.ToEvents? then [f.item.sev.ev] else []
  }

  /** The packets that the pump took and is done with. */
  function Handled(fates: seq<Fate>): seq<Packet> {
    if fates == [] then []
    else
      var f := fates[|fates| - 1];
      Handled(fates[..|fates| - 1]) + if f.packet then [Packed(f.item)] else []
  }

  lemma OfMore(fates: seq<Fate>, f: Fate, g: nat)
    ensures RoutedOf(fates + [f], g) == RoutedOf(fates, g) + RoutedOf([f], g)
    ensures OrphansOf(fates + [f]) == OrphansOf(fates) + OrphansOf([f])
    ensures EventsOf(fates + [f]) == EventsOf(fates) + EventsOf([f])
    ensures Handled(fates + [f]) == Handled(fates) + Handled([f])
  {
    assert (fates + [f])[..|fates|] == fates && [f][..0] == [];
    assert RoutedOf([], g) == [] && OrphansOf([]) == [] && EventsOf([]) == [] && Handled([]) == [];
  }

  function BoxOf(m: Mail, g: nat): seq<Item> {
    if g in m.routedTo then m.routedTo[g] else []
  }

  /** A step adds at most one fate, and each channel was sent just what that fate says. */
  ghost predicate Books(s: St, s': St) {
    if s'.fates == s.fates then
      && (forall g :: BoxOf(s'.mail, g) == BoxOf(s.mail, g))
      && s'.mail.orphanLog == s.mail.orphanLog && s'.legacy.written == s.legacy.written
    else
      && |s'.fates| == |s.fates| + 1 && s'.fates == s.fates + [s'.fates[|s.fates|]]
      && BooksOne(s, s', s'.fates[|s.fates|])
  }

  ghost predicate BooksOne(s: St, s': St, f: Fate) {
    && (forall g :: BoxOf(s'.mail, g) == BoxOf(s.mail, g) + RoutedOf([f], g))
    && s'.mail.orphanLog == s.mail.orphanLog + OrphansOf([f])
    && s'.legacy.written == s.legacy.written + EventsOf([f])
  }

  /** All that was ever sent to each mailbox, to the orphans and on s.events, in order. */
  ghost predicate Accounts(s: St) {
    && (forall g :: BoxOf(s.mail, g) == RoutedOf(s.fates, g))
    && s.mail.orphanLog == OrphansOf(s.fates)
    && s.legacy.written == EventsOf(s.fates)
  }

  lemma BooksKeep(s: St, s': St)
    requires Accounts(s) && Books(s, s')
    ensures Accounts(s')
  {
    if s'.fates != s.fates {
      var f := s'.fates[|s.fates|];
      OfMore(s.fates, f, 0);
      forall g ensures BoxOf(s'.mail, g) == RoutedOf(s'.fates, g) {
        OfMore(s.fates, f, g);
      }
    }
  }

  lemma OneFate(f: Fate, g: nat)
    ensures RoutedOf([f], g) == if f.end.ToMailbox? && f.item.sev.gen == g then [f.item] else []
    ensures OrphansOf([f]) == if f.end.ToOrphans? || f.end.Flushed?
                              then [OrphanEvent(f.item.sev.ev, f.item.sev.at, f.item.sev.gen)] else []
    ensures EventsOf([f]) == if f.end.ToEvents? then [f.item.sev.ev] else []
    ensures Handled([f]) == if f.packet then [Packed(f.item)] else []
  {
    assert [f][..0] == [];
  }

  /** A fate that no channel was sent. */
  lemma NothingSent(s: St, s': St, f: Fate)
    requires f.end in {Barrier, Abandoned, GivenUp, Discarded} && s'.fates == s.fates + [f]
    requires s'.mail.routedTo == s.mail.routedTo && s'.mail.orphanLog == s.mail.orphanLog
    requires s'.legacy.written == s.legacy.written
    ensures Books(s, s')
  {
    OneFate(f, 0);
    forall g ensures BoxOf(s'.mail, g) == BoxOf(s.mail, g) + RoutedOf([f], g) {
      OneFate(f, g);
    }
  }

  lemma SentToEvents(s: St, s': St, f: Fate)
    requires f.end == ToEvents && s'.fates == s.fates + [f]
    requires s'.mail == s.mail && s'.legacy.written == s.legacy.written + [f.item.sev.ev]
    ensures Books(s, s')
  {
    OneFate(f, 0);
    forall g ensures BoxOf(s'.mail, g) == BoxOf(s.mail, g) + RoutedOf([f], g) {
      OneFate(f, g);
    }
  }

  lemma SentToOrphans(s: St, s': St, f: Fate)
    requires (f.end == ToOrphans || f.end == Flushed) && s'.fates == s.fates + [f]
    requires s'.mail == MailOrphan(s.mail, OrphanEvent(f.item.sev.ev, f.item.sev.at, f.item.sev.gen))
    requires s'.legacy.written == s.legacy.written
    ensures Books(s, s')
  {
    OneFate(f, 0);
    forall g ensures BoxOf(s'.mail, g) == BoxOf(s.mail, g) + RoutedOf([f], g) {
      OneFate(f, g);
    }
  }

  lemma SentToMailbox(s: St, s': St, f: Fate)
    requires f.end == ToMailbox && s'.fates == s.fates + [f]
    requires HasBox(s.mail, f.item.sev.gen) && s'.mail == MailBuffer(s.mail, f.item)
    requires s'.legacy.written == s.legacy.written
    ensures Books(s, s')
  {
    OneFate(f, 0);
    forall g ensures BoxOf(s'.mail, g) == BoxOf(s.mail, g) + RoutedOf([f], g) {
      OneFate(f, g);
    }
  }

  lemma CallerBooks(s: St, a: CallerAction)
    requires Mailboxes(s) && Generations(s) && CallerEnabled(s, a)
    ensures Books(s, CallerStep(s, a))
  {
  }

  lemma ClientBooks(s: St, a: ClientAction)
    requires ClientEnabled(s, a)
    ensures Books(s, ClientStep(s, a))
  {
    if a.SenderQuit? {
      NothingSent(s, ClientStep(s, a), Fate(s.senders[a.i].item, Abandoned, false));
    }
  }

  lemma ReadBooks(s: St, a: ReadAction)
    requires ReadEnabled(s, a)
    ensures Books(s, ReadStep(s, a))
  {
    if a.PushAbandon? {
      NothingSent(s, ReadStep(s, a), Fate(s.pc.rl.item, Abandoned, false));
    }
  }

  lemma ExitBooks(s: St, a: ExitAction)
    requires ExitEnabled(s, a)
    ensures Books(s, ExitStep(s, a))
  {
    match a
    case ExitSend => SentToEvents(s, ExitStep(s, a), Fate(s.pc.rl.item, ToEvents, false));
    case ExitGiveUp => NothingSent(s, ExitStep(s, a), Fate(s.pc.rl.item, GivenUp, false));
    case _ =>
  }

  lemma PumpBooks(s: St, a: PumpAction)
    requires PumpEnabled(s, a)
    ensures Books(s, PumpStep(s, a))
  {
    var pp, s' := s.pc.pp, PumpStep(s, a);
    match a
    case PumpWrite => SentToEvents(s, s', Fate(pp.item, ToEvents, true));
    case PumpAbandon => NothingSent(s, s', Fate(pp.item, Abandoned, true));
    case FlushAdd => SentToOrphans(s, s', Fate(Item(Stamped(pp.ev, s.now, 0), s.now), Flushed, false));
    case _ =>
  }

  lemma RouteBooks(s: St, s': St)
    requires !s.pc.rt.NoRoute? && RoutesTo(s, s')
    ensures Books(s, s')
  {
    if s'.pc.rt.NoRoute? {
      var f := s'.fates[|s.fates|];
      match f.end
      case ToMailbox => SentToMailbox(s, s', f);
      case ToOrphans => SentToOrphans(s, s', f);
      case _ => NothingSent(s, s', f);
    }
  }

  // ---- why an event ended so ----

  /** An event is abandoned only once the session is cancelled or the pump is closed; only the exit
      event is given up, or sent to a mailbox without the pump; and nothing is discarded. */
  ghost predicate Excused(s: St, f: Fate) {
    && !f.end.Discarded?
    && (f.end.Abandoned? ==> s.pc.ctxDone || PumpClosed(s.pc.rl))
    && (f.end.Abandoned? && f.item.sev.ev.Terminal() ==> s.pc.ctxDone)
    && (f.end.GivenUp? ==> f.item.sev.ev.CLIExitEvent? && ExitIsOver(s.pc.rl))
    && (f.end.Barrier? ==> f.item.sev.ev.BarrierEvent?)
    && (f.end.Flushed? ==> f.item.sev.gen == 0)
    && (f.end.ToMailbox? && !f.packet ==> f.item.sev.ev.CLIExitEvent?)
  }

  ghost predicate AllExcused(s: St) {
    forall i | 0 <= i < |s.fates| :: Excused(s, s.fates[i])
  }

  /** What has been closed or cancelled stays so. */
  ghost predicate Forward(s: St, s': St) {
    && (s.pc.ctxDone ==> s'.pc.ctxDone)
    && (PumpClosed(s.pc.rl) ==> PumpClosed(s'.pc.rl))
    && (ExitIsOver(s.pc.rl) ==> ExitIsOver(s'.pc.rl))
  }

  lemma ExcusedKeep(s: St, s': St)
    requires AllExcused(s) && Forward(s, s')
    requires s'.fates == s.fates
          || (|s'.fates| == |s.fates| + 1 && s'.fates[..|s.fates|] == s.fates && Excused(s', s'.fates[|s.fates|]))
    ensures AllExcused(s')
  {
    forall i | 0 <= i < |s'.fates| ensures Excused(s', s'.fates[i]) {
      if i < |s.fates| {
        assert s'.fates[i] == s.fates[i] && Excused(s, s.fates[i]);
      }
    }
  }

  lemma CallerExcused(s: St, a: CallerAction)
    requires AllExcused(s) && CallerEnabled(s, a)
    ensures AllExcused(CallerStep(s, a))
  {
    ExcusedKeep(s, CallerStep(s, a));
  }

  lemma ClientExcused(s: St, a: ClientAction)
    requires AllExcused(s) && ClientEnabled(s, a) && PlainEvents(s)
    ensures AllExcused(ClientStep(s, a))
  {
    if a.SenderQuit? {
      assert !SenderEv(s.senders[a.i]).Terminal();
    }
    ExcusedKeep(s, ClientStep(s, a));
  }

  lemma ReadExcused(s: St, a: ReadAction)
    requires AllExcused(s) && ReadEnabled(s, a)
    ensures AllExcused(ReadStep(s, a))
  {
    ExcusedKeep(s, ReadStep(s, a));
  }

  lemma ExitExcused(s: St, a: ExitAction)
    requires AllExcused(s) && ExitEnabled(s, a) && Control(s.pc, s.mail.router.shutdown)
    ensures AllExcused(ExitStep(s, a))
  {
    ExcusedKeep(s, ExitStep(s, a));
  }

  lemma PumpExcused(s: St, a: PumpAction)
    requires AllExcused(s) && PumpEnabled(s, a)
    ensures AllExcused(PumpStep(s, a))
  {
    ExcusedKeep(s, PumpStep(s, a));
  }

  lemma RouteExcused(s: St, s': St)
    requires AllExcused(s) && Control(s.pc, s.mail.router.shutdown) && !s.pc.rt.NoRoute? && RoutesTo(s, s')
    ensures AllExcused(s')
  {
    ExcusedKeep(s, s');
  }

  // ---- the pump ----

  /** The packet the pump is at work on. */
  function Hand(pc: Pcs): seq<Packet> {
    match pc.pp
    case Unstamped(ev) => [Raw(ev)]
    case Holding(x) => [Packed(x)]
    case Blocked(x) => [Packed(x)]
    case Routing => if pc.rt.NoRoute? then [] else [Packed(pc.rt.item)]
    case _ => []
  }

  /** The same event, stamped at the pump if it came unstamped. */
  predicate Same(p: Packet, q: Packet) {
    match p
    case Packed(x) => q == p
    case Raw(ev) => q == p || (q.Packed? && q.item.sev.ev == ev)
  }

  ghost predicate InOrder(ps: seq<Packet>, qs: seq<Packet>) {
    |ps| == |qs| && forall i | 0 <= i < |ps| :: Same(ps[i], qs[i])
  }

  /** What the pump took, it handled once and in order, but for the one in hand. */
  ghost predicate PumpAccounts(s: St) {
    InOrder(s.taken, Handled(s.fates) + Hand(s.pc))
  }

  lemma HandledMore(fates: seq<Fate>, f: Fate)
    ensures Handled(fates + [f]) == Handled(fates) + if f.packet then [Packed(f.item)] else []
  {
    OfMore(fates, f, 0);
    OneFate(f, 0);
  }

  /** The pump takes a packet. */
  lemma Takes(s: St, s': St, p: Packet)
    requires PumpAccounts(s) && s'.fates == s.fates && s'.taken == s.taken + [p]
    requires Hand(s.pc) == [] && Hand(s'.pc) == [p]
    ensures PumpAccounts(s')
  {
    var h := Handled(s.fates);
    assert h + [] == h;
  }

  /** It stamps the packet. */
  lemma Restamps(s: St, s': St, p: Packet, q: Packet)
    requires PumpAccounts(s) && s'.fates == s.fates && s'.taken == s.taken
    requires Hand(s.pc) == [p] && Hand(s'.pc) == [q] && p.Raw? && Same(p, q)
    ensures PumpAccounts(s')
  {
  }

  /** It is done with the packet. */
  lemma Finishes(s: St, s': St, f: Fate)
    requires PumpAccounts(s) && s'.fates == s.fates + [f] && s'.taken == s.taken && f.packet
    requires Hand(s.pc) == [Packed(f.item)] && Hand(s'.pc) == []
    ensures PumpAccounts(s')
  {
    HandledMore(s.fates, f);
    var h := Handled(s'.fates);
    assert h + [] == h;
  }

  /** Steps that neither take nor finish a packet. */
  lemma Elsewhere(s: St, s': St)
    requires PumpAccounts(s) && s'.taken == s.taken && Hand(s'.pc) == Hand(s.pc)
    requires s'.fates == s.fates
          || (|s'.fates| == |s.fates| + 1 && s'.fates == s.fates + [s'.fates[|s.fates|]] && !s'.fates[|s.fates|].packet)
    ensures PumpAccounts(s')
  {
    if s'.fates != s.fates {
      HandledMore(s.fates, s'.fates[|s.fates|]);
      assert Handled(s.fates) + [] == Handled(s.fates);
    }
  }

  lemma PumpAccountsStep(s: St, a: PumpAction)
    requires PumpAccounts(s) && PumpEnabled(s, a)
    ensures PumpAccounts(PumpStep(s, a))
  {
    var pp, s' := s.pc.pp, PumpStep(s, a);
    match a
    case PumpTake => Takes(s, s', s.queue[0]);
    case PumpStamp => Restamps(s, s', Raw(pp.ev), Packed(s'.pc.pp.item));
    case PumpWrite => Finishes(s, s', Fate(pp.item, ToEvents, true));
    case PumpAbandon => Finishes(s, s', Fate(pp.item, Abandoned, true));
    case _ => Elsewhere(s, s');
  }

  lemma RouteAccounts(s: St, s': St)
    requires PumpAccounts(s) && Control(s.pc, s.mail.router.shutdown) && !s.pc.rt.NoRoute? && RoutesTo(s, s')
    ensures PumpAccounts(s')
  {
    if s'.pc.rt.NoRoute? && s'.fates[|s.fates|].packet {
      Finishes(s, s', s'.fates[|s.fates|]);
    } else {
      Elsewhere(s, s');
    }
  }

  // ---- after the pump ----

  predicate PlainQueue(queue: seq<Packet>) {
    forall i | 0 <= i < |queue| :: queue[i].Packed? ==> !queue[i].item.sev.ev.Terminal()
  }

  /** What is still sent on the pump channel once the pump has stopped answers no query. */
  ghost predicate Leftovers(s: St) {
    s.pc.pp.Stopped? ==> PlainQueue(s.queue)
  }

  // ---- every reachable state ----

  ghost predicate FatesInv(s: St) {
    Accounts(s) && AllExcused(s) && PumpAccounts(s) && Leftovers(s)
  }

  lemma AccountsStep(s: St, a: Action)
    requires Mailboxes(s) && Generations(s) && Accounts(s) && Enabled(s, a)
    ensures Accounts(Act(s, a))
  {
    match a {
      case ByCaller(x) => CallerBooks(s, x);
      case ByClient(x) => ClientBooks(s, x);
      case ByReadLoop(x) => ReadBooks(s, x);
      case ByExit(x) => ExitBooks(s, x);
      case ByPump(x) => PumpBooks(s, x);
      case ByRouter(x) => RouteEffect(s, x); RouteBooks(s, RouteStep(s, x));
    }
    BooksKeep(s, Act(s, a));
  }

  lemma ExcusedStep(s: St, a: Action)
    requires Control(s.pc, s.mail.router.shutdown) && LockHeld(s.mail.router, s.pc.rt) && PlainEvents(s)
    requires AllExcused(s) && Enabled(s, a)
    ensures AllExcused(Act(s, a))
  {
    match a
    case ByCaller(x) => CallerExcused(s, x);
    case ByClient(x) => ClientExcused(s, x);
    case ByReadLoop(x) => ReadExcused(s, x);
    case ByExit(x) => ExitExcused(s, x);
    case ByPump(x) => PumpExcused(s, x);
    case ByRouter(x) => RouteEffect(s, x); RouteExcused(s, RouteStep(s, x));
  }

  lemma PumpedStep(s: St, a: Action)
    requires Control(s.pc, s.mail.router.shutdown) && LockHeld(s.mail.router, s.pc.rt)
    requires PumpAccounts(s) && Enabled(s, a)
    ensures PumpAccounts(Act(s, a))
  {
    match a
    case ByCaller(x) => CallerElsewhere(s, x);
    case ByClient(x) => ClientElsewhere(s, x);
    case ByReadLoop(x) => ReadElsewhere(s, x);
    case ByExit(x) => ExitElsewhere(s, x);
    case ByPump(x) => PumpAccountsStep(s, x);
    case ByRouter(x) => RouteEffect(s, x); RouteAccounts(s, RouteStep(s, x));
  }

  lemma CallerElsewhere(s: St, a: CallerAction)
    requires PumpAccounts(s) && CallerEnabled(s, a)
    ensures PumpAccounts(CallerStep(s, a))
  {
    Elsewhere(s, CallerStep(s, a));
  }

  lemma ClientElsewhere(s: St, a: ClientAction)
    requires PumpAccounts(s) && ClientEnabled(s, a)
    ensures PumpAccounts(ClientStep(s, a))
  {
    Elsewhere(s, ClientStep(s, a));
  }

  lemma ReadElsewhere(s: St, a: ReadAction)
    requires PumpAccounts(s) && ReadEnabled(s, a)
    ensures PumpAccounts(ReadStep(s, a))
  {
    Elsewhere(s, ReadStep(s, a));
  }

  lemma ExitElsewhere(s: St, a: ExitAction)
    requires Control(s.pc, s.mail.router.shutdown) && PumpAccounts(s) && ExitEnabled(s, a)
    ensures PumpAccounts(ExitStep(s, a))
  {
    var s' := ExitStep(s, a);
    assert s'.taken == s.taken && s'.pc.pp == s.pc.pp;
    assert a.ExitCheck? ==> s.pc.pp.Stopped?;
    Elsewhere(s, s');
  }

  lemma LeftoversStep(s: St, a: Action)
    requires Control(s.pc, s.mail.router.shutdown) && PlainEvents(s) && Leftovers(s) && Enabled(s, a)
    requires LockHeld(s.mail.router, s.pc.rt)
    ensures Leftovers(Act(s, a))
  {
    match a
    case ByCaller(x) => assert CallerStep(s, x).queue == s.queue && CallerStep(s, x).pc == s.pc;
    case ByClient(x) => ClientLeftovers(s, x);
    case ByReadLoop(x) => ReadLeftovers(s, x);
    case ByExit(x) => assert ExitStep(s, x).queue == s.queue && ExitStep(s, x).pc.pp == s.pc.pp;
    case ByPump(x) => PumpLeftovers(s, x);
    case ByRouter(x) => RouteLeftovers(s, x);
  }

  lemma RouteLeftovers(s: St, a: RouteAction)
    requires Leftovers(s) && RouteEnabled(s, a)
    ensures Leftovers(RouteStep(s, a))
  {
    if a.RouteEnter? {
      EnterLeavesQueue(s);
    } else {
      assert RouteStep(s, a).queue == s.queue;
      assert RouteStep(s, a).pc.pp.Stopped? ==> s.pc.pp.Stopped?;
    }
  }

  lemma EnterLeavesQueue(s: St)
    requires RouteEnabled(s, RouteEnter)
    ensures var s' := RouteStep(s, RouteEnter); s'.queue == s.queue && (s'.pc.pp.Stopped? ==> s.pc.pp.Stopped?)
  {
  }

  lemma ReadLeftovers(s: St, a: ReadAction)
    requires Control(s.pc, s.mail.router.shutdown) && Leftovers(s) && ReadEnabled(s, a)
    ensures Leftovers(ReadStep(s, a))
  {
    assert ReadStep(s, a).pc.pp == s.pc.pp;
    assert !s.pc.pp.Stopped? || ReadStep(s, a).queue == s.queue;
  }

  lemma PumpLeftovers(s: St, a: PumpAction)
    requires PumpEnabled(s, a)
    ensures Leftovers(PumpStep(s, a))
  {
  }

  lemma ClientLeftovers(s: St, a: ClientAction)
    requires Leftovers(s) && PlainEvents(s) && ClientEnabled(s, a)
    ensures Leftovers(ClientStep(s, a))
  {
    if a.SenderPush? {
      assert !SenderEv(s.senders[a.i]).Terminal();
    }
  }

  lemma StepFates(s: St, a: Action)
    requires Inv(s) && FatesInv(s) && Enabled(s, a)
    ensures FatesInv(Step(s, a))
  {
    AccountsStep(s, a);
    ExcusedStep(s, a);
    PumpedStep(s, a);
    LeftoversStep(s, a);
    TickFates(Act(s, a));
  }

  lemma TickFates(s: St)
    requires FatesInv(s)
    ensures FatesInv(Tick(s))
  {
    assert forall i | 0 <= i < |s.fates| :: Excused(s, s.fates[i]) ==> Excused(Tick(s), s.fates[i]);
  }

  /** Every event is accounted for in every state of every run. */
  lemma {:induction false} FatesReachable(run: seq<St>, n: nat)
    requires IsRun(run) && n < |run|
    ensures FatesInv(run[n])
  {
    if n == 0 {
      InitFates();
    } else {
      FatesReachable(run, n - 1);
      Reachable(run, n - 1);
      assert Follows(run, n);
      NextFates(run[n - 1], run[n]);
    }
  }

  lemma InitFates()
    ensures FatesInv(INIT)
  {
  }

  lemma NextFates(s: St, s': St)
    requires Inv(s) && FatesInv(s) && Next(s, s')
    ensures FatesInv(s')
  {
    var a :| Enabled(s, a) && s' == Step(s, a);
    StepFates(s, a);
  }

  // ---- from a fate to where it was booked, and back ----

  lemma {:induction false} RoutedHasFate(fates: seq<Fate>, g: nat, i: nat) returns (k: nat)
    requires i < |RoutedOf(fates, g)|
    ensures k < |fates| && fates[k].item == RoutedOf(fates, g)[i] && fates[k].end.ToMailbox?
  {
    var before := fates[..|fates| - 1];
    if i < |RoutedOf(before, g)| {
      k := RoutedHasFate(before, g, i);
    } else {
      k := |fates| - 1;
    }
  }

  lemma {:induction false} FateWasHandled(fates: seq<Fate>, k: nat) returns (i: nat)
    requires k < |fates| && fates[k].packet
    ensures i < |Handled(fates)| && Handled(fates)[i] == Packed(fates[k].item)
  {
    var before := fates[..|fates| - 1];
    if k < |before| {
      i := FateWasHandled(before, k);
    } else {
      i := |Handled(before)|;
    }
  }

  lemma {:induction false} HandledHasFate(fates: seq<Fate>, i: nat) returns (k: nat)
    requires i < |Handled(fates)|
    ensures k < |fates| && Handled(fates)[i] == Packed(fates[k].item)
  {
    var before := fates[..|fates| - 1];
    if i < |Handled(before)| {
      k := HandledHasFate(before, i);
    } else {
      k := |fates| - 1;
    }
  }
}
