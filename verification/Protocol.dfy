/** The routed session as a transition system. One read loop, one pump and any
    number of callers, senders and consumers interleave; each step is one
    critical section, one atomic access or one channel operation of the code. */
module Protocol {
  import opened Events
  import opened RouterModel
  import SessionModel

  const PUMP_CAP: nat := 256
  const EVENTS_CAP: nat := 64

  /** A stamped event, and the step at which its generation was loaded. */
  datatype Item = Item(sev: Stamped, loadedAt: nat)

  /** What the pump channel carries: stderr lines arrive unstamped. */
  datatype Packet = Packed(item: Item) | Raw(ev: Event)

  /** A QueryCtx call, from prepareQuery on. */
  datatype Caller =
    | Prepared
    | Allocated(gen: nat)  // genCounter.Add returned gen
    | Armed(gen: nat)      // registered with the router
    | Submitting(gen: nat) // activeGen stored; about to write stdin
    | Failing(gen: nat)    // failQuery cleared activeGen
    | Closing(gen: nat)    // failQuery set the state; about to detach

  /** EnableRouting, which runs once. */
  datatype Enabling = Off | RouterSet | Woken | On

  datatype ReadLoop =
    | Reading
    | Got(ev: Event, at: nat)
    | Loaded(item: Item)               // stamp read activeGen
    | Stamping(item: Item, own: bool)  // stamped; own: not held as unsolicited
    | Tracked(item: Item)              // trackState ran
    | Draining                         // closed pumpClosed; waits for the pump
    | ExitLoaded(gen: nat)             // stamp of the exit event read activeGen
    | ExitStamped(item: Item)
    | ExitDirect(item: Item)           // about to send the exit event on s.events
    | ExitRouting                      // in routeStamped
    | Delivered
    | Shutting                         // shutdownRouter saw routing enabled
    | RouterShut
    | EventsClosed
    | Finished

  datatype Pump =
    | Waiting
    | Unstamped(ev: Event)
    | Holding(item: Item)
    | Blocked(item: Item)  // in the select that sends on s.events
    | Routing              // in routeStamped
    | Flushing
    | FlushHolding(ev: Event)  // the flush received it; it is not an orphan yet
    | Stopped

  /** routeStamped: before the lock, after a send found the mailbox full, after the drop. */
  datatype RoutePhase = NoRoute | Entering(item: Item) | Full(item: Item) | Retry(item: Item)

  /** sendEvent: past its look at pumpClosed, and stamped. */
  datatype Sender = Passed(ev: Event) | Sending(item: Item)

  /** Who received an event from s.events; the flush turns it into an orphan. */
  datatype Unqueued = ByConsumer(ev: Event) | ByFlush(ev: Event, orphan: nat)

  /** What became of a stamped event: it was delivered, on one of three channels or by the flush;
      it was the barrier; its sender, the pump or the exit gave it up; or a router that is shut
      down discarded it. */
  datatype End = ToMailbox | ToOrphans | ToEvents | Flushed | Barrier | Abandoned | GivenUp | Discarded

  /** `packet` tells whether the pump had taken it from its channel. */
  datatype Fate = Fate(item: Item, end: End, packet: bool)

  /** The generation counters, and what was done with the generations so far. */
  datatype Gens = Gens(
    activeGen: nat,
    genCounter: nat,
    armedAt: map<nat, nat>,  // when activeGen.Store(gen) ran
    ended: set<nat>)         // generations a terminal event was stamped with

  /** The router, and what went into and out of its mailboxes so far. */
  datatype Mail = Mail(
    router: Router,
    routedTo: map<nat, seq<Item>>,  // what was buffered into each mailbox
    removed: map<nat, seq<Removal>>,   // what left each mailbox
    dropLog: seq<nat>,              // the handles that events were dropped from
    orphanLog: seq<OrphanEvent>,    // every orphan
    sinceDrain: seq<OrphanEvent>,   // the orphans since the last drain
    drained: nat,                   // how many orphans were drained
    panics: nat)                    // sends on, and closes of, closed mailboxes

  /** The channel s.events, what was sent on it and what was received from it. */
  datatype Legacy = Legacy(buf: seq<Event>, written: seq<Event>, unqueued: seq<Unqueued>, panics: nat)

  datatype Pcs = Pcs(
    en: Enabling,
    rl: ReadLoop,
    pp: Pump,
    rt: RoutePhase,
    ctxDone: bool,
    barrierDone: bool,  // the flush finished
    sawRouted: bool)    // shutdownRouter found routing enabled

  datatype St = St(
    now: nat,
    life: Lifecycle,
    gens: Gens,
    mail: Mail,
    legacy: Legacy,
    queue: seq<Packet>,    // the pump channel
    taken: seq<Packet>,    // everything the pump took from it
    log: seq<Event>,       // everything delivered to any consumer
    fates: seq<Fate>,      // what became of everything that left the pipeline
    callers: map<nat, Caller>,
    senders: map<nat, Sender>,
    pc: Pcs)

  const INIT := St(
    0, Ready, Gens(0, 0, map[], {}), Mail(EMPTY_ROUTER, map[], map[], [], [], [], 0, 0),
    Legacy([], [], [], 0), [], [], [], [], map[], map[], Pcs(Off, Reading, Waiting, NoRoute, false, false, false))

  // What the flags and channels of the session say follows from where the
  // goroutine that sets them is.

  predicate Routed(en: Enabling) {
    !en.Off?
  }

  predicate RoutedChClosed(en: Enabling) {
    en.Woken? || en.On?
  }

  predicate PumpClosed(rl: ReadLoop) {
    rl.Draining? || PumpIsOver(rl)
  }

  predicate PumpIsOver(rl: ReadLoop) {
    rl.ExitLoaded? || rl.ExitStamped? || rl.ExitDirect? || rl.ExitRouting? || ExitIsOver(rl)
  }

  predicate ExitIsOver(rl: ReadLoop) {
    rl.Delivered? || rl.Shutting? || RouterIsOver(rl)
  }

  predicate RouterIsOver(rl: ReadLoop) {
    rl.RouterShut? || IsEventsClosed(rl)
  }

  predicate IsEventsClosed(rl: ReadLoop) {
    rl.EventsClosed? || rl.Finished?
  }

  /** The router's lock is held across the channel operations on a full mailbox. */
  predicate LockFree(rt: RoutePhase) {
    !rt.Full? && !rt.Retry?
  }

  // ---- what the steps do to the mailboxes ----

  /** The active handle is one of the router's; true in every reachable state. */
  predicate Attached(m: Mail) {
    m.router.active.Some? ==> m.router.active.value in m.router.handles
  }

  /** Detaching the active handle would close a channel that is closed already. */
  predicate ClosesTwice(r: Router)
    requires r.active.Some? ==> r.active.value in r.handles
  {
    r.active.Some? && !r.handles[r.active.value].detached && r.handles[r.active.value].closed
  }

  function MailDetach(m: Mail, g: nat, reason: Reason): Mail
    requires g in m.router.handles
  {
    var box := m.router.handles[g];
    m.(router := Detach(m.router, g, reason), panics := m.panics + if !box.detached && box.closed then 1 else 0)
  }

  function MailArm(m: Mail, g: nat): Mail
    requires Attached(m)
  {
    m.(router := Arm(m.router, g), routedTo := m.routedTo[g := []], removed := m.removed[g := []],
       panics := m.panics + if !m.router.shutdown && ClosesTwice(m.router) then 1 else 0)
  }

  function MailShutdown(m: Mail, reason: Reason): Mail
    requires Attached(m)
  {
    m.(router := Shutdown(m.router, reason), panics := m.panics + if ClosesTwice(m.router) then 1 else 0)
  }

  function MailDrain(m: Mail): Mail {
    m.(router := Drain(m.router).1, sinceDrain := [], drained := m.drained + |m.router.orphans|)
  }

  function MailOrphan(m: Mail, oe: OrphanEvent): Mail {
    m.(router := AddOrphan(m.router, oe), orphanLog := m.orphanLog + [oe], sinceDrain := m.sinceDrain + [oe])
  }

  predicate HasBox(m: Mail, g: nat) {
    g in m.router.handles && g in m.routedTo && g in m.removed
  }

  function WithBox(r: Router, g: nat, box: Mailbox): Router {
    r.(handles := r.handles[g := box])
  }

  /** Buffers an event into a mailbox that has room. */
  function MailBuffer(m: Mail, x: Item): Mail
    requires HasBox(m, x.sev.gen)
  {
    var g := x.sev.gen;
    m.(router := WithBox(m.router, g, Buffer(m.router.handles[g], x.sev.ev)),
       routedTo := m.routedTo[g := m.routedTo[g] + [x]],
       panics := m.panics + if m.router.handles[g].closed then 1 else 0)
  }

  /** The consumer of a mailbox receives its oldest event. */
  function MailTake(m: Mail, g: nat): Mail
    requires HasBox(m, g) && m.router.handles[g].buf != []
  {
    var box := m.router.handles[g];
    m.(router := WithBox(m.router, g, Taken(box, 1)),
       removed := m.removed[g := m.removed[g] + [Removal(box.buf[0], false)]])
  }

  /** The drop-oldest loop receives a mailbox's oldest event. */
  function MailDrop(m: Mail, g: nat): Mail
    requires HasBox(m, g) && m.router.handles[g].buf != []
  {
    var box := m.router.handles[g];
    m.(router := WithBox(m.router, g, DropOldest(box)).(mailboxDropped := m.router.mailboxDropped + 1),
       removed := m.removed[g := m.removed[g] + [Removal(box.buf[0], true)]], dropLog := m.dropLog + [g])
  }

  function LegacyWrite(l: Legacy, ev: Event, closed: bool): Legacy {
    l.(buf := l.buf + [ev], written := l.written + [ev], panics := l.panics + if closed then 1 else 0)
  }

  function LegacyRead(l: Legacy, to: Unqueued): Legacy
    requires l.buf != []
  {
    l.(buf := l.buf[1..], unqueued := l.unqueued + [to])
  }

  datatype CallerAction =
    | PrepareQuery(c: nat) | AllocGen(c: nat) | ArmRouter(c: nat) | StoreGen(c: nat)
    | WriteOk(c: nat) | WriteFails(c: nat) | MarkFailed(c: nat) | DetachFailed(c: nat)

  /** Senders are the goroutines that call sendEvent: the ticker, callers that emit
      a transition and control handlers. So is the read loop when it emits the
      transition of a held result, which it stamps anew. */
  datatype ClientAction =
    | DetachHandle(g: nat) | Consume(g: nat) | DrainOrphans
    | SenderCheck(i: nat, ev: Event) | SenderLoad(i: nat) | SenderPush(i: nat) | SenderQuit(i: nat)
    | EnableSet | EnableWake | EnablePush | EnableQuit
    | ConsumeEvents | Cancel

  datatype ReadAction =
    | Arrive(ev: Event) | LoadGen | Hold | ClearGen | Track
    | PushTransition(act: Activity) | PushEvent | PushAbandon | PushStderr(content: string)

  datatype ExitAction =
    | Eof | ExitLoad | ExitClear | ExitCheck | ExitSend | ExitGiveUp
    | ShutCheck | ShutRouter | CloseEvents | SetDone

  datatype PumpAction =
    | PumpTake | PumpStamp | PumpCheck | PumpWrite | PumpDivert | PumpAbandon | PumpStop
    | FlushTake | FlushAdd | FlushEnd

  datatype RouteAction = RouteEnter | RouteDrop | RouteRetry

  datatype Action =
    | ByCaller(caller: CallerAction) | ByClient(client: ClientAction)
    | ByReadLoop(read: ReadAction) | ByExit(exit: ExitAction)
    | ByPump(pump: PumpAction) | ByRouter(route: RouteAction)

  predicate CallerEnabled(s: St, a: CallerAction) {
    match a
    case PrepareQuery(c) => c !in s.callers && s.pc.en.On? && s.life == Ready
    case AllocGen(c) => c in s.callers && s.callers[c].Prepared?
    case ArmRouter(c) => c in s.callers && s.callers[c].Allocated? && LockFree(s.pc.rt) && Attached(s.mail)
    case StoreGen(c) => c in s.callers && s.callers[c].Armed?
    case WriteOk(c) => c in s.callers && s.callers[c].Submitting?
    case WriteFails(c) => c in s.callers && s.callers[c].Submitting?
    case MarkFailed(c) => c in s.callers && s.callers[c].Failing?
    case DetachFailed(c) =>
      c in s.callers && s.callers[c].Closing? && s.callers[c].gen in s.mail.router.handles && LockFree(s.pc.rt)
  }

  function CallerStep(s: St, a: CallerAction): St
    requires CallerEnabled(s, a)
  {
    match a
    case PrepareQuery(c) => s.(life := Running, callers := s.callers[c := Prepared])
    case AllocGen(c) =>
      var g := s.gens.genCounter + 1;
      s.(gens := s.gens.(genCounter := g), callers := s.callers[c := Allocated(g)])
    case ArmRouter(c) =>
      var g := s.callers[c].gen;
      // armQuery returns before activeGen.Store when the router is shut down
      var next := if s.mail.router.shutdown then Submitting(g) else Armed(g);
      s.(mail := MailArm(s.mail, g), callers := s.callers[c := next])
    case StoreGen(c) =>
      var g := s.callers[c].gen;
      s.(gens := s.gens.(activeGen := g, armedAt := s.gens.armedAt[g := s.now]),
         callers := s.callers[c := Submitting(g)])
    case WriteOk(c) => s.(callers := s.callers - {c})
    case WriteFails(c) => s.(gens := s.gens.(activeGen := 0), callers := s.callers[c := Failing(s.callers[c].gen)])
    case MarkFailed(c) => s.(life := Failed, callers := s.callers[c := Closing(s.callers[c].gen)])
    case DetachFailed(c) =>
      s.(mail := MailDetach(s.mail, s.callers[c].gen, Failure("write")), callers := s.callers - {c})
  }

  function Ended(s: St, x: Item, end: End, packet: bool): St {
    s.(fates := s.fates + [Fate(x, end, packet)])
  }

  predicate ClientEnabled(s: St, a: ClientAction) {
    match a
    case DetachHandle(g) => g in s.mail.router.handles && LockFree(s.pc.rt)
    case Consume(g) => HasBox(s.mail, g) && s.mail.router.handles[g].buf != []
    case DrainOrphans => Routed(s.pc.en) && LockFree(s.pc.rt)
    case SenderCheck(i, ev) => i !in s.senders && !PumpClosed(s.pc.rl) && !ev.Terminal() && !ev.BarrierEvent?
    case SenderLoad(i) => i in s.senders && s.senders[i].Passed?
    case SenderPush(i) => i in s.senders && s.senders[i].Sending? && |s.queue| < PUMP_CAP
    case SenderQuit(i) => i in s.senders && s.senders[i].Sending? && (PumpClosed(s.pc.rl) || s.pc.ctxDone)
    case EnableSet => s.pc.en.Off?
    case EnableWake => s.pc.en.RouterSet?
    case EnablePush => s.pc.en.Woken? && |s.queue| < PUMP_CAP
    case EnableQuit => s.pc.en.Woken? && (PumpClosed(s.pc.rl) || s.pc.ctxDone)
    case ConsumeEvents => s.legacy.buf != []
    case Cancel => true
  }

  function ClientStep(s: St, a: ClientAction): St
    requires ClientEnabled(s, a)
  {
    match a
    case DetachHandle(g) => s.(mail := MailDetach(s.mail, g, QueryDetached))
    case Consume(g) => s.(mail := MailTake(s.mail, g))
    case DrainOrphans => s.(mail := MailDrain(s.mail))
    case SenderCheck(i, ev) => s.(senders := s.senders[i := Passed(ev)])
    case SenderLoad(i) =>
      s.(senders := s.senders[i := Sending(Item(Stamped(s.senders[i].ev, s.now, s.gens.activeGen), s.now))])
    case SenderPush(i) => s.(queue := s.queue + [Packed(s.senders[i].item)], senders := s.senders - {i})
    case SenderQuit(i) => Ended(s.(senders := s.senders - {i}), s.senders[i].item, Abandoned, false)
    case EnableSet => s.(pc := s.pc.(en := RouterSet))
    case EnableWake => s.(pc := s.pc.(en := Woken))
    case EnablePush =>
      s.(queue := s.queue + [Packed(Item(Stamped(BarrierEvent, s.now, s.gens.activeGen), s.now))],
         pc := s.pc.(en := On))
    case EnableQuit => s.(pc := s.pc.(en := On))
    case ConsumeEvents => s.(legacy := LegacyRead(s.legacy, ByConsumer(s.legacy.buf[0])))
    case Cancel => s.(pc := s.pc.(ctxDone := true))
  }

  predicate ReadEnabled(s: St, a: ReadAction) {
    match a
    case Arrive(ev) => s.pc.rl.Reading? && !ev.BarrierEvent? && !ev.CLIExitEvent?
    case LoadGen => s.pc.rl.Got?
    // stampNoQuery, for a result held as unsolicited
    case Hold => s.pc.rl.Got? && s.pc.rl.ev.ResultEvent?
    case ClearGen => s.pc.rl.Loaded?
    case Track => s.pc.rl.Stamping?
    case PushTransition(act) => s.pc.rl.Tracked? && |s.queue| < PUMP_CAP
    case PushEvent => s.pc.rl.Tracked? && |s.queue| < PUMP_CAP
    case PushAbandon => s.pc.rl.Tracked? && s.pc.ctxDone
    // the stderr goroutine, which the read loop waits for before it exits
    case PushStderr(content) => !PumpClosed(s.pc.rl) && |s.queue| < PUMP_CAP
  }

  function ReadStep(s: St, a: ReadAction): St
    requires ReadEnabled(s, a)
  {
    var rl := s.pc.rl;
    match a
    case Arrive(ev) => s.(pc := s.pc.(rl := Got(ev, s.now)))
    case LoadGen => s.(pc := s.pc.(rl := Loaded(Item(Stamped(rl.ev, rl.at, s.gens.activeGen), s.now))))
    case Hold => s.(pc := s.pc.(rl := Stamping(Item(Stamped(rl.ev, rl.at, 0), s.now), false)))
    case ClearGen =>
      s.(pc := s.pc.(rl := Stamping(rl.item, true)),
         gens := if rl.item.sev.ev.Terminal()
                 then s.gens.(activeGen := 0, ended := s.gens.ended + {rl.item.sev.gen}) else s.gens)
    case Track =>
      s.(pc := s.pc.(rl := Tracked(rl.item)),
         life := if rl.own then SessionModel.LifeAfter(s.life, rl.item.sev.ev) else s.life)
    // a transition carries the stamp of the event that caused it
    case PushTransition(act) =>
      s.(queue := s.queue + [Packed(rl.item.(sev := rl.item.sev.(ev := StateChangeEvent(act))))])
    case PushEvent => s.(queue := s.queue + [Packed(rl.item)], pc := s.pc.(rl := Reading))
    case PushAbandon => Ended(s.(pc := s.pc.(rl := Reading)), rl.item, Abandoned, false)
    case PushStderr(content) => s.(queue := s.queue + [Raw(StderrEvent(content))])
  }

  predicate ExitEnabled(s: St, a: ExitAction) {
    match a
    case Eof => s.pc.rl.Reading?
    case ExitLoad => s.pc.rl.Draining? && s.pc.pp.Stopped?
    case ExitClear => s.pc.rl.ExitLoaded?
    case ExitCheck => s.pc.rl.ExitStamped?
    case ExitSend => s.pc.rl.ExitDirect? && |s.legacy.buf| < EVENTS_CAP
    case ExitGiveUp => s.pc.rl.ExitDirect?
    case ShutCheck => s.pc.rl.Delivered?
    case ShutRouter => s.pc.rl.Shutting? && LockFree(s.pc.rt) && Attached(s.mail)
    case CloseEvents => s.pc.rl.RouterShut?
    case SetDone => s.pc.rl.EventsClosed?
  }

  function ExitStep(s: St, a: ExitAction): St
    requires ExitEnabled(s, a)
  {
    var rl := s.pc.rl;
    match a
    case Eof => s.(pc := s.pc.(rl := Draining))
    case ExitLoad => s.(pc := s.pc.(rl := ExitLoaded(s.gens.activeGen)))
    case ExitClear =>
      s.(pc := s.pc.(rl := ExitStamped(Item(Stamped(CLIExitEvent, s.now, rl.gen), s.now))),
         gens := s.gens.(activeGen := 0, ended := s.gens.ended + {rl.gen}))
    case ExitCheck =>
      s.(pc := if Routed(s.pc.en) then s.pc.(rl := ExitRouting, rt := Entering(rl.item))
               else s.pc.(rl := ExitDirect(rl.item)))
    case ExitSend =>
      Ended(s.(pc := s.pc.(rl := Delivered), log := s.log + [rl.item.sev.ev],
               legacy := LegacyWrite(s.legacy, rl.item.sev.ev, IsEventsClosed(rl))), rl.item, ToEvents, false)
    case ExitGiveUp => Ended(s.(pc := s.pc.(rl := Delivered)), rl.item, GivenUp, false)
    case ShutCheck =>
      s.(pc := if Routed(s.pc.en) then s.pc.(rl := Shutting, sawRouted := true) else s.pc.(rl := RouterShut))
    case ShutRouter => s.(pc := s.pc.(rl := RouterShut), mail := MailShutdown(s.mail, SessionEnded))
    case CloseEvents => s.(pc := s.pc.(rl := EventsClosed))
    case SetDone => s.(pc := s.pc.(rl := Finished), life := SessionModel.LifeAtEnd(s.life))
  }

  predicate PumpEnabled(s: St, a: PumpAction) {
    match a
    case PumpTake => s.pc.pp.Waiting? && s.queue != []
    case PumpStamp => s.pc.pp.Unstamped?
    case PumpCheck => s.pc.pp.Holding?
    case PumpWrite => s.pc.pp.Blocked? && |s.legacy.buf| < EVENTS_CAP
    case PumpDivert => s.pc.pp.Blocked? && RoutedChClosed(s.pc.en)
    case PumpAbandon => s.pc.pp.Blocked? && s.pc.ctxDone
    case PumpStop => s.pc.pp.Waiting? && PumpClosed(s.pc.rl) && s.queue == []
    case FlushTake => s.pc.pp.Flushing? && s.legacy.buf != []
    case FlushAdd => s.pc.pp.FlushHolding? && LockFree(s.pc.rt)
    case FlushEnd => s.pc.pp.Flushing? && s.legacy.buf == []
  }

  function PumpStep(s: St, a: PumpAction): St
    requires PumpEnabled(s, a)
  {
    var pp := s.pc.pp;
    match a
    case PumpTake =>
      s.(queue := s.queue[1..], taken := s.taken + [s.queue[0]],
         pc := s.pc.(pp := match s.queue[0] case Packed(x) => Holding(x) case Raw(ev) => Unstamped(ev)))
    case PumpStamp => s.(pc := s.pc.(pp := Holding(Item(Stamped(pp.ev, s.now, s.gens.activeGen), s.now))))
    case PumpCheck =>
      s.(pc := if Routed(s.pc.en) then s.pc.(pp := Routing, rt := Entering(pp.item)) else s.pc.(pp := Blocked(pp.item)))
    case PumpWrite =>
      Ended(s.(pc := s.pc.(pp := Waiting), log := s.log + [pp.item.sev.ev],
               legacy := LegacyWrite(s.legacy, pp.item.sev.ev, IsEventsClosed(s.pc.rl))), pp.item, ToEvents, true)
    case PumpDivert => s.(pc := s.pc.(pp := Routing, rt := Entering(pp.item)))
    case PumpAbandon => Ended(s.(pc := s.pc.(pp := Waiting)), pp.item, Abandoned, true)
    case PumpStop => s.(pc := s.pc.(pp := Stopped))
    case FlushTake =>
      s.(legacy := LegacyRead(s.legacy, ByFlush(s.legacy.buf[0], |s.mail.orphanLog|)),
         pc := s.pc.(pp := FlushHolding(s.legacy.buf[0])))
    case FlushAdd =>
      Ended(s.(mail := MailOrphan(s.mail, OrphanEvent(pp.ev, s.now, 0)), log := s.log + [pp.ev],
               pc := s.pc.(pp := Flushing)), Item(Stamped(pp.ev, s.now, 0), s.now), Flushed, false)
    case FlushEnd => s.(pc := s.pc.(pp := Waiting, barrierDone := true))
  }

  predicate RouteEnabled(s: St, a: RouteAction) {
    match a
    case RouteEnter =>
      s.pc.rt.Entering? && (Matches(s.mail.router, s.pc.rt.item.sev) ==> HasBox(s.mail, s.pc.rt.item.sev.gen))
    case RouteDrop => s.pc.rt.Full? && HasBox(s.mail, s.pc.rt.item.sev.gen)
    case RouteRetry => s.pc.rt.Retry? && HasBox(s.mail, s.pc.rt.item.sev.gen)
  }

  predicate HasRoom(m: Mail, g: nat)
    requires HasBox(m, g)
  {
    |m.router.handles[g].buf| < MAILBOX_CAP
  }

  /** routeStamped returns: to the pump, or to the read loop that delivers the exit event. */
  function RouteReturns(pc: Pcs): Pcs {
    if pc.rl.ExitRouting? then pc.(rt := NoRoute, rl := Delivered) else pc.(rt := NoRoute, pp := Waiting)
  }

  /** routeStamped is done with the event, which the pump took unless it is the exit event. */
  function RouteEnds(s: St, x: Item, end: End): St {
    Ended(s.(pc := RouteReturns(s.pc)), x, end, !s.pc.rl.ExitRouting?)
  }

  function RouteToBox(s: St, x: Item): St
    requires HasBox(s.mail, x.sev.gen)
  {
    RouteEnds(s.(mail := MailBuffer(s.mail, x), log := s.log + [x.sev.ev]), x, ToMailbox)
  }

  function RouteToOrphans(s: St, x: Item): St {
    RouteEnds(s.(mail := MailOrphan(s.mail, OrphanEvent(x.sev.ev, x.sev.at, x.sev.gen)), log := s.log + [x.sev.ev]),
              x, ToOrphans)
  }

  function RouteStep(s: St, a: RouteAction): St
    requires RouteEnabled(s, a)
  {
    var x := s.pc.rt.item;
    match a
    case RouteEnter =>
      if x.sev.ev.BarrierEvent? then Ended(s.(pc := s.pc.(rt := NoRoute, pp := Flushing)), x, Barrier, true)
      else if s.mail.router.shutdown then RouteEnds(s, x, Discarded)
      else if !Matches(s.mail.router, x.sev) then RouteToOrphans(s, x)
      else if HasRoom(s.mail, x.sev.gen) then RouteToBox(s, x)
      else s.(pc := s.pc.(rt := Full(x)))
    case RouteDrop =>
      var m := if s.mail.router.handles[x.sev.gen].buf != [] then MailDrop(s.mail, x.sev.gen) else s.mail;
      s.(mail := m, pc := s.pc.(rt := Retry(x)))
    case RouteRetry =>
      if HasRoom(s.mail, x.sev.gen) then RouteToBox(s, x) else s.(pc := s.pc.(rt := Full(x)))
  }

  predicate Enabled(s: St, a: Action) {
    match a
    case ByCaller(x) => CallerEnabled(s, x)
    case ByClient(x) => ClientEnabled(s, x)
    case ByReadLoop(x) => ReadEnabled(s, x)
    case ByExit(x) => ExitEnabled(s, x)
    case ByPump(x) => PumpEnabled(s, x)
    case ByRouter(x) => RouteEnabled(s, x)
  }

  function Act(s: St, a: Action): St
    requires Enabled(s, a)
  {
    match a
    case ByCaller(x) => CallerStep(s, x)
    case ByClient(x) => ClientStep(s, x)
    case ByReadLoop(x) => ReadStep(s, x)
    case ByExit(x) => ExitStep(s, x)
    case ByPump(x) => PumpStep(s, x)
    case ByRouter(x) => RouteStep(s, x)
  }

  function Tick(s: St): St {
    s.(now := s.now + 1)
  }

  function Step(s: St, a: Action): St
    requires Enabled(s, a)
  {
    Tick(Act(s, a))
  }

  /** Every state of a run, from the initial one, follows from the one before it by a step. */
  ghost predicate IsRun(run: seq<St>) {
    && run != [] && run[0] == INIT
    && forall i | 0 < i < |run| :: Follows(run, i)
  }

  ghost predicate Follows(run: seq<St>, i: nat)
    requires 0 < i < |run|
  {
    Next(run[i - 1], run[i])
  }

  ghost predicate Next(s: St, s': St) {
    exists a :: Enabled(s, a) && s' == Step(s, a)
  }
}
