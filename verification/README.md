# Claude CLI session: a Dafny model

A Go client library keeps a Claude CLI process alive, writes prompts to its stdin and reads JSON
lines from its stdout. One read loop, one pump and any number of callers share a session's state, the
generation of the active query, a router and a channel. This project models that session and the
parts around it and proves what they promise, for every interleaving, every input or every run.

| files | what they hold |
|---|---|
| `Events`, `Bytes` | the typed events; TrimSpace, with the white space of Unicode in UTF-8, and IndexByte |
| `RouterModel`, `Router` | the event router: its critical sections as functions on abstract queues, and the classes (ring, mailbox, router) that refine them |
| `Protocol`, `ProtocolMail`, `ProtocolSafety`, `ProtocolFates`, `ProtocolTheorems` | the routed session as a transition system whose steps are the code's critical sections, atomic accesses and channel operations; its invariant; what becomes of every event; the theorems |
| `ProtocolRouting`, `ProtocolReasons` | that the steps of routeStamped in `Protocol` are the one function that the router object refines; why handles are closed |
| `ProtocolOrigins`, `ProtocolProgress` | that events are delivered as they arrived and were stamped; that a routed session waits for no consumer and ends |
| `SessionModel`, `Session` | the fields under the state lock: as functions with the lifecycle theorem, and as the object |
| `Turns`, `RightAnswer`, `Ledger` | an automaton of the CLI with its callers and the read loop; that queries get their own answers; that the count of unread messages is sound |
| `Activity` | the activity tracker and the ticker it drives |
| `EndToEnd` | `Turns` and `Protocol` as one system: from the CLI's turns to the queries' mailboxes and back |
| `Json`, `JsonGrammar` | a validator for JSON texts; that what it accepts is JSON, no less and no more |
| `Jsonl`, `JsonlFiles` | the offset reader of growing files; when it may be polled |
| `Login`, `LoginMonitor` | the login monitor as an object; every interleaving of reports and submissions |
| `Backfill` | the per-task memo and the resolution of an agent's name |
| `Capture` | the ring of last lines and the reader that fills it |
| `Context` | the context measurement |
| `Control`, `ControlProtocol` | pending control requests as an object; every interleaving of callers and the read loop |

An object that the code updates in place is a class here; each of its methods is proved to take the
object's abstract value to a function of the old one. What several goroutines do is a transition
system, and its theorems hold in every state of every run. Its steps use the same functions as the
objects: those on the router and its mailboxes, in `RouterModel`, with `ProtocolRouting` for the one
section that the transition system cuts into steps; those on the session's state, in `SessionModel`
(`Turns` has all of that state, `Protocol` the lifecycle alone, by `SessionModel.TrackIsLifeAfter`);
those on the login monitor, in `Login`; those on a one-slot channel, in `Control`.

Where the code falls short of what one would expect, the model keeps the code's behaviour and says
exactly when the expectation holds:

- The drop-oldest loop may drop an event although the consumer has just made room. A dropped event
  has a full mailbox of newer ones behind it if and only if the consumer took nothing between the
  failed send and the drop (`RouterModel.DropAge`; over runs `ProtocolTheorems.DropIsOldest`, with
  `ProtocolTheorems.DropWithRoom` for a run from the start in which it did take something).
- Polling a growing file equals one read if and only if on each line only blanks of one byte follow a
  complete object (`JsonlFiles.PollingExactIffSettled`). A stray byte breaks it, and so does a blank
  of several bytes, since a read may see its first byte alone (`JsonlFiles.FilesNotToPoll`).
- `unread` over-counts when an echoed message joins a slash command's turn. The init flag is set
  exactly under the condition of `Ledger.FlagIsExact`; `Ledger.SurplusHidesFlag` is a run where it is
  missed. One such fold is enough to hide the flag of every later init (`Ledger.SurplusHidesAllFlags`).
  It is never set wrongly (`Ledger.FlagIsSound`).
- A plain query whose write fails stays pending for as long as the read loop lives and no fatal error
  comes (`RightAnswer.LostQueryHangs`; `RightAnswer.QueryCanBeLost` is such a run). No other query
  hangs (`RightAnswer.NoQueryHangs`).
- Past `shutdownRouter`, a handle that is armed is closed at once if and only if routing was on when
  `shutdownRouter` looked (`ProtocolTheorems.LateHandleClosed`); if it was, all handles are closed
  (`ProtocolTheorems.ShutdownClosesHandles`), and if not, a session may end with one open
  (`ProtocolTheorems.LateRoutingLeavesHandleOpen`).
- The pending count of the tracker is uses minus results if and only if results never outnumbered
  uses (`ActivityTracking.PendingIsUsesMinusResults`; `ActivityTracking.StrayResult` is a history
  where they did).
- A control request registered before the read loop begins to end is answered or failed
  (`ControlProtocol.RegisteredWhileReading`). One registered while the final Range of
  `failPendingRequests` runs may be failed by it (`ControlProtocol.RequestCaughtByRange`) or missed
  (`ControlProtocol.RequestDuringRange`), and one registered after that never is served
  (`ControlProtocol.LateRequestIsNeverServed`, `ControlProtocol.RequestCanBeLate`). Once the loop has
  ended, a waiter is served if and only if its request has left the map
  (`ControlProtocol.ServedIffTaken`).
- A login submission may be told that its code was rejected when the rejected code is that of an
  earlier submission, given up before its answer came (`LoginMonitor.RejectionOfAnothersCode`). With a
  CLI that answers codes in order, its rejections are its own if and only if every code written before
  it began had been answered by then (`LoginMonitor.OwnRejectionIff`).
- A message sent with SendMessage may be answered in place of a query: in its own turn
  (`RightAnswer.SentTurnCanEndQuery`), or without one, when it is ahead of the query and joins a
  notification's turn (`RightAnswer.FoldedSendCanEndQuery`). With callers that only query, each query
  gets its own answer (`RightAnswer.RightAnswers`, `EndToEnd.AnswersOwnQuery`).
- The non-blocking send of `failPendingRequests` never finds a slot taken
  (`ControlProtocol.SendsNeverBlock`), and the router is never asked to route once it is shut down
  (`ProtocolTheorems.RoutedWhereDue`).

## Model

| member | source | states |
|---|---|---|
| `ProtocolTheorems.NoStaleAnswers` | router.go:214-247 | In every state of every run, each event that was put into a query's mailbox carries that query's generation, and that generation was loaded after the query was armed. |
| `ProtocolTheorems.OneAnswerPerQuery` | session.go:197-214 | No query ever receives two terminal events, although a stamp loads and clears the generation in two steps. |
| `ProtocolTheorems.OneTerminalPerEnd` | session.go:197-214 | A generation that has ended has exactly one terminal event, with the read loop, in the pump channel, with the pump or at its end; one that has not has none. |
| `ProtocolTheorems.EveryAnswerArrives` | session.go:1336-1342 | When the session is over, the terminal event of every ended generation has exactly one fate: delivered to a mailbox, the orphans or s.events, unless the session was cancelled or it is an exit event that nobody took. |
| `ProtocolTheorems.RoutedWhereDue` | router.go:214-247 | In every run an event goes to its query's mailbox iff that query's handle is the attached one, else to the orphans; a router that is shut down is never asked. |
| `ProtocolTheorems.PumpLosesNothing` | session.go:1032-1073 | The pump handles every packet it takes once and in order, with one at most in hand; s.events was sent exactly what it and the exit wrote there. |
| `ProtocolTheorems.PumpIsFifo` | session.go:1543-1562 | What was ever sent on the pump channel, in order, stays what it was as it is taken. |
| `ProtocolTheorems.ChannelSafety` | router.go:280-330 | No step sends on or closes a closed channel; the open handles are exactly the router's active one. |
| `ProtocolTheorems.NothingAfterExit` | session.go:1078-1114 | The exit event is the last event delivered to anyone. |
| `ProtocolTheorems.ShutdownClosesHandles` | router.go:332-350 | Past shutdownRouter the router is shut down iff routing was seen, and then every handle, armed before or after, is closed. |
| `ProtocolTheorems.LateHandleClosed` | router.go:280-305 | Past shutdownRouter, a handle that is armed is closed at once, and its generation is not stored, iff routing was seen. |
| `ProtocolTheorems.LateRoutingLeavesHandleOpen` | router.go:332-335 | A run in which routing comes after that look and the session ends with an open handle. |
| `ProtocolTheorems.MailIsConserved` | router.go:214-274 | Each mailbox was sent, in order, exactly the events whose fate it was, and they are what left it and then what is in it; its drop counter and the router's count exactly the drops; every orphan is drained, counted as dropped, or among the newest since the last drain. |
| `ProtocolTheorems.DropIsOldest` | router.go:234-241 | In every run, the drop-oldest loop removes the oldest item still buffered; the items routed after it, with the one in hand, make a full capacity iff the mailbox is still full at the drop. |
| `ProtocolTheorems.DropWithRoom` | router.go:226-242 | A run from the start that fills a mailbox and drops although the consumer has made room. |
| `ProtocolTheorems.RoutingSwitch` | router.go:193-261 | Once the barrier is processed the legacy channel is empty and never written again, and each event ever sent on it was received or became an orphan. |
| `ProtocolTheorems.SwitchIsFinal` | session.go:1032-1053 | What was written to the legacy channel by then stays all that is ever written to it. |
| `ProtocolOrigins.DeliveredAsArrived` | session.go:188-214 | Whatever the pump delivered is an event as it was read, with its time, a transition with the time of its cause, an event as its sender had it, or a line of stderr. |
| `ProtocolOrigins.DeliveredAsStamped` | session.go:188-214 | It carries the generation that was active when it was stamped, or, for a held result or a transition, none. |
| `ProtocolProgress.SessionGoesOn` | session.go:1032-1073 | Once routing is on, the session can always take a step of its own unless it is over or waits for the CLI with nothing left to hand on: it waits for no consumer. |
| `ProtocolProgress.OwnStepsAreFinite` | session.go:1014-1114 | Each such step brings it nearer to its end or to the CLI's next line. |
| `ProtocolProgress.OverForGood` | session.go:335-346 | Once the read loop has finished, the session is done or failed and no query starts. |
| `ProtocolSafety.Reachable` | session.go:1014-1114 | The invariant behind these theorems holds in every state of every run. |
| `ProtocolFates.FatesReachable` | session.go:1032-1114 | In every state of every run the fates of all events account for what each channel was sent and for what the pump took, and each loss has its excuse. |
| `ProtocolTheorems.RoutesAsModelled` | router.go:214-247 | Every entry to routeStamped in every run, from its first step to its last, leaves the router as the one function does that the router object refines, for some receives of the mailbox's consumer in between; only other handles' mailboxes may differ, since their consumers go on. |
| `ProtocolRouting.OnlyConsumersReach` | router.go:219-221 | Between the steps of that section nothing but the consumers' receives reaches the router. |
| `ProtocolSafety.RetryReturns` | router.go:225-243 | While the router's lock is held, the send after a drop finds room, so the loop ends after one drop at most. |
| `RouterModel.DeliverBounded` | router.go:225-243 | However the consumer interferes, delivery buffers the event last, drops at most one and keeps within the capacity. |
| `RouterModel.DropIff` | router.go:226-242 | An event is dropped iff the mailbox was full at the send and not emptied before the drop. |
| `RouterModel.DropLeaves` | router.go:226-242 | After a drop the mailbox holds an end of the events newer than the dropped one. |
| `RouterModel.DropAge` | router.go:226-242 | A dropped event has a full capacity of newer events behind it iff the consumer took nothing between send and drop. |
| `RouterModel.YoungEventMayBeDropped` | router.go:234-241 | A full mailbox and 255 receives in between: an event is lost with one newer event and the rest of the mailbox free. |
| `RouterModel.RouteWf` | router.go:214-247 | Routing keeps the router well formed: at most one attached handle, the active one; closed iff detached. |
| `RouterModel.ArmWf` | router.go:280-305 | Arming detaches every earlier handle, and after shutdown leaves none active. |
| `RouterModel.ShutdownWf` | router.go:332-350 | Shutdown closes every handle there is. |
| `RouterModel.DetachTells` | router.go:317-326 | Detaching closes an attached handle with the reason given; one detached before keeps its own; no other changes. |
| `RouterModel.ShutdownTells` | router.go:332-350 | Shutdown closes the attached handle with the reason given, and changes no other. |
| `RouterModel.ArmTells` | router.go:280-305 | Arming closes the attached handle as superseded; a handle made after shutdown is closed with the session's end. |
| `ProtocolReasons.ReasonIsTheCause` | router.go:280-350 | In every run a closed handle was closed by one step and carries that step's reason: session's end for shutdown or a late arming, the write's failure for its own failed write, superseded or detached otherwise. |
| `ProtocolReasons.ReasonNeverChanges` | router.go:317-326 | A closed handle stays closed with the same reason. |
| `RouterModel.OrphansAreTheNewest` | router.go:265-274 | After any orphans the ring holds the last min(n, capacity) of them and the counter the number of the rest. |
| `Router.EventRouter.RouteStamped` | router.go:214-247 | The router object, with its ring indices and mailbox channels, moves exactly as the abstract router does. |
| `Router.EventRouter.ArmQuery` | router.go:280-305 | The same for arming; the new handle is closed at once if the router is shut down. |
| `Router.EventRouter.DetachLocked` | router.go:317-326 | The same for detaching; idempotent, and no other mailbox changes. |
| `Router.EventRouter.ShutdownRouter` | router.go:332-350 | The same for shutdown. |
| `Router.EventRouter.DrainOrphans` | router.go:356-374 | Returns the orphans oldest first and leaves none. |
| `Router.OrphanRing.Add` | router.go:265-274 | The ring buffer drops its oldest entry when full and appends, whatever its head. |
| `Router.OrphanRing.Drain` | router.go:356-374 | The ring's contents in order, then an empty ring. |
| `Router.QueryHandle.SendDropOldest` | router.go:225-243 | The loop on the mailbox channel computes the abstract delivery and returns the number of drops. |
| `RightAnswer.RightAnswers` | session.go:1305-1342 | In every run of the CLI automaton with query-only callers, a result that ends a query is that of the turn that consumed its prompt, with its generation; every other result is a task notification's, marked Unsolicited, with no generation. |
| `RightAnswer.HeldResultsAreInvisible` | session.go:293-305 | Over any stretch of any run in which the query's prompt waits in stdin, however many turns the CLI takes by itself, state, result, error, resultReady, generation and pending query stay what they were, and all that is delivered is Unsolicited and belongs to no query. |
| `RightAnswer.ResultIsKept` | session.go:1564-1593 | Until the next query starts the session stays idle with the same result. |
| `RightAnswer.NoQueryHangs` | session.go:273-292 | Once the CLI is done with a query whose message it got, in a turn of its own or folded into a notification's, reading what it printed ends the query. |
| `RightAnswer.LostQueryHangs` | session.go:461-469 | A plain query that returned after a failed write stays pending through every continuation. |
| `RightAnswer.QueryCanBeLost` | session.go:439-444 | A run from the start that loses a query so. |
| `RightAnswer.SentTurnCanEndQuery` | session.go:486-492 | A run in which the turn of a message sent while idle ends a later query: why callers that send are excluded. |
| `RightAnswer.FoldedSendCanEndQuery` | session.go:227-240 | A run in which no message has a turn of its own and a sent message, folded into a notification's turn ahead of the query's, passes for its prompt and ends it. |
| `EndToEnd.AnswersOwnQuery` | session.go:1319-1342 | In every run of the joint system, a result in a query's mailbox is that of the turn that consumed the query's prompt and ended the query, and the mailbox never gets another terminal event. |
| `EndToEnd.OwnAnswerArrives` | session.go:1336-1342 | When the session is over, the result of each turn that ended a query has exactly one fate under that query's generation: delivered to the mailbox, the orphans or s.events, unless the session was cancelled. |
| `EndToEnd.Reachable` | router.go:411-437 | The invariant that joins the sides: generations are the queries' numbers, calls and the read loop are equally far, each delivered result is placed and each placed result was delivered. |
| `EndToEnd.JoiningForbidsNothing` | router.go:411-437 | Until the stream ends, the joint system takes every step that the CLI automaton with its callers takes, at the latest when the session has done its own steps before it. |
| `EndToEnd.QueryIsAnswered` | router.go:411-437 | A run, from a session without routing, that ends with a query's result in its mailbox. |
| `RightAnswer.Reachable` | session.go:227-305 | The session's flags track the CLI's progress with the pending query in every state of every run. |
| `Ledger.AlwaysBalanced` | session.go:227-271 | An exact account: unread is the messages in flight, waiting in stdin and owed for by what is printed or running, and the surplus of folds into silent turns. |
| `Ledger.UnreadCovers` | session.go:416-446 | unread is never less than the messages in flight plus those written and not consumed, failed writes included. |
| `Ledger.FlagIsSound` | session.go:242-257 | An init flagged Unsolicited opens no caller's turn, and no message is in flight or waits. |
| `Ledger.FlagIsExact` | session.go:253-257 | When exactly an init is flagged. |
| `Ledger.SurplusHidesFlag` | session.go:259-271 | A run in which a fold into a slash command's turn leaves unread at 1 and the CLI's own next turn is not flagged. |
| `Ledger.SurplusHidesAllFlags` | session.go:253-257 | Once an echoed message has joined a slash command's turn, no later init of the session is flagged. |
| `SessionModel.LifecycleHolds` | session.go:334-372 | While a query is pending there is no result and no error and its channel is open; after the read loop's exit the state is Done or Failed and no query can start. |
| `SessionModel.TrackIsLifeAfter` | session.go:1564-1593 | What an event does to the lifecycle of the full state is what it does to the lifecycle alone. |
| `SessionModel.EndedQueriesWake` | session.go:1564-1593 | Whatever ends a query, other than the read loop's exit, closes its channel and leaves a result or an error. |
| `SessionModel.EndOfQuery` | session.go:1564-1593 | The result that ends a query is what Wait returns, with the max-turns error iff its turn hit the limit and no other; a fatal error or a failed write leaves just that error. |
| `SessionModel.FirstErrorStands` | session.go:1572-1592 | In every run the error is the first one raised since the last query began, and there is one iff one was raised. |
| `SessionModel.LastResultStands` | session.go:1572-1584 | The result is the last one tracked since the last query began, and there is one iff one was. |
| `SessionModel.StateIsDecided` | session.go:335-360 | The state is what the last deciding step made it; before any, the session is ready iff it has been initialised. |
| `SessionModel.RefusalTellsWhy` | session.go:337-346 | A query is refused as in progress, failed or ended according to the last step that decided the state. |
| `SessionModel.ReadyOnceInitialised` | session.go:337-346 | Before any such step it is refused as not ready iff no init has come. |
| `SessionModel.HoldingMovesTracker` | session.go:293-305 | Holding a result ends its tool uses; the tracker thinks if a query is pending and else idles; nothing else changes. |
| `SessionObject.Session.PrepareQuery` | session.go:334-356 | Refuses in every state but idle, with that state's error; else starts the query with a fresh channel and once guard. |
| `SessionObject.Session.FailQuery` | session.go:363-372 | Clears the generation, fails the session, keeps the first error and closes the channel once. |
| `SessionObject.Session.TrackState` | session.go:1564-1593 | The session after an init, a result, a fatal error or anything else; no channel is closed twice. |
| `SessionObject.Session.SetDoneState` | session.go:1460-1467 | Done, unless the session has failed. |
| `SessionObject.Session.NotePromptEcho` | session.go:227-240 | Only a caller's top-level echo counts, once. |
| `SessionObject.Session.NoteTurnStart` | session.go:253-257 | Whether an init opens a turn of the CLI's own. |
| `SessionObject.Session.NoteTurnEnd` | session.go:263-271 | A caller's turn without an echo takes one message off the count. |
| `SessionObject.Session.ObserveUnsolicitedResult` | session.go:293-305 | Which results are held, their mark and the transition that precedes them. |
| `ActivityTracking.ActivityTracker.Observe` | activity.go:49-110 | The tracker's fields after any event and the transition it reports, the counting loop over blocks included. |
| `ActivityTracking.ActivityTracker.ObserveUnsolicitedResult` | activity.go:116-122 | The same for the end of a turn of the CLI's own. |
| `ActivityTracking.ActivityTracker.MarkQuery` | activity.go:150-156 | The same for a query. |
| `ActivityTracking.ActivityTracker.FirstPending` | activity.go:140-145 | Reports the kept tool use while awaiting, if it has an id. |
| `ActivityTracking.AwaitingIffPending` | activity.go:64-99 | After any history the tracker awaits results iff its count is positive. |
| `ActivityTracking.PendingIsUsesMinusResults` | activity.go:64-99 | The count is uses minus results since the last reset iff results never outnumbered uses, and never less. |
| `ActivityTracking.StrayResult` | activity.go:76-84 | A history in which the count is not the difference. |
| `ActivityTracking.FirstIsEarliest` | activity.go:64-75 | While awaiting, the kept tool use is the earliest since the count was last zero. |
| `ActivityTracking.IdleIffAtRest` | activity.go:49-110 | After any history the tracker is idle iff every input that stirs it was followed by one that ends the turn with no query waiting. |
| `ActivityTracking.PendingIsLargestExcess` | activity.go:64-99 | For every history the count is the largest excess of uses over results in a stretch up to now without a reset. |
| `ActivityTracking.AwaitingIffExcess` | activity.go:64-99 | It awaits results iff some such stretch has more uses than results. |
| `ActivityTracking.ThinkingOtherwise` | activity.go:49-110 | And it thinks at any other time. |
| `ActivityTracking.ThinkingAfterOwnTurn` | activity.go:116-122 | After an unsolicited result with a query pending it thinks until a tool use or a reset. |
| `ActivityTracking.ThinkingAfterLastResult` | activity.go:76-84 | The last tool result leads to thinking. |
| `ActivityTracking.CountsToolResults` | activity.go:85-99 | The results counted in a user message are its tool_result blocks. |
| `ActivityTracking.TransitionsReplay` | activity.go:126-135 | The emitted transitions replay to the current state, and none repeats its predecessor. |
| `ActivityTracking.TickerFollowsState` | session.go:1133-1150 | Whenever no transition is left to emit, the ticker runs iff results are awaited, however callers mark queries. |
| `Json.ValueRead` | workflow_live.go:132-135 | The validator reads every JSON value to its end and leaves its stack as it was: RFC 8259, sections 2 to 7, every number and string form, and white space of its own in each place that allows it. |
| `Json.EveryValueIsValid` | workflow_live.go:132-135 | The text of every JSON value, with any white space inside, before and after, is accepted. |
| `Json.OnlySpaceFollows` | workflow_live.go:100-103 | Text after a complete object leaves it valid iff it is white space. |
| `Json.TruncatedObjectInvalid` | workflow_live.go:100-103 | No proper prefix of a complete object is valid. |
| `Json.TruncatedTextInvalid` | workflow_live.go:100-103 | The same for the text of every object value, cut inside strings and escapes too. |
| `JsonGrammar.ValidIffText` | workflow_live.go:132-135 | A text is valid iff it is the text of some JSON value with white space around it: the validator accepts nothing else. |
| `Jsonl.ReadJSONLFrom` | workflow_live.go:106-153 | One read of a file from an offset, a negative one taken as 0: a missing file and an offset past the end, and only they, are errors that return the offset; else the new offset lies between the old one and the end. |
| `Jsonl.ReadLines` | workflow_live.go:129-151 | The loop computes the records and the offset that the recursion over lines defines. |
| `JsonlFiles.FileIsRead` | workflow_live.go:106-153 | For any file cut at the offset into newline-ended lines and a rest, a read returns the lines that hold JSON, trimmed, each once and in order, then the rest iff it is a JSON object; the offset is the end of the file, or the start of a rest that is neither blank nor an object. |
| `Jsonl.ReadIs` | workflow_live.go:129-151 | The same for any trim and validity function. |
| `Jsonl.EveryFileDivides` | workflow_live.go:129-139 | Every file is such lines and such a rest. |
| `Bytes.TrimIs` | workflow_live.go:132-145 | TrimSpace removes blanks of one, two or three bytes at both ends and nothing else, and that determines it. |
| `Jsonl.ResumeIs` | workflow_live.go:129-151 | Resuming the loop anywhere adds exactly the records still to come. |
| `Jsonl.ReadsWhatIsThere` | workflow_live.go:118-127 | A read of the file as it is now does not depend on what will be appended. |
| `Jsonl.RecordsSplit` | workflow_live.go:129-151 | Reading at one length and then, from the returned offset, at a later one yields the records of one read at the later. |
| `Jsonl.PollingIsExact` | workflow_live.go:96-105 | After any nondecreasing lengths, the polled records and those beyond the offset are all there are. |
| `Jsonl.PollingEqualsOneRead` | workflow_live.go:96-105 | Polling returns exactly the records of one read of the last observed contents: none lost, doubled or torn. |
| `Jsonl.RescanFindsNothing` | workflow_live.go:96-98 | Reading again from the returned offset finds nothing and stays there. |
| `Jsonl.OffsetsGrow` | workflow_live.go:96-98 | Offsets never go back or past what was observed. |
| `JsonlFiles.PollingExactIffSettled` | workflow_live.go:100-105 | Polling is exact for every schedule iff on each line only blanks of one byte follow a complete object. |
| `JsonlFiles.UnsettledDiffers` | workflow_live.go:135-141 | In any other file two reads return more records than one. |
| `JsonlFiles.ByteAfterObject` | workflow_live.go:132-135 | No file with any other byte after an object on its line may be polled. |
| `JsonlFiles.FilesNotToPoll` | workflow_live.go:132-135 | Two such files: a stray byte, and a no-break space that TrimSpace trims once it is whole. |
| `JsonlFiles.ObjectFilesPollExactly` | workflow_live.go:100-105 | Every file of one JSON object a line, the last perhaps half-written, may be polled. |
| `Login.LoginOutcome.Finish` | auth_submit.go:150-159 | The first verdict wins; a new one closes and replaces the channel. |
| `Login.LoginOutcome.Exit` | auth_submit.go:162-167 | The CLI's exit is a verdict if there was none. |
| `Login.LoginOutcome.Observe` | auth_submit.go:171-187 | How a line is classified, success before failure before rejection, and what it changes. |
| `Login.SuccessLine` | auth_submit.go:171-174 | A line reports success iff it contains "Login successful". |
| `Login.FailedLine` | auth_submit.go:175-178 | Else one that contains "Login failed" reports a final error with the text after its first occurrence, without the colons and dots that follow and outer blanks. |
| `Login.FailedLineCuts` | auth_submit.go:175-178 | Every such line can be cut so. |
| `Login.InvalidLine` | auth_submit.go:179-186 | Else one that contains "Invalid code" reports the text from its first occurrence on, without outer blanks. |
| `Login.InvalidLineCuts` | auth_submit.go:179-186 | Every such line can be cut so. |
| `Login.OtherLine` | auth_submit.go:171-187 | A line reports nothing iff it contains none of the three. |
| `Login.LoginOutcome.NotifyLocked` | auth_submit.go:144-147 | No channel is closed twice; all but the current one are closed. |
| `Login.LoginOutcome.Begin` | auth_submit.go:191-201 | The point a submission counts from, or the error of a finished login. |
| `Login.LoginOutcome.Check` | auth_submit.go:206-218 | One locked look of await: a result, or the current open channel. |
| `LoginMonitor.NoLostWakeUp` | auth_submit.go:204-225 | A parked submission for which there is a verdict can wake, and its next look returns that verdict. |
| `LoginMonitor.FirstVerdictStands` | auth_submit.go:150-159 | The login is finished iff a final verdict was reported, and keeps the first. |
| `LoginMonitor.RetryableOnlyForLaterRejection` | auth_submit.go:204-225 | A retryable error names a rejection reported after the submission began, of whichever code, and nothing final had been reported when it returned. |
| `LoginMonitor.OwnRejectionIff` | auth_submit.go:204-225 | With a CLI that answers codes in order, every retryable error a submission may yet return is about its own code iff all codes written before it began had been answered then. |
| `LoginMonitor.OwnIfNoneOutstanding` | auth_submit.go:189-201 | The one half, for every continuation. |
| `LoginMonitor.OthersIfOutstanding` | auth_submit.go:219-223 | The other: with a code outstanding, a continuation returns the rejection of another's. |
| `LoginMonitor.RejectionOfAnothersCode` | auth_submit.go:219-223 | A run from the start in which a submission that is given up leaves its code's rejection to the next. |
| `LoginMonitor.SuccessIsReported` | auth_submit.go:45-64 | A submission returns success only when a line that contains "Login successful", or an exit without an error, was the first final thing the CLI said. |
| `LoginMonitor.EveryReportIsSaid` | auth_submit.go:162-187 | Every verdict or rejection that was recorded is what some line, or the exit, said. |
| `LoginMonitor.ResultTellsWhy` | auth_submit.go:45-64 | Every result has its reason: the login was over before, the write failed, the context ended, the first verdict, or the text of the latest rejection. |
| `LoginMonitor.OneSubmissionAtATime` | auth_submit.go:53-63 | At most one submission is between its lock and its return. |
| `LoginMonitor.Reachable` | auth_submit.go:131-225 | The invariant behind these, in every state of every run. |
| `Backfill.TaskTypeBackfiller.ApplyTo` | task_backfill.go:49-85 | The memo and the event, updated in place, are as the specification says; nil and an empty task id change nothing. |
| `Backfill.NonInterference` | task_backfill.go:49-85 | What is handed on for a task, and remembered of it, depends on that task's own events alone. |
| `Backfill.MemoIsOpenTasks` | task_backfill.go:72-83 | The memo's keys are the tasks started since their last terminal notification, each with its latest start and latest tree; a terminal task_updated removes none. |
| `Backfill.CarriesIdentity` | task_backfill.go:58-65 | Every event of an open task, the terminal notification included, carries the latest start's identity. |
| `Backfill.LeavesAlone` | task_backfill.go:53-58 | An event of a task that is not open passes unchanged. |
| `Backfill.OwnTypeStands` | task_backfill.go:54-71 | An event that carries its own task type keeps its identity, and a workflow's tick among them names the agent of its own tree. |
| `Backfill.TouchesOnlyIdentity` | task_backfill.go:43-48 | No other field of an event is ever touched, and the agent only on a workflow's tick. |
| `Backfill.EndsWith` | task_backfill.go:75-83 | A task ends exactly with a notification of one of the five terminal statuses. |
| `Backfill.TickNamesAgent` | task_backfill.go:66-71 | A workflow tick names the agent its description resolves to in the latest tree, its own included. |
| `Backfill.WorkflowAgentRefs` | task_backfill.go:87-95 | The agents of a progress tree, in order. |
| `Backfill.RefsAreAgents` | task_backfill.go:87-95 | They are those of the tree's workflow_agent entries, in order, each with its own phase, label and id. |
| `Backfill.FindAgent` | task_backfill.go:112-136 | The matching loop, its early return included, computes the consensus of all matches. |
| `Backfill.ResolveWorkflowAgent` | task_backfill.go:108-140 | The event's agent fields are the resolution's, or untouched. |
| `Backfill.ResolutionIff` | task_backfill.go:97-107 | The fields are set iff the description is "phase: label", or the bare label, of some agent and of agents in one place only; the id iff they share one non-empty id. |
| `Backfill.NamedInFull` | task_backfill.go:108-140 | A description that is about one agent names it in full. |
| `Backfill.NamesMayCollide` | task_backfill.go:99-102 | Two phase and label pairs with one name, for any parts; such a tick names neither. |
| `Backfill.BareLabelMayCollide` | task_backfill.go:116-119 | The same for a label without a phase. |
| `Capture.StderrRing.Add` | internal.go:26-33 | The ring holds the last lines, up to its capacity. |
| `Capture.StderrRing.Lines` | internal.go:36-44 | The ring's lines, oldest first. |
| `Capture.LineCaptureReader.Read` | internal.go:55-69 | The cutting loop does what feeding the bytes one by one would. |
| `Capture.LineCaptureReader.FlushRest` | internal.go:72-77 | A partial last line becomes a line. |
| `Capture.ChunksDoNotMatter` | internal.go:55-69 | However the stream is cut into reads, the state is that of one read of it all. |
| `Capture.CaptureIsLastLines` | internal.go:46-77 | The ring holds the last N newline-ended lines and the buffer the bytes after the last newline; after the flush, those are a line too. |
| `Capture.EveryStreamDivides` | internal.go:55-77 | Every stream is newline-ended lines and a rest without one. |
| `Context.LookupModelUsage` | parse.go:752-763 | The exact entry, else some entry with a bracketed suffix, else none. |
| `Context.ContextTracker.Observe` | parse.go:880-932 | The tracker and the measurement after an inner event, for any choice the map iteration makes. |
| `Context.ContextTracker.Finish` | parse.go:861-871 | The windows learned, the snapshot handed over and the reset. |
| `Context.ContextTracker.LearnWindows` | parse.go:816-833 | Every positive window overwrites, in any order of iteration. |
| `Context.EmitsCurrentMeasurement` | parse.go:890-931 | Every emitted measurement has the prompt counts and model of the latest message_start, output zero on it, else the latest message_delta's, its event's session, and that model's window, which is positive: the latest disclosed for its name, else for the name with a suffix, else the outside source's. |
| `Context.QuietOnlyWhileUnknown` | parse.go:918-921 | A measurement is withheld only while no learned name fits its model and the outside source knows none. |
| `Context.WindowsSurvive` | parse.go:809-826 | After any events and resets, a model's window is the latest positive one disclosed, and unknown iff none was. |
| `Context.ResultHandsLastMeasurement` | parse.go:857-871 | A result hands over the counts of the last measurement, with the window that its own usage gives that model, by name or else by name with a suffix. |
| `Context.ResultWithoutMeasurement` | parse.go:857-860 | And nothing when there is none. |
| `Context.SessionWindows.Record` | context_usage.go:98-110 | The hard window if positive, else the policy window if positive, else nothing. |
| `Context.SessionWindows.Observed` | context_usage.go:116-134 | Zero iff no recorded name fits, with the suffix on either side. |
| `Control.PendingRequests.HandleControlResponse` | session.go:1609-1616 | The channel of that id gets the one value and leaves the map; no other changes; an unknown id changes nothing. |
| `Control.PendingRequests.FailOne` | session.go:1472-1480 | One call-back of the final Range: its channel gets the session's end if its slot is free, and its entry goes. |
| `Control.PendingRequests.FailPendingRequests` | session.go:1471-1481 | With no registration meanwhile, the map is emptied and every channel in it gets the session's end, once. |
| `ControlProtocol.IdsNeverCollide` | session.go:905-907 | No two requests have one id. |
| `ControlProtocol.SendsNeverBlock` | session.go:1471-1481 | The read loop's send never blocks, even for a waiter that timed out; the last Range never finds a slot taken; no channel is sent two values. |
| `ControlProtocol.OnlyOwnAnswers` | session.go:931-936 | A waiter returns the answer to its own request or the session's end. |
| `ControlProtocol.RepliesAreTrue` | session.go:1609-1616 | What a waiter returns was said: id, error flag and body are those of a response of the CLI, and the session's end has begun if it is told so. |
| `ControlProtocol.EveryEarlyRequestIsServed` | session.go:1469-1481 | After the read loop's end every request registered before that end began has its value waiting. |
| `ControlProtocol.RegisteredWhileReading` | session.go:904-908 | In every run, the caller of a request that was registered while the read loop was reading, if it still waits when the loop has ended, finds its own answer or the session's end in its channel. |
| `ControlProtocol.LateRequestIsNeverServed` | session.go:937-945 | A waiter that has not been served when the read loop has ended never is, in any continuation. |
| `ControlProtocol.ServedIffTaken` | session.go:1471-1481 | Once the read loop has ended, a waiter finds a value iff its request is no longer in the map. |
| `ControlProtocol.RequestDuringRange` | session.go:1471-1481 | A run in which a request is stored during the final Range, which does not visit it, and stays unserved. |
| `ControlProtocol.RequestCaughtByRange` | session.go:904-908 | A run in which one stored then is visited and failed. |
| `ControlProtocol.RequestCanBeLate` | session.go:905-908 | A run from the start with such a request. |
| `ControlProtocol.Reachable` | session.go:904-947 | The invariant behind these, in every state of every run. |

## Left out

- Starting the process, platform files, executors, deadlines and timers: a write succeeds or fails, a timeout may fire at any step, and time is a step number.
- Decoding JSON into structs and copying fields: the parts start from typed events, and the validator of `Json` is used only where validity matters.
- The nesting limit of Go's JSON scanner (10000 levels): the validator has none.
- Bytes above 0x7F inside JSON strings are accepted like any other char, as the scanner does, and not decoded.
- I/O errors of a read other than a missing file.
- A fatal error from a panic in the stderr goroutine, which is stamped on the pump: stderr lines are the only events that the pump stamps.
- Reading `Events()` in routed mode: the consumer may read the legacy channel, but nothing is promised of the order between it and the orphans.
- The order of orphans across the routing flush is not the order of arrival.
- SendMessage callers in `RightAnswer` and `EndToEnd`: one may end a query, as `RightAnswer.SentTurnCanEndQuery` and `RightAnswer.FoldedSendCanEndQuery` show; `Ledger` allows them.
- The reason of a shutdown in `Protocol` stands for the session's error or, if it has none, its end; `RouterModel.ShutdownTells` has any reason.
- The content of error values other than the text that is kept, such as the number of turns of a max-turns error.
- In `EndToEnd` callers use QueryCtx only and no fatal error arrives; the read loop may exit at any time. The events of lines other than results are any events, and the mark of a held result is set on the side of `Turns` alone.
- A prompt whose write failed is taken not to reach the CLI.
- `Wait`, and its `waited` flag, is not a step: a Wait that overlaps the next query may mark it as waited.
- Fatal errors and the read loop's exit in `Turns`: the automaton has results only; `SessionModel` and `Protocol` have them.
- The generation and time of a ticker's event: it may be newer than the tool call it reports.
- The stamp of the routing barrier, which nothing looks at: loading it and sending the barrier is one step.
- The transition that precedes a held result loads the generation anew; in `Protocol` it is one of the events of any sender.
- Peer cancels of control requests, permission callbacks and their replies: foreign calls whose window is racy by design.
- The cancel message sent after a control request's timeout, and the variants of sending that share the map.
- Control.PendingRequests.FailPendingRequests: promises the whole Range only for a map that nobody stores into meanwhile; `ControlProtocol` has every interleaving of its call-backs with registrations.
- A Range of the pending map visits an entry that is in the map at that moment; an entry stored during the Range may be visited or not.
- Validating a pasted code, scraping URLs and stripping terminal escapes: flat text handling. The early rejection of a malformed code is not a step of `LoginMonitor`, and a pasted callback address is submitted there like a code.
- LoginMonitor.OwnRejectionIff: takes a CLI that answers the codes written to it in order; with another, no rejection need be anyone's own.
- The model usage fields other than the context window.
- A context window that a result reports as zero or negative is handed over with that result's snapshot; only emitted measurements have a positive one.
- Install detection, updates, argument building, model names, error classification: tables and branches that a reading settles.
- Rings of capacity zero: the code makes rings of 10 and of 1000.
- Go's bounded integers: counters and generations do not wrap.
