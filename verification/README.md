# Cross Agent Chat, verified

Cross Agent Chat moves a message from one coding session to another without
ever replaying it, and never calls a send "not delivered" if it may have had an
effect. This project models the parts of the program that carry that promise
and proves them in Dafny: `dafny verify dfyconfig.toml` checks everything.

## How it is organised

| part | modules |
|---|---|
| ACP mediator: host, engine, delivery and writer threads | `MediatorModel`, `MediatorCustody`, `MediatorTurns`, `MediatorExclusion`, `MediatorOverlap`, `MediatorCloses`, `MediatorPeers`, `MediatorCancels`, `MediatorArrivals`, `AcpMediator`, `EngineQueue`, `EngineAdmission` |
| Sending: intent rows, the end-to-end protocol, the retry loop | `IntentStore`, `IntentHistory`, `Delivery`, `DeliverySafety`, `DeliveryProgress`, `SendLoop` |
| Courier queue: admission, helper handoff, competing consumers, byte budgets | `CourierQueue`, `CourierHandoff`, `CourierOrder`, `CourierNative`, `CourierConsumers`, `HookFrames`, `JsonText` |
| Devin subagents: who may be handed a body at a hook | `SubagentStore`, `SubagentHistory`, `SubagentRuns`, `SubagentReleases`, `SubagentLowering` |
| Installer transaction and crash recovery | `InstallPlan`, `Installer` |
| Courier lifetime lock and socket reclaim | `SocketReclaim` |
| Provider evidence: gate, tool graph, receipts, daemon | `PretoolGate`, `ToolGraph`, `ClaudeReceipt`, `DaemonIngress` |
| Wire formats: WebSocket, JSON object scanner, line framing, MCP session, tokens, envelopes | `WebSocket`, `WebSocketReader`, `ObjectScanner`, `LineFraming`, `McpSession`, `McpHistory`, `Base64Url`, `RecipientToken`, `Envelope` |

Concurrent parts are state machines with one step per atomic section of the
program (a lock-held section, a file operation, a frame sent or lost), and the
results are about every run. Where the program updates an object in place there
is a class whose methods refine the step functions. The environment appears as
step choices: providers, sockets, clocks, process death, lost replies, and which
writes fail.

Results that turned out to hold only under a condition are stated with it. The
condition is the guard of the step that breaks them, every run without such a
step keeps the result, and each comes with what the step leads to and a run from
the start that reaches it:

- turns of a session exclude one another exactly as long as the engine does not
  confirm a close of a session that is being claimed, with its input open and the
  claim still able to submit (`MediatorExclusion.Harms`). Any such answer can be
  followed to an overlap (`MediatorOverlap.HarmLeadsToOverlap`), and
  `MediatorOverlap.EarlyCloseHarms` is a run with one. It never happens if the
  engine answers only what it was given and no close of a session is outstanding
  when another one arrives or when the session becomes tracked
  (`MediatorCloses.FollowingRunsAreUnharmed`); closing an untracked session is fine;
- a body is released to a subagent only after one of four events
  (`SubagentRuns.ReleasedOnlyToTheRoot`). The session's evidence is cleared under a
  subagent's hook that it was holding back (`ClearsOpen`). Another session's update,
  whose list of live sessions was read before this one had a route, drops the
  evidence while a subagent is unfinished (`Prunes`). A launch leaves no trace, made
  before the session had a route or with both its record and the fallback mark
  failing (`Unseen`). Or a returned text lowers the entry of another unfinished
  child that may nest (`Lowers`). Each does release
  (`SubagentReleases.ClearingUnderAnOpenHookReleases`,
  `SubagentReleases.PruningReleases`, `SubagentReleases.UntracedLaunchReleases`,
  `SubagentLowering.LoweringLeadsToARelease`), and `ClearRunReleasesToAChild`,
  `PruneRunReleasesToAChild` and `QuoteRunReleasesToAChild` are runs from the start;
- every state of an install is one from which recovery gets back to all originals or
  all candidates, exactly if every write that changes its destination, up to the
  first that finds its destination changed, is what the journal expects there
  (`InstallPlan.Fit`, `Installer.Installer.InstallStaged`). Two managed paths that
  resolve to one file can break this, and so can one that resolves to the legacy
  file; `InstallPlan.SharedDestinationIsLost` is such an install, and
  `InstallPlan.SeparateDestinationsFit` says that separate destinations never do;
- a rollback puts a file back by removing it and writing it again. A crash in
  between is recoverable exactly if the installer's own part was to remove that file
  (`Installer.CrashInAGap`); otherwise no recovery ever gets out of it
  (`InstallPlan.LostForGood`). An install that succeeds has no such gap;
- a helper courier's rejection retracts the body exactly when nobody acknowledged
  the event during the notice. The program's own dispatch tools never acknowledge
  what they did not dispatch, so for them the rejection is complete
  (`CourierNative.NativeRejectionIsComplete`);
  `CourierHandoff.UndispatchedAckIsCalledRejected` needs some other client of the
  same user on the courier's socket;
- a reclaimer takes no living courier's socket, unless a courier that failed right
  after writing its record cleans up while another lives or a reclaimer has the
  path in view (`SocketReclaim.Strays`). Every such cleanup harms
  (`SocketReclaim.EveryStrayHarms`), and
  `SocketReclaim.LateCleanupTakesTheSuccessorsSocket` is a run with one;
- the gate's consumed marker stands without an allowed call exactly when the hook
  that created it failed to write it or was killed
  (`PretoolGate.AtMostOneCallRuns`).

## Model

| member | source | states |
|---|---|---|
| `MediatorCustody.EveryRequestInExactlyOnePlace` | src/cross_agent_chat/devin_acp.py:374-468 | in every interleaving each host request with an id is pending under one adapter id, waiting in one session queue, or answered: exactly one of them |
| `MediatorCustody.AnsweredAtMostOnceWithOwnId` | src/cross_agent_chat/devin_acp.py:479-559 | no request is answered twice, and every reply to the host carries the id of the request it answers |
| `MediatorCustody.PeerRepliesStayInside` | src/cross_agent_chat/devin_acp.py:479-514 | a reply to a peer prompt never reaches the host |
| `MediatorCustody.StaysWellFormed` | src/cross_agent_chat/devin_acp.py:317-327 | adapter ids are issued once and every frame, queue entry and reply names a request that really arrived, in every run |
| `MediatorTurns.NoPromptWaitsOnIdleSession` | src/cross_agent_chat/devin_acp.py:590-602 | at every lock release a session with waiting prompts is busy |
| `MediatorTurns.PromptsReachEngineInArrivalOrder` | src/cross_agent_chat/devin_acp.py:411-434 | the uncancelled host prompts of each session reach the engine queue in arrival order |
| `MediatorExclusion.PeerTurnExcludesHostTurns` | src/cross_agent_chat/devin_acp.py:615-711 | in every run in which no claimed record that can still submit is deleted: while a peer prompt is in flight or a claim is being prepared, no host prompt of that session record is in flight |
| `MediatorExclusion.CancelAndCloseFollowThePeerPrompt` | src/cross_agent_chat/devin_acp.py:451-465 | in every such run a cancel or close that arrives during a claim is enqueued only after the prompt that claim submits |
| `MediatorOverlap.HarmLeadsToOverlap` | src/cross_agent_chat/devin_acp.py:516-559 | after every other run, deleting a claimed record that can still submit can be followed to a host and a peer prompt in flight on one record |
| `MediatorOverlap.EarlyCloseHarms` | src/cross_agent_chat/devin_acp.py:435-447 | a run with one close outstanding, sent before its session was tracked, that is confirmed during a claim |
| `MediatorCloses.FollowingRunsAreUnharmed` | src/cross_agent_chat/devin_acp.py:435-449 | no such deletion happens if the engine answers only what it was given and no close of a session is outstanding when another arrives or the session becomes tracked |
| `MediatorPeers.PeerPromptsWereTaken` | src/cross_agent_chat/devin_acp.py:622-703 | in every run the engine is prompted with an event in a session no more often than that event was taken for that session and shown to the host |
| `MediatorPeers.PeerPromptsWereEchoed` | src/cross_agent_chat/devin_acp.py:633-663 | every peer prompt the engine was given was echoed to the host before, for the same session and event |
| `MediatorPeers.TakenEventIsSubmitted` | src/cross_agent_chat/devin_acp.py:664-703 | what a claim took is the first frame its finish gives the engine, in its own session, exactly if the session is still there and the engine admits it; otherwise no peer prompt is given |
| `MediatorPeers.OnlyFinishesPrompt` | src/cross_agent_chat/devin_acp.py:675-686 | no other step prompts the engine for a peer |
| `MediatorPeers.TakenEventIsShown` | src/cross_agent_chat/devin_acp.py:622-663 | what the inbox gave is in the hand and echoed at once |
| `MediatorCancels.CancelReachesTheTurn` | src/cross_agent_chat/devin_acp.py:451-464 | in every unharmed run a cancel outside a claim is the engine's next frame exactly if the session is untracked or a turn of it is in flight, and the engine admits it |
| `MediatorCancels.CancelAnswersTheWaiting` | src/cross_agent_chat/devin_acp.py:457-468 | after a cancel no prompt of the session waits, and each that did is owed its own cancelled answer, oldest first |
| `MediatorCancels.HeldCancelFollowsThePrompt` | src/cross_agent_chat/devin_acp.py:459-462 | a cancel that arrives during a claim is held over any steps in between and directly follows the prompt the claim submits |
| `MediatorArrivals.RequestsReachTheEngineAsTheyArrived` | src/cross_agent_chat/devin_acp.py:374-449 | every host request the engine was given is one that arrived, with its own id, verb and session |
| `MediatorArrivals.RepliesCarryTheArrivedId` | src/cross_agent_chat/devin_acp.py:505-514 | every reply to the host carries the id its request arrived with |
| `MediatorArrivals.PromptFate` | src/cross_agent_chat/devin_acp.py:408-434 | a prompt is refused exactly if its session is closing, four already wait, or the engine does not admit it; otherwise it waits last or is the engine's next frame |
| `MediatorArrivals.CallFate` | src/cross_agent_chat/devin_acp.py:435-449 | any other request is the engine's next frame or refused, and a close of a claimed session is held |
| `MediatorArrivals.AnswerFate` | src/cross_agent_chat/devin_acp.py:479-514 | the engine's answer to a pending host request is forwarded first, under that request's id, and is then no longer pending |
| `MediatorArrivals.AnswerSettlesTheSession` | src/cross_agent_chat/devin_acp.py:516-559 | a created or loaded session is tracked, a failed close leaves its session open again, a confirmed one deletes it and cancels what waited |
| `MediatorArrivals.PromotionFate` | src/cross_agent_chat/devin_acp.py:590-602 | an idle session's oldest waiting prompt is the engine's next frame; if the engine admits nothing every waiting prompt is answered as cancelled, oldest first |
| `AcpMediator.Mediator.constructor` | src/cross_agent_chat/devin_acp.py:128-167 | a new mediator is the initial state |
| `AcpMediator.Mediator.ToEngine` | src/cross_agent_chat/devin_acp.py:259-275 | admits a frame in order or refuses and closes the input for good |
| `AcpMediator.Mediator.Allocate` | src/cross_agent_chat/devin_acp.py:317-320 | issues the next adapter id for a pending request |
| `AcpMediator.Mediator.Track` | src/cross_agent_chat/devin_acp.py:322-327 | creates a session record only if there is none |
| `AcpMediator.Mediator.Submit` | src/cross_agent_chat/devin_acp.py:428-434 | gives a prompt to the engine under a fresh id, or takes it back when it is not admitted |
| `AcpMediator.Mediator.PromoteDue` | src/cross_agent_chat/devin_acp.py:590-602 | the promotion loop submits the next waiting prompt, cancelling those the engine no longer admits |
| `AcpMediator.Mediator.OnHostPrompt` | src/cross_agent_chat/devin_acp.py:374-434 | queue, refuse or submit a host prompt, as the model step does |
| `AcpMediator.Mediator.OnHostCall` | src/cross_agent_chat/devin_acp.py:435-449 | remaps any other host request and defers a close during a claim |
| `AcpMediator.Mediator.MarkClosing` | src/cross_agent_chat/devin_acp.py:438-444 | marks a tracked session closing and holds the frame behind a claim |
| `AcpMediator.Mediator.Offer` | src/cross_agent_chat/devin_acp.py:445-449 | hands a remapped request to the engine, or forgets it and refuses |
| `AcpMediator.Mediator.OnHostCancel` | src/cross_agent_chat/devin_acp.py:451-468 | answers every queued prompt as cancelled and orders the cancel after a claim |
| `AcpMediator.Mediator.OnEngineReply` | src/cross_agent_chat/devin_acp.py:479-559 | answers the one pending request, settles its turn and promotes the next |
| `AcpMediator.Mediator.ClaimIdle` | src/cross_agent_chat/devin_acp.py:618-621 | collects exactly the idle sessions, once each, and marks them claimed |
| `AcpMediator.Mediator.TakeNext` | src/cross_agent_chat/devin_acp.py:622-663 | takes the next claimed session's message, or none |
| `AcpMediator.Mediator.ReleaseClaim` | src/cross_agent_chat/devin_acp.py:664-703 | ends a claim, submitting its peer prompt if it took one |
| `AcpMediator.Mediator.FinishClaim` | src/cross_agent_chat/devin_acp.py:664-711 | releases the claim, flushes what was deferred and promotes waiting prompts |
| `AcpMediator.Mediator.FlushDeferred` | src/cross_agent_chat/devin_acp.py:703-706 | enqueues the deferred frames in order |
| `EngineQueue.WrittenIsPrefixAndRestIsBounded` | src/cross_agent_chat/devin_acp.py:259-315 | bytes written are always a prefix of the admitted frames in admission order, and what is unwritten never exceeds the bound |
| `EngineQueue.DrainedMeansAllWritten` | src/cross_agent_chat/devin_acp.py:299-315 | a writer that ended drained has written every admitted byte |
| `EngineQueue.ClosedForGood` | src/cross_agent_chat/devin_acp.py:227-234 | once the input is closed nothing more is ever admitted |
| `EngineQueue.AdmittedExactly` | src/cross_agent_chat/devin_acp.py:259-275 | a frame is admitted, last, exactly while the input is open and the unwritten bytes leave room; otherwise the input is closed, and only an overflow aborts |
| `EngineQueue.EverythingCanBeWritten` | src/cross_agent_chat/devin_acp.py:277-315 | in every run, until the writer ends, everything admitted can still be written byte for byte, and with the input stopped the writer then ends drained |
| `EngineQueue.EndedForGood` | src/cross_agent_chat/devin_acp.py:299-315 | a writer that ended writes nothing more |
| `EngineAdmission.ByteAdmissionRefinesRoom` | src/cross_agent_chat/devin_acp.py:259-275 | for every run of the byte queue, what it accepts and refuses is what the mediator's admission allows with some room at each offer |
| `EngineQueue.Channel.ToEngine` | src/cross_agent_chat/devin_acp.py:259-275 | admission by byte count, exactly as the queue model |
| `EngineQueue.Channel.Close` | src/cross_agent_chat/devin_acp.py:213-234 | closes the input and leaves an end mark |
| `EngineQueue.Channel.WriteFrame` | src/cross_agent_chat/devin_acp.py:277-297 | what reaches the pipe is exactly the part of the frame its answers take, and the write fails exactly when they break it off |
| `EngineQueue.Channel.TakeAnswer` | src/cross_agent_chat/devin_acp.py:288-297 | one answer: a partial write, a stall that is polled or aborted, or a break |
| `EngineQueue.WillingPipeTakesAll` | src/cross_agent_chat/devin_acp.py:277-297 | a pipe that neither breaks nor stalls while aborting takes the whole frame as soon as it has taken as much in all |
| `EngineQueue.FailingPipeBreaks` | src/cross_agent_chat/devin_acp.py:277-297 | the first break before that ends the frame exactly there |
| `IntentStore.RowsAreKept` | src/cross_agent_chat/core.py:719-917 | over any run event ids stay unique, rows are never dropped or reordered, identities never change, and each pair has at most one undecided row |
| `IntentStore.AuthorizedAtMostOnce` | src/cross_agent_chat/core.py:795-849 | remote authorization is granted at most once per event |
| `IntentStore.ResolutionNeverReplacesAResult` | src/cross_agent_chat/core.py:869-903 | an owner's resolution leaves every decided row exactly as it was |
| `IntentHistory.BeginsExactly` | src/cross_agent_chat/core.py:740-793 | over every run a send begins exactly if its event was never begun and every earlier send of the same sender to the same target was marked with an outcome or resolved; it then adds one pending row with its identity, and otherwise nothing |
| `IntentHistory.GrantedExactly` | src/cross_agent_chat/core.py:795-849 | over every run a request is authorized exactly if its event was begun with everything it presents, is not settled, and was not authorized before |
| `IntentHistory.MarkedOutcomeStands` | src/cross_agent_chat/core.py:851-903 | a marked outcome stands until the event is marked again; only an unknown one gives way to its owner's resolution |
| `IntentHistory.RowsTell` | src/cross_agent_chat/core.py:869-903 | a row is in flight exactly until its event is marked, or resolved ten minutes after it was last written |
| `IntentStore.Store.BeginIdentity` | src/cross_agent_chat/core.py:719-793 | adds one pending row unless the id exists or the pair has an undecided row |
| `IntentStore.Store.ClaimRemoteAuthorization` | src/cross_agent_chat/core.py:795-849 | grants exactly a matching pending row and records the grant |
| `IntentStore.Store.MarkOutcome` | src/cross_agent_chat/core.py:851-867 | writes the outcome to the one row of the event |
| `IntentStore.Store.ResolveByOwner` | src/cross_agent_chat/core.py:869-903 | resolves exactly an unknown or abandoned row and answers with its prior status |
| `DeliverySafety.AtMostOneEffectAndOnlyWhatTheRowNames` | src/cross_agent_chat/runtime.py:4428-4652 | over every run with lost replies, timeouts and retries each event has at most one effect, on the target and digest its own row names |
| `DeliverySafety.AcceptedMeansExactlyOneEffect` | src/cross_agent_chat/runtime.py:3955-4047 | a row marked TRANSPORT_ACCEPTED means exactly one effect |
| `DeliverySafety.RejectedMeansNoEffectEver` | src/cross_agent_chat/runtime.py:4337-4425 | a row marked PRE_EFFECT_REJECTED means no effect happened and none ever will |
| `DeliverySafety.EndingIsFinal` | src/cross_agent_chat/runtime.py:3955-4047 | a sender that ended stays ended the same way |
| `DeliverySafety.OneAdmissionPerCourier` | src/cross_agent_chat/runtime.py:2569-2613 | effects on one recipient are serialized by its accept lock |
| `DeliveryProgress.LocalSendCanBeAccepted` | src/cross_agent_chat/runtime.py:3955-4047 | from every world a local send that may begin, to a free courier, can be carried through to one effect on its own target and digest and an accepted row |
| `DeliveryProgress.BusyLocalSendCanStillBeAccepted` | src/cross_agent_chat/runtime.py:3994-4016 | a busy answer read with time left leads to another attempt that can succeed |
| `DeliveryProgress.RemoteSendCanBeAccepted` | src/cross_agent_chat/runtime.py:4337-4652 | from every world a remote send that may begin can be authorized by its own row, have its one effect and be accepted |
| `DeliveryProgress.LocalAnswerIsRecorded` | src/cross_agent_chat/runtime.py:4017-4047 | a local courier's answer, read with no time left, is what the sender's row then says |
| `DeliveryProgress.RemoteAnswerIsForwarded` | src/cross_agent_chat/runtime.py:4428-4652 | a remote courier's answer reaches the waiting sender's row, a busy one as a rejection when no time is left |
| `DeliveryProgress.RemoteRefusalIsRecorded` | src/cross_agent_chat/runtime.py:4428-4652 | a receiver that refuses before or after asking tells the sender, whose row says rejected |
| `DeliveryProgress.RemoteDenialIsRecorded` | src/cross_agent_chat/runtime.py:4428-4652 | a denied authorization ends as a rejected row |
| `DeliveryProgress.CapacityIsTriedAgain` | src/cross_agent_chat/runtime.py:4381-4403 | a broker at capacity is tried again while there is time, and otherwise recorded as a rejection |
| `DeliveryProgress.BusyRemoteCourierIsCalledAgain` | src/cross_agent_chat/runtime.py:4428-4652 | a busy remote courier can be called again, and succeed |
| `DeliveryProgress.AskPresentsWhatWasResolved` | src/cross_agent_chat/runtime.py:4428-4652 | the receiver presents what it resolved itself, and the sender's own table decides |
| `SendLoop.ClassifyIsExact` | src/cross_agent_chat/runtime.py:3995-4039 | a reply is read as accepted, rejected, busy or at capacity exactly when it is that frame, field for field |
| `SendLoop.RejectionIsExact` | src/cross_agent_chat/runtime.py:2100-2130 | reading a rejection undoes writing one, and nothing else is read as one |
| `SendLoop.DiagnosticIsExact` | src/cross_agent_chat/runtime.py:2122-2156 | a diagnostic is passed on exactly if it is a known one of a Claude helper for this event |
| `SendLoop.SendBegun` | src/cross_agent_chat/runtime.py:3970-4039 | the loop reads each reply frame, stops at the first that is not a proven no-dispatch answer, and records its outcome |
| `SendLoop.SendReading` | src/cross_agent_chat/runtime.py:4361-4425 | the same loop for any way to read a reply frame |
| `SendLoop.AttemptsMeaning` | src/cross_agent_chat/runtime.py:4337-4425 | every attempt before the deciding one asked for a retry; undecided means all did |
| `SendLoop.OutcomesAreProved` | src/cross_agent_chat/runtime.py:4361-4425 | a send is rejected exactly when every attempt proved that nothing was dispatched, accepted exactly on an exact acceptance frame |
| `SendLoop.RetriesExactly` | src/cross_agent_chat/runtime.py:4361-4425 | the loop stops exactly at the first reply that does not ask for another attempt |
| `SendLoop.NoEffectVerdicts` | src/cross_agent_chat/runtime.py:3995-4039 | an exchange counts as rejected exactly when nothing was written or the frame is an exact rejection or capacity refusal, and is retried exactly when there is time and a local courier is busy or a remote broker at capacity |
| `CourierQueue.CodexCourier.constructor` | src/cross_agent_chat/codex.py:373-413 | a new courier holds nothing |
| `CourierQueue.CodexCourier.Accept` | src/cross_agent_chat/codex.py:489-507 | queue last, recognise, refuse a conflict, or refuse for room |
| `CourierQueue.CodexCourier.BeginAccept` | src/cross_agent_chat/codex.py:415-441 | stages a helper event and marks it unresolved before the notice |
| `CourierQueue.CodexCourier.EndAccept` | src/cross_agent_chat/codex.py:458-489 | after the notice: retract a body that never left, or report unknown |
| `CourierQueue.CodexCourier.NativeDispatch` | src/cross_agent_chat/codex.py:588-599 | hands out the queued body and remembers it while unresolved |
| `CourierQueue.CodexCourier.Peek` | src/cross_agent_chat/codex.py:509-537 | returns the longest fitting prefix, never empty for a nonempty queue, never an error |
| `CourierQueue.CodexCourier.Acknowledge` | src/cross_agent_chat/codex.py:539-547 | removes and retires all named events, or changes nothing |
| `CourierQueue.CodexCourier.Retire` | src/cross_agent_chat/codex.py:549-554 | keeps the newest 256 handed-on events |
| `CourierQueue.CodexCourier.Inspect` | src/cross_agent_chat/codex.py:561-586 | the event's state, the queue length and the oldest age |
| `CourierQueue.AcknowledgeIsAllOrNothing` | src/cross_agent_chat/codex.py:539-547 | a refused acknowledgement changes nothing; an accepted one removes exactly the named events, and the others stand in the order they had |
| `CourierQueue.AcknowledgePrefix` | src/cross_agent_chat/codex.py:509-547 | acknowledging a peeked prefix leaves exactly the rest |
| `CourierHandoff.RejectionMeansNeverHandedOut` | src/cross_agent_chat/codex.py:415-489 | an accept is rejected exactly when its notice was refused and no dispatch took the body since admission; the body is then gone; every failure after a handout is unknown |
| `CourierHandoff.WholeRunIsHonest` | src/cross_agent_chat/codex.py:588-599 | over a whole run no rejected admission was handed out, and every body handed out is the one admitted last |
| `CourierHandoff.RejectionRetractsTheBody` | src/cross_agent_chat/codex.py:466-477 | a rejection retracts a still queued body exactly when nobody acknowledged the event meanwhile |
| `CourierHandoff.UndispatchedAckIsCalledRejected` | src/cross_agent_chat/codex.py:539-547 | an acknowledgement without a dispatch during the notice, which none of the program's consumers sends, is later called rejected |
| `CourierHandoff.RejectionUnderDispatchDiscipline` | src/cross_agent_chat/codex.py:458-477 | with acknowledgements only after dispatches, a rejection finds the body still queued and untaken |
| `CourierHandoff.HelperInspectIsTruthful` | src/cross_agent_chat/codex.py:561-586 | on a helper courier "handed off" names only events a dispatch or acknowledgement took since admission, and always the one in flight that was dispatched |
| `CourierOrder.QueueIsInAdmissionOrder` | src/cross_agent_chat/codex.py:489-513 | in every run the queue holds exactly the admissions nobody acknowledged and no rejection retracted since, each with its body and time, in the order of admission |
| `CourierOrder.AcceptedExactly` | src/cross_agent_chat/codex.py:489-507 | a message is refused exactly if it is out of bounds, already waits, conflicts with one that waits, or finds the queue full |
| `CourierOrder.DispatchedExactly` | src/cross_agent_chat/codex.py:588-599 | a dispatch hands out the body of the waiting admission, and nothing exactly if there is none |
| `CourierOrder.AcknowledgedExactly` | src/cross_agent_chat/codex.py:539-547 | an acknowledgement is accepted exactly if it names different events that all wait |
| `CourierNative.NativeRejectionIsComplete` | src/cross_agent_chat/runtime.py:5407-5470 | with any number of dispatch tools that dispatch, claim and acknowledge, a rejected accept finds its body queued, handed to nobody, and removes it |
| `CourierNative.NativeAcksFollowDispatches` | src/cross_agent_chat/runtime.py:5433-5462 | every acknowledgement follows a dispatch of the same admission, and "handed off" is said only of dispatched events |
| `CourierNative.OneClaimerPerEvent` | src/cross_agent_chat/native_helper.py:563-580 | at most one tool claims an event |
| `CourierNative.WaitingEventCanBeTaken` | src/cross_agent_chat/runtime.py:5407-5470 | from every state in which an unclaimed event waits a tool can take that very body, claim it and acknowledge it |
| `CourierNative.LateToolGetsNothing` | src/cross_agent_chat/native_helper.py:563-580 | a tool whose event is claimed already goes away with nothing |
| `CourierConsumers.EveryEventInOnePlace` | src/cross_agent_chat/codex.py:509-547 | each accepted event is queued, in one consumer's acknowledged hand, emitted, or lost with its consumer: exactly one |
| `CourierConsumers.EmittedAtMostOnce` | src/cross_agent_chat/runtime.py:1826-1936 | each event is emitted at most once, with its accepted body |
| `CourierConsumers.InspectIsTruthful` | src/cross_agent_chat/codex.py:561-586 | "handed off" is said only of events a consumer took, "pending" exactly of queued ones |
| `CourierConsumers.TheSecondConsumerGetsNothing` | src/cross_agent_chat/devin_acp.py:721-765 | of two consumers that peeked a common event the second acknowledgement is refused whole |
| `CourierConsumers.HandedOverInOrderOfArrival` | src/cross_agent_chat/codex.py:489-537 | in every run the queue, and every batch a consumer holds, is in the order of arrival |
| `CourierConsumers.PeekTakesTheOldest` | src/cross_agent_chat/codex.py:509-513 | what a peek takes arrived before everything it leaves |
| `JsonText.EscapedLengthAppend` | src/cross_agent_chat/core.py:152-165 | escaped size is additive over concatenation |
| `JsonText.EscapedLengthBounds` | src/cross_agent_chat/core.py:161-164 | escaping costs at most six bytes per UTF-8 byte |
| `JsonText.UnescapeEscape` | src/cross_agent_chat/devin.py:944-956 | reading a printed string literal back gives the exact text |
| `JsonText.ReadLiteralBack` | src/cross_agent_chat/devin.py:951-955 | a printed literal at the front of any text reads back to the exact text and what follows it |
| `HookFrames.Peek` | src/cross_agent_chat/codex.py:509-537 | the accumulating loop returns the longest prefix whose two frames fit 64 KiB; an error exactly when the head does not fit |
| `HookFrames.PeekBy` | src/cross_agent_chat/codex.py:513-536 | the same loop for any bound that longer batches only make worse |
| `HookFrames.FitsShrinks` | src/cross_agent_chat/codex.py:613-621 | adding a message never makes either frame smaller |
| `HookFrames.OneFits` | src/cross_agent_chat/core.py:152-165 | one admitted message always fits both frames |
| `HookFrames.QueuesDrain` | src/cross_agent_chat/codex.py:509-547 | repeated peek and acknowledge delivers any admitted queue, in order, in at most as many rounds as messages |
| `HookFrames.SampledBudget` | src/cross_agent_chat/devin.py:925-941 | a budget measured around a one-character sample leaves exactly the message bound |
| `HookFrames.AdmittedMessagesFitEveryBudget` | src/cross_agent_chat/devin.py:944-1034 | the Stop, prompt and PostToolUse builders succeed exactly for valid ids and bounded messages, and never fail for their size |
| `HookFrames.CallbacksCarryTheExactBody` | src/cross_agent_chat/devin.py:909-1034 | what the agent reads out of the text that any of the three builders returns is the notice, the event line where there is one, and the exact body |
| `HookFrames.PeekFrameReadsBack` | src/cross_agent_chat/codex.py:613-621 | the peek frame reads back to its generation and to the messages with their ids and bodies, in order |
| `HookFrames.ContinuationCarriesTheBodies` | src/cross_agent_chat/codex.py:602-621 | what the agent reads out of a continuation is the notice and every body of the batch under its event line, in order |
| `SubagentStore.ReplacedIsLocal` | src/cross_agent_chat/devin.py:533-566 | one session's lifecycle update is exact for it and invisible to every session in its list of live ones |
| `SubagentStore.RestrictionMatchesCustody` | src/cross_agent_chat/devin.py:568-604 | the restriction shown to a peer is the one the guard enforces |
| `SubagentHistory.EvidenceIsTheHistory` | src/cross_agent_chat/devin.py:606-662 | the evidence names exactly the awaited launches and the unfinished children, each with whether its profile is built in, and is uncertain exactly if some record left doubt |
| `SubagentHistory.CustodyIsExact` | src/cross_agent_chat/devin.py:568-581 | a session holds exactly if it is marked, in doubt, or has an awaited launch or unfinished child of a profile that is not built in, and is free exactly if nothing is awaited or unfinished |
| `SubagentStore.DevinSubagentStore.RecordLaunch` | src/cross_agent_chat/devin.py:606-620 | records a launch with its nesting, or uncertainty without an id |
| `SubagentStore.DevinSubagentStore.RecordLaunched` | src/cross_agent_chat/devin.py:622-642 | moves a returned launch to a child, drops a finished one, or becomes uncertain |
| `SubagentStore.DevinSubagentStore.RecordRead` | src/cross_agent_chat/devin.py:644-662 | retires a child only on its own finish report |
| `SubagentStore.DevinSubagentStore.MarkUncertain` | src/cross_agent_chat/devin.py:664-673 | leaves the fallback mark |
| `SubagentStore.DevinSubagentStore.Clear` | src/cross_agent_chat/devin.py:675-682 | forgets one session |
| `SubagentStore.DevinSubagentStore.CustodyFor` | src/cross_agent_chat/devin.py:568-581 | free, root tools only, or hold |
| `SubagentRuns.ReleasedOnlyToTheRoot` | src/cross_agent_chat/runtime.py:1838-1936 | over all runs of launches, returns, reads and hooks by any nesting of subagents, and of other sessions' updates of the same file, a body is released at Stop or PostToolUse to anyone but the root only after an early clear, a stale update, an untraced launch or a lowering return |
| `SubagentRuns.BuiltInChildrenAreNeverReleasedTo` | src/cross_agent_chat/devin.py:440-442 | without an early clear, a stale update or an untraced launch, a child of a built-in profile is never released to |
| `SubagentRuns.CustodyTellsWhoRuns` | src/cross_agent_chat/devin.py:485-500 | without these, no restriction means no unfinished subagent; with nothing lowered, root tools only means none that may nest |
| `SubagentRuns.OnlyRootPassesTheGuard` | src/cross_agent_chat/runtime.py:1925-1929 | whoever passes the guard of a Stop or tool hook is the root, or with a lowered entry a nesting child at a root-only tool |
| `SubagentReleases.ClearingUnderAnOpenHookReleases` | src/cross_agent_chat/runtime.py:1670-1707 | from any state without a route, clearing under a recorded hook releases to whoever fired it, exactly unless it is an active Stop |
| `SubagentReleases.ClearingBeforeTheRecordReleases` | src/cross_agent_chat/runtime.py:1896-1929 | the same before the hook recorded its report |
| `SubagentReleases.UnheldChildIsReleasedTo` | src/cross_agent_chat/runtime.py:1925-1936 | from any state a running child that may nest is released to at a root-only tool exactly when custody does not hold |
| `SubagentReleases.LoweringEndsTheHold` | src/cross_agent_chat/devin.py:632-642 | a lowering return ends the hold exactly when no other entry may nest |
| `SubagentReleases.PruningReleases` | src/cross_agent_chat/runtime.py:1939-1956 | from any state, an update of another session with stale keys over unmarked evidence releases to any running subagent in no hook, and to every recorded hook that is not an active Stop |
| `SubagentReleases.FreeChildIsReleasedTo` | src/cross_agent_chat/runtime.py:1925-1936 | from any state with a route a running subagent is released to at an ordinary tool exactly when there is no custody |
| `SubagentReleases.RootIsReleasedToExactly` | src/cross_agent_chat/runtime.py:1838-1936 | the root is released to at a Stop exactly without custody and at a tool exactly without custody or at a root-only tool that custody leaves it |
| `SubagentReleases.UntracedLaunchReleases` | src/cross_agent_chat/runtime.py:1947-1963 | a launch whose record and fallback both fail leaves custody as it was, and its child is released to exactly if that was none |
| `SubagentLowering.LoweringLeadsToARelease` | src/cross_agent_chat/devin.py:632-642 | after every run that was not blind, a lowering return can be followed, with no further event, to a release to the lowered child, however many other subagents are unfinished, if every awaited launch is still to return |
| `SubagentReleases.ClearRunReleasesToAChild` | src/cross_agent_chat/runtime.py:1670-1707 | a run from the start in which the session ends under a subagent's hook |
| `SubagentReleases.QuoteRunReleasesToAChild` | src/cross_agent_chat/devin.py:632-642 | a run from the start in which a report quotes a running custom child's start line and that child is handed the body |
| `SubagentReleases.PruneRunReleasesToAChild` | src/cross_agent_chat/devin.py:533-566 | a run from the start in which another session's keys were read before this one registered |
| `InstallPlan.RecoveryIsAllOrNothing` | src/cross_agent_chat/install.py:2536-2606 | from every recoverable state recovery gives all originals, or all candidates if committed |
| `InstallPlan.RecoveryNeverOverwritesForeignFiles` | src/cross_agent_chat/install.py:2139-2173 | recovery changes a file only if it is the installer's own candidate, back to the original |
| `InstallPlan.RecoveryIsIdempotent` | src/cross_agent_chat/install.py:2536-2606 | a second recovery changes nothing |
| `InstallPlan.RestoreMeaning` | src/cross_agent_chat/install.py:2139-2173 | restoring succeeds exactly when it meets no foreign file, and then everything is the original |
| `InstallPlan.RestoreChangesOnlyOwnFiles` | src/cross_agent_chat/install.py:2148-2160 | a file is left as it was, or was the installer's own and became the original |
| `InstallPlan.RecoveryNeedsEveryFile` | src/cross_agent_chat/install.py:2139-2173 | once the configuration may be half written, recovery succeeds exactly if every file is its original or its candidate |
| `InstallPlan.LostForGood` | src/cross_agent_chat/install.py:2536-2606 | with a file that is neither, every recovery refuses however often it is tried, and the result is neither all old nor all new |
| `InstallPlan.MixedExactlyIfFit` | src/cross_agent_chat/install.py:2031-2043 | after any number of writes every file is its original or its candidate exactly if no write changed its destination to something other than the last payload for it |
| `InstallPlan.CompletesExactly` | src/cross_agent_chat/install.py:2069-2095 | setup gets through all writes exactly if at each destination no payload before the last differs from the original |
| `InstallPlan.CompletePlansFit` | src/cross_agent_chat/install.py:2096-2098 | of those, every crash is recoverable exactly if no managed path that resolves to the legacy file changes it |
| `InstallPlan.SeparateDestinationsFit` | src/cross_agent_chat/install.py:1982-1995 | managed paths with destinations of their own always complete and never leave an unrecoverable state |
| `InstallPlan.SharedDestinationIsLost` | src/cross_agent_chat/install.py:1996-2043 | two settings files that link to one file: the first write goes through, the second is refused, and no recovery gets it out |
| `Installer.CrashAnywhereThenRecovery` | src/cross_agent_chat/install.py:2536-2606 | a crash in any state of a safe trace, then any number of recoveries: all originals, or all candidates if committed |
| `Installer.CrashInAGap` | src/cross_agent_chat/install.py:506-523 | a crash between removing a file and writing it again: recoveries get back exactly if the installer's part was to remove it, otherwise the file stays missing for good |
| `Installer.EveryRunFitsExactly` | src/cross_agent_chat/install.py:2031-2043 | all runs of a plan are recoverable outside gaps exactly if its writes up to the first clash fit |
| `Installer.Installer.constructor` | src/cross_agent_chat/install.py:2679-2690 | the disk as found |
| `Installer.Installer.Setup` | src/cross_agent_chat/install.py:2054-2117 | succeeds exactly if every write goes through and verifies; otherwise puts everything back exactly if no misfit was written; never over a file someone else changed |
| `Installer.Installer.WriteAll` | src/cross_agent_chat/install.py:2061-2101 | every state on the way is each file's original or candidate exactly if no misfit was written; with all entries written everything is new |
| `Installer.Installer.WriteDestinations` | src/cross_agent_chat/install.py:2069-2095 | the entries are written in order, each only over its original, up to the first clash or raised write; a raised write may have landed |
| `Installer.Installer.RemoveLegacy` | src/cross_agent_chat/install.py:2096-2098 | removes the legacy file, unless it is a dangling link, and then everything is new |
| `Installer.Installer.PutBack` | src/cross_agent_chat/install.py:506-523 | removes the candidate and writes the original, with the state in between as a gap |
| `Installer.Installer.Undo` | src/cross_agent_chat/install.py:2102-2116 | puts back what was written, refusing exactly at a foreign file |
| `Installer.Installer.Restore` | src/cross_agent_chat/install.py:2139-2173 | the restore loop, every step outside a gap recoverable |
| `Installer.Installer.RollbackTransition` | src/cross_agent_chat/install.py:2478-2534 | restores configuration and pointers as far as the transition went |
| `Installer.Installer.RestorePointers` | src/cross_agent_chat/install.py:2509-2517 | puts both pointers back, with every state recoverable |
| `Installer.Installer.Recover` | src/cross_agent_chat/install.py:2536-2606 | one recovery, and a crash inside it but not in a gap is recoverable too |
| `Installer.Installer.SwitchRuntime` | src/cross_agent_chat/install.py:2750-2759 | switches the pointers under a journal that admits it |
| `Installer.Installer.WriteConfiguration` | src/cross_agent_chat/install.py:2760-2767 | writes the configuration under a journal that admits it |
| `Installer.Installer.StartService` | src/cross_agent_chat/install.py:2768-2780 | starts the service and reaches the committing phase |
| `Installer.Installer.Advance` | src/cross_agent_chat/install.py:2743-2781 | everything up to the commit, with the flags that say what a rollback undoes |
| `Installer.Installer.GiveUp` | src/cross_agent_chat/install.py:2782-2804 | a rollback ends with all originals and no journal, or keeps the journal; a lost file stays lost |
| `Installer.Installer.InstallStaged` | src/cross_agent_chat/install.py:2679-2812 | every state of the whole install outside a gap, whichever step raises and whether or not it had landed, is recoverable exactly if no misfit is written; it ends stuck exactly on a misfit or a service that does not stop; gaps are recoverable exactly as stated, and a success has none |
| `SocketReclaim.ReclaimNeverTakesALivingSocket` | src/cross_agent_chat/runtime.py:1146-1191 | in every run without a stray cleanup the socket a reclaimer unlinks belongs to no living courier |
| `SocketReclaim.NoSocketMeansNoCourier` | src/cross_agent_chat/runtime.py:1171-1177 | a missing socket means no living courier |
| `SocketReclaim.AbandonedSocketIsReclaimed` | src/cross_agent_chat/runtime.py:1146-1191 | from every world in which nobody holds the lock that records the socket at the path, an undisturbed reclaimer takes it down and says so |
| `SocketReclaim.DoubtLeavesEverything` | src/cross_agent_chat/runtime.py:1146-1191 | a reclaimer gives up exactly on a held lock, another lock file at the path, or a socket its lock does not record, and then changes nothing |
| `SocketReclaim.NothingToTakeDown` | src/cross_agent_chat/runtime.py:1171-1177 | a reclaimer proves that nothing is left exactly if there is no socket at the path |
| `SocketReclaim.NoLockFileProvesNothing` | src/cross_agent_chat/runtime.py:1146-1165 | a reclaimer that finds no lock file proves nothing and changes nothing |
| `SocketReclaim.CourierComesToServe` | src/cross_agent_chat/runtime.py:2299-2315 | in every reachable world with a free path and lock a new courier comes to serve, with its socket at the path and recorded in the lock it holds |
| `SocketReclaim.StoppingTakesDownItsOwn` | src/cross_agent_chat/runtime.py:2782-2794 | a serving courier that stops takes down the path exactly if its own socket is there, and frees its lock |
| `SocketReclaim.DyingDropsOnlyTheLock` | src/cross_agent_chat/runtime.py:1002-1040 | a process that dies drops its lock and leaves the disk as it was |
| `SocketReclaim.CouriersRemoveOnlyTheirOwn` | src/cross_agent_chat/runtime.py:2782-2794 | a courier that leaves or failed to record unlinks only the socket it bound; after a late failure it takes a living courier's exactly when one lives |
| `SocketReclaim.LateCleanupTakesTheSuccessorsSocket` | src/cross_agent_chat/runtime.py:2312-2322 | a run in which a courier that failed right after its record was written unlinks its successor's socket |
| `SocketReclaim.WatchedStrayHarms` | src/cross_agent_chat/runtime.py:2312-2322 | from every state with a reclaimer that has seen or matched the recorded socket, a late cleanup can be followed to the reclaimer about to unlink a living courier's socket |
| `SocketReclaim.EveryStrayHarms` | src/cross_agent_chat/runtime.py:2312-2322 | every stray cleanup leaves a living courier without its socket or leads to a reclaimer about to take one |
| `SocketReclaim.OneLivingSocket` | src/cross_agent_chat/runtime.py:2299-2322 | at most one courier of a generation has a bound socket |
| `SocketReclaim.StepKeeps` | src/cross_agent_chat/runtime.py:1002-1191 | every courier, reclaimer, kill and lock-file step keeps the lock, socket and record facts |
| `WebSocket.WriteFrame` | src/cross_agent_chat/codex_daemon.py:135-146 | the three length classes of the masked writer are one frame format |
| `WebSocket.WrittenFramesDecode` | src/cross_agent_chat/codex_daemon.py:135-146 | an RFC 6455 decoder recovers opcode, data and the following bytes from every written frame and mask |
| `WebSocket.XorIsExclusive` | src/cross_agent_chat/codex_daemon.py:135-149 | masking sets a bit exactly where the byte and the mask differ |
| `WebSocketReader.MessagesAreAssembled` | src/cross_agent_chat/codex_daemon.py:151-180 | however its lengths are spelled, one message's fragments come back concatenated, whatever control frames are mixed in, with pings answered in order and the rest kept |
| `WebSocketReader.ReadingFindsOneMessage` | src/cross_agent_chat/codex_daemon.py:151-180 | whenever reading succeeds the stream began with frames of one message, and the answer is its text, pings and rest |
| `WebSocketReader.ReadingIsExact` | src/cross_agent_chat/codex_daemon.py:151-180 | reading succeeds exactly on the streams that begin with one message |
| `WebSocketReader.ReadFrameWasSpelled` | src/cross_agent_chat/codex_daemon.py:154-166 | every frame read was at the front of the stream, unmasked, with reserved bits clear |
| `WebSocketReader.ShortestSpelling` | src/cross_agent_chat/codex_daemon.py:158-163 | the shortest spelling of a length is one of the accepted ones |
| `WebSocketReader.Client.Receive` | src/cross_agent_chat/codex_daemon.py:120-127 | moves one chunk into the buffer without changing the stream |
| `WebSocketReader.Client.Exact` | src/cross_agent_chat/codex_daemon.py:129-133 | exactly the next bytes of the stream, however it is cut |
| `WebSocketReader.Client.ReadSize` | src/cross_agent_chat/codex_daemon.py:158-163 | the announced size with its extension |
| `WebSocketReader.Client.NextHeader` | src/cross_agent_chat/codex_daemon.py:154-163 | the header at the front of the stream |
| `WebSocketReader.Client.NextFrame` | src/cross_agent_chat/codex_daemon.py:154-166 | the frame at the front of the stream |
| `WebSocketReader.Client.ReadMessage` | src/cross_agent_chat/codex_daemon.py:151-180 | whenever it returns a message, the stream began with exactly that message, however it was chunked; the rest is kept, the size bounded and the pings answered; on an invalid or ended stream there was none |
| `DaemonIngress.RefusedMeansTheDaemonSaidSo` | src/cross_agent_chat/codex_daemon.py:182-210 | an effect request is refused exactly on the daemon's own invalid-request answer to it |
| `DaemonIngress.ReturnedMeansTheDaemonAnswered` | src/cross_agent_chat/codex_daemon.py:182-210 | a call returns exactly when the first arrival that decides it is the daemon's own answer with a record |
| `DaemonIngress.FirstDecider` | src/cross_agent_chat/codex_daemon.py:190-199 | notifications and other ids never decide a call |
| `DaemonIngress.Client.Call` | src/cross_agent_chat/codex_daemon.py:182-210 | the loop's reply, and whether an effect may have been attempted |
| `DaemonIngress.Accept` | src/cross_agent_chat/codex_daemon.py:243-303 | rejected exactly when the effect was never begun or refused outright; accepted only on an exact echo |
| `PretoolGate.MergingChangesNothing` | src/cross_agent_chat/claude_runtime.py:419-466 | even merged into the proposal, the arguments are the sender's, key by key, and all that survives of the proposal is the one allowed recipient kind |
| `PretoolGate.ResolvesExactly` | src/cross_agent_chat/claude_runtime.py:419-466 | a call is let through exactly if the expectation is usable and the call is the expected one, and then with exactly these six arguments, each the sender's own value |
| `PretoolGate.AtMostOneCallRuns` | src/cross_agent_chat/claude_runtime.py:508-578 | however often the hook fires at most one call runs, with the sender's recipient, message and summary key by key: the first proper one whose hook created and wrote the marker; both markers stand exactly as the firings left them |
| `PretoolGate.Gate.Run` | src/cross_agent_chat/claude_runtime.py:508-578 | one firing of the gate and its markers, also when the marker's write fails or the hook is killed |
| `ToolGraph.ClosedMeaning` | src/cross_agent_chat/claude_runtime.py:805-819 | the analyzer's running checks mean that no id is used twice and every result answers an earlier unanswered use |
| `ToolGraph.StreamToolRecords` | src/cross_agent_chat/claude_runtime.py:805-912 | accepts exactly the ended, well-shaped streams with a closed tool graph, and returns their uses and results |
| `ToolGraph.Analyzer.Take` | src/cross_agent_chat/claude_runtime.py:871-911 | one content block, accepted exactly when it is allowed and keeps the graph closed |
| `ToolGraph.Analyzer.TakeUse` | src/cross_agent_chat/claude_runtime.py:877-887 | a use is accepted exactly with a new id of SendMessage |
| `ToolGraph.Analyzer.TakeResult` | src/cross_agent_chat/claude_runtime.py:888-909 | a result is accepted exactly as the first answer to an earlier use |
| `ToolGraph.Analyzer.TakeBlocks` | src/cross_agent_chat/claude_runtime.py:871-911 | all blocks of a record |
| `ToolGraph.Analyzer.TakeRecord` | src/cross_agent_chat/claude_runtime.py:841-870 | one record of a known kind and shape |
| `ToolGraph.Analyzer.TakeAll` | src/cross_agent_chat/claude_runtime.py:837-912 | all records of a stream |
| `ClaudeReceipt.ResultsAnswerDistinctEarlierUses` | src/cross_agent_chat/claude_runtime.py:805-912 | results map injectively to earlier uses |
| `ClaudeReceipt.ReceiptIsExact` | src/cross_agent_chat/claude_runtime.py:648-693 | delivered exactly when the stream's tool traffic is one use and its one exact receipt; refused exactly with an exact refusal |
| `ClaudeReceipt.PayloadsAreExact` | src/cross_agent_chat/claude_runtime.py:635-693 | a refusal is exactly a false success with a text, shown or not, and a receipt exactly a true success with a text and a message id |
| `ClaudeReceipt.RefusalShowsNoEffect` | src/cross_agent_chat/claude_runtime.py:635-645 | a decided refusal carries no success and no message id |
| `ClaudeReceipt.UnconsumedOutcome` | src/cross_agent_chat/claude_runtime.py:915-954 | refused exactly when every result is a refusal (denied) or nothing was called |
| `ClaudeReceipt.UnconsumedShowsNoEffect` | src/cross_agent_chat/claude_runtime.py:915-954 | such a refusal means no result in the stream shows an effect |
| `ClaudeReceipt.SendOutcome` | src/cross_agent_chat/claude_runtime.py:1079-1104 | delivered exactly with a consumed gate and one exact receipt; refused exactly with one exact refusal or, the gate untouched, with nothing that could be an effect; otherwise unknown |
| `ClaudeReceipt.RefusedHidesNoEffect` | src/cross_agent_chat/claude_runtime.py:1079-1104 | no result in the stream of a send called refused shows an effect |
| `ObjectScanner.HookJsonRecord` | src/cross_agent_chat/runtime.py:902-945 | the character loop is the scanner of the specification |
| `ObjectScanner.ScannerStopsAtTheClosingBrace` | src/cross_agent_chat/runtime.py:902-945 | for every JSON object, leading white space and whatever follows, within the bound, the scanner returns exactly the object's text |
| `ObjectScanner.PrintIsNeutral` | src/cross_agent_chat/runtime.py:928-944 | every JSON value, at any nesting and with any strings, leaves the scanner where it was |
| `ObjectScanner.EscapedTextIsALiteral` | src/cross_agent_chat/devin.py:951-955 | what the program prints is such a string literal |
| `LineFraming.LinesAreTheInput` | src/cross_agent_chat/mcp_server.py:45-58 | the lines are all of the input, in order, cut exactly after each newline |
| `LineFraming.Stream.ReadLine` | src/cross_agent_chat/mcp_server.py:58-63 | at most the given number of bytes of the current line |
| `LineFraming.Stream.DiscardLineRemainder` | src/cross_agent_chat/mcp_server.py:33-42 | skips exactly to the next line |
| `LineFraming.Stream.NextFrame` | src/cross_agent_chat/mcp_server.py:58-72 | the next line, or one drop in its place |
| `LineFraming.Stream.ReadFrames` | src/cross_agent_chat/mcp_server.py:45-72 | the frames are exactly the input's lines with one drop for each over-limit line |
| `McpSession.DispatchOncePerIdAfterTheHandshake` | src/cross_agent_chat/mcp_server.py:113-194 | over any messages the dispatcher runs at most once per id and only after initialize and then initialized |
| `McpSession.BatchIsAnsweredInOrder` | src/cross_agent_chat/mcp_server.py:127-143 | a batch is answered element by element under its own ids, notifications not at all |
| `McpHistory.SessionIsTheHistory` | src/cross_agent_chat/mcp_server.py:113-194 | the session remembers exactly the ids used and is in exactly the phase that the elements before it led to |
| `McpHistory.DispatchedExactly` | src/cross_agent_chat/mcp_server.py:145-194 | a request reaches the dispatcher, under its own id and name, exactly if its id is new, it is well formed, and a handshake outside any batch was opened and then completed |
| `McpHistory.AnsweredExactly` | src/cross_agent_chat/mcp_server.py:145-194 | a request succeeds exactly as an opening initialize, a ping, or a dispatch that returned, always under its own id |
| `McpHistory.FailsExactly` | src/cross_agent_chat/mcp_server.py:145-194 | which error each other request is answered with |
| `McpHistory.RunIsItsItems` | src/cross_agent_chat/mcp_server.py:127-143 | messages and batches are handled as their elements one after another |
| `McpSession.Server.HandleElement` | src/cross_agent_chat/mcp_server.py:145-194 | one element, as the session model |
| `McpSession.Server.Receive` | src/cross_agent_chat/mcp_server.py:127-143 | one message or batch, as the session model; a batch is emitted as one array |
| `Base64Url.DecodeEncode` | src/cross_agent_chat/recipient.py:66-68 | unpadded base64url comes back for every length |
| `RecipientToken.MintedTokensParseBack` | src/cross_agent_chat/recipient.py:71-154 | with any JSON library every minted token is within the limit and parses back to the same scope, handle, generation and node or origin |
| `RecipientToken.ParsedTokensAreChecked` | src/cross_agent_chat/recipient.py:97-154 | with any JSON library a value is accepted exactly if it is a prefixed, bounded spelling of a payload with the members minting writes for a token that passes its checks |
| `Envelope.WrappedReplyTokenComesBack` | src/cross_agent_chat/runtime.py:3611-3639 | the reply token of any wrapped message is the one put in, whatever the body contains |
| `Envelope.WrappedEndsWithTheMessage` | src/cross_agent_chat/runtime.py:3611-3639 | a wrapped message is the head's seven lines with name, handle, principal and event in place, the guidance fixed by the title, and then the exact message |
| `Envelope.WrappedExactly` | src/cross_agent_chat/runtime.py:3611-3639 | a message is wrapped exactly for a usable name, event, provider, sender and title, if the whole text is within the bound |
| `Envelope.FoundExactlyForExactHeads` | src/cross_agent_chat/runtime.py:3570-3595 | a token is found exactly when the message opens with the deterministic head around it |
| `Envelope.HeadYieldsItsToken` | src/cross_agent_chat/runtime.py:3549-3595 | a message that opens with a valid head yields that head's token |

## Left out

- The mediator's desktop status frames, session publication and renewal loop: they carry no request and change no turn.
- The mediator's non-request host and engine frames are relayed as one opaque frame kind.
- The Tailnet broker server is not part of this model; it is a step that refuses before reading or serves.
- Sockets, subprocesses, signals, permissions, fsync and process identity appear only as step choices that succeed or fail.
- SHA-256 and random identifiers are values the environment picks; what must be fresh is required to be.
- Peer discovery, titles, delivery-mode labels, names and aliases beyond the envelope's own check: wide case tables with easy claims.
- Provider configuration contents, hook merging and TOML editing: the installer sees files as opaque snapshots.
- The installer's pruning of old releases and its broker health waits; a crash inside the removal of a finished journal.
- External callback endpoints and HTTPS posting.
- The text-stream variant of line framing and undecodable input; the byte stream is modelled.
- The JSON library: messages are datatypes, except for escape lengths, the object scanner and token payloads.
- The daemon's handshake and the fields of its thread and turn replies; usable or not is a choice of the environment.
- Numeric and calendar time: clocks are numbers the environment supplies.
- ValidName: rejects control characters and line separators; the other Unicode categories the program also rejects are not tabulated.
- Resolve: takes the address and summary patterns as given facts about the expectation.
- MintedTokensParseBack: the digest of the state root is any 64 hexadecimal digits, because hashing is not modelled.
- ReleasedOnlyToTheRoot: one registration of one session; registering a session again while its subagents outlive it depends on the provider. The engine's documented limits are taken as given: root-only tools for built-in profiles, ids not reused, finish reports only of finished subagents.
- LoweringLeadsToARelease: a launch whose return went unrecorded, or whose return is about to be recorded without its id, keeps the session on hold, so such states are not followed.
- Installer: a file operation that raises inside a rollback is not a step of its own; the states it can leave are those of a crash there. The directory of the legacy file is taken to be no link, so that the file has one name.
- AtMostOneCallRuns: what a provider does with a hook that was killed and answered nothing is the provider's.
