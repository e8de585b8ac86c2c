# Models and proofs for the hub

This project models the parts of the hub whose comments promise the most: memory accounting on the
wire, protocols that hold locks for a moment at a time, and a few parsers and printers. It proves
that those promises hold for every input and every interleaving, or says exactly when they do not.

`dafny verify dfyconfig.toml` checks everything. Code that the hub runs step by step on mutable state
is a class or a method with loops, proved against a function of the old state; the theorems are
lemmas about that function, or about all runs of a state machine whose steps are lock sections.

## What is modelled

- **Bounded transport.** `CanonicalJson`, `JsonWriter` and `MessageIdentity` are the printer behind
  message identities, a reader that undoes it, and the identities. `FlowModel` is the inbound budget
  with exact arithmetic, `FlowControl` the class with saturating counters, `FlowHistory` its runs and
  the argument that releasing the smallest match never undercounts, `MessageHistory` the same for
  whole messages. `LineReader` reads one frame from stdio; `Sse` decodes an event stream; `SseStream`
  is the loop around it; `Reservations` interleaves any number of them. `PostQueue` has the outbound lanes that share one budget.
- **Session capture and bind.** `CaptureQuota` has the counters, quotas and all interleavings,
  `SessionCapture` the classes, `BindProtocol` the interleavings of binding one session, and
  `SessionBinding` the drain loop itself.
- **Registry and cancel.** `Registry` has the mutators, `HandleCache` the lock protocol between
  `agent_handle` and `mutate_registry`, `RegistryDisk` the agreement of file and memory,
  `CancelProtocol` the two-phase cancel, `Operations` the maps it works on.
- **Stand-alone.** `RpcDemux`, `WindowsArgv`, `SessionPages`, `Terminal` with `Utf8`.
- `Bytes` (with `Outcomes`) and `MapSums` are shared vocabulary.

## What turned out false, and when it holds

- The comment on `append_quoted` says that it follows the rules of the Rust library. Its loop has
  already pushed the backslashes that precede a quotation mark when it pushes twice as many and one
  more, so a mark behind a backslash does not come back. `WindowsArgv.CommandLineRoundTrips` has the
  exact condition, `WindowsArgv.BackslashMarkIsLost` an input.
- A post can overtake one that waits: `PostQueue.OrderIsLostExactlyByOvertaking` and
  `PostQueue.APostCanOvertake`.
- The pending caps can be passed when a bind rolls back (`CaptureQuota.RollbackCanExceedTheCaps`); they
  hold exactly while every rollback finds room (`CaptureQuota.CapsHoldExactlyWhileRollbacksFindRoom`) and
  are never passed by more than what binds have in hand (`CaptureQuota.CapsPlusHands`).
- A bind that outlives an unbind can work beside a second bind, and then updates are stored out of order:
  `BindProtocol.OverlappingBindsStoreOutOfOrder`. `BindProtocol.OneBinderExactlyWhileNoOverlap` has the
  exact condition for one bind at a time.
- A cached handle can be stale while no mutation runs: the request that runs a mutation can be aborted
  while it waits for the handles, after its commit (`HandleCache.ADroppedMutationLeavesAStaleHandle`).
  `HandleCache.DroppedMutationLeavesStaleHandles` says which handles it leaves stale, and
  `HandleCache.CachedHandlesAreCurrent` that all others are current.
- A matching fingerprint need not mean that memory agrees with the file. A commit that could not be
  verified trusts the save (`RegistryDisk.UnverifiedSaveIsTrusted`), an edit can come between the
  verification and the fingerprint (`RegistryDisk.LateEditCanDisagree`), and a fingerprint that cannot be
  read is remembered as a missing file (`RegistryDisk.UnreadableFingerprintCanDisagree`).
  `RegistryDisk.TrustedExactlyWhileFaithful` has the exact condition over runs.
- A cancel that is answered between the run row and the run lease is overwritten in the runtime
  cache: `CancelProtocol.EarlyClaimIsOverwritten`.

## Assumptions

- The hash is a parameter. The identity theorems assume that it does not collide on the two texts
  compared. The registry's fingerprint is a parameter that tells different texts apart.
- JSON objects keep their members in insertion order, as the JSON library does in the hub's build. A
  float is represented by the text the library prints for it, so minus zero and zero differ as they
  do in print. JSON parsing of whole messages is a parameter.
- A store write either succeeds or changes nothing. A save replaces the registry file at once or not
  at all; edits by others may come between any two accesses to the file, and runs start with a fingerprint
  of the registry in memory.
- Tokens and ids are never used twice while they can be confused: a request id would come back only
  after 2^64 requests.
- `BindProtocol` has unbind but not revoke, and `SessionBinding` has neither; both discard pending
  updates, and `CaptureQuota` has them. No new turn begins during a bind in `SessionBinding`, which would
  clear its budget. Arrivals are counted in the order in which they enter the queue; updates
  that a session-creation capture held enter it when the capture is published.

## Model

| member | source | states |
|---|---|---|
| `CanonicalJson.PrintIsCanonical` | `crates/hub/src/bounded_transport/flow.rs:202-232` | two well-formed JSON values print to the same bytes if and only if they are equal up to the order of object members |
| `CanonicalJson.RoundTrip` | `crates/hub/src/bounded_transport/flow.rs:202-232` | a reader for canonical text takes the printed text apart completely and gives the value back with its members sorted |
| `CanonicalJson.PrintedValueReads` | `crates/hub/src/bounded_transport/flow.rs:202-232` | the same with any text after it that does not continue the last token, which makes the printer unambiguous inside a larger text |
| `CanonicalJson.StringRoundTrip` | `crates/hub/src/bounded_transport/flow.rs:222-223` | every escaped string reads back as itself, up to its closing quotation mark |
| `CanonicalJson.SortByKeySorts` | `crates/hub/src/bounded_transport/flow.rs:216-217` | the members are put into strictly increasing key order and are still the same members |
| `CanonicalJson.LexLessMeans` | `crates/hub/src/bounded_transport/flow.rs:216-217` | the order of keys: a proper prefix comes first, else the first byte that differs decides |
| `CanonicalJson.EscapeByteMeans` | `crates/hub/src/bounded_transport/flow.rs:222-223` | every byte of a string is printed as itself, except the quotation mark, the backslash and the control characters, each with its own escape (section 7 of RFC 8259) |
| `CanonicalJson.IntegerText` | `crates/hub/src/bounded_transport/flow.rs:229-230` | an integer is printed with a minus sign exactly when it is negative, and without leading zeros |
| `CanonicalJson.PrintHasNoNul` | `crates/hub/src/bounded_transport/flow.rs:189-193` | a printed value contains no NUL, so the NULs that separate the hashed parts are unambiguous |
| `JsonWriter.WriteCanonicalJson` | `crates/hub/src/bounded_transport/flow.rs:202-232` | the recursive writer appends exactly the canonical text to its output vector and keeps what was there |
| `JsonWriter.WriteItems` | `crates/hub/src/bounded_transport/flow.rs:204-213` | the loop over an array appends the items with a comma before every item but the first |
| `JsonWriter.WriteMembers` | `crates/hub/src/bounded_transport/flow.rs:214-228` | the loop over an object appends its members in key order whatever their insertion order |
| `MessageIdentity.NotificationIdentityIsSemantic` | `crates/hub/src/bounded_transport/flow.rs:185-200` | unless the hash collides on the two texts, two notification identities coincide exactly when method and parameters agree up to member order |
| `MessageIdentity.ResponseIdentityIsSemantic` | `crates/hub/src/bounded_transport/flow.rs:234-258` | unless the hash collides on the two texts, two response identities coincide exactly when both are results or both errors with the same payload |
| `MessageIdentity.KindsNeverCollide` | `crates/hub/src/bounded_transport/flow.rs:199-257` | a notification identity is never a response identity, whatever the hash |
| `MessageIdentity.IdentityTexts` | `crates/hub/src/bounded_transport/flow.rs:185-258` | the literal texts of the identities and of what is hashed |
| `FlowModel.SmallestMatch` | `crates/hub/src/bounded_transport/flow.rs:105-112` | finds a frame with the identity exactly when there is one, and none with that identity comes before it by size and then token |
| `FlowModel.TrackAnswers` | `crates/hub/src/bounded_transport/flow.rs:45-94` | which answer tracking gives, the first that applies, and that a token is used up as soon as the budget allows the frame |
| `FlowModel.EmptyFlowKeepsInv` | `crates/hub/src/bounded_transport/flow.rs:28-42` | a new budget satisfies the invariant |
| `FlowModel.TrackKeepsInv` | `crates/hub/src/bounded_transport/flow.rs:45-94` | tracking keeps the counters exact, the limits respected and the tokens distinct, also when it refuses a request after taking a token |
| `FlowModel.AckNotificationKeepsInv` | `crates/hub/src/bounded_transport/flow.rs:96-119` | acknowledging a notification keeps the invariant, and neither saturating subtraction saturates |
| `FlowModel.AckResponseKeepsInv` | `crates/hub/src/bounded_transport/flow.rs:121-142` | acknowledging a response keeps the invariant, and neither saturating subtraction saturates |
| `FlowModel.CompleteKeepsInv` | `crates/hub/src/bounded_transport/flow.rs:144-158` | completing a request keeps the invariant, and neither saturating subtraction saturates |
| `FlowModel.PartialKeepsInv` | `crates/hub/src/bounded_transport/flow.rs:160-174` | reserving and releasing partial bytes keep the invariant |
| `FlowModel.TransferMovesCharge` | `crates/hub/src/bounded_transport/flow.rs:600-612` | turning reserved bytes into a charge moves exactly them; on refusal they are given back, and frames, tokens or request slots are used up, never bytes |
| `FlowModel.TrackedNotificationIsFound` | `crates/hub/src/bounded_transport/flow.rs:261-276` | after a notification is tracked, the acknowledgement with its method and parameters finds a match |
| `FlowModel.TrackedResponseIsFound` | `crates/hub/src/bounded_transport/flow.rs:261-276` | after a response is tracked, the acknowledgement with its reply finds a match |
| `FlowControl.FlowBudget.constructor` | `crates/hub/src/bounded_transport/flow.rs:28-42` | a new budget is empty, valid and has the two fixed limits |
| `FlowControl.FlowBudget.Track` | `crates/hub/src/bounded_transport/flow.rs:45-94` | the saturating, in-place operation has the outcome and the new state of the exact specification, keeps the invariant, and leaves a frame that its own acknowledgement finds |
| `FlowControl.FlowBudget.Admit` | `crates/hub/src/bounded_transport/flow.rs:60-93` | past the budget check: the token is taken first, then the container and the counters change, or none of them |
| `FlowControl.FlowBudget.Enter` | `crates/hub/src/bounded_transport/flow.rs:71-90` | the frame goes to the container of its kind unless it is a request too many or a duplicate id |
| `FlowControl.FlowBudget.AcknowledgeNotification` | `crates/hub/src/bounded_transport/flow.rs:96-119` | removes exactly the smallest match of the semantic identity, or fails and changes nothing |
| `FlowControl.FlowBudget.AcknowledgeResponse` | `crates/hub/src/bounded_transport/flow.rs:121-142` | removes exactly the smallest match of the semantic identity, or fails and changes nothing |
| `FlowControl.FlowBudget.CompleteRequest` | `crates/hub/src/bounded_transport/flow.rs:144-153` | removes exactly the request with the id, or fails and changes nothing |
| `FlowControl.FlowBudget.CompleteOutboundResponse` | `crates/hub/src/bounded_transport/flow.rs:524-562` | only responses complete requests; an error with a null id that answers nothing is accepted and changes nothing; every other unmatched response fails |
| `FlowControl.FlowBudget.ReservePartial` | `crates/hub/src/bounded_transport/flow.rs:160-170` | succeeds exactly when charged, partial and new bytes fit together, and only then adds the bytes |
| `FlowControl.FlowBudget.ReleasePartial` | `crates/hub/src/bounded_transport/flow.rs:172-174` | gives partial bytes back and keeps the invariant |
| `FlowControl.FlowBudget.TrackFromPartial` | `crates/hub/src/bounded_transport/flow.rs:600-622` | one lock section: the released reservation and the tracking of the message together; its own acknowledgement then finds a match |
| `FlowHistory.StepKeepsInv` | `crates/hub/src/bounded_transport/flow.rs:44-175` | every operation keeps the invariant and the limits it is measured by |
| `FlowHistory.RunKeepsInv` | `crates/hub/src/bounded_transport/flow.rs:44-175` | in every state of every sequence of operations the counters are exact, the limits hold and tokens are distinct |
| `FlowHistory.ReservedFrameIsNeverRejectedForBytes` | `crates/hub/src/bounded_transport/flow.rs:600-612` | a fully reserved frame is admitted if and only if a frame, a token and, for a request, a slot and the id are free |
| `FlowHistory.GenuineAckIsAccepted` | `crates/hub/src/bounded_transport/flow.rs:102-112` | while the ledger dominates the truth, a frame that is really outstanding finds a match |
| `FlowHistory.AckKeepsDomination` | `crates/hub/src/bounded_transport/flow.rs:102-119` | whichever frame of an identity was consumed, releasing the smallest one keeps the ledger above the truth, size by size |
| `FlowHistory.DominationBoundsBytes` | `crates/hub/src/bounded_transport/flow.rs:102-104` | domination implies that the charged bytes are at least the true bytes |
| `FlowHistory.SmallestMatchNeverUndercounts` | `crates/hub/src/bounded_transport/flow.rs:96-142` | over every history of arrivals and genuine acknowledgements: charged bytes never below the true outstanding bytes, every identity counted exactly, no genuine acknowledgement refused |
| `MessageHistory.NextIsIdentified` | `crates/hub/src/bounded_transport/flow.rs:44-276` | a step on messages, acknowledged by method and parameters or by reply, is the step on the identities they are filed under |
| `MessageHistory.MessagesNeverUndercount` | `crates/hub/src/bounded_transport/flow.rs:44-276` | over every history of messages the charged bytes are never below those of the messages really outstanding, and the acknowledgement of a handled message is accepted in whatever order its members come |
| `MessageHistory.AcceptedExactlyWhenOutstanding` | `crates/hub/src/bounded_transport/flow.rs:96-119` | at every moment, unless the hash confuses them, the acknowledgement of a notification is accepted if and only if one with that method and those parameters, up to member order, is outstanding |
| `MessageHistory.ReplyAcceptedExactlyWhenOutstanding` | `crates/hub/src/bounded_transport/flow.rs:121-142` | the same for a response and its reply |
| `LineReader.StdioPartialReservation.Add` | `crates/hub/src/bounded_transport/flow.rs:775-779` | grows reservation and budget alike when the bytes fit, and changes nothing otherwise |
| `LineReader.StdioPartialReservation.Transfer` | `crates/hub/src/bounded_transport/flow.rs:781-785` | hands the whole reservation to the message, or gives it back because frames, tokens or request slots are used up, and holds nothing afterwards |
| `LineReader.StdioPartialReservation.Drop` | `crates/hub/src/bounded_transport/flow.rs:788-792` | gives back exactly what is reserved |
| `LineReader.TakeStaysInFrame` | `crates/hub/src/bounded_transport/flow.rs:831-851` | no fill ever takes more than belongs to the frame, wherever the buffers end |
| `LineReader.WrittenLineIsRead` | `crates/hub/src/bounded_transport/flow.rs:809-854` | whatever line is written, with LF or CR LF behind it, is the line that is read, and the frame ends where it ends |
| `LineReader.NoErrorExactlyForReadableLines` | `crates/hub/src/bounded_transport/flow.rs:809-858` | a reliable reader has nothing to report exactly when a line lies within 32 MiB and the budget and is valid UTF-8 |
| `LineReader.TakeFill` | `crates/hub/src/bounded_transport/flow.rs:821-850` | one turn of the loop: what is reserved is what was taken, nothing is lost or reordered, and a refusal is justified by the whole frame |
| `LineReader.ReadFrame` | `crates/hub/src/bounded_transport/flow.rs:820-851` | the loop yields the text before the first LF, whatever the fills, or an error that the frame deserves |
| `LineReader.ReadBoundedLine` | `crates/hub/src/bounded_transport/flow.rs:811-858` | whatever the fills of a reader that does not fail: a line exactly when its first LF is within the frame limit and the budget and it is UTF-8; then that text without one CR, the rest of the stream, and exactly the consumed bytes reserved; nothing reserved after an error or the end |
| `LineReader.Admit` | `crates/hub/src/bounded_transport/flow.rs:805-808` | an admitted line charges exactly its reserved bytes; a refused one leaves nothing reserved and is never refused for bytes; its own acknowledgement then finds a match |
| `Sse.DecodeAppend` | `crates/hub/src/bounded_transport/wire.rs:47-64` | decoding two pieces one after the other is decoding them together |
| `Sse.DecodesTheFormat` | `crates/hub/src/bounded_transport/wire.rs:47-92` | decoding a stream succeeds if and only if every line and the data of every block are within the limit, and yields the values of each finished block joined by LF |
| `Sse.SpacedDataLine` | `crates/hub/src/bounded_transport/wire.rs:76-79` | a line behind `data: ` has exactly the rest as its value |
| `Sse.DataLine` | `crates/hub/src/bounded_transport/wire.rs:76-79` | a line behind `data:` has the rest as its value when that does not begin with a space |
| `Sse.OtherLine` | `crates/hub/src/bounded_transport/wire.rs:76-79` | a line that does not begin with `data:` has no value |
| `Sse.WrittenEventsAreRead` | `crates/hub/src/bounded_transport/wire.rs:47-92` | whatever events a server writes within the limits, with or without the space, with LF or CR LF, among other fields: decoding yields the data of each, its lines joined, in order |
| `Sse.OneDataLineIsOneEvent` | `crates/hub/src/bounded_transport/wire.rs:47-92` | one data line and a blank line decode to exactly that one event |
| `Sse.ChunkingDoesNotMatter` | `crates/hub/src/bounded_transport/wire.rs:47-92` | the same for every way to cut the stream into pushed chunks |
| `Sse.DecodeNeverGrows` | `crates/hub/src/bounded_transport/wire.rs:43-92` | buffered and emitted bytes together never exceed what was buffered and received; both buffers stay within the frame limit |
| `Sse.SseDecoder.BufferedLength` | `crates/hub/src/bounded_transport/wire.rs:43-45` | the bytes of both buffers, without saturation |
| `Sse.SseDecoder.ConsumeLine` | `crates/hub/src/bounded_transport/wire.rs:66-92` | the in-place step equals the specification of one line |
| `Sse.SseDecoder.PushByte` | `crates/hub/src/bounded_transport/wire.rs:49-61` | one turn of the loop equals the specification of one byte and keeps the buffers bounded |
| `Sse.SseDecoder.Push` | `crates/hub/src/bounded_transport/wire.rs:47-64` | a push returns the events of the specification and leaves its buffers; an error loses the events of its chunk |
| `SseStream.PartialReservation.Add` | `crates/hub/src/bounded_transport/wire.rs:105-109` | grows reservation and budget alike exactly when the bytes fit, and changes nothing otherwise |
| `SseStream.PartialReservation.Retain` | `crates/hub/src/bounded_transport/wire.rs:111-116` | a smaller amount is given back exactly; a larger one would be recorded without being reserved |
| `SseStream.PartialReservation.TransferMessage` | `crates/hub/src/bounded_transport/wire.rs:118-125` | moves exactly the bytes of one payload into the charge of its message, which is never refused for bytes |
| `SseStream.PartialReservation.Drop` | `crates/hub/src/bounded_transport/wire.rs:128-132` | gives back exactly what is reserved |
| `SseStream.DeliverOne` | `crates/hub/src/bounded_transport/wire.rs:172-178` | one payload: parsed, charged with its own bytes, sent; each error has its cause, and the rest of the reservation stays true |
| `SseStream.Deliver` | `crates/hub/src/bounded_transport/wire.rs:168-179` | the messages sent are the parsed payloads in order, empty ones skipped, up to the first failure, which the payloads, the channel or a full budget explain |
| `SseStream.OnChunk` | `crates/hub/src/bounded_transport/wire.rs:158-179` | the reservation equals the buffered bytes before and after a chunk, and keeping what is needed never raises it |
| `SseStream.ReadChunk` | `crates/hub/src/bounded_transport/wire.rs:157-180` | one turn of the loop over the chunks keeps everything received decoded, sent and reserved in step |
| `SseStream.ReadChunks` | `crates/hub/src/bounded_transport/wire.rs:155-180` | after any chunks, what was sent are the messages of the decoded part of the stream, each charged with its length |
| `SseStream.ReadSse` | `crates/hub/src/bounded_transport/wire.rs:154-182` | over the whole stream, whatever the chunks: the messages of the format in order, up to a failure that the transport, the format, a payload, the channel or the budget explains, and nothing of the stream reserved afterwards |
| `Reservations.DecodeConserves` | `crates/hub/src/bounded_transport/wire.rs:160-167` | decoding a reserved chunk never needs more than was reserved |
| `Reservations.SlotStepConserves` | `crates/hub/src/bounded_transport/wire.rs:105-180` | what one step of a stream does to the partial bytes is what it does to its own reservation |
| `Reservations.SendMeans` | `crates/hub/src/bounded_transport/wire.rs:168-179` | a stream that sends goes on exactly when the payload is empty, or parses and is taken by budget and channel; its bytes are then charged |
| `Reservations.FeedMeans` | `crates/hub/src/bounded_transport/wire.rs:158-163` | a chunk is reserved exactly when it fits beside all that is charged and reserved; otherwise the stream is closed and gives its reservation back |
| `Reservations.PartialBytesAreTheLiveReservations` | `crates/hub/src/bounded_transport/wire.rs:95-180` | with any number of event streams and line streams interleaved with all other traffic, the partial bytes are exactly the sum of the live reservations, each equal to what its stream holds |
| `PostQueue.PostBudget.Reserve` | `crates/hub/src/bounded_transport.rs:343-361` | takes a frame and its bytes exactly when both limits allow it |
| `PostQueue.ReleasedAllIsExact` | `crates/hub/src/bounded_transport.rs:384-389` | dropping the queued posts, each with its reservation, gives back exactly their frames and bytes, and neither subtraction stops at zero |
| `PostQueue.PostLane.Push` | `crates/hub/src/bounded_transport.rs:418-427` | starts the post when nothing is in flight, else queues it under the shared budget, else changes nothing |
| `PostQueue.PostLane.StartNext` | `crates/hub/src/bounded_transport.rs:429-436` | when nothing is in flight the first queued post is, and leaves the queue and its reservation; else nothing changes |
| `PostQueue.PostLane.NextCompletion` | `crates/hub/src/bounded_transport.rs:451-461` | completes the post in flight, or else the first queued one, which leaves the queue; waits for ever only when idle and empty |
| `PostQueue.PostLane.Close` | `crates/hub/src/bounded_transport.rs:463-466` | drops every queued post and gives all their reservations back |
| `PostQueue.TrackStepIsExact` | `crates/hub/src/bounded_transport.rs:342-467` | a step changes the shared budget by exactly what it changes in its own queue, within both limits |
| `PostQueue.BudgetIsTheQueues` | `crates/hub/src/bounded_transport.rs:334-467` | in every run over any number of lanes the shared budget is exactly the queued posts of all lanes within both limits; posts that waited start in push order; what completed, with the one in flight last, is what started, in order; and no post is lost or sent twice |
| `PostQueue.TrackStepLosesNothing` | `crates/hub/src/bounded_transport.rs:418-466` | every step keeps: a post is completed, in flight or queued exactly as often as it was pushed, unless a close discarded it |
| `PostQueue.PushIsAllOrNothing` | `crates/hub/src/bounded_transport.rs:418-427` | a refused push changes nothing; a lane with nothing in flight accepts every legal frame; a busy one refuses exactly when a limit would be passed |
| `PostQueue.OrderIsLostExactlyByOvertaking` | `crates/hub/src/bounded_transport.rs:418-436` | a lane stays in push order if and only if the step is not a push that finds nothing in flight while posts wait |
| `PostQueue.APostCanOvertake` | `crates/hub/src/bounded_transport.rs:418-461` | a run in which a post starts before one that was queued earlier |
| `CaptureQuota.PopKeepsExact` | `crates/hub/src/callbacks/connection.rs:346-354` | popping keeps the counters exact, with no subtraction cut off |
| `CaptureQuota.RollbackKeepsExact` | `crates/hub/src/callbacks/connection.rs:406-426` | putting a failed entry back keeps the counters exact |
| `CaptureQuota.UnbindKeepsExact` | `crates/hub/src/callbacks/connection.rs:490-499` | unbinding takes out exactly what was queued |
| `CaptureQuota.RevokeKeepsExact` | `crates/hub/src/callbacks/connection.rs:287-304` | revoking an agent takes out exactly what its sessions had queued |
| `CaptureQuota.InsertKeepsExact` | `crates/hub/src/callbacks/capture.rs:159-173` | inserting into a capture keeps its counters exact |
| `CaptureQuota.RemoveKeepsExact` | `crates/hub/src/callbacks/capture.rs:469-481` | removing a capture takes out exactly what it held |
| `CaptureQuota.PublishConserves` | `crates/hub/src/callbacks/capture.rs:372-421` | finishing a capture keeps both pairs of counters exact and never raises their sum, which is conserved exactly when everything is published |
| `CaptureQuota.PublishKeepsOrder` | `crates/hub/src/callbacks/capture.rs:415-419` | every queue grows by the published updates of its key in the order they were captured |
| `CaptureQuota.SplitBySession` | `crates/hub/src/callbacks/capture.rs:400-410` | the entries to publish are those of the created session and the entries to replay all others, each in order |
| `CaptureQuota.FinishPublishesTheSession` | `crates/hub/src/callbacks/capture.rs:372-421` | finishing a capture ends it; the queue of each key grows by exactly what was captured for it, in order, if the key is of the created session, publishing is asked for and capturing did not fail, and else stays as it is |
| `CaptureQuota.StepsTouchOneSession` | `crates/hub/src/callbacks/connection.rs:319-499` | append, pop, rollback, begin, end and unbind do to the queue and the mark of their session what they say, and nothing to any other session |
| `CaptureQuota.RevokeTouchesOneAgent` | `crates/hub/src/callbacks/connection.rs:287-304` | revoking leaves no queue and no mark of the agent, and touches no other agent |
| `CaptureQuota.CaptureStepsTouchOneAgent` | `crates/hub/src/callbacks/capture.rs:29-175` | starting, removing and failing a capture do that to their agent and nothing to any other |
| `CaptureQuota.CaptureStepIsExact` | `crates/hub/src/callbacks/capture.rs:29-175` | a step on the captures keeps everything exact, and raises the totals only by an admitted update and not above the caps |
| `CaptureQuota.BindStepIsExact` | `crates/hub/src/callbacks/connection.rs:346-431` | a step of a bind keeps everything exact and never raises what is queued, captured and in hand together; only a rollback raises the totals, by exactly the update it puts back |
| `CaptureQuota.CountersAreTheQueues` | `crates/hub/src/callbacks/capture.rs:29-175` | over all interleavings of enqueue, capture, publish, reject, pop, rollback, bind, unbind and revoke both pairs of counters equal their queues |
| `CaptureQuota.CapsHoldExactlyWithRoom` | `crates/hub/src/callbacks/connection.rs:404-431` | a step from within the caps stays within them if and only if it is no rollback that puts an update back without finding room |
| `CaptureQuota.CapsHoldExactlyWhileRollbacksFindRoom` | `crates/hub/src/callbacks/capture.rs:29-175` | over all interleavings the caps of 1024 entries and 4 MiB have held so far if and only if every rollback that put an update back found room for it |
| `CaptureQuota.CapsPlusHands` | `crates/hub/src/callbacks/connection.rs:346-431` | however many rollbacks there are, the totals never pass the caps by more than the most that bind calls had in hand at one time |
| `CaptureQuota.QueuedExactlyWithinTheLimits` | `crates/hub/src/callbacks/capture.rs:29-110` | an update is queued if and only if it is at most 256 KiB, fewer than 1024 updates are held, 4 MiB are not passed, its session has a queue or fewer than 64 have, and its queue is shorter than 256 |
| `CaptureQuota.CapturedExactlyWithinTheLimits` | `crates/hub/src/callbacks/capture.rs:111-175` | an update is captured if and only if the same limits hold, its agent has a running capture, and captured and queued updates of the session together are fewer than 256 |
| `CaptureQuota.RefusalsNameTheirLimit` | `crates/hub/src/callbacks/capture.rs:29-175` | a refusal names a limit that the update does not meet |
| `CaptureQuota.RollbackCanExceedTheCaps` | `crates/hub/src/callbacks/connection.rs:404-431` | a run from the empty state: sixteen updates fill the bytes, a bind pops one, another takes the place, and the rollback passes the cap |
| `SessionCapture.PendingNotificationState.PushBack` | `crates/hub/src/callbacks/capture.rs:89-101` | appends to the queue of the key, creating it, and counts the update |
| `SessionCapture.PendingNotificationState.PopFront` | `crates/hub/src/callbacks/connection.rs:346-354` | takes the oldest update of the session off the queue and off the counters |
| `SessionCapture.PendingNotificationState.BeginDraining` | `crates/hub/src/callbacks/connection.rs:321-331` | marks the session as draining and gives it a queue, or refuses a second bind |
| `SessionCapture.PendingNotificationState.FinishDraining` | `crates/hub/src/callbacks/connection.rs:356-374` | ends a bind only when still marked and nothing is pending |
| `SessionCapture.PendingNotificationState.Restore` | `crates/hub/src/callbacks/connection.rs:406-426` | puts a failed update back in front, unless the session was unbound meanwhile |
| `SessionCapture.PendingNotificationState.RemoveQueue` | `crates/hub/src/callbacks/connection.rs:492-497` | removes one queue and exactly its counts |
| `SessionCapture.PendingNotificationState.Unbind` | `crates/hub/src/callbacks/connection.rs:490-499` | removes one queue, its counts and its mark |
| `SessionCapture.PendingNotificationState.RevokeAgent` | `crates/hub/src/callbacks/connection.rs:287-304` | removes the queues, counts and marks of one agent, in any order of the sessions |
| `SessionCapture.SessionCreationCaptureState.Start` | `crates/hub/src/callbacks/capture.rs:333-361` | one capture per agent; the lease carries its token |
| `SessionCapture.SessionCreationCaptureState.Insert` | `crates/hub/src/callbacks/capture.rs:159-173` | appends to the running capture of the agent and counts the update |
| `SessionCapture.SessionCreationCaptureState.RecordFailure` | `crates/hub/src/callbacks/capture.rs:454-467` | marks the capture of this connection as failed |
| `SessionCapture.SessionCreationCaptureState.Remove` | `crates/hub/src/callbacks/capture.rs:469-481` | removes a capture and exactly its counts |
| `SessionCapture.Enqueue` | `crates/hub/src/callbacks/capture.rs:63-103` | the checks of the queue for unbound sessions, in their order, and the append |
| `SessionCapture.CaptureCreation` | `crates/hub/src/callbacks/capture.rs:109-175` | the checks of a running capture, in their order, and the insertion |
| `SessionCapture.Split` | `crates/hub/src/callbacks/capture.rs:401-411` | which captured updates are published and which replayed, in order |
| `SessionCapture.PublishAll` | `crates/hub/src/callbacks/capture.rs:415-419` | the loop that appends the published updates to their queues |
| `SessionCapture.Finish` | `crates/hub/src/callbacks/capture.rs:363-432` | a finished capture publishes the updates of its session unless it failed, returns the others for replay, and leaves nothing behind; a revoked or stale lease is refused, and a failed capture reported |
| `BindProtocol.OneBinderExactlyWhileNoOverlap` | `crates/hub/src/callbacks/connection.rs:321-375` | over all interleavings, with unbinds: at most one bind call has worked on the session at a time if and only if none began while one that was unbound under it still ran |
| `BindProtocol.NextKeepsOrder` | `crates/hub/src/callbacks/connection.rs:319-435` | each step, an unbind included, keeps stored, in-hand and queued updates together the live arrivals in order, unless it begins an overlapping bind |
| `BindProtocol.BindingMeansDrained` | `crates/hub/src/callbacks/connection.rs:356-374` | a binding appears only when nothing is pending |
| `BindProtocol.OnlyPublishBinds` | `crates/hub/src/callbacks/connection.rs:356-374` | a session becomes bound if and only if a bind whose mark is still there finds nothing pending |
| `BindProtocol.StepsAreThoseOfTheQueue` | `crates/hub/src/callbacks/connection.rs:319-435` | the lock sections of the protocol are the steps of the pending queue and its mark |
| `BindProtocol.BindStoresInOrderExactlyOnce` | `crates/hub/src/callbacks/connection.rs:319-435` | over all interleavings of bind calls, failed stores, retries, arrivals, direct captures and unbinds without overlapping binds: at every loop head what binds stored followed by the live queue is the live arrivals that no unbind discarded, in order and once each, and all of it is stored when the binding is published |
| `BindProtocol.OverlappingBindsStoreOutOfOrder` | `crates/hub/src/callbacks/connection.rs:345-374` | a run in which a bind outlives an unbind, a second bind begins, both pop the same queue, and three updates are stored in another order than they arrived in |
| `SessionBinding.CaptureBound` | `crates/hub/src/callbacks/capture.rs:186-199` | the update is stored and charged to the turn, or nothing changes; it is refused exactly when the turn cannot afford it, and otherwise fails only with the store |
| `SessionBinding.NewTurnAffords` | `crates/hub/src/callbacks/capture.rs:186-199` | a session that has captured nothing in a turn affords exactly 4096 updates of 16 MiB together |
| `SessionBinding.DrainOne` | `crates/hub/src/callbacks/connection.rs:377-433` | a popped update is dropped when stale, stored and charged, or back in front with everything that arrived behind it |
| `SessionBinding.BindSession` | `crates/hub/src/callbacks/connection.rs:319-435` | whatever arrives between its lock sections: success stores everything live once, in order, before binding; failure binds nothing, leaves exactly the rest pending, in order, and comes from a spent turn budget or a failing store; the turn is charged exactly what was stored; with a reliable store it succeeds if and only if the budget covers everything live; a second bind is refused and changes nothing |
| `Registry.ValidMeansResolvable` | `crates/hub/src/endpoint.rs:464-479` | in a valid registry every agent and its whole proxy chain resolve |
| `Registry.ChangesKeepValid` | `crates/hub/src/endpoint.rs:485-549` | every accepted change leaves a valid registry, and a change is accepted if and only if its stated condition holds |
| `Registry.ChangedContents` | `crates/hub/src/endpoint.rs:481-549` | what an accepted change leaves: its one entry as asked for, every other entry as it was; and when a change is refused as not found |
| `Registry.ValidIdMeans` | `crates/hub/src/endpoint.rs:688-692` | an id is a non-empty text of ASCII letters, digits, dots, hyphens and underscores, by their codes |
| `Registry.ChainFitsMeans` | `crates/hub/src/endpoint.rs:336-351` | a chain fits exactly when it has at most 16 proxies and as many different ones as places |
| `Registry.UnaffectedResolveAlike` | `crates/hub/src/hub/registry.rs:18-45` | an agent that is not affected by a change is built from the same configuration and proxies after it |
| `Registry.AffectedExactlyWhenBuildChanges` | `crates/hub/src/hub/registry.rs:18-45` | between valid registries the affected agents are exactly those whose build changes |
| `Registry.ValidateChain` | `crates/hub/src/endpoint.rs:336-351` | accepts a chain exactly when it has at most 16 proxies, all different |
| `Registry.ValidateImage` | `crates/hub/src/endpoint.rs:382-412` | accepts a registry exactly when it is valid |
| `Registry.EndpointRegistry.AddAgent` | `crates/hub/src/endpoint.rs:485-500` | replaces the registry by the changed one, or fails and changes nothing |
| `Registry.EndpointRegistry.DeleteAgent` | `crates/hub/src/endpoint.rs:502-507` | removes an existing agent, or fails and changes nothing |
| `Registry.EndpointRegistry.AddProxy` | `crates/hub/src/endpoint.rs:509-524` | replaces the registry by the changed one, or fails and changes nothing |
| `Registry.EndpointRegistry.DeleteProxy` | `crates/hub/src/endpoint.rs:526-549` | removes an existing proxy that no agent uses, or fails and changes nothing |
| `Registry.EndpointRegistry.ProxyChain` | `crates/hub/src/endpoint.rs:464-479` | the loop returns the proxies of the chain in order exactly when the agent resolves |
| `HandleCache.CallKeepsLocks` | `crates/hub/src/hub/registry.rs:352-422` | an initialization lock has one holder, and a call that holds one is not among the locked agents of a mutation |
| `HandleCache.NoLockIsLeaked` | `crates/hub/src/hub/registry.rs:352-422` | with no mutation running and no call past its lock, every initialization lock is free |
| `HandleCache.PublishKeepsCurrent` | `crates/hub/src/hub/registry.rs:538-652` | a commit changes nothing that a call holding an initialization lock has read or built, nor any handle outside the affected agents |
| `HandleCache.ApplyKeepsCoherent` | `crates/hub/src/hub/registry.rs:352-680` | every step of every call and of the mutation keeps the cache coherent |
| `HandleCache.CachedHandlesAreCurrent` | `crates/hub/src/hub/registry.rs:352-680` | in every interleaving, and unless a mutation of its agent was dropped after its commit, a cached handle is built from the current configuration and resolved chain if and only if no mutation of the agent is between commit and teardown; every registered agent resolves |
| `HandleCache.DroppedMutationLeavesStaleHandles` | `crates/hub/src/hub/registry.rs:650-663` | after a drop no mutation runs, and a handle not abandoned before is current if and only if the build of its agent did not change |
| `HandleCache.NothingAbandonedWithoutDrop` | `crates/hub/src/hub/registry.rs:650-663` | as long as no mutation is dropped between commit and teardown, nothing is abandoned |
| `HandleCache.ADroppedMutationLeavesAStaleHandle` | `crates/hub/src/daemon/rpc_io.rs:282-310` | a run from an initial hub in which an aborted mutation request leaves a stale handle that later calls get |
| `HandleCache.InsertedHandleIsCurrent` | `crates/hub/src/hub/registry.rs:404-421` | a handle is current when it is inserted, and its agent is in no open window |
| `RegistryDisk.CommittedMeansOnDisk` | `crates/hub/src/hub/registry.rs:600-650` | when a commit goes through, the file whose fingerprint is taken holds the new registry if and only if no edit came after the commit last knew the file, or the last such edit left the new registry |
| `RegistryDisk.VerdictMeans` | `crates/hub/src/hub/registry.rs:600-646` | a commit goes through if and only if the file was last seen to hold the new registry, or the save succeeded and nothing was seen; and exactly when it reports a failed save, an unverified one or another image |
| `RegistryDisk.LoneCommitDecidesBySave` | `crates/hub/src/hub/registry.rs:600-646` | with no one else at the file, a save that replaces it commits with the new text on disk, and one that leaves it fails |
| `RegistryDisk.UnverifiedSaveIsTrusted` | `crates/hub/src/hub/registry.rs:646` | a save that succeeded is trusted when the file cannot be read back, whatever an edit has left of it |
| `RegistryDisk.AnchoredIsAgreementForEver` | `crates/hub/src/hub/registry.rs:117-126` | a matching fingerprint means agreement whatever happens to the file if and only if it was taken of the registry in memory |
| `RegistryDisk.AnchoredExactlyAfterFaithful` | `crates/hub/src/hub/registry.rs:592-653` | an event keeps that property if and only if it is no commit, or one that was not disturbed and whose fingerprint was read, or one of the empty registry whose fingerprint was not |
| `RegistryDisk.TrustedExactlyWhileFaithful` | `crates/hub/src/hub/registry.rs:592-653` | the same over all runs of saves, loads, failures and edits between any two accesses to the file |
| `RegistryDisk.MatchingFingerprintMeansAgreement` | `crates/hub/src/hub/registry.rs:117-126` | in every run of such events, whenever the fingerprints match the file parses to the registry in memory, and memory changes only together with the file |
| `RegistryDisk.LateEditCanDisagree` | `crates/hub/src/hub/registry.rs:617-652` | after an edit between the verification and the fingerprint the check passes and what is served is not what the file holds |
| `RegistryDisk.UnreadableFingerprintCanDisagree` | `crates/hub/src/hub/registry.rs:650-652` | when the fingerprint after a commit cannot be read, deleting the file passes the check although memory is not empty |
| `RegistryDisk.DaemonRegistry.constructor` | `crates/hub/src/hub/state.rs:220-261` | the remembered fingerprint can be trusted from the start if and only if it was read and the file parses to the registry handed in, or it was not read and that registry is empty |
| `RegistryDisk.DaemonRegistry.List` | `crates/hub/src/hub/registry.rs:98-126` | returns the registry only when the file still parses to it, and fails otherwise |
| `RegistryDisk.DaemonRegistry.Mutate` | `crates/hub/src/hub/registry.rs:592-653` | save, two reads and fingerprint with an edit before each access commit or fail as specified; a failure leaves memory alone |
| `CancelProtocol.CancelKeepsIdentified` | `crates/hub/src/hub/prompt.rs:195-298` | a cancel sets the flag only on the operation whose token, run and session it snapshotted |
| `CancelProtocol.CancelIsOnceOnly` | `crates/hub/src/hub/prompt.rs:195-298` | over all interleavings a cancellation is answered as requested at most once per operation token, and only for the run of that token |
| `CancelProtocol.StoreRuntimeAndFlagTogether` | `crates/hub/src/hub/prompt.rs:228-298` | whenever the lock is free and the run lease is held: the store is marked exactly when the flag is set, unless a rollback failed; the runtime is cancelling exactly when the flag is set, unless it was claimed before the lease or reset by a supervisor |
| `CancelProtocol.EndedRunsStayEnded` | `crates/hub/src/store/lifecycle.rs:1107-1141` | over all interleavings a run that completed, failed or was cancelled never changes again |
| `CancelProtocol.StepsAreAllowed` | `crates/hub/src/store/lifecycle.rs:1214-1256` | every step takes the status of every run along an allowed edge |
| `CancelProtocol.MarksMean` | `crates/hub/src/hub/prompt.rs:228-298` | the three recorded marks are set only by a rollback that is lost, a claim before the run lease, and a supervisor |
| `CancelProtocol.CancelStepsMean` | `crates/hub/src/hub/prompt.rs:195-298` | which step of a cancel changes which part of the state, and that it enters its section only on the snapshotted operation without the flag |
| `CancelProtocol.PromptStepsMean` | `crates/hub/src/hub/prompt.rs:60-110` | which step of a prompt changes which part of the state, and when creating and finalizing take effect |
| `CancelProtocol.EarlyClaimIsOverwritten` | `crates/hub/src/hub/prompt.rs:73-74` | a run from an initial world: a cancel between the run row and the run lease is answered as requested, and taking the lease makes the runtime live again |
| `Operations.OperationMap.Reserve` | `crates/hub/src/hub/state.rs:307-338` | refused exactly while the conversation has an operation or, for a prompt, its agent has a prompt; keeps one prompt per agent |
| `Operations.OperationMap.Release` | `crates/hub/src/hub/state.rs:119-127` | removes the operation of the lease and never a later one |
| `Operations.RuntimeCache.AcquireLease` | `crates/hub/src/runtime.rs:130-139` | a fresh generation and a live entry; other conversations are untouched |
| `Operations.RuntimeCache.Transition` | `crates/hub/src/runtime.rs:85-101` | applies exactly when the state matches and the generation is not newer |
| `Operations.RuntimeCache.CompleteLease` | `crates/hub/src/runtime.rs:152-160` | takes a cancelling conversation back to live unless a later lease owns it |
| `Operations.RunStore.CompareAndSet` | `crates/hub/src/store/lifecycle.rs:1214-1256` | changes the run exactly when it has the expected status; only an unreliable database fails, and then changes nothing |
| `Operations.TakeSnapshotOf` | `crates/hub/src/hub/prompt.rs:196-216` | snapshots exactly the prompts that nobody has cancelled |
| `Operations.CancelSection` | `crates/hub/src/hub/prompt.rs:228-298` | answers requested only for the snapshotted operation, and then store, runtime and flag have all changed; every other answer has its cause in the operation, the run, the runtime or a failing store, and leaves flag and runtime untouched, and the store too unless the rollback was lost |
| `RpcDemux.NextKeepsGood` | `crates/hub/src/rpc.rs:312-355` | every step keeps: a request is registered exactly while it is live and unanswered, under its own id |
| `RpcDemux.ReplyCompletesItsRequestOnly` | `crates/hub/src/rpc.rs:569-618` | a reply completes the live request with its id, if that still waits for one, and no other (section 5 of JSON-RPC 2.0) |
| `RpcDemux.ReplyMeans` | `crates/hub/src/rpc.rs:569-618` | a line is a reply exactly when it has the version, no method, an id that is a string, a number or null, and one of a result and an error, which decodes |
| `RpcDemux.NotificationMeans` | `crates/hub/src/rpc.rs:575-588` | a line is a notification exactly when it has the version, a method that decodes, and no id |
| `RpcDemux.EndedLeavesNoEntry` | `crates/hub/src/rpc.rs:195-201` | a request that ended or whose caller was dropped has no entry left |
| `RpcDemux.NothingPendsAfterDrain` | `crates/hub/src/rpc.rs:620-626` | once drained nothing is ever pending again, so every waiting request has its answer |
| `RpcDemux.CloseMessagesAreLosses` | `crates/hub/src/rpc.rs:736-747` | every message with which pending requests are failed is recognised as a connection loss |
| `RpcDemux.MutateEndsInReplyOrReplyLost` | `crates/hub/src/rpc.rs:703-734` | a MUTATE call whose write succeeded ends in the reply decoded for it or in CommittedReplyLost, never in a connection loss |
| `RpcDemux.RpcClientInner.RegisterPending` | `crates/hub/src/rpc.rs:325-331` | registers under the lock, and refuses once the client is closed |
| `RpcDemux.RpcClientInner.HandleLine` | `crates/hub/src/rpc.rs:569-618` | a valid reply goes to the request with its id; a notification or a reply nobody waits for changes nothing; anything else is invalid |
| `RpcDemux.RpcClientInner.ClosePending` | `crates/hub/src/rpc.rs:620-626` | every pending request is failed with the message, in any order, and none is left |
| `WindowsArgv.CommandLineRoundTrips` | `crates/hub/src/daemon/windows_spawn.rs:124-160` | the new process finds the program and arguments again, by the rules of Microsoft, Parsing C command-line arguments, if and only if no text holds a NUL, no argument has a quotation mark right behind a backslash, and the program has no quotation mark and no backslash at its end when it is quoted |
| `WindowsArgv.ParseQuoted` | `crates/hub/src/daemon/windows_spawn.rs:135-160` | one argument parses back exactly when no quotation mark in it comes right behind a backslash |
| `WindowsArgv.ParseProgramQuoted` | `crates/hub/src/daemon/windows_spawn.rs:126-127` | the program name parses back exactly when it is good |
| `WindowsArgv.BackslashMarkIsLost` | `crates/hub/src/daemon/windows_spawn.rs:149-151` | the argument of one backslash and one quotation mark comes back as two backslashes |
| `WindowsArgv.AppendEscaped` | `crates/hub/src/daemon/windows_spawn.rs:144-155` | the loop with its backslash counter pushes the escaped argument |
| `WindowsArgv.AppendQuoted` | `crates/hub/src/daemon/windows_spawn.rs:135-160` | appends the quoted argument to what is there |
| `WindowsArgv.BuildCommandLine` | `crates/hub/src/daemon/windows_spawn.rs:125-133` | the loop over the arguments builds the command line |
| `SessionPages.FirstOccurrencesMeans` | `crates/hub/src/acp/session_list.rs:118-122` | the list has every received id once, with the session that came first, in order |
| `SessionPages.CursorsFitMeans` | `crates/hub/src/acp/session_list.rs:126-136` | the pages lead on exactly when all have a cursor, short enough, and no two are the same |
| `SessionPages.FailureExcludesEnd` | `crates/hub/src/acp/session_list.rs:103-149` | a chain that breaks a rule at some page ends nowhere within the limits |
| `SessionPages.EndsAfterMeans` | `crates/hub/src/acp/session_list.rs:103-149` | what it takes for a list to be returned, page by page: all fetched and serialized, all but the last with a new, short cursor, the last with none, bytes and sessions of all pages together within their limits |
| `SessionPages.SerializedAddsUp` | `crates/hub/src/acp/session_list.rs:104-110` | the bytes charged are those of all pages together |
| `SessionPages.CanonicalByteCounter.Write` | `crates/hub/src/acp/session_list.rs:48-58` | accepts a write exactly when the total stays within the limit |
| `SessionPages.ChargePage` | `crates/hub/src/acp/session_list.rs:65-86` | charges a page exactly when its whole length still fits, however it is written |
| `SessionPages.AddPage` | `crates/hub/src/acp/session_list.rs:118-122` | keeps the first occurrences while the pages arrive |
| `SessionPages.TakePage` | `crates/hub/src/acp/session_list.rs:104-122` | one page: charged, counted with its duplicates, and its new sessions kept, or the rule it broke |
| `SessionPages.CollectSessionPagesWithLimits` | `crates/hub/src/acp/session_list.rs:88-150` | for every agent, even an adversarial one: at most the page limit of fetches; the list if and only if the chain ends within every limit, and then the first occurrences of all pages; every error names the rule broken first |
| `SessionPages.CollectSessionPages` | `crates/hub/src/acp/session_list.rs:8-17` | with the hub's own limits at most 256 fetches, 20000 sessions and 64 MiB, whatever the agent answers |
| `Utf8.BoundaryIffSuffixValid` | `crates/hub/src/callbacks/terminal.rs:548` | in a valid text the boundary test finds exactly the places where the rest is valid UTF-8 again (section 4 of RFC 3629) |
| `Utf8.ValidExactlyWhenEncoded` | `crates/hub/src/bounded_transport/flow.rs:855-857` | a byte string is valid if and only if it is the encoding of a sequence of Unicode scalar values (section 3 of RFC 3629) |
| `Terminal.KeptIsLongestSuffix` | `crates/hub/src/callbacks/terminal.rs:538-552` | what is kept is the longest valid suffix within the limit |
| `Terminal.KeptOfKept` | `crates/hub/src/callbacks/terminal.rs:527-534` | truncating early loses nothing that one truncation at the end would keep |
| `Terminal.TruncateFromStart` | `crates/hub/src/callbacks/terminal.rs:538-552` | keeps exactly the kept suffix and records whether anything was cut |
| `Terminal.CollectOutput` | `crates/hub/src/callbacks/terminal.rs:520-536` | appending and truncating piece by piece gives the text and flag of one truncation of the whole output |

## Left out

- Sockets, HTTP and WebSocket clients, process spawning, file access, timers and tasks: they are parameters or free choices of the environment.
- The other event fields of section 9.2.6 of the WHATWG HTML Standard, a CR alone as a line end and a byte order mark: the decoder ignores them, and so does the format it is compared with.
- Order among all posts of a lane: false, see above; only the order of queued posts is claimed.
- That no update is pending once a session is bound: an update that saw the session unbound may enter the queue after the binding is published.
- BindProtocol.BindStoresInOrderExactlyOnce: assumes that the agent's connection does not change, because replacing it discards what is pending.
- CaptureQuota.CountersAreTheQueues: does not include the per-turn capture budgets, which never touch these counters; `SessionBinding` has them.
- SessionBinding.BindSession: the store is one log of updates; which snapshot or message an update becomes is not modelled.
- HandleCache.CachedHandlesAreCurrent: the generation gates and timeouts only delay a mutation or make it give up, which is the step `Abort`; a handle left by a dropped mutation is excepted until it is removed or replaced, see above.
- RegistryDisk.MatchingFingerprintMeansAgreement: a fingerprint reads text and modification time in one step, and nothing is assumed of the time; only runs of faithful events are covered, see above.
- CancelProtocol.StoreRuntimeAndFlagTogether: what a supervisor does to the runtime of a later run, since it resets whatever generation it finds.
- The conversation's own busy column, which follows the run's status: a transition that finds it out of step fails and is rolled back by the database, which is a failed compare-and-set here.
- SessionPages.CollectSessionPagesWithLimits: a byte limit of usize::MAX, which would never be exceeded.
- RpcDemux.MutateEndsInReplyOrReplyLost: a call whose write failed keeps the error of the write.
- Poisoned mutexes, and the flow ledger that only test builds have.
- Command line, MCP and output rendering, error tables, `conversation_policy.rs`: finite case checks or plumbing.
- SQLite internals: paging, replay and migrations are not part of this model.
