# Verification of buzz-acp: telemetry, turns, recovery and configuration

A Dafny model of the stateful parts of the `buzz-acp` agent harness and of the small Redis
client of its benchmark, with proofs about every run of them. `dafny verify dfyconfig.toml`
checks the project.

## What is modelled

**Observer telemetry** (`Text`, `Elision`, `Json`, `Events`, `Trim`, `Chunks`, `Groups`,
`Coalescer`, `Pipeline`, `PublishQueue`, `ObserverBus`, with proofs in `GatherProofs`,
`PipelineProofs`, `Coalescing`, `Frames`, `Fairness`). Events enter a coalescer that merges
streamed chunks by key; ready entries enter a queue; both share one byte budget and evict their
oldest entry first; at most one frame of one channel leaves at each tick, under a serialized-size
cap; an oversized payload is trimmed leaf by leaf. Strings are bytes, JSON is a datatype, and the serialized length is an
additive function with a per-byte escape length (section 7 of RFC 8259; UTF-8 after section 3 and
the table of section 4 of RFC 3629). `Pipeline.Run` is the machine over arbitrary lists of ingests
and ticks; the classes `Coalescer.ChunkCoalescer` and `PublishQueue.ObserverPublishQueue` hold the
source's own fields, and each of their methods is proved to take exactly the machine's step, so
every lemma about `Run` is about them.

**The turn loop** (`TurnLoop`, `AcpClient`): one pass of the biased select at a time, over every
script of lines, steer requests, wakeups and clock readings, with the client object whose
fields survive from a prompt to its cancel, and the race of a prompt against a control signal.
Clock readings (`Clock`) are in milliseconds.

**Crash recovery** (`SlotCircuit`, `RespawnTokens`): the per-slot circuit breaker under a clock
that never goes back, and the tokens of respawn tasks, result channel and slots.

**Subscriptions and configuration** (`Filters`, `Overlay`, `Membership`): rule merging against rule
matching, the recursive configuration overlay, and the handling of replayed membership notices.

**RESP** (`Resp`): the command writer and the recursive reader over a stream.

Where comments in the source say more than the code does, the code is followed:

- The trimming loop is described as ending after one elision for each leaf
  (`crates/buzz-acp/src/lib.rs:879-884`). The bound is twice the number of leaves
  (`Trim.TrimmingIsBounded`): `Elision.ElidedTwiceExactlyWhen` says which leaves are elided twice,
  `Trim.OverflowSpendsAllRounds` that a frame no elision can save spends every one of them, and
  `Trim.TwentyTwoPasses` is an event of eleven leaves that takes twenty-two.
- The stub is described as always fitting. `Trim.FitsExactlyWhen` gives the exact condition;
  `Trim.OversizedSessionNeverFits` is a family of events, with a session id the agent chose, for
  which nothing fits.
- The read loop is described as answering an outstanding steer on every return. Two error exits
  (`crates/buzz-acp/src/acp.rs:1499` and `crates/buzz-acp/src/acp.rs:1513`) do not:
  `TurnLoop.AnswerLostExactlyWhen` says when, `TurnLoop.AnswerIsLost` is such a turn.
- A drain is meant to keep its deadline, the steer receiver being consumed by then. Only the read
  loop consumes it, so a stop that arrives while the prompt is still being written
  (`crates/buzz-acp/src/pool.rs:1903-1930`) drains with the receiver installed, and a steer renews
  the drain. `AcpClient.DrainDeadlineFixedExactlyWhen` is the exact condition,
  `AcpClient.StopDuringWriteRenews` a five-second drain that runs for nine.
- The 30-second ceiling of the respawn backoff cannot be reached (`SlotCircuit.SlotBreaker.RecordCrash`).
- `ChannelScope::matches` compares text where `rule_applies_to_channel` compares parsed ids, so a
  channel listed in a form that is not the printed one is subscribed and never matched
  (`Filters.ScopesAgreeExactlyWhen`, `Filters.NonCanonicalIdIsDeaf`).
- `deep_merge` is not associative; `Overlay.AssociativeExactlyWhen` says when it is.

Every lemma carries `{:induction false}`: all inductions are written out. `hide` statements name
the definitions a proof does without; they only keep the solver's work small.

## Model

| member | source | states |
|---|---|---|
| Text.FloorCharBoundary | crates/buzz-acp/src/lib.rs:1009-1014 | the downward scan ends at the greatest character boundary at or below the offset (FloorIsGreatest) |
| Text.CeilCharBoundary | crates/buzz-acp/src/lib.rs:1016-1021 | the upward scan ends at the least character boundary at or above the offset (CeilIsLeast) |
| Text.FloorIsGreatest | crates/buzz-acp/src/lib.rs:1009-1014 | no boundary lies between the floor boundary and the offset |
| Text.CeilIsLeast | crates/buzz-acp/src/lib.rs:1016-1021 | no boundary lies between the offset and the ceil boundary |
| Text.Utf8Cut | crates/buzz-acp/src/lib.rs:1003-1021 | cutting well-formed UTF-8 at a boundary leaves two well-formed pieces |
| Elision.ShrinksExactly | crates/buzz-acp/src/lib.rs:969-1007 | a leaf shrinks exactly when the removed middle is longer than its marker of 21 plus digits bytes |
| Elision.ElisionShortens | crates/buzz-acp/src/lib.rs:969-1001 | an elision strictly shortens the leaf raw and as escaped in JSON, and keeps it well-formed UTF-8 |
| Elision.RetainedWidth | crates/buzz-acp/src/lib.rs:865-1007 | an elided leaf keeps between 2,997 and 3,000 bytes at each end |
| Elision.ElidedEndsNest | crates/buzz-acp/src/lib.rs:983-1007 | the ends kept by a second elision contain those kept by the first, so it only cuts into the marker |
| Elision.AtMostTwoRounds | crates/buzz-acp/src/lib.rs:879-884 | any string of machine size stops shrinking after at most two elisions |
| Elision.ElidedTwiceExactlyWhen | crates/buzz-acp/src/lib.rs:865-1007 | a string is elided twice if and only if at least 100 bytes lie between its cuts, or 100,000 or 100,000,000 when one or both cuts leave 2,997 bytes |
| Elision.EndsSurviveTwoRounds | crates/buzz-acp/src/lib.rs:983-1007 | after one and after two elisions the string begins and ends with what the first elision retained |
| Elision.SecondRoundHappens | crates/buzz-acp/src/lib.rs:879-884 | an instance: a leaf of 100,000 ASCII bytes is elided exactly twice, ending with a marker that counts 26 bytes |
| Json.LenByLeaves | crates/buzz-acp/src/lib.rs:922-929 | serialized length is the length of the shape plus the escaped lengths of the leaves |
| Json.FirstPassFindsLongest | crates/buzz-acp/src/lib.rs:940-951 | the first pass reports the length of the longest shrinkable leaf, and nothing exactly when there is none |
| Json.SecondPassElidesOneLeaf | crates/buzz-acp/src/lib.rs:953-967 | the second pass changes exactly the first shrinkable leaf of the wanted length, keeps shape and all other leaves, and fails only when there is no such leaf |
| Json.SearchPassesAgree | crates/buzz-acp/src/lib.rs:931-938 | whenever the first pass reports a length the second finds a leaf of that length |
| Json.ElisionShortensJson | crates/buzz-acp/src/lib.rs:892-920 | each pass strictly shortens the serialized value |
| Json.SameLeavesSameValue | crates/buzz-acp/src/lib.rs:922-938 | a value is determined by its shape and its string leaves |
| Events.EnvelopeLen | crates/buzz-acp/src/lib.rs:584-601 | a batch envelope is as long as its events, one separator between each two, and an overhead that depends on the last event alone |
| Events.SealedFrameDeterminesEvents | crates/buzz-acp/src/lib.rs:572-601 | sealing loses nothing: equal sealed frames were sealed from equal lists of events, unless an event is itself of kind batch |
| Trim.FitToBudget | crates/buzz-acp/src/lib.rs:892-920 | the in-place loop computes Fit, in as many elisions as Elisions says; StopsAtFirstFit, FitOutcome and FitsExactlyWhen say what that is |
| Trim.StopsAtFirstFit | crates/buzz-acp/src/lib.rs:892-920 | trimming goes through payloads that each have one more leaf elided, the first of the longest that shrink, every frame before the last being over the cap; the last ships if its frame fits, else no leaf of it shrinks and the stub ships |
| Trim.TrimmingIsUnique | crates/buzz-acp/src/lib.rs:892-938 | there is only one such list of payloads for an event, so that determines the outcome |
| Trim.OnePass | crates/buzz-acp/src/lib.rs:892-938 | a pass elides the first of the longest leaves that shrink; it gives up exactly when none shrinks |
| Trim.TrimmingIsBounded | crates/buzz-acp/src/lib.rs:879-920 | trimming any payload elides at most twice for each string leaf |
| Trim.OverflowSpendsAllRounds | crates/buzz-acp/src/lib.rs:879-920 | while even the fully elided frame overflows, the loop makes every elision every leaf admits |
| Trim.TwentyTwoPasses | crates/buzz-acp/src/lib.rs:879-920 | eleven leaves of 100,000 ASCII bytes take twenty-two elisions in every event, twice the number of leaves |
| Trim.FitOutcome | crates/buzz-acp/src/lib.rs:892-920 | the envelope fields never change, a frame under the cap is returned as it was, and otherwise the payload keeps its shape with every leaf intact or showing both retained ends, or is the stub |
| Trim.FitsExactlyWhen | crates/buzz-acp/src/lib.rs:892-920 | the result fits the cap if and only if the fully elided frame or the stub frame does; the stub is used exactly when the former does not |
| Trim.OversizedEnvelopeNeverFits | crates/buzz-acp/src/lib.rs:892-920 | under a header longer than the cap nothing fits, neither trimmed nor as the stub |
| Trim.OversizedSessionNeverFits | crates/buzz-acp/src/lib.rs:892-920 | an event of a session whose id is longer than the cap never fits |
| Trim.StubSays | crates/buzz-acp/src/lib.rs:914-919 | the stub names the kind of the event and the serialized length of the payload it replaces |
| Trim.StubFits | crates/buzz-acp/src/lib.rs:914-920 | the exact length of the stub frame; with a payload of machine size every event whose header and kind leave 68 bytes ends within the cap |
| Chunks.GetInserted | crates/buzz-acp/src/lib.rs:847-859 | the text written at the chunk path is read back from it |
| Chunks.GetElsewhere | crates/buzz-acp/src/lib.rs:847-859 | writing the text leaves every diverging path as it was |
| Chunks.SetThenRead | crates/buzz-acp/src/lib.rs:816-859 | setting a chunk's text and reading the chunk back gives that text under the same key |
| Chunks.UpdateIsChunkExactlyWhen | crates/buzz-acp/src/lib.rs:816-848 | a session update is a chunk if and only if its type is one of the three, under a key of its type, message id, channel, session, turn and agent |
| Groups.MergedReadsBack | crates/buzz-acp/src/lib.rs:741-813 | the event released for a group of chunks, its first as observed, reads back as the concatenated texts under the group's key |
| Coalescer.ChunkCoalescer.Ingest | crates/buzz-acp/src/lib.rs:741-767 | takes the machine's step Accept on the pending groups, which ReleasesExactlyWhen and CoalescedExactlyWhen pin down, and releases exactly the entries it says; every pending entry and the byte counter stay what the groups determine |
| Coalescer.ChunkCoalescer.Append | crates/buzz-acp/src/lib.rs:741-767 | the pending entry becomes that of its group with the chunk added, and the counter grows by the chunk's recorded share |
| Coalescer.ChunkCoalescer.PushPending | crates/buzz-acp/src/lib.rs:769-793 | a new pending entry behind the others for a group of one chunk |
| Coalescer.ChunkCoalescer.DropOldest | crates/buzz-acp/src/lib.rs:795-802 | removes the front entry, returns how many events it merged, and takes exactly its recorded size off the counter |
| Coalescer.ChunkCoalescer.Flush | crates/buzz-acp/src/lib.rs:804-813 | releases every pending entry in order and leaves the counter at zero |
| PublishQueue.ObserverPublishQueue.constructor | crates/buzz-acp/src/lib.rs:422-437 | starts empty, as the machine does |
| PublishQueue.ObserverPublishQueue.Ingest | crates/buzz-acp/src/lib.rs:440-450 | takes the machine's ingest step; the byte counter stays the sum of the serialized lengths and the drop counter the number of evicted events |
| PublishQueue.ObserverPublishQueue.Enqueue | crates/buzz-acp/src/lib.rs:452-460 | appends the trimmed event with its serialized length and the number of events it stands for |
| PublishQueue.ObserverPublishQueue.TotalPendingBytes | crates/buzz-acp/src/lib.rs:466-468 | the two counters add up to the recorded sizes of all retained entries |
| PublishQueue.ObserverPublishQueue.EvictOldest | crates/buzz-acp/src/lib.rs:477-498 | removes the oldest retained entry of both stores and reports the events it stood for |
| PublishQueue.ObserverPublishQueue.EnforceByteBudget | crates/buzz-acp/src/lib.rs:477-498 | evicts exactly the fewest oldest entries after which the budget holds or one entry is left, and records them |
| PublishQueue.ObserverPublishQueue.IsEmpty | crates/buzz-acp/src/lib.rs:502-504 | true exactly when nothing is retained in either store |
| PublishQueue.ObserverPublishQueue.NextFrame | crates/buzz-acp/src/lib.rs:533-568 | takes the machine's tick step; returns a frame exactly when something was retained, and it is the sealed frame of the entries recorded as shipped |
| PublishQueue.ObserverPublishQueue.PackFrame | crates/buzz-acp/src/lib.rs:533-568 | the gather loop picks and keeps what Gather says, which is all that fits in front of the first barrier (SlotTakesAllThatFits), and the frame is sealed from the picked entries |
| PublishQueue.EnvelopeOverflows | crates/buzz-acp/src/lib.rs:545-556 | the length test on the real envelope is the test on the entries' recorded lengths |
| PublishQueue.ShedCountIs | crates/buzz-acp/src/lib.rs:477-498 | the least eviction is unique |
| GatherProofs.GatherKeepsOrder | crates/buzz-acp/src/lib.rs:505-568 | seen from any channel with the channel-less entries, what a slot picks followed by what it keeps is the old order |
| GatherProofs.GatherTakesFront | crates/buzz-acp/src/lib.rs:505-568 | a slot takes the front entry, only entries of its channel, and an envelope of two or more within the cap |
| GatherProofs.SlotTakesAllThatFits | crates/buzz-acp/src/lib.rs:505-568 | on every queue a slot stops in exactly one place, the first entry of its channel that would push the frame over the cap, the first barrier, or the end, and takes every entry of its channel before it; a channel-less slot takes the longest run at the front that fits |
| GatherProofs.GatherKeepsSources | crates/buzz-acp/src/lib.rs:533-568 | picked and kept entries carry together exactly the source events of the queue |
| GatherProofs.SlotSpendsCredit | crates/buzz-acp/src/lib.rs:525-568 | a slot finishes its channel or spends more bytes than the cap leaves beside an envelope |
| GatherProofs.DrainBound | crates/buzz-acp/src/lib.rs:525-568 | draining a queue without channel-less entries takes at most C + 2S/(cap - H) slots |
| GatherProofs.DrainEmpties | crates/buzz-acp/src/lib.rs:525-568 | exactly that many ticks empty both stores, one frame a tick |
| Fairness.TickTakesOlder | crates/buzz-acp/src/lib.rs:505-568 | each publish slot takes at least one of the entries up to any age |
| Fairness.EntryLeavesInTime | crates/buzz-acp/src/lib.rs:440-568 | whatever is ingested meanwhile, an entry with n older ones retained has left after n + 1 ticks, and so have they |
| PipelineProofs.RunKeepsInv | crates/buzz-acp/src/lib.rs:720-813 | in every run pending keys are distinct, an entry of two or more chunks stays under 60,000 bytes of text, and no other event arrived between an entry's first and last chunk |
| PipelineProofs.AbsorbKeepsInv | crates/buzz-acp/src/lib.rs:440-498 | every ingest keeps that invariant |
| PipelineProofs.TickKeepsInv | crates/buzz-acp/src/lib.rs:533-568 | every publish slot keeps that invariant |
| PipelineProofs.TickEffect | crates/buzz-acp/src/lib.rs:533-568 | seen from any channel, a slot moves entries from retained to shipped without changing their order |
| PipelineProofs.StreamsExactlyOnce | crates/buzz-acp/src/lib.rs:421-568 | in every run the events of a stream appear, in what left followed by what is retained, exactly once each and in order of arrival |
| PipelineProofs.TextIsConcatenation | crates/buzz-acp/src/lib.rs:697-813 | for every chunk key, the texts that left followed by those retained are the concatenation of all its chunk texts |
| PipelineProofs.RunIsGenuine | crates/buzz-acp/src/lib.rs:421-568 | every entry of every run is a group of events as they were observed, so MergedReadsBack holds of it |
| PipelineProofs.ReadersSeeConcatenation | crates/buzz-acp/src/lib.rs:697-859 | in every run the chunk texts read off the merged events themselves, those that left and then those retained, are all the chunk texts of the key in order of arrival |
| Coalescing.ReleasesExactlyWhen | crates/buzz-acp/src/lib.rs:741-767 | an event releases the pending entries if and only if it is no chunk or the joined text of its key would reach the limit; any other joins the entry of its key as its last event, or starts one |
| Coalescing.CoalescedExactlyWhen | crates/buzz-acp/src/lib.rs:741-767 | in every run two chunks of one key are in one entry if and only if between them no slot fell, no other kind of event came and no text overflowed, and the entry of the first was not evicted before the second came |
| Coalescing.OneEntryOnly | crates/buzz-acp/src/lib.rs:421-568 | in every run no event is carried by two entries, retained or gone |
| Coalescing.TwoChunksMerge | crates/buzz-acp/src/lib.rs:756-762 | two chunks of one message on an empty queue become one entry of two events |
| Coalescing.MergedPosition | crates/buzz-acp/src/lib.rs:760-761 | in every run the event made of an entry has the sequence number and timestamp of its last event, and the rest of its header from its first |
| Coalescing.PendingCharge | crates/buzz-acp/src/lib.rs:769-793 | in every run a pending entry is charged the serialized length of its first event and once more all its text |
| PipelineProofs.SourceLedger | crates/buzz-acp/src/lib.rs:421-498 | in every run, events ingested are events evicted plus shipped plus retained, merged entries counting in full |
| PipelineProofs.ScopeLeavesInOrder | crates/buzz-acp/src/lib.rs:505-568 | in every run each channel's entries leave first in, first out, and nothing crosses a channel-less entry in either direction |
| PipelineProofs.RetainedByAge | crates/buzz-acp/src/lib.rs:470-498 | in every run all queued entries are older than all pending chunks, each store in order of age |
| PipelineProofs.EvictionTakesOldest | crates/buzz-acp/src/lib.rs:470-498 | an ingest evicts the shortest front of that order after which the total is within the budget or one entry is left |
| Frames.FrameLenIsSerialized | crates/buzz-acp/src/lib.rs:545-556 | the length the gather step compares with the cap is the serialized length of the envelope |
| Frames.EnterFacts | crates/buzz-acp/src/lib.rs:452-460 | an entry's recorded size is the serialized length of its trimmed event, which stays in its channel |
| Frames.RunShipsGoodFrames | crates/buzz-acp/src/lib.rs:505-601 | every frame of every run has one channel, is sealed from its own entries, and fits the cap when it carries two or more |
| ObserverBus.ObserverHandle.Emit | crates/buzz-acp/src/observer.rs:104-136 | appends one event with the next sequence number; the bounded buffer stays the last thousand events |
| ObserverBus.ObserverHandle.Snapshot | crates/buzz-acp/src/observer.rs:93-102 | returns the replay buffer in order |
| ObserverBus.ObserverHandle.Subscribe | crates/buzz-acp/src/observer.rs:88-91 | a new receiver, which nothing sent so far reaches |
| ObserverBus.ObserverHandle.Recv | crates/buzz-acp/src/observer.rs:88-91 | a receiver gets the next event sent, or none when it has them all |
| ObserverBus.ReceiveAll | crates/buzz-acp/src/observer.rs:88-136 | reading a receiver empty yields exactly what was sent since it was made, in order |
| ObserverBus.HandOff | crates/buzz-acp/src/lib.rs:611-668 | for every interleaving of emits with subscribe and snapshot, the publisher ingests the snapshot followed by every later event, each once and in order |
| ObserverBus.LagNeverRepeats | crates/buzz-acp/src/lib.rs:640-668 | with a lagging receiver what is ingested still strictly increases in sequence number |
| ObserverBus.HistoryIsInput | crates/buzz-acp/src/lib.rs:640-668 | the history of a run is the list of ingested events |
| ObserverBus.RunPublisher | crates/buzz-acp/src/lib.rs:631-692 | the select loop does with its snapshot and wakeups just what PublisherOps says, a tick at each timer and nowhere else, and ends at the first timer that finds the channel closed and leaves nothing retained |
| ObserverBus.AtMostOneFrameATick | crates/buzz-acp/src/lib.rs:646-692 | however large the snapshot and however many events arrive, never more frames than timer ticks |
| ObserverBus.PublisherInputs | crates/buzz-acp/src/lib.rs:640-668 | what the publisher ingests is the snapshot followed by the newer live events |
| ObserverBus.PublisherMissesNothing | crates/buzz-acp/src/lib.rs:611-668 | subscribed before the snapshot and with no event lost, the publisher ingests one unbroken run of what was emitted |
| TurnLoop.SteersAreRouted | crates/buzz-acp/src/acp.rs:1206-1522 | over every script: at most one steer outstanding, under an id other than the prompt's; each request answered once and in order; the prompt's result is never a steer's reply; every return but a failed handler leaves no steer unanswered |
| TurnLoop.SuccessFollowsRequest | crates/buzz-acp/src/acp.rs:1425-1462 | a Success has a pass that wrote the request under its id and a later pass with an error-free reply to that id |
| TurnLoop.VerdictExactlyWhen | crates/buzz-acp/src/acp.rs:1288-1522 | over every script a steer request is answered AgentRejected if and only if an error reply with the outstanding id is read in time, Success if and only if an error-free one, RunIdMissing if and only if no run was active as it was taken up, TransportFailed if and only if its write failed, Neutral if and only if the loop returned while it was outstanding |
| TurnLoop.ReturnExactlyWhen | crates/buzz-acp/src/acp.rs:1236-1522 | over every script the loop returns each result if and only if some pass has its cause: the prompt's own reply with or without an error, the deadline that passed first, the end or failure of the stream, a handler that fails |
| TurnLoop.RunFollowsUpdates | crates/buzz-acp/src/acp.rs:1599-1623 | while a turn goes on, a run is active exactly as the last update that names one says |
| TurnLoop.AnswerLostExactlyWhen | crates/buzz-acp/src/acp.rs:1470-1522 | a turn returns with a steer unanswered if and only if, in time and with a steer outstanding, it reads a permission request it cannot answer or an unknown request it cannot refuse |
| TurnLoop.AnswerIsLost | crates/buzz-acp/src/acp.rs:1470-1522 | such a turn: a steer is written, a permission request cannot be answered, and the steer gets no answer |
| TurnLoop.HardDeadlineBound | crates/buzz-acp/src/acp.rs:1216-1269 | the hard deadline never decreases and after k successful steers is at most k durations past the first one, with lines handled no later than it |
| TurnLoop.GoingIsInTime | crates/buzz-acp/src/acp.rs:1236-1269 | while a turn goes on no pass of it began at or after the hard deadline |
| TurnLoop.TimeoutsAreEarned | crates/buzz-acp/src/acp.rs:1236-1269 | under a clock that never goes back, an idle timeout means no line was taken up for the whole idle timeout, and a hard timeout that the first deadline has passed and no line was taken up during the silence it reports |
| TurnLoop.GoingIsNeverSilent | crates/buzz-acp/src/acp.rs:1236-1269 | while a turn goes on each pass begins less than the idle timeout after the start or an earlier line |
| TurnLoop.NoReceiverNoRenewal | crates/buzz-acp/src/acp.rs:1216-1234 | without a steer receiver nothing is steered and the hard deadline never moves |
| TurnLoop.DeadlineFixedExactlyWhen | crates/buzz-acp/src/acp.rs:905-953 | the hard deadline of a drain stands still over every script if and only if the receiver is gone or the deadline has passed on entry |
| TurnLoop.AdvanceDeadline | crates/buzz-acp/src/acp.rs:1452-1461 | only a successful steer reply renews the hard deadline, and only forward |
| TurnLoop.PassRenewsExactlyWhen | crates/buzz-acp/src/acp.rs:1452-1461 | a pass moves the hard deadline if and only if it gives a Success and one duration from then is later, and then to there |
| AcpClient.Client.ReadUntilResponse | crates/buzz-acp/src/acp.rs:1206-1522 | the loop over the client's fields is the machine over the same script, whose answers and results VerdictExactlyWhen and ReturnExactlyWhen give; the receiver is consumed |
| AcpClient.Client.OnePass | crates/buzz-acp/src/acp.rs:1236-1522 | one pass takes exactly the machine's step on the fields |
| AcpClient.Client.SessionPrompt | crates/buzz-acp/src/acp.rs:684-734 | after a timeout, and when its future is dropped while writing or reading, the prompt id and the deadline are left for the cancel; after any other return both are cleared; only reading consumes the receiver |
| AcpClient.Client.CancelWithCleanup | crates/buzz-acp/src/acp.rs:845-887 | the drain plays from the rest of the turn's deadline or the grace, whichever is later, with whatever receiver is installed; with none it takes up no steer and keeps that deadline |
| AcpClient.Client.CancelWithCleanupGrace | crates/buzz-acp/src/acp.rs:889-903 | the drain plays from its own grace, at least that long; with no receiver exactly that; its expiry is reported as a drain timeout and nothing else is |
| AcpClient.Client.ControlledTurn | crates/buzz-acp/src/pool.rs:1903-1930 | a prompt dropped by a control signal is always drained: after five seconds' grace when it was being read, with the receiver still installed when it was being written |
| AcpClient.DrainDeadlineFixedExactlyWhen | crates/buzz-acp/src/acp.rs:889-953 | a drain keeps its deadline over every script if and only if its receiver is gone or the deadline has passed already |
| AcpClient.StopDuringWriteRenews | crates/buzz-acp/src/acp.rs:889-953 | a five-second drain with the receiver installed and one steer answered after four seconds runs for nine |
| AcpClient.Settled | crates/buzz-acp/src/acp.rs:1206-1522 | once the loop has returned, later lines change nothing |
| SlotCircuit.SlotBreaker.RecordCrash | crates/buzz-acp/src/lib.rs:1284-1330 | takes the breaker's crash step; a respawn waits one second after a first crash in the window and two after a second, give or take a fifth |
| SlotCircuit.SlotBreaker.MarkSpawnFailed | crates/buzz-acp/src/lib.rs:1332-1340 | takes the breaker's step after a failed spawn |
| SlotCircuit.SlotBreaker.CanRefill | crates/buzz-acp/src/lib.rs:1342-1363 | allows a refill exactly when the machine does, which AnswerIsDue says is always but within the cooldown of an opening |
| SlotCircuit.RunCovered | crates/buzz-acp/src/lib.rs:1258-1363 | in every run the crash history of a closed circuit counts exactly the permits of the last window |
| SlotCircuit.AnswerIsDue | crates/buzz-acp/src/lib.rs:1284-1363 | in every run each answer is determined by those before it: with an opening pending a crash or refill is a probe once the cooldown has passed and refused until then; with none a refill is allowed, and a crash is respawned if and only if fewer than two permits lie in the window |
| SlotCircuit.RespawnsAreRare | crates/buzz-acp/src/lib.rs:1284-1330 | in every run no window under 60 seconds holds more than two respawn verdicts |
| SlotCircuit.CooldownIsKept | crates/buzz-acp/src/lib.rs:1284-1363 | in every run no respawn, probe or refill is permitted within 300 seconds of an opening |
| SlotCircuit.CrashAfterProbeReopens | crates/buzz-acp/src/lib.rs:1284-1330 | in every run a crash less than 60 seconds after a probe leaves the circuit open |
| RespawnTokens.EndTask | crates/buzz-acp/src/lib.rs:1403-1456 | however a respawn task ends, panic included, its guard puts exactly one result in a channel with room |
| RespawnTokens.RespawnGuard.Send | crates/buzz-acp/src/lib.rs:1421-1440 | one report when the channel has room, and then the guard is spent; none when it is full |
| RespawnTokens.RespawnGuard.Drop | crates/buzz-acp/src/lib.rs:1442-1456 | an unspent guard reports a failure, a spent one nothing |
| RespawnTokens.StepKeepsInv | crates/buzz-acp/src/lib.rs:1978-2042 | every claim, finished prompt (by the agent its result carries), panicked prompt, task end and collection keeps the token invariant |
| RespawnTokens.RoomForEveryGuard | crates/buzz-acp/src/lib.rs:1846 | the channel of one place a slot is never full when a guard sends |
| RespawnTokens.OneHolder | crates/buzz-acp/src/lib.rs:1978-2042 | in every run each slot is exactly one of idle, checked out, respawning and empty |
| RespawnTokens.SlotAfterExactlyWhen | crates/buzz-acp/src/lib.rs:1978-2042 | in every run a step leaves a slot idle if and only if it was and is not claimed, or a healthy result or a successful respawn report brings its agent; and in flight if and only if it was and its report is not collected, or a respawn of it starts |
| RespawnTokens.OnTaskExactlyWhen | crates/buzz-acp/src/lib.rs:3281-3285 | in every run a step leaves a slot on a task if and only if it was and the task goes on, or the idle slot is claimed |
| RespawnTokens.TokenLedger | crates/buzz-acp/src/lib.rs:2017-2042 | respawn tasks spawned are those running, reported and collected |
| RespawnTokens.EndedTaskReports | crates/buzz-acp/src/lib.rs:3890-3939 | the end of a running task puts exactly one report of it in the channel and leaves its slot in flight |
| RespawnTokens.CollectFindsVacantSlot | crates/buzz-acp/src/lib.rs:2017-2042 | a collected agent always returns to a slot that is empty and not checked out |
| RespawnTokens.ResultHasOneRecord | crates/buzz-acp/src/lib.rs:3281-3285 | a finished prompt finds exactly one record of its agent, that of its own task |
| Filters.ResolveChannelFilters | crates/buzz-acp/src/config.rs:1227-1317 | the start-up map holds exactly the discovered channels that are wanted, with the filter Wanted gives |
| Filters.ResolveDynamicChannelFilter | crates/buzz-acp/src/config.rs:1329-1406 | the filter of a channel found later is the one Wanted gives |
| Filters.ResolveOneByOne | crates/buzz-acp/src/config.rs:1227-1406 | in all three modes, resolving the discovered channels one by one gives the same map as start-up |
| Filters.ModeAdmits | crates/buzz-acp/src/config.rs:1227-1277 | without rules, an event passes the filter of a channel if and only if the channel is listed or there is no list, its kind is a configured one, one of the three defaults or, in the mode for everything, any, and it mentions the agent where that is asked |
| Filters.MergeRules | crates/buzz-acp/src/config.rs:1279-1315 | the merge loop computes the union of kinds, with a wildcard for an empty list, and asks for a mention only when every applicable rule does |
| Filters.MergedFilterAdmits | crates/buzz-acp/src/config.rs:1279-1315 | the merged filter delivers an event exactly when some applicable rule takes its kind and some applicable rule takes its mention |
| Filters.MatchEvent | crates/buzz-acp/src/filter.rs:368-460 | the scan returns the machine's match and leaves each shared timeout counter as it says |
| Filters.AcceptedExactlyWhen | crates/buzz-acp/src/filter.rs:341-460 | a rule wins exactly when it accepts on every count and every earlier eligible rule was evaluated to false |
| Filters.FailureNeverWidens | crates/buzz-acp/src/filter.rs:354-366 | when evaluations fail or rules are disabled that were not before, an event gets the same match or none |
| Filters.NothingAcceptedIsLost | crates/buzz-acp/src/config.rs:1279-1315 | any event a rule accepts in a channel is delivered by that channel's merged filter |
| Filters.ScopesAgreeExactlyWhen | crates/buzz-acp/src/config.rs:1408-1418 | text matching and id matching of a scope agree on all channels if and only if every parsable id listed is also listed as printed |
| Filters.NonCanonicalIdIsDeaf | crates/buzz-acp/src/filter.rs:63-73 | a channel listed only in another form is subscribed and never matched |
| Filters.CounterIsStreak | crates/buzz-acp/src/filter.rs:405-445 | in every run a rule's counter is its streak of timeouts since the last true or false, and never exceeds five |
| Filters.DisabledForGood | crates/buzz-acp/src/filter.rs:405-416 | after five timeouts in a row a rule's counter never changes and no event that gets as far as it is matched by it or a later rule |
| Overlay.DeepMerge | crates/buzz-acp/src/acp.rs:208-228 | the in-place loop, in any order of keys, computes the pointwise recursive merge |
| Overlay.MergeAt | crates/buzz-acp/src/acp.rs:208-228 | what stands at every path of a merge: the overlay's value, merged objects, nothing under a replaced value, or the base's untouched value |
| Overlay.MergeTwice | crates/buzz-acp/src/acp.rs:208-228 | merging the same overlay twice changes nothing |
| Overlay.CoveredMeansErased | crates/buzz-acp/src/acp.rs:208-228 | a merge is just the overlay if and only if the overlay sets all that the base sets |
| Overlay.AssociativeExactlyWhen | crates/buzz-acp/src/acp.rs:208-228 | the two groupings of three layers agree if and only if, wherever the middle puts a scalar between two objects, the last sets all that the first set |
| Overlay.NotAssociative | crates/buzz-acp/src/acp.rs:208-228 | object, scalar, object: the groupings differ |
| Overlay.LeafIsLastWritten | crates/buzz-acp/src/acp.rs:302-313 | a leaf stands at a path of the merged layers exactly when the last layer touching that path put it there |
| Overlay.BuildCodexConfigEnv | crates/buzz-acp/src/acp.rs:257-345 | returns Build, with the error of the first value that is not an object |
| Overlay.BuiltExactlyWhen | crates/buzz-acp/src/acp.rs:257-345 | a config is built if and only if one is asked for, every value is an object, and the last to mention the sandbox table makes it an object |
| Overlay.FailsExactlyWhen | crates/buzz-acp/src/acp.rs:257-345 | the error is that of the first value that is not an object, naming where it came from and whether it could be read, or, if and only if all are objects, that the sandbox table is none; nothing is built if and only if nothing was asked for or given |
| Overlay.BuiltConfigByPath | crates/buzz-acp/src/acp.rs:302-345 | every leaf of a built config is the last one written, the forced key counting as the last layer, so network access is always true |
| Overlay.ParentLeafWins | crates/buzz-acp/src/acp.rs:308-345 | every leaf of the parent's value stays, except at or below sandbox_workspace_write.network_access |
| Membership.MembershipTracker.Handle | crates/buzz-acp/src/lib.rs:2144-2258 | takes the step Next on the five collections and returns its verdict |
| Membership.RememberedExactly | crates/buzz-acp/src/lib.rs:1894-1896 | in every run an id is rejected exactly when it is among the latest recorded ones, as many as the two sets hold: at least a thousand or all, never two thousand |
| Membership.RejectedWhileRecent | crates/buzz-acp/src/lib.rs:2165-2181 | an id is rejected while fewer than a thousand notices were recorded after it |
| Membership.ReplayIsHarmless | crates/buzz-acp/src/lib.rs:1884-1890 | replaying recent notices in any order, any number of times, changes nothing |
| Membership.RunIsConsistent | crates/buzz-acp/src/lib.rs:2182-2232 | in every run no recorded notice is newer than its channel's timestamp, removed channels are those last left, subscribed ones those joined and not left since |
| Membership.AppliedInTimeOrder | crates/buzz-acp/src/lib.rs:2182-2194 | notices acted on for one channel never go back in time |
| Membership.AppliedExactlyWhen | crates/buzz-acp/src/lib.rs:2157-2194 | in every run a new notice is acted on if and only if no recorded notice of its channel is newer; one of the same second is acted on |
| Membership.SubscribedAndRemovedDisjoint | crates/buzz-acp/src/lib.rs:2196-2232 | in every run no channel is both subscribed and removed |
| Resp.Stream.ReadLine | perf/relay_bus_scaling.py:120-126 | returns the line and consumes it with its line end, or the error of an ended or malformed line |
| Resp.Stream.ReadResp | perf/relay_bus_scaling.py:129-153 | returns the value the grammar Parse gives for the unread bytes and leaves unread what it leaves, or raises its error |
| Resp.EncodeCommand | perf/relay_bus_scaling.py:110-117 | joining the collected pieces gives the array of bulk strings |
| Resp.RoundTrip | perf/relay_bus_scaling.py:110-153 | for every list of UTF-8 strings and any trailing bytes, reading an encoded command gives back the strings and leaves the trailing bytes |
| Resp.ReadsEveryReply | perf/relay_bus_scaling.py:129-153 | every reply a server may write, simple, counted, integer, nil or nested, is read as its value and what follows is left unread |
| Resp.ErrorIsRaised | perf/relay_bus_scaling.py:129-153 | an error reply raises its message |
| Resp.PrefixFree | perf/relay_bus_scaling.py:110-117 | no encoding is a prefix of another, so encoding is injective |
| Resp.PipelineRoundTrip | perf/relay_bus_scaling.py:110-153 | commands written back to back are read back one by one |
| Resp.ParseExtends | perf/relay_bus_scaling.py:129-153 | a value read successfully does not depend on the bytes after it |
| Resp.TruncatedNeverReads | perf/relay_bus_scaling.py:129-153 | a command cut short anywhere is never read as a value |

## Left out

- Relay traffic, encryption, signing, spawning processes, signals and logging: they appear as inputs with a success or failure outcome, or not at all.
- Clocks, timestamps and jitter are inputs; the jitter factor is a real number from 0.8 up to 1.2, and delays are not truncated to whole milliseconds.
- Machine widths of counters (`u64`, `usize`): counters are unbounded, except that a string is shorter than 2 to the 64 where the number of digits of a marker matters.
- Atomicity inside `emit`: the source takes the sequence number before the buffer's lock; the model makes one emit one step. Lock poisoning is not modelled.
- ObserverBus.ObserverHandle.Recv: the live channel's capacity is not modelled; a receiver that lags may lose any events, which LagNeverRepeats allows for.
- `serialized_len` counts an event that cannot be serialized as empty; events of the model always serialize.
- JSON text: parsing and printing are not modelled, numbers are kept as their text, and `Overlay` takes the parser as a parameter. JSON objects of the telemetry are columns of keys and values in order; where a map would place a key that is newly inserted is not modelled, since no inserted key here is new to its object.
- Coalescer.ChunkCoalescer.Ingest: byte counts of pending entries are the sizes recorded as chunks arrive, as in the source, not their exact serialized lengths.
- PublishQueue.ObserverPublishQueue.NextFrame: flushing may raise the total over the budget again; the budget is stated after an ingest only.
- `EventQueue`, `AgentPool` and prompt tasks: `RespawnTokens` keeps only where each slot's agent is; whether the breaker permits a respawn is an input of the fleet machine, proved separately in `SlotCircuit`.
- RespawnTokens.StepKeepsInv: shutdown, which aborts all tasks, ends the run and is not a step.
- Contents of prompts, replies and permission answers, usage tracking, and the parsing of a stop reason.
- Evaluation of filter expressions, its time limit and its threads: `Filters` takes the evaluator's answers as a parameter of each call, and the printing and parsing of channel ids as functions of which only a lossless round trip is required.
- Filters.MatchEvent: calls run one at a time; two evaluations racing on one counter are not modelled.
- Membership.MembershipTracker.Handle: draining queued events, invalidating sessions and removing reactions after a removal are not modelled; the outcome of subscribing is an input.
- Resp.Stream.ReadResp: the forms of `int` beyond an optional minus sign and decimal digits (spaces, underscores, a plus sign) are errors here; after an error the position of the stream is not stated.
- Encoding of values other than strings, and strings that cannot be encoded as UTF-8, in `encode_command`.
- AcpClient.Client.ControlledTurn: a drain's own future is never dropped; its callers await it to the end.
- RespawnTokens.StepKeepsInv: a prompt task sends its result as its last act; a panic after that is not modelled.
- The pool's life cycle, the author gate, title cleaning and argument normalising are outside the scope of the model.
