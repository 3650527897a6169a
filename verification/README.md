# Verified model of the Streamr network's core logic

Streamr is a peer-to-peer publish/subscribe network. Trackers compute, per stream, which nodes
should be neighbors; nodes pass messages on and stop duplicates; clients put messages back in
order. This project models the stateful classes that do this work and proves what they are for.

Each component is a class with the fields and methods of the original, whose methods are proved
against specification functions or relations on plain values. The properties of whole runs are
lemmas about those specifications. `dafny verify dfyconfig.toml` checks everything.

| files | what they cover |
|---|---|
| `OverlayTopology`, `OverlayDegrees`, `OverlayConvergence`, `Measures` | the overlay graph of a stream; the degree theorem; the end of the chain of connects and disconnects |
| `Tracker`, `TrackerRuns`, `TrackerStatuses`, `InstructionCounter` | overlays over runs of node statuses and disconnects; statuses that cross an instruction |
| `DuplicateMessageDetector`, `MessageChainer`, `ChainDetection` | the gap list as an unseen set; publisher chains through the detector |
| `OrderedMsgChain`, `OrderedDelivery`, `GapRequests`, `PopEvents`, `ArrivalOrder` | the ordering queue with gap requests and timers |
| `SendQueue`, `SendGuarantees`, `SendOutcomes` | the send queue of a connection: retries, batches, backpressure, and the cause of every event |
| `WebRtcEndpoint`, `ConnectionAttempts`, `EndpointAnswers` | connections, their replacement, and the promises of connect calls |
| `StreamManager`, `MessageBuffer`, `Node`, `NodeGuarantees`, `NodeConservation`, `NodePropagation` | a node's handling of messages: announce, pass on, buffer, deliver again, lose nothing |
| `InstructionThrottler`, `ThrottlerGuarantees` | tracker instructions, one at a time per stream |
| `Scaffold`, `ScaffoldRuns` | steps up and cleanups down under a changing check |
| `TrackerRegistry` | the 32-bit hash that picks a tracker |
| `Identifiers`, `MessageRefs`, `Options`, `Sequences` | shared vocabulary |

How the source is read:

- Chance (shuffling, picking a random element, iteration order of maps and sets) is left open: the
  contracts of methods that use it are relations, and the lemmas hold for every outcome.
- The answers of the surroundings (checks, data channels, timers firing, promises settling) are
  inputs. A timer is a flag; it can fire in any order with everything else while it is set.
- Handlers and listeners do not call back into the object and do not throw; starting a peer
  connection may fail but does not close the connection on the spot.
- The heaps of the ordering queue and the send queue are kept as sorted sequences, which is one way
  to be a priority queue.
- Automatic induction is switched off wherever Dafny would otherwise try it; the inductions are
  written out.
- What an object has sent, delivered, emitted or announced is kept in a ghost log.

Where the code does less than its comments or names suggest, a lemma gives the exact condition and
another one an input:

- A status that is not complete leaves an empty overlay behind: `TrackerRuns.StatusKeeps`, and
  `TrackerRuns.IncompleteStatusLeavesAnEmptyOverlay`.
- A connection whose peer connection fails to start stays in the map, owing an answer, without a
  connection timeout: `ConnectionAttempts.TimedUnlessItFailsToStart`, and
  `ConnectionAttempts.FailedStartHangs`.
- Putting a message in a full message buffer fails when the limit is one:
  `MessageBuffers.PutFailsIff`, and `MessageBuffers.SecondMessageFails`.
- A backdated message gets a previous reference that is later than itself, and so is the one that
  raises an invalid numbering error: `ChainDetection.InvalidIffBackdated`, and
  `ChainDetection.BackdatedIsRejected`.
- With a limit of no gaps the duplicate detector would remember nothing; with any other limit no
  number is new twice: `ChainDetection.NewAtMostOnce`, and `ChainDetection.NoGapsNoMemory`.
- A gap that follows another one, while the queue stays blocked, inherits the requests counted for that
  one, so it may be given up after fewer of its own: `GapRequests.AskedInFullIffNotMovedOn`, and
  `GapRequests.LaterGapGetsFewerRequests`.
- Marking a message does not make it the next one: it blocks the chain as any other would:
  `PopEvents.MarkedMessageWaitsToo`.
- The throttler handles two instructions of a stream at a time once an instruction arrives after a
  removal, while the call cancelled by it has not settled: `ThrottlerGuarantees.OverlapBegins`, and
  `ThrottlerGuarantees.RemovalLetsCallsOverlap`.
- A scaffold returns normally with an error in place if the error was set while the check that ends
  the run with all steps up was awaited: `ScaffoldRuns.RunEndsAllUpOrAllDown`, and
  `ScaffoldRuns.LateErrorStays`.

Two of its tests can never go the other way: the one for `n2candidates.length > 0`, and the one for
a node that is its own neighbor.

## Model

| member | source | states |
|---|---|---|
| OverlayTopologies.OverlayTopology.Update | packages/network/src/logic/OverlayTopology.ts:53-65 | the reporting node's edges become its known reported neighbors, both ways, and its back links elsewhere go |
| OverlayTopologies.UpdateMovesOnlyOwnEdges | packages/network/src/logic/OverlayTopology.ts:53-65 | an update keeps the graph symmetric, loop-free and closed, adds at most the reporting node, and moves no edge between two other nodes |
| OverlayTopologies.UpdateTakesReportedNeighbors | packages/network/src/logic/OverlayTopology.ts:53-65 | for every graph and list, also of a node that is new: the node's neighbors are exactly the reported nodes that are known, and both ends agree |
| OverlayTopologies.OverlayTopology.Leave | packages/network/src/logic/OverlayTopology.ts:67-77 | the node and its edges are gone, nothing else changes, and its former neighbors are returned |
| OverlayTopologies.LeaveKeepsWellFormed | packages/network/src/logic/OverlayTopology.ts:67-77 | leaving keeps the graph symmetric, loop-free and closed; exactly the node and its edges are gone |
| OverlayTopologies.OverlayTopology.FormInstructions | packages/network/src/logic/OverlayTopology.ts:92-176 | for an unknown node nothing happens; otherwise the outcome is one the relation `Formed` allows, and the instructions hold exactly the new neighbors of every node that gained one, plus the node itself if it was trimmed or forced |
| OverlayTopologies.OverlayTopology.TrimExcess | packages/network/src/logic/OverlayTopology.ts:98-103 | an overloaded node keeps exactly its limit of its old neighbors, and only it is told |
| OverlayTopologies.OverlayTopology.LinkOpen | packages/network/src/logic/OverlayTopology.ts:105-121 | the node is linked to as many strangers with open slots as fit, or to all of them |
| OverlayTopologies.OverlayTopology.SplitEdges | packages/network/src/logic/OverlayTopology.ts:123-157 | edges of full strangers are split until fewer than two slots are free or the node knows everybody; degrees of others stay; everybody touched is reported |
| OverlayTopologies.OverlayTopology.SplitAt | packages/network/src/logic/OverlayTopology.ts:137-156 | a full stranger always has a neighbor to split from, and the split adds exactly these two to the node |
| OverlayTopologies.FullNodeHasAStranger | packages/network/src/logic/OverlayTopology.ts:139-141 | counting: a non-neighbor with more neighbors than the node has one the node lacks, so the candidate list is never empty |
| OverlayTopologies.SplitAddsTwo | packages/network/src/logic/OverlayTopology.ts:147-152 | splitting an edge between strangers gives the node two neighbors and leaves every other degree as it was |
| OverlayTopologies.LinkThenSplit | packages/network/src/logic/OverlayTopology.ts:105-157 | linking to open slots and then splitting edges is an outcome `Formed` allows: limit kept, others' neighbor sets exact, no split before all open slots are used |
| OverlayTopologies.LinkThenSplitInforms | packages/network/src/logic/OverlayTopology.ts:105-157 | the nodes reported are exactly those that gained a neighbor |
| OverlayTopologies.InformedExactly | packages/network/src/logic/OverlayTopology.ts:158-175 | told is exactly whoever has a neighbor it did not have before, and the node itself where it was trimmed or must be told |
| OverlayTopologies.OverlayTopology.AddBackLinks | packages/network/src/logic/OverlayTopology.ts:59 | the node is added to the neighbor set of each target and of nobody else |
| OverlayTopologies.OverlayTopology.DropBackLinks | packages/network/src/logic/OverlayTopology.ts:60-64 | the node is deleted from the neighbor set of each target and of nobody else |
| OverlayDegrees.SettledDegree | packages/network/src/logic/OverlayTopology.ts:98-157 | degree theorem: after a call the node has at most its limit, at least one less or everybody, and with a slot free every non-neighbor is full |
| OverlayDegrees.NobodyIsOverloaded | packages/network/src/logic/OverlayTopology.ts:92-176 | no node ends above the limit unless it was above before, and no full node gains a neighbor net |
| OverlayDegrees.FormedMovesLittle | packages/network/src/logic/OverlayTopology.ts:92-176 | a call makes no edge between two other nodes, takes one away only to link both to the node and only once no open slot is left, and keeps the node's neighbors or trims it to exactly its limit |
| OverlayDegrees.GainsComeInPairs | packages/network/src/logic/OverlayTopology.ts:143-152 | a full node is gained only together with a second node, so such a call nets at least one edge |
| OverlayDegrees.QuietIffSettled | packages/network/src/logic/OverlayTopology.ts:92-176 | a call changes the graph exactly when the node is not settled, and without force it returns nothing exactly then; so repeating it returns nothing |
| OverlayDegrees.SettledStays | packages/network/src/logic/OverlayTopology.ts:92-176 | a call for a node that is not above the limit unsettles nobody else |
| OverlayConvergence.ChangeIsProgress | packages/network/src/logic/OverlayTopology.ts:122-125 | a call that changes the graph lowers the total excess degree, or keeps it and raises the number of edges |
| OverlayConvergence.ChangeLowersPotential | packages/network/src/logic/OverlayTopology.ts:122-125 | every change lowers one natural number computed from the graph |
| OverlayConvergence.ChangesAreBounded | packages/network/src/logic/OverlayTopology.ts:122-125 | over any schedule of calls on a fixed node set the graph changes at most as often as that number: no never-ending chain of connects and disconnects |
| OverlayConvergence.SettledRunIsQuiet | packages/network/src/logic/OverlayTopology.ts:92-176 | once everybody is settled no schedule of calls changes anything |
| OverlayConvergence.RoundsSettleEveryone | packages/network/src/logic/OverlayTopology.ts:92-176 | after two rounds that call every node, or one if nobody is above the limit before it, every node is settled |
| OverlayConvergence.RoundLimitsEveryone | packages/network/src/logic/OverlayTopology.ts:98-103 | one round leaves nobody it calls above the limit, and lifts nobody above it |
| OverlayConvergence.RoundSettlesEveryone | packages/network/src/logic/OverlayTopology.ts:92-176 | where nobody is above the limit, one round settles everybody it calls and unsettles nobody |
| OverlayConvergence.OneRoundIsNotEnough | packages/network/src/logic/OverlayTopology.ts:98-121 | a star with a limit of one, leaves called before the center, is left with open slots that could be linked |
| OverlayConvergence.EveryRunIsWellFormed | packages/network/src/logic/OverlayTopology.ts:53-176 | over every run of updates, leaves and calls the graph stays symmetric, loop-free and closed over its nodes |
| InstructionCounters.InstructionCounter.SetOrIncrement | packages/network/src/logic/InstructionCounter.ts:14-18 | the counter of one node and stream goes up by one, from zero if new, and is returned |
| InstructionCounters.InstructionCounter.FilterStatus | packages/network/src/logic/InstructionCounter.ts:20-29 | exactly the streams whose counter is not behind, or that say the node has left, remain; missing counters of the source start at zero |
| InstructionCounters.DroppedIffBehind | packages/network/src/logic/InstructionCounter.ts:20-29 | a stream is dropped exactly when its counter is behind the stored one and is not -1 |
| InstructionCounters.EachIsCountedOnce | packages/network/src/logic/InstructionCounter.ts:14-18 | counting some nodes on a stream raises exactly their counters there, by one |
| InstructionCounters.InstructionCounter.RemoveStream | packages/network/src/logic/InstructionCounter.ts:35-39 | the stream's counter is gone from every node and no other counter changes |
| Trackers.Tracker.ProcessNodeStatus | packages/network/src/logic/Tracker.ts:99-121 | the overlays and counters afterwards are an outcome of filtering, creating, updating or leaving, and forming instructions, in that order |
| Trackers.Tracker.UpdateNode | packages/network/src/logic/Tracker.ts:141-155 | current streams are updated and the node leaves every overlay it did not report |
| Trackers.Tracker.UpdateNodeOnStream | packages/network/src/logic/Tracker.ts:157-170 | only a single current stream is acted on: left if its counter is -1, else updated |
| Trackers.Tracker.FormAndSendOn | packages/network/src/logic/Tracker.ts:172-195 | instructions are formed on an existing overlay; every node told is counted once and sent exactly its new neighbors there and its new counter |
| Trackers.Tracker.CountAll | packages/network/src/logic/Tracker.ts:176-184 | each node told is counted once, and its instruction carries the counter after counting |
| Trackers.Tracker.LeaveAndCheckEmptyOverlay | packages/network/src/logic/Tracker.ts:207-219 | the node's edges and counters go; an overlay left empty goes with its counters, otherwise every former neighbor is served by force |
| Trackers.Tracker.RemoveNode | packages/network/src/logic/Tracker.ts:197-205 | the node leaves every overlay |
| TrackerRuns.DisconnectKeeps | packages/network/src/logic/Tracker.ts:197-219 | a disconnected node is in no overlay, exactly the overlays it was alone in are gone, none is empty, and its counters are gone if there was any overlay |
| TrackerRuns.StatusKeeps | packages/network/src/logic/Tracker.ts:99-195 | overlays stay well-formed and positive counters backed by an overlay; no overlay is empty if and only if the status is complete; the source is settled in each reported overlay it belongs to; after a full status it is in no other |
| TrackerRuns.IncompleteStatusLeavesAnEmptyOverlay | packages/network/src/logic/Tracker.ts:157-170 | a single-stream status with counter -2 for a new stream leaves an empty overlay |
| TrackerRuns.CompleteIffNoBlank | packages/network/src/logic/Tracker.ts:133-170 | a status is complete exactly when it leaves no new stream without its source |
| TrackerRuns.ProperIsComplete | packages/network/src/logic/StreamManager.ts:84-101 | a status as nodes send it, one stream if single and no counter below -1, is complete in every reachable state |
| TrackerRuns.EveryRunIsKept | packages/network/src/logic/Tracker.ts:93-219 | over every run of such statuses and disconnects: no empty overlay, every positive counter has its overlay, a gone node is nowhere, a reporting node meets the degree theorem |
| TrackerRuns.LeaverIsForgotten | packages/network/src/logic/Tracker.ts:207-219 | serving the former neighbors never counts an instruction for the node that left |
| TrackerRuns.AllFormedSettles | packages/network/src/logic/Tracker.ts:172-195 | forming instructions stream after stream settles the node on each of them and touches no other overlay |
| TrackerStatuses.OutdatedStatusIsIgnored | packages/network/src/logic/Tracker.ts:99-121 | where a status is behind the last instruction its stream's overlay is not touched |
| TrackerStatuses.CurrentStatusIsApplied | packages/network/src/logic/Tracker.ts:141-170 | where it is not behind, the node's edges on the stream become exactly those to the reported nodes that are known, at both ends, and no other edge moves |
| TrackerStatuses.LeavingStatusIsObeyed | packages/network/src/logic/Tracker.ts:157-163 | a single-stream status with counter -1 takes the node off that stream, whatever instructions it was sent, and touches no other |
| TrackerStatuses.FormedCounts | packages/network/src/logic/Tracker.ts:172-195 | a node's counter on the stream rises by one exactly if it gained a neighbor, or is the node served and was trimmed or forced |
| TrackerStatuses.InstructionOutdatesStatuses | packages/network/src/logic/Tracker.ts:99-195 | once a node has been told of a new neighbor, its statuses are ignored until they carry the new counter |
| TrackerStatuses.FormerNeighborsAreTold | packages/network/src/logic/Tracker.ts:207-219 | when a node leaves a stream each former neighbor is sent an instruction |
| DuplicateMessageDetectors.DuplicateMessageDetector.MarkAndCheck | packages/network/src/logic/DuplicateMessageDetector.ts:99-158 | the verdict and the new gap list are those of `Check`, for every gap list, message and limit; gaps stay sorted and within the limit |
| DuplicateMessageDetectors.CheckKeepsSorted | packages/network/src/logic/DuplicateMessageDetector.ts:143-148 | gaps stay ascending, non-empty, strictly separated, the last unbounded, at most the limit |
| DuplicateMessageDetectors.DuplicateMessageDetector.CarveGap | packages/network/src/logic/DuplicateMessageDetector.ts:131-141 | the four ways to shrink, split or remove a gap are one operation: take the stretch out of it |
| DuplicateMessageDetectors.CarvedUnseen | packages/network/src/logic/DuplicateMessageDetector.ts:131-141 | exactly the numbers of the stretch leave the unseen set |
| DuplicateMessageDetectors.CarvedIsSorted | packages/network/src/logic/DuplicateMessageDetector.ts:131-148 | taking a stretch out of a gap keeps the list sorted and adds at most one gap |
| DuplicateMessageDetectors.ScanReflectsUnseen | packages/network/src/logic/DuplicateMessageDetector.ts:120-157 | what the downward search has found out, at each point of the loop, in terms of the unseen set |
| DuplicateMessageDetectors.VerdictReflectsUnseen | packages/network/src/logic/DuplicateMessageDetector.ts:99-157 | true iff the stretch lies inside the unseen set, false iff disjoint from it, a gap mismatch iff it overlaps partly |
| DuplicateMessageDetectors.UnchainedVerdict | packages/network/src/logic/DuplicateMessageDetector.ts:109-118 | without previous number: new iff everything from the number on is unseen, else a duplicate |
| DuplicateMessageDetectors.MarkedUnseen | packages/network/src/logic/DuplicateMessageDetector.ts:112-151 | a new message takes exactly its stretch out of the unseen set |
| DuplicateMessageDetectors.CappedUnseen | packages/network/src/logic/DuplicateMessageDetector.ts:160-165 | the limit costs at most the lowest gap, only when exceeded |
| DuplicateMessageDetectors.CheckIsMarkThenCap | packages/network/src/logic/DuplicateMessageDetector.ts:150-151 | the limit plays no part in the verdict and is applied after the marking |
| MessageChainers.MessageChainer.Add | packages/client/src/publish/MessageChainer.ts:15-36 | reference and previous reference handed out, and the reference remembered, for equal, later and backdated timestamps |
| MessageChainers.ChainIsLinked | packages/client/src/publish/MessageChainer.ts:22-34 | the messages that are not backdated strictly increase and each points at the one before |
| MessageChainers.HandedIsChainOrBackdated | packages/client/src/publish/MessageChainer.ts:22-34 | whatever is handed out is in that chain, or has a previous reference that is not earlier |
| MessageChainers.HandedOutExactly | packages/client/src/publish/MessageChainer.ts:15-36 | each message keeps its timestamp; its sequence number counts the earlier messages with that timestamp, and is zero if it is backdated |
| MessageChainers.OrderedTimestampsChainEverything | packages/client/src/publish/MessageChainer.ts:22-34 | non-decreasing timestamps give one linked chain of all messages |
| ChainDetection.InvalidIffBackdated | packages/client/src/publish/MessageChainer.ts:23-34 | a message has invalid numbering exactly when it is backdated |
| ChainDetection.BackdatedIsRejected | packages/network/src/logic/DuplicateMessageDetector.ts:100-102 | published with timestamps 2 and 1, the second message is never accepted, in whatever order the two arrive |
| ChainDetection.NewAtMostOnce | packages/network/src/logic/DuplicateMessageDetector.ts:96-158 | over any messages, malformed ones included, no number is reported new twice |
| ChainDetection.NoGapsNoMemory | packages/network/src/logic/DuplicateMessageDetector.ts:160-165 | with a limit of zero gaps a message is new twice |
| ChainDetection.RedeliveryIsDuplicate | packages/network/src/logic/DuplicateMessageDetector.ts:96-158 | a message reported new is a duplicate ever after, never an error |
| ChainDetection.ChainVerdict | packages/network/src/logic/DuplicateMessageDetector.ts:99-158 | while gaps end at chain messages, a chain message is new iff its number is unseen and never an error |
| ChainDetection.ChainNeverFails | packages/network/src/logic/DuplicateMessageDetector.ts:99-158 | presented in any order and multiplicity, chain messages raise no error; exactly the messages outside the chain are invalid |
| ChainDetection.UnseenLinks | packages/network/src/logic/DuplicateMessageDetector.ts:64-85 | below the limit the unseen chain messages are exactly the later ones not presented yet |
| ChainDetection.NewExactlyOnce | packages/network/src/logic/DuplicateMessageDetector.ts:64-85 | below the limit a chain message is new exactly when it is the first presented, or later than that and presented for the first time |
| ChainDetection.LongLimitIsNeverHit | packages/network/src/logic/DuplicateMessageDetector.ts:160-165 | a limit no smaller than the chain is never hit |
| ChainDetection.PublishedMessagesNeverMismatch | packages/client/src/publish/MessageChainer.ts:15-36 | for any timestamps and any order of arrival: no gap mismatch, invalid numbering for exactly the backdated messages, no reference new twice |
| ChainDetection.PublishedMessagesAreNewOnce | packages/client/src/publish/MessageChainer.ts:15-36 | with a long enough limit each published message later than the first one presented is new exactly once |
| OrderedMsgChains.MsgChainQueue.Push | packages/protocol/src/utils/OrderedMsgChain.ts:92-98 | the message is put in its place by reference, unless one with its reference is there |
| OrderedMsgChains.MsgChainQueue.Pop | packages/protocol/src/utils/OrderedMsgChain.ts:103-110 | the message with the least reference leaves |
| OrderedMsgChains.InsertedIsAscending | packages/protocol/src/utils/OrderedMsgChain.ts:57-125 | inserting a new reference keeps strict order and adds exactly that message |
| OrderedMsgChains.OrderedMsgChain.Add | packages/protocol/src/utils/OrderedMsgChain.ts:204-238 | stale messages are ignored; others are queued, marked if gap handling is off, and the queue is checked |
| OrderedMsgChains.OrderedMsgChain.MarkMessageExplicitly | packages/protocol/src/utils/OrderedMsgChain.ts:243-266 | a message that is not stale is marked and added |
| OrderedMsgChains.OrderedMsgChain.CheckQueue | packages/protocol/src/utils/OrderedMsgChain.ts:331-351 | everything next in the chain is popped; then a gap is scheduled, or it is cleared and a drain emitted after more than one pop |
| OrderedMsgChains.OrderedMsgChain.Disable | packages/protocol/src/utils/OrderedMsgChain.ts:282-286 | gap handling ends, the gap is cleared and the queue checked |
| OrderedMsgChains.OrderedMsgChain.OnFirstGap | packages/protocol/src/utils/OrderedMsgChain.ts:387-398 | the propagation timer requests once and starts the interval if the gap is still there |
| OrderedMsgChains.OrderedMsgChain.OnNextGap | packages/protocol/src/utils/OrderedMsgChain.ts:391-397 | the interval requests again, or stops when the gap is gone |
| OrderedMsgChains.OrderedMsgChain.RequestGapFill | packages/protocol/src/utils/OrderedMsgChain.ts:405-450 | another request within the limit, after that the gap is skipped, reported, and the queue checked |
| OrderedDelivery.BlockedChainIsArmed | packages/protocol/src/utils/OrderedMsgChain.ts:331-399 | over every run a blocked head is chained and not linked to the last ordered reference; a gap is pending iff a timer is set; without outside clearing a non-empty queue always has one |
| OrderedDelivery.PopsAreOrderedAndConserved | packages/protocol/src/utils/OrderedMsgChain.ts:204-238 | over every run popped references strictly increase, and accepted messages are exactly the popped and the queued ones, each once |
| OrderedDelivery.AdjacentPopsAreLinked | packages/protocol/src/utils/OrderedMsgChain.ts:310-450 | two messages popped in a row are linked, or the second is unchained, or a failed gap was reported between them |
| GapRequests.GivenUpAfterAllRequests | packages/protocol/src/utils/OrderedMsgChain.ts:381-446 | over every run: a gap is given up after exactly the limit of requests since one was last given up or the queue drained; requests and failures start right after the last ordered reference |
| GapRequests.RequestsNameTheGap | packages/protocol/src/utils/OrderedMsgChain.ts:405-446 | while nothing arrives, what is requested or given up ends at the previous reference of the very message that is popped next |
| GapRequests.AskedInFullIffNotMovedOn | packages/protocol/src/utils/OrderedMsgChain.ts:381-446 | the gap given up was itself requested as often as the limit says iff no message was popped after the first of the requests |
| GapRequests.LaterGapGetsFewerRequests | packages/protocol/src/utils/OrderedMsgChain.ts:381-446 | an input: with a limit of two a gap is given up after one request for it |
| PopEvents.SkippedIffMarked | packages/protocol/src/utils/OrderedMsgChain.ts:356-379 | with gap handling enabled, a message that leaves the queue is skipped iff it was marked explicitly, and delivered otherwise |
| PopEvents.MarkedMessageWaitsToo | packages/protocol/src/utils/OrderedMsgChain.ts:240-263 | a marked message leaves the queue at once only if it is unchained or linked to the last ordered reference, and blocks the chain otherwise |
| PopEvents.DisabledChainOnlyDelivers | packages/protocol/src/utils/OrderedMsgChain.ts:282-290 | once gap handling is disabled nothing is requested, reported as failed or skipped |
| PopEvents.DrainsCountPops | packages/protocol/src/utils/OrderedMsgChain.ts:331-349 | a drain is emitted only after at least two pops in a row, and reports how many |
| OrderedDelivery.BlockedChainDrains | packages/protocol/src/utils/OrderedMsgChain.ts:381-450 | with no more arrivals the queue is empty after at most its length times one more than the request limit timer events |
| OrderedDelivery.TimerLowersPatience | packages/protocol/src/utils/OrderedMsgChain.ts:405-450 | every timer event on a blocked chain uses up one request or at least one queued message |
| OrderedDelivery.InitialIsGood | packages/protocol/src/utils/OrderedMsgChain.ts:161-199 | a new chain meets every condition that the statements over runs start from |
| ArrivalOrder.DeliveryIsIndependentOfArrivalOrder | packages/protocol/src/utils/OrderedMsgChain.ts:204-376 | for any order, duplicates and timers, what has been delivered is at every moment exactly the hole-free run from the first arrival |
| ArrivalOrder.PublishedChainIsLinked | packages/client/src/publish/MessageChainer.ts:15-36 | a publisher's chain is a linked chain in that sense |
| SendQueues.MessageQueue.Add | packages/network/src/connection/MessageQueue.ts:73-81 | the message goes last; in a full queue the oldest is dropped and told so; with a limit of zero there is none to drop and the call fails |
| SendQueues.WebRtcConnection.ClearQueue | packages/network/src/connection/MessageQueue.ts:99-102 | the queue is empty and its messages are lost without their senders being told |
| SendQueues.QueueItem.IncrementTries | packages/network/src/connection/MessageQueue.ts:43-52 | a try is counted and the tenth makes the item failed |
| SendQueues.WebRtcConnection.Send | packages/network/src/connection/WebRtcConnection.ts:239-242 | a flush is scheduled and the message queued |
| SendQueues.WebRtcConnection.AttemptToFlushMessages | packages/network/src/connection/WebRtcConnection.ts:316-374 | the loop does what the recursive specification of its rounds does, for any answers of the channel, and ends |
| SendQueues.WebRtcConnection.FlushRound | packages/network/src/connection/WebRtcConnection.ts:326-372 | one round: drop failed, drop oversized, pause, send, or count a failure |
| SendQueues.WebRtcConnection.ProcessFailedMessage | packages/network/src/connection/WebRtcConnection.ts:376-395 | a failed try is counted, the tenth removes the message, a retry is scheduled |
| SendQueues.WebRtcConnection.EmitOpen | packages/network/src/connection/WebRtcConnection.ts:418-429 | opening schedules a flush |
| SendQueues.WebRtcConnection.EmitLowBackpressure | packages/network/src/connection/WebRtcConnection.ts:462-469 | a paused connection resumes, schedules a flush and signals; another one does nothing |
| SendQueues.WebRtcConnection.Close | packages/network/src/connection/WebRtcConnection.ts:178-207 | closing finishes the connection and clears its flush timers, once |
| SendQueues.RoundMakesProgress | packages/network/src/connection/WebRtcConnection.ts:318-373 | every round that goes on shortens the queue or uses up a try of the head, so the flush loop ends |
| SendGuarantees.EveryRunIsSound | packages/network/src/connection/WebRtcConnection.ts:316-395 | over every run: messages leave in the order added; those added are exactly the queued, sent, failed and lost ones; at most ten failed tries each; the size limit holds |
| SendGuarantees.ClearLosesExactlyTheRest | packages/network/src/connection/WebRtcEndpoint.ts:432 | stopping loses exactly the messages that were added and are neither sent, failed nor lost before |
| SendGuarantees.QueueDrains | packages/network/src/connection/WebRtcConnection.ts:316-395 | with no more sends, on an open, unpaused connection whose channel stays open and below the threshold, the queue is empty after at most ten flushes per message, and until then a flush is scheduled |
| SendGuarantees.RoundIsSound | packages/network/src/connection/WebRtcConnection.ts:326-372 | the head has never failed, so the branch that pops failed items is dead, and a round keeps all of the above |
| SendGuarantees.FailureIsSound | packages/network/src/connection/WebRtcConnection.ts:376-395 | a failed try is charged to the head alone and the tenth takes it out of the queue |
| SendGuarantees.FlushSendsAtMostABatch | packages/network/src/connection/WebRtcConnection.ts:317-324 | one flush sends at most ten messages |
| SendOutcomes.GoodChannelGetsABatch | packages/network/src/connection/WebRtcConnection.ts:316-374 | where the channel takes everything, one flush sends exactly the first ten messages, or all, in order, and does nothing else; another flush is scheduled iff more are left |
| SendOutcomes.FlushBegins | packages/network/src/connection/WebRtcConnection.ts:316-374 | what a flush does first, by size, pause, threshold, exception, closing, acceptance and refusal, and which of these end it |
| SendOutcomes.RefusedIsTriedAgain | packages/network/src/connection/WebRtcConnection.ts:359-372 | a message the channel refuses is tried again in the same flush |
| SendOutcomes.EveryEventIsExplained | packages/network/src/connection/WebRtcConnection.ts:307-396 | over every run each event has its cause in the operation that logged it: sent only when the channel took it and it fits, failed only when it did not |
| SendOutcomes.DropsHaveReasons | packages/network/src/connection/WebRtcConnection.ts:316-396 | a message is dropped only by a new one finding the queue full, for being too large, or after exactly ten failed tries |
| SendGuarantees.EveryRunIsAwake | packages/network/src/connection/WebRtcConnection.ts:307-395 | no lost wake-up: open, unfinished and with something queued, a flush is scheduled or the connection is paused |
| SendGuarantees.EveryRunIsSignalled | packages/network/src/connection/WebRtcConnection.ts:338-343 | the signals of a connection alternate, starting with bufferHigh, and nothing is sent while paused or at the high threshold |
| SendGuarantees.NothingHappensWhilePaused | packages/network/src/connection/WebRtcConnection.ts:338-343 | after bufferHigh, another one or an attempt to send comes only after bufferLow or on a new connection |
| WebRtcEndpoints.DeferredConnectionAttempt.Resolve | packages/network/src/connection/DeferredConnectionAttempt.ts:11-30 | only the first settlement counts |
| WebRtcEndpoints.DeferredConnectionAttempt.Reject | packages/network/src/connection/DeferredConnectionAttempt.ts:11-34 | only the first settlement counts |
| WebRtcEndpoints.WebRtcConnection.StealDeferredConnectionAttempt | packages/network/src/connection/WebRtcConnection.ts:172-176 | the attempt is handed out and no longer held |
| WebRtcEndpoints.WebRtcConnection.Close | packages/network/src/connection/WebRtcConnection.ts:178-229 | closing for the first time finishes the connection, rejects the attempt it holds and tells the listeners |
| WebRtcEndpoints.WebRtcConnection.EmitOpen | packages/network/src/connection/WebRtcConnection.ts:418-429 | opening resolves the attempt and ends the connection timeout |
| WebRtcEndpoints.WebRtcEndpoint.CloseConnection | packages/network/src/connection/WebRtcEndpoint.ts:167-178 | closing through the listener removes the connection from the map only while it is the one in the map |
| WebRtcEndpoints.WebRtcEndpoint.CreateConnection | packages/network/src/connection/WebRtcEndpoint.ts:121-140 | a new connection on the given attempt, or on a new pending one |
| WebRtcEndpoints.WebRtcEndpoint.ReplaceConnection | packages/network/src/connection/WebRtcEndpoint.ts:265-287 | the old connection loses its attempt, leaves the map and is closed; a new one takes both |
| WebRtcEndpoints.WebRtcEndpoint.Connect | packages/network/src/connection/WebRtcEndpoint.ts:289-341 | rejects when stopped, resolves when connected, joins the pending attempt, fails without one, else opens a connection |
| WebRtcEndpoints.WebRtcEndpoint.OnRtcOffer | packages/network/src/connection/WebRtcEndpoint.ts:189-213 | an offer opens a connection, replaces an identified one, or identifies the one there |
| WebRtcEndpoints.WebRtcEndpoint.OnConnectRequest | packages/network/src/connection/WebRtcEndpoint.ts:250-263 | a connect request replaces an existing connection or connects |
| WebRtcEndpoints.WebRtcEndpoint.OnSignalError | packages/network/src/connection/WebRtcEndpoint.ts:241-248 | a signalling error closes the connection, if there is one |
| WebRtcEndpoints.WebRtcEndpoint.Close | packages/network/src/connection/WebRtcEndpoint.ts:373-380 | the connection leaves the map and is closed |
| WebRtcEndpoints.WebRtcEndpoint.OnStateChange | packages/network/src/connection/NodeWebRtcConnection.ts:215-227 | the state is noted; lost and failed states close, connecting restarts the timeout |
| WebRtcEndpoints.WebRtcEndpoint.Stop | packages/network/src/connection/WebRtcEndpoint.ts:420-434 | the map is emptied first and every connection it held is closed |
| ConnectionAttempts.After | packages/network/src/connection/WebRtcEndpoint.ts:265-341 | over every run of calls, signals and connection events the invariant holds: pending means held by one unfinished connection to the attempt's peer, the map is the unfinished connections, outcomes are final, stopped stays stopped |
| ConnectionAttempts.PendingIffOneHolder | packages/network/src/connection/WebRtcConnection.ts:172-229 | an attempt is pending if and only if exactly one unfinished connection holds it |
| ConnectionAttempts.MapHoldsTheUnfinished | packages/network/src/connection/WebRtcEndpoint.ts:167-178 | the map holds exactly the unfinished connections, each under its own peer |
| ConnectionAttempts.OneLiveConnectionPerPeer | packages/network/src/connection/WebRtcEndpoint.ts:121-174 | two unfinished connections are to different peers, so the queue that successive connections to a peer share has one user |
| ConnectionAttempts.ReplacingCarriesThePromise | packages/network/src/connection/WebRtcEndpoint.ts:265-287 | replacing settles no promise and the successor holds the pending one |
| ConnectionAttempts.ReplacingKeeps | packages/network/src/connection/WebRtcEndpoint.ts:265-287 | stealing, closing, creating and starting together keep the invariant |
| ConnectionAttempts.ConnectPromises | packages/network/src/connection/WebRtcEndpoint.ts:289-341 | a promise from connect is pending, for that peer and held by its connection, and over any later run it resolves to that peer or not at all |
| ConnectionAttempts.StopSettlesEverything | packages/network/src/connection/WebRtcEndpoint.ts:420-434 | after stop, and whatever comes later, no connection is in the map and no promise is pending |
| ConnectionAttempts.TimeoutSettles | packages/network/src/connection/WebRtcConnection.ts:161-165 | that timeout, when it fires, rejects the promise and changes no other |
| ConnectionAttempts.TimedUnlessItFailsToStart | packages/network/src/connection/WebRtcConnection.ts:156-166 | whatever the operation: afterwards every connection that owes an answer has its timeout, if and only if the operation set up no connection whose peer connection failed to start |
| ConnectionAttempts.TimedThroughoutIffAllStart | packages/network/src/connection/WebRtcEndpoint.ts:189-341 | the same over every run, at every moment |
| ConnectionAttempts.FailedStartHangs | packages/network/src/connection/WebRtcEndpoint.ts:299-326 | after a connect whose peer connection fails to start, the next connect waits for a pending promise while no connection timeout is running |
| EndpointAnswers.ConnectedPeerIsAnswered | packages/network/src/connection/WebRtcEndpoint.ts:289-313 | once a connection has opened and is connected, and while it neither ends nor changes state, connect resolves to its peer |
| EndpointAnswers.ConnectAnswersExactly | packages/network/src/connection/WebRtcEndpoint.ts:289-313 | with an unfinished connection to the peer: resolved iff its state is connected, else its promise, else an exception |
| EndpointAnswers.WhatEndsAConnection | packages/network/src/connection/WebRtcEndpoint.ts:189-260 | exactly which events end a connection, for good; nothing but its own changes of state changes its state |
| EndpointAnswers.WhatSettlesAPromise | packages/network/src/connection/WebRtcEndpoint.ts:265-287 | a pending promise resolves exactly when its connection opens, is rejected, for that reason, exactly when the connection ends without being replaced, and stays pending otherwise |
| EndpointAnswers.IdentifiersAndTimeouts | packages/network/src/connection/WebRtcEndpoint.ts:189-285 | which connection an offer, a request and a call leave in the map, under which identifier; opening ends the timeout, connecting starts it |
| StreamManagers.StreamManager.SetUpStream | packages/network/src/logic/StreamManager.ts:25-38 | a new stream starts without neighbors; one that is set up is refused |
| StreamManagers.StreamManager.MarkNumbersAndCheckThatIsNotDuplicate | packages/network/src/logic/StreamManager.ts:40-59 | the detector of the message's chain, made when missing, checks it; no other detector changes; a stream not set up is refused |
| StreamManagers.StreamManager.AddNode | packages/network/src/logic/StreamManager.ts:65-75 | the node becomes a neighbor both ways |
| StreamManagers.StreamManager.RemoveNodeFromStream | packages/network/src/logic/StreamManager.ts:77-82 | the node is no neighbor of the stream any more, either way |
| StreamManagers.StreamManager.RemoveNodeFromAllStreams | packages/network/src/logic/StreamManager.ts:103-113 | the node is no neighbor anywhere, and exactly the streams it was on are returned |
| StreamManagers.StreamManager.RemoveStream | packages/network/src/logic/StreamManager.ts:115-120 | the stream goes with all its detectors, and its neighbors are returned |
| MessageBuffers.PutFailsIff | packages/network/src/helpers/MessageBuffer.ts:22-32 | putting fails iff the limit is zero, or one with a message inside; otherwise the message is last and at most the oldest is lost, if full |
| MessageBuffers.MessageBuffer.PutIn | packages/network/src/helpers/MessageBuffer.ts:22-37 | the buffer of the stream afterwards, and whether it failed; every buffered message keeps a running timer of its own, and no other runs |
| MessageBuffers.MessageBuffer.Pop | packages/network/src/helpers/MessageBuffer.ts:39-52 | the oldest message leaves with its timer, and an empty buffer goes |
| MessageBuffers.MessageBuffer.PopAll | packages/network/src/helpers/MessageBuffer.ts:54-63 | all messages of the stream leave in order, with their timers |
| MessageBuffers.MessageBuffer.OnTimeout | packages/network/src/helpers/MessageBuffer.ts:33-36 | the timer that fires takes out the oldest message of its stream |
| Nodes.Node.OnDataReceived | packages/network/src/logic/Node.ts:283-328 | set up, check, announce if new, pass on if new or marked, else ignore |
| Nodes.Node.PropagateMessage | packages/network/src/logic/Node.ts:330-386 | to every outbound neighbor but the source, or marked and buffered when there is none |
| Nodes.Node.SubscribeToStreamOnNode | packages/network/src/logic/Node.ts:461-470 | the neighbor joins and everything buffered for the stream is received again |
| Nodes.Node.HandleBufferedMessages | packages/network/src/logic/Node.ts:518-523 | the buffered messages are received again in order, until one of them fails |
| Nodes.Node.UnsubscribeFromStream | packages/network/src/logic/Node.ts:200-202 | the stream is given up with all it remembers |
| NodeGuarantees.AnnouncedAtMostOnce | packages/network/src/logic/Node.ts:295-319 | a number of a publisher chain is announced twice only if its stream was given up in between, whatever the previous references |
| NodeGuarantees.EveryRunKeeps | packages/network/src/logic/Node.ts:190-523 | over every run, whatever was announced and not given up since is seen by its detector |
| NodeGuarantees.ExaminingKeeps | packages/network/src/logic/Node.ts:296-319 | a message announced was not seen before, is seen from now on, and nothing seen is forgotten |
| NodeGuarantees.RedeliveryNeverAnnounces | packages/network/src/logic/Node.ts:518-523 | a joining neighbor makes all buffered messages be received again without failure, error or announcement |
| NodeGuarantees.EveryRunKeepsRedeliverable | packages/network/src/logic/Node.ts:337-346 | while a stream is not given up, everything buffered for it stays within the limit and a duplicate when received again |
| NodeGuarantees.JoiningEmptiesTheBuffer | packages/network/src/logic/Node.ts:320-385 | every marked message buffered for a stream is passed on when a neighbor it did not come from joins |
| NodeGuarantees.ReceivingFailsIff | packages/network/src/logic/Node.ts:337-346 | a message makes the node fail exactly when it must be buffered where one is waiting under a limit of one, or the limit is zero |
| NodeConservation.ReceivingWaits | packages/network/src/logic/Node.ts:295-346 | receiving one message, new or again, leaves whatever is owed on its stream marked and buffered, unless the buffer is full |
| NodeConservation.EveryRunWaits | packages/network/src/logic/Node.ts:283-346 | over every run without a forgotten mark, a timeout, an overflow or a stream given up, whatever was announced is passed on or is marked and buffered |
| NodeConservation.NoAnnouncedMessageIsLost | packages/network/src/logic/Node.ts:283-346 | the same from the start, for each announcement |
| NodeConservation.JoiningPaysWhatIsOwed | packages/network/src/logic/Node.ts:461-523 | when a neighbor joins, everything owed on the stream that has a source other than the neighbor is passed on and owed no more |
| NodePropagation.NewIsAnnounced | packages/network/src/logic/Node.ts:295-319 | receiving a message announces it iff its detector says new, and announces nothing else |
| NodePropagation.IgnoredIffNotDue | packages/network/src/logic/Node.ts:319-327 | a message received is ignored exactly if it is neither new nor a marked duplicate |
| NodePropagation.ReceivedIsSentExactly | packages/network/src/logic/Node.ts:319-386 | a message received is sent to exactly the outbound neighbors it did not come from, if new or marked, and else to nobody |
| NodePropagation.ReceivedIsKeptExactly | packages/network/src/logic/Node.ts:319-346 | it is marked and buffered last exactly if it is due and has nobody to go to; otherwise the buffer stays |
| NodePropagation.FirstIsReceivedFirst | packages/network/src/logic/Node.ts:518-523 | buffered messages are received again in the order in which they were buffered, up to the first failure |
| NodePropagation.NobodyIsSentItsOwn | packages/network/src/logic/Node.ts:330-386 | over every run whatever is sent goes to somebody, was received before, and does not go back to where it came from |
| InstructionThrottlers.InstructionThrottler.Add | packages/network/src/logic/InstructionThrottler.ts:41-65 | an instruction not older than the last taken replaces the queued one and is handled at once if nothing is; other streams are untouched |
| InstructionThrottlers.InstructionThrottler.RemoveStreamId | packages/network/src/logic/InstructionThrottler.ts:67-77 | queue, counter and ongoing handling of the stream go, the call cancelled |
| InstructionThrottlers.InstructionThrottler.Stop | packages/network/src/logic/InstructionThrottler.ts:83-94 | the same for every stream, for good |
| InstructionThrottlers.InstructionThrottler.InvokeHandleFnWithLock | packages/network/src/logic/InstructionThrottler.ts:96-112 | the queued instruction, if any, is handed to the handler |
| InstructionThrottlers.InstructionThrottler.OnSettled | packages/network/src/logic/InstructionThrottler.ts:111-118 | a call that settles goes on with the queue unless it was cancelled |
| InstructionThrottlers.InstructionThrottler.IsIdle | packages/network/src/logic/InstructionThrottler.ts:79-81 | idle iff no stream is busy |
| ThrottlerGuarantees.EveryRunKeeps | packages/network/src/logic/InstructionThrottler.ts:41-119 | over every run: exactly the ongoing call is neither cancelled nor settled, handlings follow their acceptance directly, queue and counter are what was last accepted, something waits only behind a call |
| ThrottlerGuarantees.AtMostOneRuns | packages/network/src/logic/InstructionThrottler.ts:15-20 | at most one call per stream is neither cancelled nor settled; cancelled calls may still be running beside it |
| ThrottlerGuarantees.OverlapBegins | packages/network/src/logic/InstructionThrottler.ts:15-20 | where no two calls of a stream are unsettled, two are after a step iff the step takes an instruction while the stream is not busy and a call is unsettled |
| ThrottlerGuarantees.OverlapNeedsRemoval | packages/network/src/logic/InstructionThrottler.ts:67-94 | over every run: two calls are unsettled only if the stream was removed or the throttler stopped after the one was made and before the other, and the earlier is cancelled |
| ThrottlerGuarantees.RemovalLetsCallsOverlap | packages/network/src/logic/InstructionThrottler.ts:67-77 | an instruction, a removal and another instruction leave two calls unsettled, against the promise of one at a time |
| ThrottlerGuarantees.CountersNeverDecrease | packages/network/src/logic/InstructionThrottler.ts:46-47 | between removals the counters of accepted and handled instructions never decrease |
| ThrottlerGuarantees.OnlySupersededAreSkipped | packages/network/src/logic/InstructionThrottler.ts:15-20 | an accepted instruction is handled, superseded by one at least as new, removed, or still waiting |
| ThrottlerGuarantees.IdleIsCaughtUp | packages/network/src/logic/InstructionThrottler.ts:96-105 | when idle nothing waits and the last handled is the last accepted |
| ThrottlerGuarantees.TakenIffNotOlder | packages/network/src/logic/InstructionThrottler.ts:46 | an instruction is taken iff its counter is not below the last one taken; a stored zero read as missing makes no difference |
| ThrottlerGuarantees.AcceptKeeps | packages/network/src/logic/InstructionThrottler.ts:46-64 | accepting keeps all of the above, whether or not a call is running |
| ThrottlerGuarantees.TwoCallsLater | packages/network/src/logic/InstructionThrottler.ts:96-118 | left alone, a busy stream is idle after its running call and at most one more, which handles what is queued |
| Scaffolds.Scaffold.Activate | packages/client/src/utils/Scaffold.ts:81-133 | one activation: ask the check, tell a change, take a step, clean up a step, or end |
| Scaffolds.Scaffold.NextScaffoldStep | packages/client/src/utils/Scaffold.ts:81-133 | the recursion does what the specification of a run does |
| Scaffolds.Scaffold.CheckShouldUp | packages/client/src/utils/Scaffold.ts:67-75 | an error, or a check that throws, means down |
| Scaffolds.ActivationKeepsBrackets | packages/client/src/utils/Scaffold.ts:94-121 | the steps that are up form a prefix, in order, and the trace of steps and cleanups is properly nested |
| ScaffoldRuns.RunEndsAllUpOrAllDown | packages/client/src/utils/Scaffold.ts:81-133 | a normal return leaves all steps up, with exactly the errors set from outside while its last check was awaited, or all down and no error; a throw leaves all down and the error cleared |
| ScaffoldRuns.LateErrorStays | packages/client/src/utils/Scaffold.ts:80-133 | an error set while the check is awaited is left behind by a normal return |
| ScaffoldRuns.StepsAndCleanupsAlternate | packages/client/src/utils/Scaffold.ts:94-121 | between two runs of a step its cleanup runs, once |
| ScaffoldRuns.CleanupsRunInReverse | packages/client/src/utils/Scaffold.ts:110-121 | a step taken later is cleaned up before an earlier one is |
| ScaffoldRuns.CheckDecides | packages/client/src/utils/Scaffold.ts:67-83 | an activation goes up iff there is no error and the check says so |
| ScaffoldRuns.ListenerIsToldFirst | packages/client/src/utils/Scaffold.ts:81-121 | over every run changes told alternate, beginning with up; steps run only while up was told last, cleanups only while it was not |
| ScaffoldRuns.RunThrowsWhatWasRaised | packages/client/src/utils/Scaffold.ts:55-65 | what a run throws or leaves behind is exactly what was pending, set from outside, or raised and not swallowed |
| ScaffoldRuns.RunTerminates | packages/client/src/utils/Scaffold.ts:81-133 | once the check stays constant a run ends within a bound by the number of steps |
| ScaffoldRuns.UndisturbedRunFollowsTheCheck | packages/client/src/utils/Scaffold.ts:81-133 | if nothing throws and the check is constant, all steps end up, or down, as it says |
| TrackerRegistries.ToInt32 | packages/protocol/src/utils/TrackerRegistry.ts:19 | the 32-bit wrap of ECMA-262, 2021 edition, section 7.1.6: in range and congruent modulo 2^32 |
| TrackerRegistries.Mixed | packages/protocol/src/utils/TrackerRegistry.ts:19 | every intermediate of a step is below 2^53 in absolute value, so doubles hold it exactly |
| TrackerRegistries.PolynomialOfLonger | packages/protocol/src/utils/TrackerRegistry.ts:17-21 | the sum of code_i * 31^(n-1-i) obeys Horner's rule |
| TrackerRegistries.StepWraps | packages/protocol/src/utils/TrackerRegistry.ts:19 | wrapping a step of the wrapped hash is wrapping the step of the exact one |
| TrackerRegistries.Folded | packages/protocol/src/utils/TrackerRegistry.ts:18-19 | wrapping at every step equals wrapping the polynomial once, for every string |
| TrackerRegistries.HashCode | packages/protocol/src/utils/TrackerRegistry.ts:17-21 | the hash is the absolute value of the wrapped polynomial, at most 2^31 |
| TrackerRegistries.StreamKeyIsInjective | packages/protocol/src/utils/TrackerRegistry.ts:39 | different stream partitions have different keys |
| TrackerRegistries.TrackerRegistry.GetTracker | packages/protocol/src/utils/TrackerRegistry.ts:31-42 | the errors exactly where the code raises them, nothing for an empty registry, else a tracker of the registry at an index in range |

## Left out

- `maxNeighborsPerNode` is a natural number; a negative one, which the source accepts, is not modelled.
- Node identifiers that collide with properties every JavaScript object has are not modelled.
- DuplicateMessageDetectors.DuplicateMessageDetector.MarkAndCheck: takes finite numbers; the source does not check this.
- SendQueues.WebRtcConnection.Send: item numbers are counted per queue, where the source counts them over all queues; only their order matters.
- SendQueues.WebRtcConnection.EmitOpen: the attempt that opening resolves is modelled in the other class; the channel counts as open from the open event on, not a moment before it.
- SendQueues.WebRtcConnection.Close: the other timers, the attempt and the close event of a connection are modelled in its other class.
- WebRtcEndpoints.WebRtcConnection.Close: flush and ping timers are not part of this class.
- WebRtcEndpoints.WebRtcConnection.EmitOpen: scheduling a flush is modelled in the send queue.
- WebRtcEndpoints.WebRtcEndpoint.CloseConnection: negotiated protocol versions and the event for listeners of the endpoint are not modelled.
- WebRtcEndpoints.WebRtcEndpoint.Stop: the message queues it empties are modelled in the send queue, as an event of their own.
- WebRtcEndpoints.WebRtcEndpoint.Connect: the message to the offering side, metrics and logging are not modelled.
- WebRtcEndpoints.WebRtcEndpoint.CreateConnection: the message queue that successive connections to a peer share is modelled in the send queue alone.
- WebRtcEndpoints.WebRtcEndpoint.OnRtcOffer: descriptions, candidates and answers do not change which connection holds which attempt and are not modelled.
- Pings, pongs and their closing of a connection are one case of a connection being lost.
- OrderedMsgChains.OrderedMsgChain.Add: handlers that throw or call back are not modelled; an error of a handler would only be emitted.
- OrderedDelivery.BlockedChainIsArmed: clearing the gap from outside is an event of its own, after which a blocked chain may wait without a timer until the next arrival.
- GapRequests.GivenUpAfterAllRequests: leaves out gaps cleared from outside, after which the chain counts anew without a trace in the log.
- ArrivalOrder.DeliveryIsIndependentOfArrivalOrder: leaves out explicit marks and gaps given up, which change what is delivered by design.
- Scaffolds.Scaffold.NextScaffoldStep: clearing the error from outside during a run is not modelled, nor are the queue that serialises calls, `onDone` and `isActive`; an aggregated error is the set of the errors in it.
- StreamManagers.StreamManager.MarkNumbersAndCheckThatIsNotDuplicate: detector keys are pairs of stream and chain; the source joins publisher and chain into one string, which need not be unique.
- StreamManagers.StreamManager.SetUpStream: the counter kept per stream for statuses is not modelled.
- Nodes.Node.SubscribeToStreamOnNode: the status sent and the event for listeners are not modelled.
- Nodes.Node.UnsubscribeFromStream: what the throttler does with the stream is modelled in the throttler; the retry manager and the status are not modelled.
- Nodes.Node.OnDataReceived: the event for every message received, statuses to trackers, metrics and the outcome of sending to a neighbor, with the forced disconnect after a hundred failures, are not modelled; a forced disconnect is a lost node.
- Nodes.Node.PropagateMessage: the bounded, ageing cache of marked messages is a set from which any mark may vanish at any time.
- InstructionThrottlers.InstructionThrottler.OnSettled: a cancelled promise is one whose settling is ignored.
- Trackers.Tracker.ProcessNodeStatus: round-trip times and locations are not modelled, nor whether an instruction reaches its node.
- Trackers.Tracker.RemoveNode: round-trip times and locations are not modelled.
- TrackerRegistries.TrackerRegistry.GetTracker: identifiers that are no strings and partitions that are no integers, which the source refuses, are ruled out by their types.
- The order in which `TrackerRegistry` sorts its records, and reading them from a contract, are not modelled.
- Websockets, the WebRTC bindings, HTTP and MQTT servers, storage, cryptography, serialisation, the command line and the client's stream pipelines are outside this model.
