# Aurum adaptive hardware and hive: a verified model

This project models the state machines, protocols and "generated C equals the Python reference" claims of the
repository and proves what they keep over every run. Each module follows one component; classes and loops appear
where the source updates state in place, functions where it computes. Every method that changes state is proved
against a specification function, and the theorems are about those functions: invariants of every run, round
trips, refinements, conservation laws. `dafny verify dfyconfig.toml` checks everything.

## What is modelled

- **Virtual USB stack.** `EndpointQueue` (a bounded queue with cancellation and disconnect generations refines one
  FIFO line), `UsbScheduler` (serialised endpoints, generations, retry backoff), `BoundedTransfer` (retry engine,
  oracle, and the closed form both compute).
- **Lifecycle and its lowering.** `Lifecycle` (the 13-action state machine, its history characterisation and its
  reachable states), `StateGraph` (the breadth-first explorer and the eight-digit keys), `TransitionTables`
  (validation, compilation to `uint8_t` tables, the generated C step), `ControlLoop` (the fifteen-event matrix and
  the whole chain from exploration to both generated programs).
- **Packets.** `PacketFraming` (Python model, generated C, and what the words mean to the controller),
  `EventEmulator` (the emulator, the integrated C pipeline, and their agreement over every mixed run).
- **Registers and state core.** `InterruptDecoder` (list decoder against mask decoder), `BehaviorCore` (behaviour
  model against generated C state core).
- **Distributed protocols.** `WorkQueue` (leases, fencing tokens, draining), `HiveExchange` (events, receipts,
  convergence). Each call is one atomic step; theorems quantify over every interleaving.
- **Last Known Good.** `KnownGoodStore` (content-addressed snapshots as a stack, the trial of a candidate, the
  promotion decision, interleaved cycles), `CandidateRanking` (classical order and what a provider may change about it).
- **Parsers.** `OpenPgp` (packet and subpacket lengths of RFC 4880), `ClearSigned` (envelope and dash escaping).
- **Governance.** `RuntimeGovernor` (order-independent selection, the execution gate), `EvidenceProjector`
  (in-place edits of ranked lists, idempotence).
- **Shared.** `Common` (results, distinctness), `Sorting` (stable order by a total key, uniqueness), `Bits`
  (bitwise operators on naturals by their recursive meaning).

The environment supplies clock readings, drawn ids and tokens, hashes, provider replies, executor outcomes and the
outputs of candidate runs; all of these are parameters. Theorems over runs assume a monotone clock and fresh ids and
tokens where they say so (`FairRun`) and an injective hash (`Injective`).

## Where the code does not do what its documentation suggests

Each of these is kept as the code has it, with the exact condition proved.

- A checksummed frame of 2044 to 2047 bytes carries out of the eleven-bit length field; the flags stay intact
  (`CommandWordsDecode`, `LengthFieldOverflows`).
- The generated TX function validates checksum offsets even when no checksum is requested (`TxDomainsAgree`,
  `UnusedOffsetParts`).
- The emulator counts a TX event before framing it, so the counters balance exactly when no unframeable length is sent
  while TX is ready (`EventsAreConserved`, `CountersBalanceIff`, `EmptyFrameIsLost`).
- The interrupt differential rebuilds whole masks through a dictionary by name, so it fails on models in which two
  sources share a name, and on no other well-formed model (`RunDifferential`, `ScenariosAgreeIff`,
  `SharedNameDisagrees`); beyond the words of its scenarios single-bit masks would be needed too (`AlwaysAgreesIff`).
- `size_t` wraps in the generated frame length, and a length that wraps to zero is taken for a refusal
  (`LengthsAgreeIffFits`, `WrappedLengthsPart`, `WrapToZeroIsRefused`).
- The scheduler accepts times that run backwards. A transfer dated before its endpoint's latest gapless stretch waits
  through a gap; with times in order none ever does (`NoIdleWaitIff`, `NoneWaitsWhileFree`,
  `EarlyDateWaitsThroughGap`).
- A packet header that promises more length octets than there are, those present being zero, is accepted with an
  empty body; the signature parser rejects it one step later (`AcceptedPackets`, `TruncatedIsNoSignature`).
- Dash escaping alone does not protect a payload: the envelope is cut at the first signature marker anywhere, trailing
  empty lines are dropped, `splitlines` also breaks at characters such as U+2028, and a signature text outside ASCII
  raises (`PayloadSurvivesIff`, `MentionedMarkerLosesPayload`, `LineSeparatorLosesPayload`,
  `AccentInSignatureRaises`).
- Field coverage is a plain count and not capped: one field listed seven times passes for all seven, and the score of
  100 stands for unchanged evidence only up to twelve listed fields; the catalog's lists repeat nothing
  (`PromotionMeans`, `ProperPromotionMeans`, `SevenTimesOneFieldIsPromoted`, `ScoreGuardsEvidenceUpToTwelve`).
- A provider reply that is JSON but no object or too deep to parse, or that lists something unhashable before anything
  unknown, and a blank provider command escape as exceptions instead of falling back to the classical order
  (`RaisesIff`, `BlankCommandRaises`).
- One published payload whose merge policy is no object stops every other node for good: its `receive` raises, and no
  newer event ever reaches it. In a process that survives, the receipts written before stay in an open transaction,
  which locks the hive and commits them without their wakes at the next publication (`StuckForever`,
  `HiveConvergesIff`, `NullPolicyStopsTheHive`, `OpenTransactionFreezes`, `SilentReceipt`). With readable payloads the
  hive converges (`HiveConverges`).
- Readings are rounded before they meet the thresholds of the policies, which moves each threshold by half a step
  (`PressedIff`, `RelaxedIff`, `RoundingTipsTheScale`).
- A link speed wraps to 32 bits on its way into the generated core, so 2^32 + 10 is accepted as 10 (`LinkAgreesIff`,
  `WideSpeedParts`).
- A signature body may end short of the lengths it announces and is read as if complete (`AcceptedBodies`,
  `ShortBodyIsAccepted`).
- A second baseline policy with an earlier id can be recommended over the protected one (`ChangeRecommendedIff`,
  `SecondBaselineWins`).
- `VirtualUsbScheduler.complete` changes nothing and may answer twice; exactly-once is not claimed for it.
- At the very instant of expiry a completion is still accepted and a sweep already reclaims
  (`OnlyTheExpiryInstantIsShared`).

## Model

| member | source | states |
|---|---|---|
| EndpointQueues.EndpointQueue.Create | Projects/AdaptiveKernel/pi3_smsc95xx_virtual_usb_queue_pressure.py:79-92 | a queue comes into being exactly for direction tx or rx and a depth of 1 to 1024; any other arguments raise |
| EndpointQueues.EndpointQueue.Init | Projects/AdaptiveKernel/pi3_smsc95xx_virtual_usb_queue_pressure.py:84-92 | a new queue stands for the empty line with ids starting at 1 |
| EndpointQueues.EndpointQueue.Submit | Projects/AdaptiveKernel/pi3_smsc95xx_virtual_usb_queue_pressure.py:98-109 | the fields after the call stand for the line after it: refused when disconnected or full, else the next id joins the end, active only if the line was empty |
| EndpointQueues.EndpointQueue.Cancel | Projects/AdaptiveKernel/pi3_smsc95xx_virtual_usb_queue_pressure.py:111-123 | the active transfer is only flagged, and counted once however often it is asked; anything else is left to the waiting list; an id below 1 raises |
| EndpointQueues.EndpointQueue.CancelWaiting | Projects/AdaptiveKernel/pi3_smsc95xx_virtual_usb_queue_pressure.py:119-123 | the loop takes exactly the waiting transfer with that id out of the line, leaving the others in order, or finds none |
| EndpointQueues.EndpointQueue.CompleteActive | Projects/AdaptiveKernel/pi3_smsc95xx_virtual_usb_queue_pressure.py:125-138 | the head leaves the line and the next one becomes active; the stale answer and its branch are unreachable on a queue used through its methods |
| EndpointQueues.EndpointQueue.Disconnect | Projects/AdaptiveKernel/pi3_smsc95xx_virtual_usb_queue_pressure.py:140-149 | everything in the line is quarantined and counted once, the generation advances, and a second disconnect does nothing |
| EndpointQueues.EndpointQueue.Reconnect | Projects/AdaptiveKernel/pi3_smsc95xx_virtual_usb_queue_pressure.py:151-152 | the line stays empty and the generation stays advanced |
| EndpointQueues.EndpointQueue.AssertInvariants | Projects/AdaptiveKernel/pi3_smsc95xx_virtual_usb_queue_pressure.py:154-161 | reports no violation exactly when the depth is bounded, the ids are distinct and every item is of the current generation |
| EndpointQueues.EndpointQueue.ValidIsSound | Projects/AdaptiveKernel/pi3_smsc95xx_virtual_usb_queue_pressure.py:154-161 | so a queue used only through its methods never shows a violation |
| EndpointQueues.NextKeeps | Projects/AdaptiveKernel/pi3_smsc95xx_virtual_usb_queue_pressure.py:98-152 | every call keeps the depth bound, the id order, the emptiness of a disconnected line, and the ledgers |
| EndpointQueues.RunKeeps | Projects/AdaptiveKernel/pi3_smsc95xx_virtual_usb_queue_pressure.py:98-152 | all of that after every sequence of calls from a new queue |
| EndpointQueues.TransfersAreConserved | Projects/AdaptiveKernel/pi3_smsc95xx_virtual_usb_queue_pressure.py:98-152 | over every run, accepted = completed + withdrawn + quarantined + still in line, and every accepted id is in exactly one of those places exactly once |
| EndpointQueues.ServiceIsFifo | Projects/AdaptiveKernel/pi3_smsc95xx_virtual_usb_queue_pressure.py:106-138 | over every run ids leave the head in strictly increasing order, ahead of everything that waits, and completions come in that order too |
| EndpointQueues.CancelIntentIsFinal | Projects/AdaptiveKernel/pi3_smsc95xx_virtual_usb_queue_pressure.py:114-134 | a transfer whose cancellation was asked for while active is never reported completed, in any run |
| EndpointQueues.CompletionsDrainInOrder | Projects/AdaptiveKernel/pi3_smsc95xx_virtual_usb_queue_pressure.py:125-138 | n completions in a row hand on exactly the first n transfers of the line, in order |
| WorkQueue.SlushWorkQueue.Submit | Projects/Codelation/slush_work_queue.py:28-40 | accepts exactly work with a capability and the reversible flag; one ready item is added under the drawn id and no other item changes |
| WorkQueue.SlushWorkQueue.Acquire | Projects/Codelation/slush_work_queue.py:42-53 | hands out a ready item of least (priority, created, work id) among those the node is capable of after reclaiming lapsed leases, and nothing only if there is none |
| WorkQueue.SlushWorkQueue.Sweep | Projects/Codelation/slush_work_queue.py:44-47 | the loop makes ready exactly the leased items whose expiry has come |
| WorkQueue.SlushWorkQueue.Close | Projects/Codelation/slush_work_queue.py:55-63 | the four refusals in source order, and a completed item with its result in the one remaining case; a refusal changes nothing |
| WorkQueue.StepKeeps | Projects/Codelation/slush_work_queue.py:42-63 | each call of any worker keeps the board in step with the log of leases granted and completions accepted |
| WorkQueue.RunKeeps | Projects/Codelation/slush_work_queue.py:42-63 | and so does every interleaving of calls with a monotone clock and fresh ids and tokens |
| WorkQueue.LeasesAreFenced | Projects/Codelation/slush_work_queue.py:42-63 | two leases on one item never overlap; whatever precedes a completion of the same item is a lease, and the last event of the item before it and in time when the tokens are equal; nothing follows a completion |
| WorkQueue.CompletionsCarryTheLatestLease | Projects/Codelation/slush_work_queue.py:42-63 | every completion in every interleaving has a lease behind it: granted before, with the same item and token, the time within it, and no other event on the item in between or after |
| WorkQueue.SupersededIsRefused | Projects/Codelation/slush_work_queue.py:55-57 | a token of any lease that is not the latest event of its item is refused as an invalid lease, at any time and for any node |
| WorkQueue.OnlyTheExpiryInstantIsShared | Projects/Codelation/slush_work_queue.py:46-58 | a completion is still accepted and a sweep already reclaims at one instant only, the expiry itself |
| WorkQueue.WorkIsDurable | Projects/Codelation/slush_work_queue.py:42-63 | no item is lost or rewritten in any interleaving, and a completed one keeps its result for ever |
| WorkQueue.TurnFinishesFirst | Projects/Codelation/slush_work_queue.py:42-63 | with nothing claimed by others the lease call takes the first unfinished item, finds none only when all is done, and a completion within the ttl is accepted |
| WorkQueue.WorkOnce | Projects/Codelation/slush_work_queue.py:42-63 | one pass of the worker loop on the real queue finishes the first unfinished item and only that |
| WorkQueue.TurnProgresses | Projects/Codelation/slush_work_queue.py:48-62 | what is finished next comes after all that was finished before and ahead of all that is left |
| WorkQueue.Drain | Projects/Codelation/slush_work_queue.py:42-63 | n turns of one capable worker finish exactly the n unfinished items, each once, in (priority, created, work id) order |
| HiveExchange.HiveDatabase.PublishDelta | Projects/Codelation/aurum_hive.py:54-65 | one row is added under the drawn id and committed together with whatever transaction its connection has open; behind the transaction of another connection it raises and changes nothing |
| HiveExchange.HiveDatabase.Receive | Projects/Codelation/aurum_hive.py:67-97 | returns exactly when nothing is pending, or nothing unreadable and no other connection holds the transaction: then every foreign event without a receipt of this node gets one and exactly the compatible ones wake it, each once, oldest first; otherwise nothing is committed, and the receipts written before the exception stay in an open transaction |
| HiveExchange.HiveDatabase.Exit | Projects/Codelation/aurum_hive.py:13-18 | the end of the process rolls an open transaction back |
| HiveExchange.ReceiveRows | Projects/Codelation/aurum_hive.py:78-95 | the loop stops at the first row it cannot read, having written receipts for every older row and for none newer |
| HiveExchange.NextRow | Projects/Codelation/aurum_hive.py:74-78 | the row taken next is an oldest one of those left |
| HiveExchange.StepKeeps | Projects/Codelation/aurum_hive.py:54-97 | each call keeps one wake for each merged receipt that was not committed silently, and no wake without a receipt |
| HiveExchange.WokenAtMostOnce | Projects/Codelation/aurum_hive.py:67-97 | over every interleaving of any number of nodes a node is woken at most once for an event, never for its own and never for an incompatible one, and exactly for the merged receipts that were not committed silently |
| HiveExchange.TablesOnlyGrow | Projects/Codelation/aurum_hive.py:54-97 | events and receipts are never lost or rewritten |
| HiveExchange.StuckForever | Projects/Codelation/aurum_hive.py:78-84 | once an event is pending whose merge policy is no object, the node is never woken again by any run and gets no receipt any more for a newer event |
| HiveExchange.OpenTransactionFreezes | Projects/Codelation/aurum_hive.py:78-96 | a receive that raised after its first receipt, in a process that goes on, stops every write of every node until that node publishes or exits |
| HiveExchange.ReadableRuns | Projects/Codelation/aurum_hive.py:54-97 | if all payloads published are readable, no run ever has anything unreadable pending, a transaction open or a silent receipt |
| HiveExchange.HoldingsBounded | Projects/Codelation/aurum_hive.py:80-84 | a node never holds anything incompatible, and holds everything compatible once nothing is pending for it |
| HiveExchange.HiveConverges | Projects/Codelation/aurum_hive.py:54-97 | after any interleaving of readable publications, receives and exits, and any further receives in which every node takes part, all nodes hold the same set: every compatible event |
| HiveExchange.HiveConvergesIff | Projects/Codelation/aurum_hive.py:54-97 | after any interleaving whatever that leaves no transaction open, receives in processes of their own bring all nodes to that set exactly when none has an unreadable event pending, except nodes that hold it already |
| HiveExchange.ReceiveIsIdempotent | Projects/Codelation/aurum_hive.py:67-97 | after a receive that returned, a second one with nothing published in between changes nothing and wakes nobody |
| HiveExchange.NullPolicyStopsTheHive | Projects/Codelation/aurum_hive.py:80-83 | a null merge policy, then an ordinary delta: the other node never holds the second, whatever follows |
| HiveExchange.SilentReceipt | Projects/Codelation/aurum_hive.py:85-96 | an ordinary delta, then a null policy: the other node raises, survives, publishes, and so commits a merged receipt it was never woken for |
| Lifecycle.TransitionNeverRaises | Projects/AdaptiveKernel/pi3_smsc95xx_usbnet_lifecycle_model.py:175-238 | state validity is inductive, so from a valid state the invalid-state exception never fires and the result is the guarded effect or the state given |
| Lifecycle.RunsAreValid | Projects/AdaptiveKernel/pi3_smsc95xx_usbnet_lifecycle_model.py:175-238 | every state any action sequence can reach is valid |
| Lifecycle.HistoryDeterminesState | Projects/AdaptiveKernel/pi3_smsc95xx_usbnet_lifecycle_model.py:191-238 | the whole state is a function of the log of accepted actions: each flag says whether the last accepted action of its own group was its setter |
| Lifecycle.RefusedActionsAreInert | Projects/AdaptiveKernel/pi3_smsc95xx_usbnet_lifecycle_model.py:194-238 | deleting the refused actions of a run leaves its end and its acceptances unchanged |
| Lifecycle.PathReaches | Projects/AdaptiveKernel/pi3_smsc95xx_usbnet_lifecycle_model.py:191-238 | every state of the closed form is reached by a concrete run |
| Lifecycle.RunsStayInShape | Projects/AdaptiveKernel/pi3_smsc95xx_usbnet_lifecycle_model.py:191-238 | no run leaves the closed form |
| Lifecycle.ReachableIffShape | Projects/AdaptiveKernel/pi3_smsc95xx_usbnet_lifecycle_model.py:191-238 | the reachable states are exactly the closed form: fresh, gone, bound and idle, or open and awake with any mix of link and halts |
| Lifecycle.ThirteenShapes | Projects/AdaptiveKernel/pi3_smsc95xx_usbnet_lifecycle_model.py:279-282 | there are thirteen of them |
| StateGraph.FollowActions | Projects/AdaptiveKernel/pi3_smsc95xx_usbnet_lifecycle_model.py:254-271 | the loop over the actions of one state lists one row for each, tallies acceptances, and enqueues what is new |
| StateGraph.ExploreStateGraph | Projects/AdaptiveKernel/pi3_smsc95xx_usbnet_lifecycle_model.py:245-279 | the worklist loop terminates with exactly the reachable states, thirteen of them, and with 169 rows whose accepted and refused counts are right |
| StateGraph.EdgesExactlyOnce | Projects/AdaptiveKernel/pi3_smsc95xx_usbnet_lifecycle_model.py:254-264 | every (state, action) pair of the listing is recorded exactly once, with the target and acceptance of the transition |
| StateGraph.ClosedContainsRuns | Projects/AdaptiveKernel/pi3_smsc95xx_usbnet_lifecycle_model.py:252-271 | a set of states closed under the actions contains every run, which is why the search misses nothing |
| StateGraph.ExpandKeepsExplored | Projects/AdaptiveKernel/pi3_smsc95xx_usbnet_lifecycle_model.py:252-271 | following all actions of one queued state keeps the search on course and bounded |
| StateGraph.KeyRoundTrip | Projects/AdaptiveKernel/pi3_smsc95xx_usbnet_lifecycle_model.py:241-242 | decoding the key of a state gives that state back |
| StateGraph.DecodeRoundTrip | Projects/AdaptiveKernel/pi3_smsc95xx_usbnet_control_loop_candidate.py:129-133 | a string decodes exactly when it is the key of a state, and then of the state it decodes to |
| TransitionTables.LoadsIff | Projects/AdaptiveKernel/pi3_smsc95xx_usbnet_lifecycle_candidate.py:99-108 | passing the checks one row at a time is the same as distinct keys inside the graph for the list as a whole |
| TransitionTables.PairCount | Projects/AdaptiveKernel/pi3_smsc95xx_usbnet_lifecycle_candidate.py:109 | there are states times actions many cells |
| TransitionTables.CountForcesTotality | Projects/AdaptiveKernel/pi3_smsc95xx_usbnet_lifecycle_candidate.py:98-111 | distinct keys and the right count leave no cell empty |
| TransitionTables.ReadRows | Projects/AdaptiveKernel/pi3_smsc95xx_usbnet_lifecycle_candidate.py:97-108 | the loop accepts a row list exactly when every row passes, and then holds its dictionary |
| TransitionTables.ValidatedGraph | Projects/AdaptiveKernel/pi3_smsc95xx_usbnet_lifecycle_candidate.py:86-112 | accepts exactly the well-formed graphs; an accepted one has sorted distinct ids and a matrix that is total and records its rows |
| TransitionTables.SynthesizeRow | Projects/AdaptiveKernel/pi3_smsc95xx_usbnet_lifecycle_candidate.py:120-126 | one pair of table rows decodes, entry by entry, to the cells of its state |
| TransitionTables.Synthesize | Projects/AdaptiveKernel/pi3_smsc95xx_usbnet_lifecycle_candidate.py:115-128 | every entry of both tables decodes to the cell it was compiled from |
| TransitionTables.IndexesFitUint8 | Projects/AdaptiveKernel/pi3_smsc95xx_usbnet_lifecycle_candidate.py:142-148 | eight-digit keys are at most 256, so no state index overflows its uint8 cell |
| TransitionTables.CStepRefinesMatrix | Projects/AdaptiveKernel/pi3_smsc95xx_usbnet_lifecycle_candidate.py:150-158 | one call of the generated step is one cell of the matrix, seen through the indexes |
| TransitionTables.CRunRefinesMatrix | Projects/AdaptiveKernel/pi3_smsc95xx_usbnet_lifecycle_candidate.py:150-158 | for every event sequence the C tables visit the indexes of the states the matrix visits, with the same accept bits |
| TransitionTables.ListingOrderIsIrrelevant | Projects/AdaptiveKernel/pi3_smsc95xx_usbnet_lifecycle_candidate.py:96-108 | receipts that list the same states and rows in another order validate to the same ids and matrix |
| ControlLoop.ReadinessOfReachableStates | Projects/AdaptiveKernel/pi3_smsc95xx_usbnet_event_emulator.py:95-106 | on reachable states a packet is ready exactly with carrier up and its own direction not halted |
| ControlLoop.PublishedIsWellFormed | Projects/AdaptiveKernel/pi3_smsc95xx_usbnet_lifecycle_model.py:272-287 | what the explorer publishes, in any order, passes validation and tells the truth about every transition |
| ControlLoop.FaithfulGraphMirrors | Projects/AdaptiveKernel/pi3_smsc95xx_usbnet_lifecycle_candidate.py:86-112 | a truthful graph that validates has no choice but to say what the state machine does in every reachable cell |
| ControlLoop.AddColumns | Projects/AdaptiveKernel/pi3_smsc95xx_usbnet_control_loop_candidate.py:141-147 | one turn of the loop fills fifteen cells of one state and touches no other state |
| ControlLoop.EventMatrix | Projects/AdaptiveKernel/pi3_smsc95xx_usbnet_control_loop_candidate.py:136-148 | the fifteen-event matrix is total, copies the lifecycle columns and computes the packet columns from the decoded key |
| ControlLoop.EventMatrixMirrors | Projects/AdaptiveKernel/pi3_smsc95xx_usbnet_control_loop_candidate.py:136-148 | so it mirrors the state machine with packets if the lifecycle matrix mirrored it without |
| ControlLoop.MatrixRunMirrors | Projects/AdaptiveKernel/pi3_smsc95xx_usbnet_control_loop_candidate.py:136-148 | every run of a mirroring matrix is the run of the state machine seen through the keys |
| ControlLoop.MirroringTablesTrack | Projects/AdaptiveKernel/pi3_smsc95xx_usbnet_control_loop_candidate.py:151-182 | tables lowered from a mirroring matrix track the state machine from the initial state over every event sequence |
| ControlLoop.LowerEverything | Projects/AdaptiveKernel/pi3_smsc95xx_usbnet_control_loop_candidate.py:151-182 | explore, publish, validate, synthesise: both generated programs follow the Python state machine over every event sequence of any length, with 13 states |
| ControlLoop.ListStates | Projects/AdaptiveKernel/pi3_smsc95xx_usbnet_lifecycle_model.py:273 | the state rows list each explored state once |
| PacketFraming.ModelTxFrame | Projects/AdaptiveKernel/pi3_smsc95xx_packet_transfer_model.py:127-179 | raises exactly on a bad length, a lone offset, or offsets out of range; otherwise the words built step by step are the sums of the fields they carry |
| PacketFraming.SegmentWord | Projects/AdaptiveKernel/pi3_smsc95xx_packet_transfer_model.py:140 | setting FIRST and LAST adds their weights on every accepted length, in Python and in the C alike |
| PacketFraming.ChecksumWord | Projects/AdaptiveKernel/pi3_smsc95xx_packet_transfer_model.py:162-164 | setting CSUM after the += 4 adds its weight, whether or not the length carried |
| PacketFraming.PreambleWord | Projects/AdaptiveKernel/pi3_smsc95xx_packet_transfer_model.py:161 | shifting the end offset and OR-ing the start offset loses neither |
| PacketFraming.CModelTx | Projects/AdaptiveKernel/pi3_smsc95xx_packet_transfer_candidate.py:204-238 | the 32-bit C accepts exactly its documented domain, leaves the output alone otherwise, and agrees with the Python frame in all eight fields |
| PacketFraming.TxDomainsAgree | Projects/AdaptiveKernel/pi3_smsc95xx_packet_transfer_candidate.py:211-215 | the two validations agree exactly when a checksum is requested, the offsets are good anyway, or the length is bad: the C checks offsets even without a request |
| PacketFraming.UnusedOffsetParts | Projects/AdaptiveKernel/pi3_smsc95xx_packet_transfer_candidate.py:211-215 | sixty bytes, no checksum and an unused offset of 65536: framed by the Python, refused by the C |
| PacketFraming.ClampedGate | Projects/AdaptiveKernel/pi3_smsc95xx_packet_transfer_candidate.py:216-220 | the clamped unsigned subtraction decides as the signed one does, without wrapping |
| PacketFraming.CPreamble | Projects/AdaptiveKernel/pi3_smsc95xx_packet_transfer_candidate.py:224-226 | shift and OR in 32 bits give the preamble without loss |
| PacketFraming.CCommandWords | Projects/AdaptiveKernel/pi3_smsc95xx_packet_transfer_candidate.py:227-233 | both command words are the sums of their fields |
| PacketFraming.CommandWordsDecode | Projects/AdaptiveKernel/pi3_smsc95xx_packet_transfer_model.py:140-164 | FIRST and LAST read back set on every frame and CSUM exactly on offloaded ones; the eleven-bit lengths read back right exactly when no checksummed frame of 2044 bytes or more is sent |
| PacketFraming.LengthFieldOverflows | Projects/AdaptiveKernel/pi3_smsc95xx_packet_transfer_model.py:161-164 | a concrete checksummed frame of 2044 bytes whose length field reads zero |
| PacketFraming.PreambleDecodes | Projects/AdaptiveKernel/pi3_smsc95xx_packet_transfer_model.py:154-161 | the preamble decodes to its two offsets, and an enabled checksum lies inside the frame with the trailing guard to spare |
| PacketFraming.DecodeRxStatus | Projects/AdaptiveKernel/pi3_smsc95xx_packet_transfer_model.py:182-198 | raises exactly on a word that is no uint32 or a negative count; otherwise the fields of the word by value |
| PacketFraming.CDecodeRx | Projects/AdaptiveKernel/pi3_smsc95xx_packet_transfer_candidate.py:240-254 | the C decoder equals the Python one on every pair of 32-bit inputs, unsigned modulus included |
| PacketFraming.StatusBits | Projects/AdaptiveKernel/pi3_smsc95xx_packet_transfer_model.py:188-192 | mask-and-shift reads length from bits 16 to 29 and the error summary from bit 15 |
| PacketFraming.PaddingAligns | Projects/AdaptiveKernel/pi3_smsc95xx_packet_transfer_model.py:189 | with the decoder padding every status word of any number of frames starts 4-byte aligned |
| PacketFraming.PaddingIsLeast | Projects/AdaptiveKernel/pi3_smsc95xx_packet_transfer_model.py:189 | and no padding that achieves this is smaller anywhere |
| EventEmulator.UsbNetEventEmulator.constructor | Projects/AdaptiveKernel/pi3_smsc95xx_usbnet_event_emulator.py:110-112 | a new emulator is in the initial state with all counters zero |
| EventEmulator.UsbNetEventEmulator.Lifecycle | Projects/AdaptiveKernel/pi3_smsc95xx_usbnet_event_emulator.py:114-119 | state, counters and answer after one action |
| EventEmulator.UsbNetEventEmulator.Tx | Projects/AdaptiveKernel/pi3_smsc95xx_usbnet_event_emulator.py:121-131 | the event is counted before the frame is framed, so a frame that cannot be framed raises after being counted; the state is untouched |
| EventEmulator.UsbNetEventEmulator.Rx | Projects/AdaptiveKernel/pi3_smsc95xx_usbnet_event_emulator.py:133-145 | an impossible length raises before anything is counted; otherwise the decoded status is that of the length and error given |
| EventEmulator.EventsAreConserved | Projects/AdaptiveKernel/pi3_smsc95xx_usbnet_event_emulator.py:109-145 | over every run, events = the six outcome counters + the frames lost to framing |
| EventEmulator.GoodLengthsLoseNothing | Projects/AdaptiveKernel/pi3_smsc95xx_usbnet_event_emulator.py:121-131 | and no frame is lost when all TX lengths fit the eleven-bit field |
| EventEmulator.CountersBalanceIff | Projects/AdaptiveKernel/pi3_smsc95xx_usbnet_event_emulator.py:109-145 | the counters balance exactly when no length outside the eleven-bit field is transmitted while TX is ready |
| EventEmulator.EmptyFrameIsLost | Projects/AdaptiveKernel/pi3_smsc95xx_usbnet_event_emulator.py:121-131 | link up, then an empty frame: four events and three outcomes |
| EventEmulator.PacketsLeaveTheStateAlone | Projects/AdaptiveKernel/pi3_smsc95xx_usbnet_event_emulator.py:114-145 | the state after any mix is that of the lifecycle run with every packet deleted |
| EventEmulator.HaltsGateTheirOwnDirection | Projects/AdaptiveKernel/pi3_smsc95xx_usbnet_event_emulator.py:95-145 | over every run a frame is let through exactly when the last accepted carrier action was link-up and the last accepted action on its own halt was not that halt |
| EventEmulator.Integrated | Projects/AdaptiveKernel/pi3_smsc95xx_integrated_packet_control_loop.py:122-161 | one call of the right wrapper: index and accept bit of the table, framing or decoding only when admitted, return codes -2, -1 and 0 as in the C |
| EventEmulator.PipelineStep | Projects/AdaptiveKernel/pi3_smsc95xx_integrated_packet_control_loop.py:320-337 | feeding each returned index back keeps the C at the index of the state the emulator is in |
| EventEmulator.AnswersAgree | Projects/AdaptiveKernel/pi3_smsc95xx_integrated_packet_control_loop.py:294-314 | admission, return code and every framed or decoded field agree with the emulator answer |
| EventEmulator.EmulatorIsEventRun | Projects/AdaptiveKernel/pi3_smsc95xx_usbnet_event_emulator.py:109-145 | the emulator walks the fifteen-event state machine |
| EventEmulator.RunIntegrated | Projects/AdaptiveKernel/pi3_smsc95xx_integrated_packet_control_loop.py:316-337 | for every finite mix of the fifteen events the index fed back after each event is that of the emulator state there, and every answer agrees |
| InterruptDecoder.DecodeInterrupts | Projects/AdaptiveKernel/pi3_smsc95xx_register_interrupt_model.py:113-161 | the loop lists, in order, the sources that are active, reportable and read-only, and gives the acknowledge and unknown bits |
| InterruptDecoder.ValidateModel | Projects/AdaptiveKernel/pi3_smsc95xx_register_interrupt_candidate.py:67-89 | one running union for each register accepts exactly the non-empty lists of non-zero, pairwise disjoint masks |
| InterruptDecoder.Synthesize | Projects/AdaptiveKernel/pi3_smsc95xx_register_interrupt_candidate.py:92-112 | the four masks and the reportable terms are the unions and pairs of the source list |
| InterruptDecoder.RunC | Projects/AdaptiveKernel/pi3_smsc95xx_register_interrupt_candidate.py:134-146 | one call of the generated decoder |
| InterruptDecoder.OwnPartOnly | Projects/AdaptiveKernel/pi3_smsc95xx_register_interrupt_candidate.py:83-88 | under disjointness a union of status bits meets one mask in that source part and nowhere else |
| InterruptDecoder.SourceAgrees | Projects/AdaptiveKernel/pi3_smsc95xx_register_interrupt_candidate.py:134-146 | a source is active, reportable or read-only exactly when the corresponding C mask intersects its own mask |
| InterruptDecoder.NamesAgree | Projects/AdaptiveKernel/pi3_smsc95xx_register_interrupt_candidate.py:241-256 | the three Python lists are the names the C masks hit, in order |
| InterruptDecoder.ActiveIsDisjointUnion | Projects/AdaptiveKernel/pi3_smsc95xx_register_interrupt_candidate.py:138-142 | the active mask is the disjoint union of the acknowledgeable and the read-only part |
| InterruptDecoder.DecodeBoth | Projects/AdaptiveKernel/pi3_smsc95xx_register_interrupt_candidate.py:241-275 | both decoders side by side: equal acknowledge and unknown bits, equal lists, and active and unknown bits partition the status |
| InterruptDecoder.RunDifferential | Projects/AdaptiveKernel/pi3_smsc95xx_register_interrupt_candidate.py:203-275 | the differential returns exactly for well-formed models in which no two sources share a name |
| InterruptDecoder.ScenariosAgreeIff | Projects/AdaptiveKernel/pi3_smsc95xx_register_interrupt_candidate.py:218-274 | on the words the scenario list builds, all comparisons hold exactly with distinct names |
| InterruptDecoder.ScenarioSetsWhole | Projects/AdaptiveKernel/pi3_smsc95xx_register_interrupt_candidate.py:218-233 | no scenario sets part of a status mask |
| InterruptDecoder.Differential | Projects/AdaptiveKernel/pi3_smsc95xx_register_interrupt_candidate.py:241-275 | one scenario passes exactly when every active source is fully set and is the last of its name in the list |
| InterruptDecoder.RebuiltIff | Projects/AdaptiveKernel/pi3_smsc95xx_register_interrupt_candidate.py:250-256 | looking names up in the dictionary gives back a C mask exactly when the mask holds all bits of each source listed and no later source took its name |
| InterruptDecoder.WholeMasksAgreeIff | Projects/AdaptiveKernel/pi3_smsc95xx_register_interrupt_candidate.py:247-274 | all three comparisons of rebuilt masks hold exactly when every active source is fully set and is the last of its name |
| InterruptDecoder.AlwaysAgreesIff | Projects/AdaptiveKernel/pi3_smsc95xx_register_interrupt_candidate.py:247-274 | for arbitrary words, beyond those of the scenarios: the comparison holds for every pair exactly when the names are distinct and every status mask is a single bit |
| InterruptDecoder.SingleBitMasksAgree | Projects/AdaptiveKernel/pi3_smsc95xx_register_interrupt_candidate.py:247-274 | distinct names and single-bit masks suffice |
| InterruptDecoder.PartialMaskDisagrees | Projects/AdaptiveKernel/pi3_smsc95xx_register_interrupt_candidate.py:247-274 | such a word, which no scenario builds, is one bit of a two-bit source: there the comparison would fail |
| InterruptDecoder.SharedNameDisagrees | Projects/AdaptiveKernel/pi3_smsc95xx_register_interrupt_candidate.py:250-256 | and for two single-bit sources of one name, the first of them active |
| UsbScheduler.VirtualUsbScheduler.Submit | Projects/AdaptiveKernel/pi3_smsc95xx_virtual_usb_timing.py:94-115 | which arguments raise what, and the issued transfer with the whole state after it |
| UsbScheduler.VirtualUsbScheduler.Disconnect | Projects/AdaptiveKernel/pi3_smsc95xx_virtual_usb_timing.py:127-133 | a generation is closed once |
| UsbScheduler.VirtualUsbScheduler.Reconnect | Projects/AdaptiveKernel/pi3_smsc95xx_virtual_usb_timing.py:135-141 | both endpoints become free at the moment of reconnection |
| UsbScheduler.StepKeeps | Projects/AdaptiveKernel/pi3_smsc95xx_virtual_usb_timing.py:94-141 | each call keeps numbering, serial order, promptness and the busy marks |
| UsbScheduler.EndpointsAreSerialised | Projects/AdaptiveKernel/pi3_smsc95xx_virtual_usb_timing.py:154-163 | in every run and every generation, not only the current one that is checked there, transfers of one endpoint occupy disjoint intervals in id order, and a late start falls on an opening or on the end of an earlier transfer |
| UsbScheduler.StretchKept | Projects/AdaptiveKernel/pi3_smsc95xx_virtual_usb_timing.py:94-141 | in every run an endpoint is busy without a gap from the beginning of its latest stretch to its busy mark, and was free just before |
| UsbScheduler.WaitsOnlyWhileBusyIff | Projects/AdaptiveKernel/pi3_smsc95xx_virtual_usb_timing.py:101-107 | a submission waits only while its endpoint is busy exactly when its time is not before the beginning of that stretch |
| UsbScheduler.NoIdleWaitIff | Projects/AdaptiveKernel/pi3_smsc95xx_virtual_usb_timing.py:94-141 | over a whole run no transfer ever waits while its endpoint is free exactly when no accepted submission is dated before the stretch it joins |
| UsbScheduler.MonotoneIsInOrder | Projects/AdaptiveKernel/pi3_smsc95xx_virtual_usb_timing.py:94-141 | which is so whenever the times never run backwards |
| UsbScheduler.NoneWaitsWhileFree | Projects/AdaptiveKernel/pi3_smsc95xx_virtual_usb_timing.py:94-141 | under such a clock every moment between submission and start lies inside an earlier transfer of the same endpoint and generation |
| UsbScheduler.EarlyDateWaitsThroughGap | Projects/AdaptiveKernel/pi3_smsc95xx_virtual_usb_timing.py:94-107 | three accepted calls with times out of order, the last of which waits through a gap |
| UsbScheduler.StaleForever | Projects/AdaptiveKernel/pi3_smsc95xx_virtual_usb_timing.py:117-133 | a transfer once answered as stale is answered as stale at every later moment of the run |
| UsbScheduler.DisconnectedAnswerUnreachable | Projects/AdaptiveKernel/pi3_smsc95xx_virtual_usb_timing.py:119-125 | for an issued transfer the disconnected answer never comes, and completed means current generation and time elapsed |
| UsbScheduler.BackoffBounded | Projects/AdaptiveKernel/pi3_smsc95xx_virtual_usb_timing.py:144-151 | every delay lies between base and maximum |
| UsbScheduler.BackoffDoubles | Projects/AdaptiveKernel/pi3_smsc95xx_virtual_usb_timing.py:144-151 | each delay is twice the one before it until the maximum, and stays there |
| UsbScheduler.BackoffMonotone | Projects/AdaptiveKernel/pi3_smsc95xx_virtual_usb_timing.py:144-151 | later attempts never wait less |
| BoundedTransfer.SimulateTransfer | Projects/AdaptiveKernel/pi3_smsc95xx_virtual_usb_fault_harness.py:91-165 | raises exactly on an invalid request; otherwise the report is the one its closed form explains |
| BoundedTransfer.Oracle | Projects/AdaptiveKernel/pi3_smsc95xx_virtual_usb_fault_harness.py:168-184 | the oracle tuple is that of the only report the closed form allows |
| BoundedTransfer.ReportIsUnique | Projects/AdaptiveKernel/pi3_smsc95xx_virtual_usb_fault_harness.py:91-184 | the closed form explains exactly one report, so simulator and oracle agree on all requests |
| BoundedTransfer.DeliveredIff | Projects/AdaptiveKernel/pi3_smsc95xx_virtual_usb_fault_harness.py:105-118 | delivered exactly when some success within the budget has only retryable outcomes before it |
| BoundedTransfer.ReportBounds | Projects/AdaptiveKernel/pi3_smsc95xx_virtual_usb_fault_harness.py:100-165 | attempts at most budget + 1, the trace is the consumed prefix, and clear-halt intents are the stalls in it |
| BoundedTransfer.DecidedIsStable | Projects/AdaptiveKernel/pi3_smsc95xx_virtual_usb_fault_harness.py:105-153 | outcomes after the deciding one change nothing |
| BoundedTransfer.DeliveryIsMonotone | Projects/AdaptiveKernel/pi3_smsc95xx_virtual_usb_fault_harness.py:143-154 | a larger budget never loses a delivery |
| OpenPgp.OctetsRoundTrip | Projects/AdaptiveKernel/pi3_source_package_recipe_provenance.py:150-160 | big-endian reading undoes big-endian writing within the width |
| OpenPgp.DecodeOneSound | Projects/AdaptiveKernel/pi3_source_package_recipe_provenance.py:172-186 | a decoded subpacket is legal and its encoding is the front of the data |
| OpenPgp.DecodeOneComplete | Projects/AdaptiveKernel/pi3_source_package_recipe_provenance.py:172-186 | an encoded subpacket is decoded whatever follows it |
| OpenPgp.SubpacketsRoundTrip | Projects/AdaptiveKernel/pi3_source_package_recipe_provenance.py:168-187 | parsing undoes encoding for every list of subpackets in every mix of one-, two- and five-octet lengths (section 5.2.3.1 of RFC 4880) |
| OpenPgp.AcceptedIsCovered | Projects/AdaptiveKernel/pi3_source_package_recipe_provenance.py:168-187 | accepted data is covered octet by octet by the encodings of the subpackets found |
| OpenPgp.AcceptsExactlyEncodings | Projects/AdaptiveKernel/pi3_source_package_recipe_provenance.py:168-187 | the accepted strings are exactly the encodings, and no string encodes two lists |
| OpenPgp.ReadLength | Projects/AdaptiveKernel/pi3_source_package_recipe_provenance.py:172-181 | the length octets at an index, and the IndexError when the second is missing |
| OpenPgp.NextSubpacket | Projects/AdaptiveKernel/pi3_source_package_recipe_provenance.py:172-186 | one turn of the loop at an index is one decoding of the rest of the data |
| OpenPgp.Subpackets | Projects/AdaptiveKernel/pi3_source_package_recipe_provenance.py:168-187 | the index loop equals the decoder in value and in exception, and terminates |
| OpenPgp.PacketRoundTrip | Projects/AdaptiveKernel/pi3_source_package_recipe_provenance.py:135-165 | every old- and new-format signature packet parses back to its body whatever follows it (sections 4.2.1 and 4.2.2 of RFC 4880) |
| OpenPgp.AcceptedPackets | Projects/AdaptiveKernel/pi3_source_package_recipe_provenance.py:135-165 | what is accepted is a complete packet, or a truncated header of zero length octets taken for an empty body |
| OpenPgp.TruncatedIsAccepted | Projects/AdaptiveKernel/pi3_source_package_recipe_provenance.py:149-165 | and every such truncated header is accepted |
| OpenPgp.ReadBody | Projects/AdaptiveKernel/pi3_source_package_recipe_provenance.py:201-221 | the two areas of the body are parsed in order, with the exception of the first that fails |
| OpenPgp.AcceptedBodies | Projects/AdaptiveKernel/pi3_source_package_recipe_provenance.py:200-215 | a body is accepted exactly when it has eight octets and writes out a version 4 signature with one issuer, complete or cut short in the hashed area, before the second length, or in the unhashed area |
| OpenPgp.ShortBodyIsAccepted | Projects/AdaptiveKernel/pi3_source_package_recipe_provenance.py:204-211 | a body that announces 65535 hashed octets and holds one subpacket is accepted |
| OpenPgp.SignatureRoundTrip | Projects/AdaptiveKernel/pi3_source_package_recipe_provenance.py:190-221 | a version 4 signature in any packet form with any legal subpackets yields its algorithms, and its issuer exactly when its areas together name one |
| OpenPgp.TruncatedIsNoSignature | Projects/AdaptiveKernel/pi3_source_package_recipe_provenance.py:200-202 | a truncated header is rejected one step later |
| ClearSigned.SplitUndoesJoin | Projects/AdaptiveKernel/pi3_source_package_recipe_provenance.py:130 | splitting at all the breaks of splitlines undoes joining lines that hold none of them |
| ClearSigned.SplitIsPlain | Projects/AdaptiveKernel/pi3_source_package_recipe_provenance.py:130 | and no line that splitlines yields holds a break, of whatever kind |
| ClearSigned.StripTrims | Projects/AdaptiveKernel/pi3_source_package_recipe_provenance.py:129 | stripping and closing with one newline drops exactly the trailing empty lines |
| ClearSigned.UnescapeUndoesEscape | Projects/AdaptiveKernel/pi3_source_package_recipe_provenance.py:130 | line by line, unescaping undoes every dash escaping that section 7.1 of RFC 4880 allows |
| ClearSigned.CleanEnvelope | Projects/AdaptiveKernel/pi3_source_package_recipe_provenance.py:115-132 | an envelope, with or without armor header lines, whose body nowhere holds the signature marker: its parts for an ASCII signature text, the encoding exception for any other |
| ClearSigned.PayloadHasNoMarker | Projects/AdaptiveKernel/pi3_source_package_recipe_provenance.py:125-130 | a payload that was read never holds the signature marker |
| ClearSigned.PayloadSurvivesIff | Projects/AdaptiveKernel/pi3_source_package_recipe_provenance.py:115-132 | the payload read is the payload signed exactly when no line holds a break of splitlines or the signature marker, the last written line is not empty or is all there is, and the signature text is ASCII |
| ClearSigned.PgpArmorIsGood | Projects/AdaptiveKernel/pi3_source_package_recipe_provenance.py:120-122 | the markers of OpenPGP meet what the parsing theorems ask of markers |
| ClearSigned.LineSeparatorLosesPayload | Projects/AdaptiveKernel/pi3_source_package_recipe_provenance.py:130 | a line with U+2028 in it needs no escaping and is read back as two |
| ClearSigned.AccentInSignatureRaises | Projects/AdaptiveKernel/pi3_source_package_recipe_provenance.py:132 | an accent in the signature text raises |
| ClearSigned.MentionedMarkerLosesPayload | Projects/AdaptiveKernel/pi3_source_package_recipe_provenance.py:123-125 | a line that merely mentions the marker needs no escaping and loses the payload |
| KnownGoodStore.StateDirectory.Ensure | Projects/AdaptiveDrivers/adaptive_driver_loop.py:655-669 | an existing record is never touched; a missing one becomes the reference driver with nothing to roll back to |
| KnownGoodStore.StateDirectory.Promote | Projects/AdaptiveDrivers/adaptive_driver_loop.py:672-714 | snapshot first, then a record linked to it; a snapshot that does not verify raises and nothing changes |
| KnownGoodStore.StateDirectory.RollBack | Projects/AdaptiveDrivers/adaptive_driver_loop.py:717-728 | the four exceptions in order, or the linked snapshot restored |
| KnownGoodStore.FirstRecordIsAStack | Projects/AdaptiveDrivers/adaptive_driver_loop.py:635-669 | a directory with only the reference recorded is a stack of one |
| KnownGoodStore.AncestorsAreProtected | Projects/AdaptiveDrivers/adaptive_driver_loop.py:683-688 | every ancestor of a record is present, consistent with its digest, and listed as protected |
| KnownGoodStore.StoreIsAStack | Projects/AdaptiveDrivers/adaptive_driver_loop.py:672-728 | over every run of promotions and rollbacks the directory holds exactly what a stack of records says |
| KnownGoodStore.RollbacksUndoPromotions | Projects/AdaptiveDrivers/adaptive_driver_loop.py:672-728 | n promotions and n rollbacks restore the exact record they started from |
| KnownGoodStore.SnapshotsPersist | Projects/AdaptiveDrivers/adaptive_driver_loop.py:678-682 | no snapshot is ever removed or rewritten |
| KnownGoodStore.CounterRepeats | Projects/AdaptiveDrivers/adaptive_driver_loop.py:552-562 | one counter passes exactly when it was read every time and never fell |
| KnownGoodStore.TestCandidate | Projects/AdaptiveDrivers/adaptive_driver_loop.py:532-577 | repeatable exactly when all three runs printed, the fixed fields read alike in all of them, and the counters rose |
| KnownGoodStore.ScoreCandidate | Projects/AdaptiveDrivers/adaptive_driver_loop.py:580-632 | the score is the weighted sum and the match means every field agreed in the first run |
| KnownGoodStore.PromotionMeans | Projects/AdaptiveDrivers/adaptive_driver_loop.py:1032-1053 | for any list of fields, promoted exactly on agreement, repeatability, an untouched record and permission with seven listed fields and unchanged evidence, or thirteen and any evidence |
| KnownGoodStore.CoverageMeans | Projects/AdaptiveDrivers/adaptive_driver_loop.py:36-44 | a list that draws on the observation fields without repetition has at most seven, and seven exactly when it has them all |
| KnownGoodStore.ProperPromotionMeans | Projects/AdaptiveDrivers/adaptive_driver_loop.py:1032-1053 | for such a list promotion means that every observation field is read, with agreement, repeatability, unchanged evidence, an untouched record and permission |
| KnownGoodStore.SevenTimesOneFieldIsPromoted | Projects/AdaptiveDrivers/adaptive_driver_loop.py:615-624 | a list that repeats one field seven times is promoted without reading the others |
| KnownGoodStore.PromotedAgreesInEveryRun | Projects/AdaptiveDrivers/adaptive_driver_loop.py:532-624 | though only the first run is compared, a promoted candidate agrees with the reference in every field of every run |
| KnownGoodStore.ScoreGuardsEvidenceUpToTwelve | Projects/AdaptiveDrivers/adaptive_driver_loop.py:615-624 | in general the score stands for unchanged evidence only up to twelve listed fields |
| KnownGoodStore.ThirteenFieldsOutweighEvidence | Projects/AdaptiveDrivers/adaptive_driver_loop.py:615-624 | a candidate that lists one field thirteen times is promoted on changed evidence |
| KnownGoodStore.RunsKeepTheChain | Projects/AdaptiveDrivers/adaptive_driver_loop.py:655-728 | every interleaving of cycles and rollbacks from an empty directory: the directory is exactly the chain of the first accepted reference and the promotions still standing, and all of it carries one hardware fingerprint |
| KnownGoodStore.OnlyPromotionChangesTheRecord | Projects/AdaptiveDrivers/adaptive_driver_loop.py:903-1053 | at any point of such a run a decision never raises and changes the directory only by promoting over the very record the cycle was opened on, which stays one rollback away |
| KnownGoodStore.RollBackRestoresTheLast | Projects/AdaptiveDrivers/adaptive_driver_loop.py:717-728 | at any point of such a run a rollback restores the entry beneath the live one, and fails exactly when there is none |
| CandidateRanking.RankingIsAPermutation | Projects/AdaptiveDrivers/adaptive_driver_loop.py:306-392 | whatever a provider replies, every candidate is in the ranking returned, once |
| CandidateRanking.ScanMeans | Projects/AdaptiveDrivers/adaptive_driver_loop.py:355-363 | the look-up of the ids raises exactly when something unhashable comes before anything unknown |
| CandidateRanking.RaisesIff | Projects/AdaptiveDrivers/adaptive_driver_loop.py:335-392 | an exception escapes exactly for a command without a word in it, JSON too deep to parse, a reply that is no object, and a list on which the look-up raises |
| CandidateRanking.BlankCommandRaises | Projects/AdaptiveDrivers/adaptive_driver_loop.py:335-349 | the command of one blank raises an IndexError |
| CandidateRanking.FirstIsNeverWorse | Projects/AdaptiveDrivers/adaptive_driver_loop.py:316-389 | with or without a provider the candidate tried first is of the lowest risk there is and of the greatest coverage within it |
| CandidateRanking.CatalogOrderIsIrrelevant | Projects/AdaptiveDrivers/adaptive_driver_loop.py:316-324 | the classical ranking does not depend on the order of the catalog |
| CandidateRanking.RequestGoesFirst | Projects/AdaptiveDrivers/adaptive_driver_loop.py:956-960 | a requested candidate goes first and loses nobody; an unknown request raises |
| RuntimeGovernor.PressureExcludesHeadroom | Projects/AdaptiveKernel/adaptive_runtime.py:375-389 | conserving and the two headroom policies are never eligible together |
| RuntimeGovernor.RearrangedAggregate | Projects/AdaptiveKernel/adaptive_runtime.py:330-357 | the rounded aggregate, average included, and the verdict on the window do not depend on the order of the samples |
| RuntimeGovernor.PressedIff | Projects/AdaptiveKernel/adaptive_runtime.py:340-389 | with both roundings a window is under pressure exactly when some sample reads 69.9995 degrees or more, a memory ratio of 0.2000005 or less, or a load of 0.8499995 or more |
| RuntimeGovernor.RelaxedIff | Projects/AdaptiveKernel/adaptive_runtime.py:340-389 | and has the headroom of the two other policies exactly when every sample is within thresholds moved outwards by half a step |
| RuntimeGovernor.OrderIsIrrelevant | Projects/AdaptiveKernel/adaptive_runtime.py:397-484 | neither the order of the samples nor that of the catalog reaches the ranking or the decision |
| RuntimeGovernor.RankingIsStrict | Projects/AdaptiveKernel/adaptive_runtime.py:454-462 | the ranking is a rearrangement of the scored catalog in which every place is strictly earned |
| RuntimeGovernor.WinnerBeats | Projects/AdaptiveKernel/adaptive_runtime.py:475-484 | whatever ranks first is the baseline, scores above it, or is a second baseline with an earlier id |
| RuntimeGovernor.ChangeRecommendedIff | Projects/AdaptiveKernel/adaptive_runtime.py:434-484 | a change is recommended exactly when the evidence suffices and some policy so beats the baseline |
| RuntimeGovernor.SecondBaselineWins | Projects/AdaptiveKernel/adaptive_runtime.py:454-484 | two baselines, the later id protected, and three safe samples: the earlier one is recommended |
| RuntimeGovernor.RoundingTipsTheScale | Projects/AdaptiveKernel/adaptive_runtime.py:261-389 | three safe samples with a memory ratio just above 0.20 recommend conserving |
| RuntimeGovernor.ExecutedMeans | Projects/AdaptiveKernel/adaptive_runtime.py:543-679 | an execution on the evaluator receipt implies an all-safe window of at least the minimum size, a policy that beat the baseline, and sound authority for that receipt |
| RuntimeGovernor.AuthorityFitsOneWindow | Projects/AdaptiveKernel/adaptive_runtime.py:543-563 | authority that executes the receipt of one window names the receipt of no other: samples, minimum, driver, baseline and catalog are the same |
| EvidenceProjector.Branch.UpdateInputFamily | Admin/sync_aurum_future_branch_evidence.py:83-92 | the loop updates the first entry of the family and nothing else; a value that is no array raises |
| EvidenceProjector.Branch.UpsertInputFamily | Admin/sync_aurum_future_branch_evidence.py:100-124 | the family ends up first with the new values and every rank is its position; anything but objects raises and changes nothing |
| EvidenceProjector.Branch.Placed | Admin/sync_aurum_future_branch_evidence.py:116-124 | removal by value removes the very entry that was found |
| EvidenceProjector.Branch.RemoveInputFamily | Admin/sync_aurum_future_branch_evidence.py:127-138 | every entry of the family goes, and only then are ranks renewed |
| EvidenceProjector.Branch.PromoteInputFamily | Admin/sync_aurum_future_branch_evidence.py:141-154 | the first entry of the family moves to the front, the others keep their order |
| EvidenceProjector.Branch.UpdateTopOutcome | Admin/sync_aurum_future_branch_evidence.py:157-167 | the first object of least rank is updated; a value that is no array, or an object whose rank is no number, raises |
| EvidenceProjector.Branch.Project | Admin/sync_aurum_future_branch_evidence.py:330-402 | raises exactly when the inputs are no array or hold something that is no object, or the outcomes are no array or hold an object whose rank is no number; otherwise both arrays after all edits |
| EvidenceProjector.ProjectionSettles | Admin/sync_aurum_future_branch_evidence.py:330-395 | one projection leaves the inputs settled: values in place, the right entry leading, the media entry present exactly when waited for |
| EvidenceProjector.SettledStays | Admin/sync_aurum_future_branch_evidence.py:330-395 | a settled array is not changed by the projection it is settled for |
| EvidenceProjector.TopUpdateIdempotent | Admin/sync_aurum_future_branch_evidence.py:157-167 | updating the top outcome twice is updating it once |
| EvidenceProjector.ProjectionIsIdempotent | Admin/sync_aurum_future_branch_evidence.py:170-403 | projecting the same evidence again changes nothing, whatever the branch looked like at first |
| EvidenceProjector.ProjectionKeepsRanks | Admin/sync_aurum_future_branch_evidence.py:95-154 | an array whose ranks are its positions keeps them so |
| BehaviorCore.ShadowState.Init | Projects/AdaptiveKernel/pi3_smsc95xx_candidate_synth.py:124-136 | succeeds exactly on the expected four ids and touches nothing otherwise |
| BehaviorCore.ShadowState.SetLink | Projects/AdaptiveKernel/pi3_smsc95xx_candidate_synth.py:138-153 | the three refusals in order leave the structure alone; otherwise all three link fields are set together |
| BehaviorCore.ShadowState.SetRxChecksum | Projects/AdaptiveKernel/pi3_smsc95xx_candidate_synth.py:155-160 | accepts exactly 0 and 1 once identified |
| BehaviorCore.ReplayIsSane | Projects/AdaptiveKernel/pi3_smsc95xx_behavior_model.py:104-205 | in every state any trace reaches, carrier implies attachment, identification, 10 or 100 Mb/s and a known duplex |
| BehaviorCore.StepInStep | Projects/AdaptiveKernel/pi3_smsc95xx_behavior_model.py:126-180 | one shared action: states in step, same acceptance unless a length wraps to zero, same framed length unless it wraps, and nothing changed on rejection |
| BehaviorCore.LinkAgreesIff | Projects/AdaptiveKernel/pi3_smsc95xx_candidate_synth.py:138-153 | a link action with any speed is answered alike exactly when the speed is not one that wraps to 10 or 100 in 32 bits |
| BehaviorCore.WideSpeedParts | Projects/AdaptiveKernel/pi3_smsc95xx_candidate_synth.py:138-153 | a speed of 2^32 + 10 is refused by the Python and accepted as 10 by the C |
| BehaviorCore.LengthsAgreeIffFits | Projects/AdaptiveKernel/pi3_smsc95xx_candidate_synth.py:162-167 | the framed lengths agree exactly when payload plus overhead fits a size_t |
| BehaviorCore.WrappedLengthsPart | Projects/AdaptiveKernel/pi3_smsc95xx_candidate_synth.py:162-167 | after a link-up, the largest payload a size_t can hold: framed at full length by the Python, announced as seven bytes by the C |
| BehaviorCore.WrapToZeroIsRefused | Projects/AdaptiveKernel/pi3_smsc95xx_candidate_synth.py:162-167 | and one whose framed length wraps to zero is refused by the C only |
| BehaviorCore.ReplayInStep | Projects/AdaptiveKernel/pi3_smsc95xx_behavior_model.py:187-205 | every trace of shared actions keeps the two states in step, with like answers at every position |
| BehaviorCore.CoreFollowsModel | Projects/AdaptiveKernel/pi3_smsc95xx_candidate_synth.py:124-167 | from a matched start (C init; Python identify and attach) and at every position of a trace of any length: states in step, acceptances equal unless a length wraps to zero, framed lengths equal exactly when they do not wrap, both states unchanged on rejection |

## Left out

- Receipt assembly, schema checks, fixed "authority false" maps, wording of reasons and prescription texts: constants without an algorithm. Prescription texts are opaque values.
- SHA-256, canonical JSON, `content_id` and receipt hashes: an abstract hash, injective where a theorem says so. A snapshot file is identified with the digest it is named after.
- C compilation, ctypes, struct layout and null output pointers: the generated C is modelled by its semantics (32-bit wrap-around, `uint8_t` cells, `size_t`).
- Random fuzz drivers, trace digests and fixed scenario matrices: the theorems quantify over what they sample.
- SSH, sysfs, sysctl, subprocesses, timing and file I/O; the atomic replacement of files.
- SQLite and WAL: a call is one step, a write behind the open transaction of another connection raises at once (after the timeout, in SQLite), and each node has one connection. Registration in `hive_nodes` and payloads that JSON cannot write are not modelled.
- uuid4 hex strings are numbers, which compare alike because their length is fixed; values of a wrong Python type are excluded unless the source tests for them.
- Binary floating point: scores are scaled integers, readings and ratios are reals; `round` to three and six decimals is modelled on them, halves going to the even neighbour. Comparisons against 100 survive the rounding of scores.
- 32-bit registers in `InterruptDecoder` are sets of bit positions, so negative and wider Python arguments are excluded there.
- Queue items, work items and JSON entries are values: that Python hands out copies or shared references is not captured, except that `entries.remove` works by value (`Branch.Placed`).
- Sorting is insertion sort on values with the source's key; `list.sort` is not modelled as an algorithm, only its unique outcome. The order of `transitions` in a receipt is shown irrelevant instead.
- Base64 armor, `_control_fields` and UTF-8 decoding: the clear-signed theorems are about the decoded text.
- Regular expressions for ids, hex digits and interfaces; lower-casing and stripping of texts: fields are taken as already normal. The identity gate and the capability model of the driver loop are one-branch decisions; a fingerprint without an interface raises and is not modelled.
- The run log and the future-branch listing of the driver loop.
- `pi3_watchdog_contract.py`, `future_branch_recovery.py`, the tiny-seed policies, `plan_aurum_local_lane_reapproval.py` and `adaptive_kernel.py`: they would only add easy members.
- Reference-correlation, refinement and provenance stages: comparisons of pinned hashes and strings.
- `AurumFarmer` and its ledger: their sources are not part of this model.
- Drain: takes the turns of one worker with no live foreign lease; several workers draining together are covered by the run invariants, not by a progress theorem.
- RunsKeepTheChain: a cycle is two atomic steps, one before its trial and one after it, between which any steps of other processes may come; interleavings inside `ensure_lkg`, `promote_candidate` and `rollback_to_previous`, and files that a trial itself damages, are not modelled.
