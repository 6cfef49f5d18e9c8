# A verified model of the NDN emulator

The emulator runs NDN forwarders over an emulated 802.15.4-style radio link. This project
models its three stateful cores and what they do together, and proves properties of them
with Dafny.

| file | what it models |
|---|---|
| `Ndn.dfy` | names, packets, nonces, face ids |
| `PendingInterests.dfy` | the pending-interest table and its history of calls |
| `FibTable.dfy` | the forwarding table, with match-all lookup |
| `ContentStore.dfy` | the byte-bounded FIFO cache |
| `ForwardingNode.dfy` | the node's handlers as a state machine, its events and runs |
| `ForwardingRuns.dfy` | flow balance, exact delivery and the cache window over whole runs |
| `ForwardingFaces.dfy` | face identity, face 0, removed faces, route registration end to end |
| `NodeAnswers.dfy` | what a node answers, forwards, refuses and ignores, from any state |
| `NodeCleanUp.dfy` | what cleanup of the pending-interest table changes for a node |
| `Network.dfy` | many nodes: floods of Interests and of Data end |
| `CsmaDevice.dfy` | the link device: radio state, transmit queue, two one-shot timers |
| `CsmaRuns.dfy` | safety of the device under every interleaving |
| `CsmaService.dfy` | what the device does with each frame, and how long it waits |
| `CsmaProgress.dfy` | how soon queue entries leave, and how long the head backs off |
| `LateTimers.dfy` | the device when a timer is re-armed after its handler has been queued |
| `Subsequences.dfy` | sequences from which elements have been dropped |
| `Framing.dfy`, `Tlv.dfy` | self-delimiting elements, and the TLV form of NDN (TLV Encoding section of the NDN Packet Format Specification) |
| `AppStream.dfy` | the reassembly buffer of an application face |
| `FaceOrder.dfy` | the ascending order in which a set of face ids is walked |
| `Emulator.dfy` | the objects: packets, faces, devices, links, nodes, FIB manager |
| `DrivenDevice.dfy` | a device object under an arbitrary schedule |
| `DeviceTraffic.dfy` | what a node's sending does to the devices behind its faces |
| `FaithfulDevice.dfy` | device objects that read a frame's addresses off the frame |
| `DrivenNode.dfy` | a node object under a schedule of packets, timers, clients and failing faces |
| `DrivenNetwork.dfy` | all nodes, devices and links together, under any interleaving, with any one node followed |
| `Configuration.dfy` | building such a network |
| `TwoNodes.dfy` | a network of two nodes, built from nothing and run |
| `FrameAddresses.dfy` | the link addresses of a packet object shared by several faces |

The state machines are functions on values. The classes hold the same state in fields that
their methods update in place, and each method's contract equates its effect with the
function of the old state. The theorems are about the functions and about runs: sequences
of any events the emulator can deliver, in any order.

## Assumptions

* Arming a timer that is pending discards the earlier wait, so an expiry is always that of
  the latest wait. The source notes that its timers do not always keep this
  (`core/link-device.cc:168-178`). `LateTimers` drops the assumption: a wait may have expired
  when it is discarded, and its queued handler then still runs. As one thread runs one queue
  (`core/emulator.cc:186`), it runs before any wait of that timer armed later can expire.
* `now` is a parameter. Delivery (`ForwardingRuns.DataReachesExactlyTheOwed`) and cleanup
  transparency assume a clock that does not go back; cleanup transparency also assumes
  lifetimes that are not negative.
* Random backoffs are parameters (`draw`); losses and the choice of who hears a frame are
  left open.
* Face ids are less than 2^31 - 1 when a new one is given out. Names that reach the FIB
  manager are at least five components long; the source indexes them unchecked.
* A link holds each device under the id of its own node, as `core/emulator.cc:75-76` sets up.

## Where the code differs from what is said of it

* The comment in `core/fib.cc:21-39` says that lookup stops at a match. It does not: the
  result is the union over all prefixes. The model follows the code.
* Face 0 is meant for the FIB manager's own prefix. The code narrows a 64-bit face id of a
  `register` command to `int`, so an id that is a multiple of 2^32 registers face 0 for any
  prefix. `ForwardingFaces.ManagerFaceOnlyAtPrefix` states exactly when face 0 stays at its
  prefix, `ForwardingFaces.ApartByInput` gives a condition on the commands alone, and
  `ForwardingFaces.AliasGoesThrough` gives the run that breaks it.
* The comment at `core/link-device.cc:168-178` lets a receive handler pass that finds the
  device idle, as the handler of a discarded wait may have ended the reception before. The
  device can by then also be sending, and the handler throws. `LateTimers.RunFaultsIff`
  states exactly when a run faults, `LateTimers.StaysInStepIff` which late handlers do harm,
  and `LateTimers.LateHandlerThrows` gives the run. No late handler throws itself, and the
  assertion of the csma handler holds on every such run.
* Cleanup of the pending-interest table is not invisible: an Interest that repeats a nonce
  whose record expired before the last cleanup is accepted again.
  `PendingInterests.CleanUpTransparent` states exactly when answers agree,
  `NodeCleanUp.CleanUpIsInvisible` that a node's run then sends the same, and
  `PendingInterests.RevivalIsVisible` and `NodeCleanUp.RepeatIsForwardedAgain` give the inputs.
* A packet sent to two neighbors through one device is queued twice, but both copies carry
  the address of the neighbor with the greater face id.
  `FrameAddresses.AddressedToEachIff` states exactly when every neighbor is addressed, and
  `FrameAddresses.TwoNeighbors` gives the input.
* A packet sent through two devices carries the address of one of them as source on both
  links. `FrameAddresses.SourceIsSenderIff` states exactly when the source is right on every
  link, and `FrameAddresses.TwoDevices` gives the input.

## Model

| member | source | states |
|---|---|---|
| PendingInterests.Pit.AddNonce | core/pit.cc:9-23 | a nonce is recorded once; a second one is refused and changes nothing |
| PendingInterests.Pit.AddInterest | core/pit.cc:25-46 | accepted exactly when this name and nonce are not in the table, and then recorded with its face until its whole lifetime from now has passed; the history gains this call |
| PendingInterests.Pit.CollectFaces | core/pit.cc:61-68 | the faces of the unexpired records of one entry are added to the set |
| PendingInterests.Pit.ConsumeInterestWithDataName | core/pit.cc:48-76 | every entry whose name prefixes the Data name leaves; the set gains the faces owed the Data by the history of calls, and no other |
| PendingInterests.Pit.DropExpired | core/pit.cc:118-129 | the erasing loop leaves exactly the records that have not expired |
| PendingInterests.Pit.CleanUp | core/pit.cc:103-142 | expired records leave, and so do entries with no record left; nothing else changes |
| PendingInterests.HistoryExplainsTable | core/pit.cc:25-142 | every record stems from an accepted Interest not answered since, and every such Interest that is still alive has its record |
| PendingInterests.ExactDelivery | core/pit.cc:25-76 | after any history, a face is in the result of a Data name exactly when an accepted Interest of that face under a prefix was sent less than its lifetime ago and was not answered since |
| PendingInterests.DeliveryIsOwed | core/pit.cc:48-76 | the same for all faces at the moment of the call |
| PendingInterests.NoEmptyEntryEver | core/pit.cc:131-137 | no history leaves an entry with an empty nonce table |
| PendingInterests.PurgeKeepsExactly | core/pit.cc:103-142 | a cleanup keeps exactly the records that expire at that moment or later, unchanged |
| PendingInterests.PurgedReplay | core/pit.cc:103-142 | a history with cleanups in it leads to the table without cleanups minus what the last cleanup drops, if no Interest revives a dropped record |
| PendingInterests.CleanUpTransparent | core/pit.cc:103-142 | accept and reject answers agree with the run without cleanups if and only if no Interest repeats a nonce whose record expired before the last cleanup; the faces given for Data then agree too |
| PendingInterests.RevivalIsVisible | core/pit.cc:9-23 | the history for which cleanup shows: the second of two equal Interests is accepted after a cleanup and refused without it |
| PendingInterests.AskHolds | core/pit.cc:25-46 | an Interest adds one record to its own face if accepted, and none to any other |
| PendingInterests.AnswerReleases | core/pit.cc:48-76 | a face that is given Data loses at least one record |
| FibTable.Fib.AddRoute | core/fib.h:26-37 | the face is added to the prefix's set, which is created if missing |
| FibTable.Fib.CleanUp | core/fib.h:39-55 | the erasing loop leaves exactly the table without the face and without entries emptied by that |
| FibTable.Fib.LookUp | core/fib.cc:10-40 | the counting loop finds the faces of all entries whose prefix is a prefix of the name |
| FibTable.RouteAddsExactly | core/fib.h:26-37 | a route adds its face to the lookups under its prefix and changes no other; no empty entry arises |
| FibTable.CleanUpLookup | core/fib.h:39-55 | after a cleanup every lookup is the old one minus the face |
| FibTable.RoutesRoundTrip | core/fib.h:26-55 | adding any routes for a fresh face and cleaning that face up restores the table exactly |
| FibTable.RoutesThenCleanUp | core/fib.h:26-55 | for a face already in use, the cleanup forgets the added routes all the same |
| ContentStore.CacheManager.FindMatchingData | core/cache-manager.cc:11-33 | the loop returns the first match of the queue |
| ContentStore.CacheManager.Insert | core/cache-manager.cc:35-63 | the eviction loop keeps the byte count exact and within the limit, and the queue the window of its insertions |
| ContentStore.CacheManager.CleanUp | core/cache-manager.cc:65-94 | expired entries leave in place and the byte count stays exact |
| ContentStore.UnexpiredExactly | core/cache-manager.cc:65-94 | of every entry a cleanup leaves all copies if it expires at that moment or later and none otherwise, in order |
| ContentStore.CacheIsWindow | core/cache-manager.cc:35-63 | after any insertions the queue is the longest suffix of those no larger than the limit that fits the limit |
| ContentStore.LookupIsOldest | core/cache-manager.cc:11-33 | a lookup is the oldest match, and fails exactly when there is none |
| ContentStore.AnswerIsOldestInWindow | core/cache-manager.cc:11-63 | an answer is the oldest match inside that suffix of the insertion history |
| Framing.Reassembles | core/app-face.cc:21-31 | the parsed elements followed by the unparsed rest are the bytes |
| Framing.ParseResumes | core/app-face.cc:15-50 | parsing the rest with more bytes behind it continues the parse of all bytes |
| Framing.ElementsOfFlatten | core/app-face.cc:21-31 | a concatenation of elements parses back into them |
| Tlv.SizeOfPrefix | core/app-face.cc:24-26 | cutting a buffer short makes an element incomplete or leaves its size as it was |
| Tlv.TlvIsSelfDelimiting | core/app-face.cc:24-26 | the TLV form meets what the reassembly needs of a block reader |
| Tlv.VarNumberRoundTrip | core/app-face.cc:24-26 | a TLV number of any width reads back at any offset |
| Tlv.NumberForms | core/app-face.cc:24-26 | the octets of a TLV number of each width, as the TLV Encoding section of the NDN Packet Format Specification lays them out |
| Tlv.EncodeIsElement | core/app-face.cc:24-26 | an encoded packet is one complete element |
| AppStream.AppFace.constructor | core/app-face.h:18-24 | the buffer starts empty, with room for the largest packet |
| AppStream.AppFace.Send | core/app-face.h:47-54 | the packet is handed to the socket behind the earlier ones |
| AppStream.AppFace.HandleReceive | core/app-face.cc:8-63 | parse, dispatch and compaction leave the buffer and the dispatched blocks a function of all bytes received; the throw happens exactly when an unfinished element fills the buffer |
| AppStream.AppFace.DispatchComplete | core/app-face.cc:20-32 | the parse loop dispatches exactly the complete elements and stops where the rest begins |
| AppStream.AppFace.Compact | core/app-face.cc:43-45 | copying the overlapping ranges moves the rest to the front unchanged |
| AppStream.ChunkingInvariance | core/app-face.cc:15-50 | for any chunks that fit the offered window: the face fails if and only if some element is too large for the buffer; otherwise the dispatched blocks and the buffer are the parse of the stream |
| AppStream.SameBytesSamePackets | core/app-face.cc:15-50 | two ways to cut the same bytes give the same blocks, the same buffer and the same failure |
| AppStream.WellFormedStreamArrives | core/app-face.cc:15-50 | a stream of elements no larger than the maximum arrives complete and in order |
| AppStream.EncodedPacketsArrive | core/app-face.cc:15-50 | the same for TLV-encoded packets |
| CsmaRuns.StepKeeps | core/link-device.cc:57-343 | every handler keeps the device invariant and justifies what it does |
| CsmaRuns.DeviceSafety | core/link-device.cc:57-343 | on no interleaving does a handler throw or the assertion fail; queue and csma timer, state and receive timer stay in step, and the queue within its limit |
| CsmaRuns.FifoConservation | core/link-device.cc:208-219 | accepted entries are the retired ones followed by the queue, in order; exactly the completed ones and the one on the air went to the link, once each; transmissions follow acceptance order |
| CsmaRuns.CollisionSafety | core/link-device.cc:62-108 | a dispatched frame is the only one whose reception began since the device was last idle, it began in idle, and it is addressed to the device |
| CsmaRuns.ReceptionOutcome | core/link-device.cc:133-189 | a reception that ends was dispatched if and only if it was alone and addressed to the device |
| CsmaRuns.GivesUpOnlyAfterFive | core/link-device.cc:281-303 | an entry is given up only after five busy channel assessments of one attempt |
| CsmaService.SendOutcome | core/link-device.cc:194-237 | a frame is accepted exactly if it fits the MTU and the queue has room, and then a first backoff of 0 to 7 periods of 320 us begins |
| CsmaService.CsmaOutcome | core/link-device.cc:250-332 | a csma expiry ends the transmission on the air, or transmits if no reception is under way, or else backs off 0 to 15 periods the first time, 0 to 31 the next three times, and gives up the fifth time |
| CsmaService.CsmaWaits | core/link-device.cc:262-316 | the wait then pending is that backoff, or the air time of the frame handed to the link |
| CsmaService.ArrivalOutcome | core/link-device.cc:62-108 | a frame is missed exactly while a transmission is on the air; otherwise its reception begins, alone or in collision, and the receive timer is armed |
| CsmaService.EveryArrivalNoticed | core/link-device.cc:57-119 | on every run each arriving frame, in order, either begins its reception or is missed |
| CsmaService.ChannelSensing | core/link-device.cc:57-332 | on every run frames are missed only during transmissions, receptions and transmissions begin only between them, and the channel is found busy exactly during a reception |
| CsmaService.LoneFrameIsDispatched | core/link-device.cc:62-185 | a frame that reaches an idle device while no other arrives is dispatched at the end of its reception exactly if it is addressed to the device or to all, to its sender's face or a new one, whatever is sent and however often the channel is assessed in between |
| LateTimers.FaultsIffHits | core/link-device.cc:121-343 | with late handlers in queue order, the only fault is a receive timer that expires while the device sends; the invariant they keep rules out the csma assertion |
| LateTimers.RunFaultsIff | core/link-device.cc:57-343 | a run from start-up faults if and only if the receive timer expires while the device sends, with the illegal-state throw; no run fails the assertion |
| LateTimers.StaysInStepIff | core/link-device.cc:168-178 | a late receive handler always finds a reception and ends it with its timer still pending; no other handler puts receive timer and state out of step |
| LateTimers.HarmlessRunsInStep | core/link-device.cc:168-178 | a run without late receive handlers never faults, whatever late csma handlers there are |
| LateTimers.PunctualIsExact | core/link-device.cc:57-343 | without late handlers the runs are those with exact cancellation |
| LateTimers.LateHandlerThrows | core/link-device.cc:168-185 | a run from start-up, in queue order and with one late receive handler, that ends in the illegal-state throw |
| CsmaProgress.HeadLeavesInTime | core/link-device.cc:281-332 | the head leaves within its allowance of csma expiries, although accepted sends restart the backoff |
| CsmaProgress.EntryLeavesInTime | core/link-device.cc:281-332 | the entry at position k, and all before it, leave within that allowance and 4 * limit + 6 further expiries for each entry before it |
| CsmaProgress.FreshHeadLeavesInTime | core/link-device.cc:208-237 | for an entry that becomes head at queue length s the allowance is 4 * (limit - s) + 6 |
| CsmaProgress.NewHeadIsFresh | core/link-device.cc:291-331 | every entry that reaches the front is such a fresh head |
| CsmaProgress.HeadBackoffBound | core/link-device.cc:286-315 | a head's backoff is at most 36800 us times (limit - s + 1), and at most 36800 us if no send was accepted meanwhile |
| CsmaProgress.BoundIsTight | core/link-device.cc:208-332 | both bounds are reached: there is a run of one expiry fewer after which the head is still there, having waited 36800 us times (limit - s + 1) |
| ForwardingRuns.EventBalance | core/node.cc:138-218 | in one event, Data sent to a face plus its pending records grow by at most the Interest received from it, registration responses included |
| ForwardingRuns.FlowBalance | core/node.cc:138-218 | on every run a face is sent at most as many Data packets as it sent Interests, its pending records counted in |
| ForwardingRuns.RunFollowsLog | core/node.cc:138-218 | on every run the pending-interest table and the cache are what the logged calls on them amount to |
| ForwardingRuns.DataReachesExactlyTheOwed | core/node.cc:201-218 | after any run, Data goes to exactly the existing faces it is owed to by the calls of the run, and is handed to the cache exactly when it is owed to someone |
| ForwardingRuns.CacheAnswersFromWindow | core/node.cc:143-152 | after any run, a cache answer is the oldest match in the longest fitting suffix of the Data inserted |
| ForwardingRuns.DataOutcome | core/node.cc:201-218 | from any state, Data goes to the existing faces that wait for it and is cached, for its freshness period from now, if any face waits; exactly the entries for prefixes of its name leave |
| NodeAnswers.AnsweredFromCache | core/node.cc:143-152 | from any state, the oldest match goes to the existing face of the Interest and nothing else happens |
| NodeAnswers.CachedOnTheWay | core/cache-manager.cc:11-63 | whatever a run has cached matches an Interest exactly when the Interest's name prefixes its own and its freshness period since it was cached has not run out, or the Interest does not ask |
| NodeAnswers.CachedDataIsSent | core/node.cc:138-156 | after any run from start-up: if anything in the longest fitting suffix of the eligible insertions matches, the oldest such Data is sent to the face of the Interest, no call is made and nothing changes; otherwise the pending-interest table is asked first |
| NodeAnswers.RepeatIsDropped | core/node.cc:154-196 | from any state, an Interest the cache does not answer whose name and nonce are recorded goes nowhere and changes nothing |
| NodeAnswers.NewInterestIsForwarded | core/node.cc:154-190 | from any state, a new Interest without a route to the FIB manager is recorded for its lifetime and goes to every existing face but its own that a route under a prefix of its name leads to, and to no other |
| NodeAnswers.OtherCommandsAreIgnored | core/fib-manager.cc:13-39 | a command with another verb or undecodable parameters is recorded and gets no answer |
| NodeAnswers.CommandIsAnswered | core/fib-manager.cc:13-78 | a register command is answered under its own name, with 200 and its route added if its parameters are valid, with 400 and no route touched if not; the signed response goes to all existing faces that wait for the name and is cached for the response's freshness period |
| NodeAnswers.NarrowingWraps | core/fib-manager.cc:54-62 | the face id of a command is kept modulo 2^32, in the range of `int` |
| NodeAnswers.LookupsAfter | core/node.cc:23-226 | after any event every lookup is the one before, plus the face of the route added or registered, or minus the face removed |
| NodeAnswers.FacesAfter | core/node.cc:23-226 | the faces, the next id and the waiting face after any event |
| NodeCleanUp.CleanUpIsInvisible | core/pit.cc:103-142 | striking the cleanups out of a run leaves a possible run that sends, caches, registers and calls the same at every event and ends in the same state but for dropped records, if no Interest repeats a nonce whose record expired before the last cleanup; and exactly then does the table answer every Interest as without cleanups |
| NodeCleanUp.RepeatIsForwardedAgain | core/pit.cc:9-23 | from any state, a forwarded Interest that is repeated is forwarded again after a cleanup that found its record expired, and is not without the cleanup |
| ForwardingFaces.HandleSound | core/node.cc:23-113 | face ids in the table are at least 1 and below the counter; only the counter's or the waiting client's id can enter, only a removed one can leave; face 0 stays at the command prefix; no FIB entry is empty |
| ForwardingFaces.RunSound | core/node.cc:23-226 | the same over runs, with a counter that never falls |
| ForwardingFaces.RemovedFaceIsSilent | core/node.cc:220-226 | after a face is removed nothing is sent to it in any continuation, and its id is not given out again |
| ForwardingFaces.CommandsReachManager | core/node.cc:158-190 | once started, an Interest under the command prefix is never forwarded to a face |
| ForwardingFaces.CommandsStayLocal | core/node.cc:179-190 | the same on every run |
| ForwardingFaces.ManagerExists | core/node.cc:179-184 | face 0 is in a lookup only when the FIB manager exists |
| ForwardingFaces.RegisteredIsRequested | core/fib-manager.cc:13-65 | the route a handler registers is the one the command asked for: a new Interest the cache does not answer, led to face 0, with a valid command in its name |
| ForwardingFaces.ManagerFaceOnlyAtPrefix | core/fib-manager.cc:54-62 | face 0 occurs in the FIB only at the command prefix if and only if no command on the way asked for another prefix with an id that is a multiple of 2^32 |
| ForwardingFaces.ApartByInput | core/fib-manager.cc:54-62 | so it is whenever no command received carries such a request, whatever states it meets |
| ForwardingFaces.ApartIfIdsFit | core/fib-manager.cc:54-62 | in particular when every face id that can be decoded fits an `int` |
| ForwardingFaces.AliasGoesThrough | core/fib-manager.cc:41-65 | otherwise one command after start-up leads any prefix to face 0 |
| ForwardingFaces.RegisterEndToEnd | core/fib-manager.cc:13-78 | one well-formed register command leaves the FIB extended by exactly that route, no entry prefixing the command name, and the signed response sent to the requester and whoever else waited |
| Network.AcceptedAtMostOnce | core/node.cc:154-196 | in any network, any routes and any losses, a node accepts an Interest at most once while nothing answers it |
| Network.InterestFloodEnds | core/node.cc:154-196 | such a flood ends, within a bound on the number of deliveries |
| Network.AnswersCostRecords | core/pit.cc:54-75 | a Data packet goes to no more faces than it takes records |
| Network.DataFloodEnds | core/node.cc:201-218 | a flood of Data ends, within a bound given by the pending records |
| Emulator.Packet.SetDst | core/packet.h:39-43 | only the destination changes |
| Emulator.Packet.SetSrc | core/packet.h:51-55 | only the source changes |
| Emulator.LinkFace.Send | core/link-face.cc:23-28 | the destination becomes the face's neighbor whether or not the device takes the packet; the source becomes the device's exactly when it does |
| Emulator.LinkDevice.constructor | core/link-device.cc:19-43 | the device starts idle, with an empty queue, no timer pending and no face |
| Emulator.LinkDevice.AddBroadcastFace | core/link-device.cc:45-55 | the device's face for broadcasts is created and entered in the node's table |
| Emulator.LinkDevice.StartRx | core/link-device.cc:57-119 | the step of the state machine, or the throw with nothing changed |
| Emulator.LinkDevice.DispatchFrame | core/link-device.cc:140-161 | the frame is posted to the face for its sender, which is addressed to the sender and on this device, and is created if there is none |
| Emulator.LinkDevice.PostRx | core/link-device.cc:121-192 | the step of the state machine; the frame is posted to the sender's face exactly when it is heard; every face of the device stays addressed to the neighbor it is kept for |
| Emulator.LinkDevice.StartTx | core/link-device.cc:194-219 | the step of the state machine; the queue gains this packet, now with the device's source, or nothing |
| Emulator.LinkDevice.StartCsma | core/link-device.cc:221-237 | a fresh attempt: no busy assessment, the smallest exponent, a wait within its slots |
| Emulator.LinkDevice.DoCsma | core/link-device.cc:239-343 | the step of the state machine; the head is posted to the link exactly when the channel is clear |
| Emulator.LinkDevice.ChannelBusy | core/link-device.cc:281-316 | a longer backoff, or the head given up after the fifth busy assessment |
| Emulator.Link.AirTimeIsExact | core/link-device.cc:266-270 | the air time is the number of whole us whose bits, at this rate, the frame still fills |
| Emulator.Link.AddNodeDevice | core/link.h:50-54 | the device is set for that id, and no other changes |
| Emulator.Link.AddConnection | core/link.h:68-84 | refused for a self edge and for unknown ends, in that order; otherwise one neighbor is added and the matrix stays well formed |
| Emulator.Link.Transmit | core/link.cc:7-26 | every neighbor that does not lose the frame starts receiving it, every other is untouched, and a throw means some neighbor is in an illegal state |
| Emulator.Node.constructor | core/node.h:29-42 | the node starts with empty tables and face counter 1 |
| Emulator.Node.AddLinkFace | core/node.cc:100-113 | the new face has the counter's id, and the counter grows by one |
| Emulator.Node.AddDevice | core/node.cc:77-98 | refused for a known device id; otherwise the device has just its face for broadcasts, which is also the node's new face |
| Emulator.Node.AddRoute | core/node.cc:115-136 | refused for an unknown device; otherwise the route goes to the device's face for that neighbor or to a new one, addressed to the next hop through that device |
| Emulator.Node.ForwardToFace | core/node.h:99-109 | nothing happens if the face is gone |
| Emulator.Node.ForwardToFaces | core/node.h:111-120 | one packet object goes to the existing faces of the set in ascending order |
| Emulator.Node.HandleData | core/node.cc:201-218 | the tables, their histories and what is sent are as the state machine says |
| Emulator.Node.CacheAndForward | core/node.cc:209-217 | the part of it for Data that some face waits for |
| Emulator.Node.HandleInterest | core/node.cc:138-199 | the same, with the cache answer, the refusal, the FIB manager and forwarding |
| Emulator.Node.HandleUncached | core/node.cc:154-196 | the part after the cache |
| Emulator.Node.LookUpAndForward | core/node.cc:158-190 | the part for an accepted Interest, with the lookup that leaves out the face it came from |
| Emulator.Node.ForwardAccepted | core/node.cc:172-190 | the part after the lookup |
| Emulator.Node.CleanUpPit | core/pit.cc:103-142 | only the pending-interest table changes |
| Emulator.Node.RemoveFace | core/node.cc:220-226 | the face leaves the table and the FIB, not the pending-interest table |
| Emulator.Node.Start | core/node.cc:23-55 | the FIB manager is created and a face waits for the first client |
| Emulator.Node.HandleAccept | core/node.cc:57-75 | the waiting face enters the table and another waits |
| Emulator.FibManager.constructor | core/fib-manager.h:31-38 | the command prefix is routed to face 0 |
| Emulator.FibManager.ProcessCommand | core/fib-manager.cc:13-39 | the route and the response, through the node's own Data path |
| Emulator.FibManager.AddNextHop | core/fib-manager.cc:41-65 | a valid request is routed and confirmed, an invalid one changes nothing and is refused |
| Emulator.FibManager.SendResponse | core/fib-manager.cc:67-78 | the signed response is handled as Data of the command name |
| Emulator.FibManager.CleanUpFib | core/fib-manager.h:43-50 | the face leaves the FIB |
| FaceOrder.AscendingElements | core/node.h:114-119 | walking a face set visits each of its faces once, in strictly ascending order |
| Emulator.OnlyExistingFaces | core/node.h:99-120 | forwarding to a set is forwarding to those of its faces that exist |
| DrivenDevice.EndReception | core/link-device.cc:121-192 | from a sound state the receive handler does not throw, and reads the addresses off the pending frame as it stands |
| DrivenDevice.SendThrough | core/link-face.cc:23-28 | a face's send is a step of its device's state machine |
| DrivenDevice.Occur | core/link-device.cc:57-343 | from a sound state no handler of the object throws; a timer fires exactly when it is pending, and the object takes that step |
| DrivenDevice.Drive | core/link-device.cc:57-343 | under any schedule of frames, timers and sends of its faces the device object goes through a run of the state machine, and no frame's address changes but those of the frames it is given to send |
| DeviceTraffic.DeviceFares | core/node.h:111-120 | sending a packet to any set of faces keeps every device's invariant and dispatches nothing |
| DrivenNode.Receive | core/node.cc:138-218 | the node object takes the state machine's step for a packet, its fields and face table stay, and every application's socket gains exactly what the step sends to its face |
| DrivenNode.ReceiveAndSend | core/node.cc:138-218 | the same, and the node's devices stay sound, with their faces and posted work |
| DrivenNode.Manage | core/node.cc:23-75 | the same for cleanups, start-up, clients and removals, which send nothing; a face that stays keeps its object |
| DrivenNode.Occur | core/node.cc:23-226 | a removed application stays removed and its socket gains nothing more |
| DrivenNode.MovedAt | core/node.cc:23-226 | whatever a node does, seen from applications that were once on its faces: one still there gets what is sent to its face, a removed one stays removed and gets nothing |
| DrivenNode.Drive | core/node.cc:23-226 | under any possible schedule the node object's tables, call histories and application sockets are those of the run, so what holds of runs holds of it; sound devices stay sound |
| DrivenNode.SocketBalance | core/node.cc:138-218 | the Data on an application's socket number at most the Interests it sent and the records it had pending |
| FaithfulDevice.FinishReception | core/link-device.cc:135-161 | a device that dispatches a frame has read destination and source off the frame as it stands |
| DrivenNetwork.Transmission | core/link.cc:7-26 | in a sound network a transmission throws at no receiver, and all stay sound |
| DrivenNetwork.HandOver | core/face.cc:18-44 | in a sound network a packet handed to a node is one step of its state machine, with exact socket growth, touches no other node, and keeps all nodes and devices sound |
| DrivenNetwork.SeenByWatched | core/node.cc:23-226 | what one node does is nothing to the tables, histories and applications of any other |
| DrivenNetwork.Happen | core/link-device.cc:57-343 | any occurrence keeps the network sound and is, for the node it happens to, the one event it stands for: a node takes part in what happens to it directly exactly when its state allows, and a posted callback brings the posted packet on its face |
| DrivenNetwork.Drive | core/link-device.cc:57-343 | with any interleaving of timers, posted callbacks, client packets and management of all nodes: no device throws or asserts, every device dispatches frames as they are addressed, and no existing packet's address is written again; of whichever node one follows, tables, histories and application sockets are those of a run of the state machine on the schedule's events at that node, faces created on demand included |
| DrivenNetwork.HandleThenDrive | core/node.h:111-120 | after a node has sent a packet through one link face with room, whatever happens then, every device that dispatches it reads that face's neighbor and that face's device, and is that neighbor unless the frame is for all |
| Configuration.EmptyRuns | core/emulator.cc:25-60 | the empty network is sound |
| Configuration.AddLink | core/emulator.cc:35-40 | a network with one more link, of this rate and MTU and with nobody on it, is sound |
| Configuration.AddNode | core/emulator.cc:58-60 | a network with one more node, with empty tables of its own, is sound |
| Configuration.AddDevice | core/emulator.cc:75-76 | refused with nothing changed for a known device id; otherwise a network with one more idle device on the node and the link is sound, with one face id used |
| Configuration.AddConnection | core/emulator.cc:146 | refused for a self edge and unknown ends; otherwise one neighbor is added; the network stays sound |
| Configuration.AddRoute | core/emulator.cc:116 | refused for an unknown device; otherwise the node has the route, through the device's face for that neighbor or a new one; the network stays sound |
| TwoNodes.Assemble | core/emulator.cc:25-150 | two nodes that hear each other, the left one with a static route to the right one, built from nothing by these steps |
| TwoNodes.RouteIsTaken | core/node.cc:154-196 | an Interest under the route's prefix leaves through the route's face |
| TwoNodes.InterestCrosses | core/link-face.cc:23-28 | in that network, whichever device dispatches the frame of the Interest reads the right node's address as destination and the left node's as source |
| FrameAddresses.DestinationIsGreatest | core/node.h:111-120 | the packet ends up with the address of the neighbor with the greatest face id |
| FrameAddresses.AddressedToEachIff | core/node.h:111-120 | every neighbor of the set is the one addressed if and only if all link faces of the set have the same neighbor |
| FrameAddresses.CopiesQueued | core/link-device.cc:208-219 | a device queues one copy per face of the set, as far as it has room |
| FrameAddresses.SourceIsLastTaker | core/link-device.cc:208-213 | the source is the address of the device of the greatest face whose copy was queued, and untouched if none was |
| FrameAddresses.SourceIsSenderIff | core/link-device.cc:212-213 | every link face whose device has room is given as the source if and only if all these devices have one address |
| FrameAddresses.TwoDevices | core/link-device.cc:212-213 | with faces on two devices that take the packet, the first device's copy carries the second one's address |
| FrameAddresses.SocketsGetOneCopy | core/node.h:111-120 | an application gets one copy if its face is in the set, and none otherwise |
| FrameAddresses.OneLinkFace | core/link-face.cc:23-28 | with one link face in the set and room in its queue, the queued packet carries that face's neighbor as destination and the sending device as source |
| FrameAddresses.NeighborIsAddressed | core/link-face.cc:23-28 | the same of the packet and device objects after a handler of the node |
| FrameAddresses.TwoNeighbors | core/node.h:111-120 | with two neighbors behind one device both queued copies are for the neighbor of the greater face |

## Left out

- Sockets, acceptors, the event loop and object lifetimes: callbacks are events of a run or
  fields (`posted`); the error return of a receive is an outcome of `HandleReceive`, and the
  face removal it leads to is a separate event.
- Signing, key chains and packet encoding: the block reader, the wire size, the decoding and
  validation of command parameters and the signature are parameters; `Tlv` adds the framing.
- `Face::Dispatch` decoding (`core/face.cc:18-44`): blocks and posted frames are handed over
  as they are; packets of unknown type are excluded.
- Loss rates and random engines: any loss and any draw; nothing is said of probabilities.
- The floating-point frame time: `AirTime` computes it over the reals.
- The lengths of receive waits: the receive timer of a device is pending or not.
- Reading the configuration file, logging, printing and the applications.
- Pending-interest entries as objects: an entry is owned by one name, so it is a value in the
  table, and its inner loops are methods that return the new nonce table.
- One clock reading for each handler: `HandleInterest` and `HandleData` read the clock more
  than once in the source.
- Scheduling of the periodic cleanups: a cleanup is an event at any time; the cache cleanup
  is not an event of a node's run, as the source never schedules it.
- Negative cache limits, and face counters at the end of the `int` range.
- AppStream.AppFace.Send: does not model the bytes written to the socket or their completion.
- Emulator.Link.Transmit: does not say which neighbors heard the frame before a throw, which
  depends on the order of node ids; no device of a run is in a throwing state.
- Network.InterestFloodEnds: counts deliveries and losses of copies, not the timing, backoff
  or collisions of the link; a copy in flight stands for a frame that some neighbor will hear.
- DrivenNetwork.Drive: takes each device's callbacks in the order it posted them, and those
  of different devices in any order; it leaves out Interests for the FIB manager whose names
  are too short to be commands, and adds no devices, routes or connections, which
  `Configuration` does between schedules.
- LateTimers.RunFaultsIff: lets any wait be found expired when it is discarded, whatever its
  length and however long the handlers take.
- DrivenNode.Drive: does not schedule the adding of devices, routes and link faces; link
  faces created on demand are in the schedules of `DrivenNetwork.Drive`, and devices and
  routes are added between schedules by `Configuration`.
- NodeCleanUp.CleanUpIsInvisible: a revived Interest always shows in the answer of the table,
  but not always in what is sent: the node may have no face left for it, or take it as a
  command it cannot decode.
