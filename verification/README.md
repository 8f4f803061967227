# Verified models of the nDPI packet reader and its companion programs

This project models, in Dafny, the parts of nDPI's example programs that hold state or walk
untrusted bytes, and proves what they promise for every packet, every run and every interleaving.
`dafny verify dfyconfig.toml` checks all of it.

* **Decapsulation** (`Decapsulation*.dfy`, `Vxlan`). The goto-driven parser of
  `ndpi_workflow_process_packet` is a step machine over a cursor; every offset has its C width and
  every read of the capture is a checked index. Proved: it halts on all captures of n octets if
  and only if n <= 65495; a delivered IP header lies inside the capture; up to that length, what a
  run does depends only on the bytes from its position on, exactly unless the Cisco PPP branch is
  asked and the first octets of the two captures differ; a VXLAN envelope is undone from a fresh
  start; VLAN, MPLS and IP-in-IP stacks, GRE headers, GTP-U and IPv6 extension chains of any
  length are left behind completely. Loops are methods proved against the machine.
* **Flow table of the reader** (`SearchTree`, `FlowOrder`, `FlowTable`, `Workflow`,
  `WorkflowSweep`, `FlowHistory`, `Admission`, `Conservation`, `ReaderThread`, `TreeTotals`).
  Buckets of binary trees refine a map from conversations (VLAN, protocol, unordered endpoint
  pair) to flows; each record is the summary of its packets; idle expiry never reaps early and
  always reaps eventually; traffic is conserved over whole captures. The class
  `ReaderThread.Reader` updates the state in place and equals the step function.
* **From raw bytes to records** (`Transport`, `Pipeline`). Decapsulation, the 16-bit length
  arithmetic and the flow table joined: the payload of a delivered packet lies inside the capture;
  a frame and its answer, behind any VLAN tags, are counted in one record; a frame in a VXLAN
  envelope is accounted to the conversation of the bare frame; a file of raw captures is
  summarised.
* **Sharded tracker** (`Tracker`, `Sharding`, `ShardingLog`, `ShardingLimit`, `ShardingQueue`,
  `CommunityId`, `TrackerTable`, `TrackerHistory`, `TrackerThread`). N threads read one stream and
  share an atomic counter; a schedule is any sequence of thread turns, and a thread can be
  interrupted between choosing to create a flow and drawing its number. Proved for all schedules:
  unique flow numbers, each packet processed once and by its own thread, no schedule is stuck, and
  the union of the tables is the table of a single worker while its flow limit and its queue of
  idle flows suffice. For every stream in which no flow is idle at a scan, it is proved exactly
  when the flow limit makes the tables part; for one scan after such a stream, when the queues do.
  The flow hash is *not* the same in both directions for ICMP: the exact condition and its
  consequence (two records for one ICMP conversation, unless its digests collide) are proved.
* **Statistics** (`AddressTree`, `TopAddresses`, `PortStats`, `Receivers`, `ByteStats`, `Entropy`,
  `EntropyMeaning`, `TcpSample`, `EntropyRecord`, `PayloadPatterns`, `Fingerprints`). Each
  streaming structure is proved equal to what it should count over every feed; where that needs a
  side condition, the exact one is proved.
* **Flow key** (`FlowKey`). The Python example's key string is injective on unordered endpoint
  pairs.

Conventions: a C struct that is updated in place is a class whose `View()` is the value the
specification functions work on; a hash table of the uthash library is a map, or a sequence in
iteration order where order matters. The detection library, the digest of the flow hash and the
clock are parameters.

Where code and comments disagree, the model follows the code. In particular: the TZSP tag loop
leaves after its first tag; a pattern that ends exactly at the end of the payload is not counted;
the flow hash replaces ICMP type and code 0 by the pair (0, 8), so the two directions of one ICMP
conversation hash differently; address 0 matches an unused slot of the top table, which then keeps
IP version 0.

## Model

| member | source | states |
|---|---|---|
| DecapsulationHalting.HaltsExactlyUpToMaxCaplen | example/reader_util.c:2282-2748 | All captures of n octets, with any datalink and nesting, are decapsulated in finitely many steps if and only if n <= 65495 |
| DecapsulationHalting.LoopingCaptureNeverHalts | example/reader_util.c:2443-2499 | For every longer length a concrete capture whose 16-bit offset wraps keeps the machine running forever |
| DecapsulationHalting.HaltsWithinRank | example/reader_util.c:2282-2748 | Any machine whose steps are sound halts within its rank (bytes left, then phase) |
| DecapsulationHalting.StepSound | example/reader_util.c:2282-2748 | Every label either lowers the rank and keeps the offset within caplen + 40, discards, or delivers a header inside the capture |
| DecapsulationHalting.DeliveredHeaderInside | example/reader_util.c:2750-2755 | Whenever packet_processing is reached, after any run on a capture of any length, the 20-byte IPv4 or 40-byte IPv6 header with its version nibble lies inside the capture |
| DecapsulationHalting.RunIsStable | example/reader_util.c:2282-2755 | Once a run has halted, more steps do not change its outcome |
| DecapsulationPosition.SuffixDecides | example/reader_util.c:2282-2755 | From the start of a frame, in captures of up to 65495 octets, prepending peeled bytes shifts every position in every step and changes nothing else, if and only if the datalink is not Cisco PPP, or the frame is too short, or the first octets of both captures select the same PPP header |
| DecapsulationPosition.SuffixDecidesIff | example/reader_util.c:2282-2755 | The same from any label, again up to 65495 octets: exactly when those octets agree or the run never asks the PPP branch |
| DecapsulationPosition.PppStepIff | example/reader_util.c:2306-2323 | One step at the PPP branch is independent of the position exactly when the first octets of the captures agree |
| DecapsulationPosition.PppPositionMatters | example/reader_util.c:2306-2323 | Captures the reader meets (PPP, IPv4, GRE, PPP) on which decapsulation comes to an inner frame and does not treat it as it treats that frame alone |
| Vxlan.VxlanRoundTrip | example/reader_util.c:2083-2127 | An IPv4 or IPv6 frame with any number of VLAN tags, inside a VXLAN envelope (section 5 of RFC 7348) of untagged Ethernet and IPv4 with or without options, is delivered, discarded or still running exactly as the bare frame from a fresh start, behind the envelope, with the tunnel tag if it had none |
| Vxlan.EnvelopeCarriesOver | example/reader_util.c:2722-2726 | Whatever the frame contains, it is treated as the bare frame entered with the variables the envelope leaves behind |
| Vxlan.StepTagged | example/reader_util.c:2282-2755 | The tunnel tag is written and never read: no step depends on it |
| Vxlan.EnvelopePeeled | example/reader_util.c:2722-2726 | The three steps that peel the envelope and the variables the inner frame inherits |
| DecapsulationLayers.VlanStackPeeled | example/reader_util.c:2448-2463 | A stack of any number of VLAN tags is popped; the last tag gives the VLAN, the offset moves four octets per tag |
| DecapsulationLayers.MplsStackPeeled | example/reader_util.c:2465-2480 | A label stack of any depth is popped exactly to its bottom-of-stack bit |
| DecapsulationLayers.GreHeaderSkipped | example/reader_util.c:2129-2162 | A version 0 GRE payload, with or without the bit that version 1 uses for acknowledgements, starts behind exactly the fields its flags announce, or the header is refused when the capture is shorter |
| DecapsulationLayers.EnhancedGreSkipped | example/reader_util.c:2163-2187 | The same for enhanced GRE (section 4.1 of RFC 2637) |
| DecapsulationLayers.GtpChainSkipped | example/reader_util.c:2616-2630 | A chain of GTP-U extension headers of any length and sizes is left behind completely |
| DecapsulationLayers.Ipv6ChainSkipped | src/lib/ndpi_main.c:7689-7745 | A chain of IPv6 extension headers of any length leads to the transport protocol it names and to the rest of the payload length |
| DecapsulationLayers.GtpDelivers | example/reader_util.c:2602-2650 | The user packet of any GTP-U message is delivered at its own position and version, whatever options and extensions come before it |
| DecapsulationLayers.IpStackPeeled | example/reader_util.c:2527-2537 | IPv4 headers nested to any depth are passed one by one, each by its own length |
| Decapsulation.Ipv6Transport | example/reader_util.c:2552-2568 | On success the transport header lies behind the fixed header and its region ends inside the capture |
| Decapsulation.SkipExtensionHeaders | src/lib/ndpi_main.c:7689-7745 | On success the pointer never moves back and pointer plus remaining length stays the same |
| Decapsulation.GtpPayload | example/reader_util.c:2602-2634 | A GTP-U payload offset lies behind the header and inside the capture |
| Decapsulation.GrePayload | example/reader_util.c:2129-2192 | A GRE payload offset lies behind the base header and not behind the capture |
| DecapsulationLoop.ProcessPacket | example/reader_util.c:2282-2755 | On every capture whose run halts the goto loop ends, with the outcome of that run, and a delivered header lies inside the capture |
| DecapsulationLoop.PopVlanTags | example/reader_util.c:2448-2463 | The double-tagging loop stays on the run of the machine and reaches the first type that is not a VLAN tag or the end of the capture |
| DecapsulationLoop.PopMplsLabels | example/reader_util.c:2465-2480 | The label loop stays on the run of the machine and reaches the bottom of the stack or the end of the capture |
| DecapsulationLoop.SkipGtpExtensions | example/reader_util.c:2616-2630 | The extension loop computes the offset and the error flag of the specification |
| DecapsulationLoop.HandleExtensionHeaders | src/lib/ndpi_main.c:7689-7745 | The header loop computes the walk of the specification, including every failure |
| SearchTree.FindIsLookup | src/lib/ndpi_utils.c:239-258 | Search in a tree sorted by the comparator is lookup in the map of its contents |
| SearchTree.PutIsUpdate | src/lib/ndpi_utils.c:135-161 | Insertion keeps the tree sorted and updates the map at one key |
| SearchTree.DeleteIsRemoval | src/lib/ndpi_utils.c:166-205 | Deletion keeps the tree sorted and removes exactly one key |
| SearchTree.WalkTakesBudget | src/lib/ndpi_utils.c:210-234 | The pre-order walk with a full-queue test queues the first idle nodes up to the budget |
| SearchTree.ReapRemovesIdle | example/ndpiReader.c:3322-3346 | Walk and deletion remove only idle nodes, at most the budget, and all of them if they fit |
| TreeTotals.DeleteAllTotal | example/ndpiReader.c:5188-5199 | Deleting the queued nodes lowers any total by exactly what the queue holds |
| TreeTotals.CountIsCardinality | src/lib/ndpi_utils.c:135-207 | The number of nodes is the number of keys |
| FlowOrder.NodeCmpIsOrder | example/reader_util.c:615-642 | The comparator is a strict total order on flow keys, through injective byte swaps |
| FlowOrder.SameConversation | example/reader_util.c:831-835 | Two tuples belong to one conversation if and only if they are equal or mirror images |
| FlowOrder.HashIsSymmetric | example/reader_util.c:831-835 | The reader's flow hash is the same in both directions |
| FlowTable.Flows | example/reader_util.c:847-993 | The buckets represent one flow per conversation: the map they refine exists |
| FlowTable.HeldOnce | example/reader_util.c:850-866 | A flow and its mirror image are never both stored |
| FlowTable.LocateIsLookup | example/reader_util.c:847-866 | The two-step search is lookup by conversation; the direction flag is 1 exactly for the orientation of the flow's first packet |
| FlowTable.LookupIsSymmetric | example/reader_util.c:847-866 | Both directions find the same record, with opposite flags |
| FlowTable.StoreIsUpdate | example/reader_util.c:949-953 | Storing a flow keeps the table valid and updates the map at its conversation only |
| FlowTable.ShrinkIsRemoval | example/ndpiReader.c:5188-5199 | Removing nodes from one root removes exactly their conversations |
| Workflow.ReceiveRefines | example/reader_util.c:1829-1950 | A packet updates its conversation's flow or creates it in its own orientation, and touches no other; it is refused only at the flow limit |
| Workflow.ScanReapsIdleOnly | example/ndpiReader.c:5183-5205 | A scan removes idle flows of one root only, within the budget; all of them if they fit |
| Workflow.StepKeepsInv | example/ndpiReader.c:5178-5205 | Every packet keeps the table valid and no flow newer than the clock |
| Workflow.CurrentFlowSurvives | example/ndpiReader.c:5178-5205 | The flow of the current packet is never reaped by the scan after it |
| Workflow.OtherFlowsKeep | example/ndpiReader.c:5178-5205 | Other flows are unchanged, or gone because they were idle |
| Workflow.NoEarlyReap | example/reader_util.c:2265-2271 | After any run, a reaped flow had been silent for more than MAX_IDLE_TIME, also when time stamps go backward |
| Workflow.SweepRemovesIdleFlow | example/ndpiReader.c:5183-5205 | num_roots scans within budget remove every flow that stays idle |
| WorkflowSweep.RootIsSwept | example/ndpiReader.c:5183-5205 | A root with any number N of idle flows, to which none is added, has no idle flow left after ceil(N / 1024) scans of every root |
| WorkflowSweep.VisitsInTurn | example/ndpiReader.c:5197-5203 | The roots are scanned in turn: num_roots times the visits of a root, plus its distance at the start, is at least the number of scans |
| FlowHistory.FlowsSummariseTheirPackets | example/reader_util.c:1838-1950 | In every run every record is the exact summary of its conversation's packets since it was created: packets and bytes per direction, first and last time, bidirectional flag |
| FlowHistory.RecordsAreWhole | example/reader_util.c:1838-1950 | For a capture file of any length every record is the summary of all packets of its conversation, also when other conversations were refused |
| FlowHistory.FilesAreSummarisedIff | example/reader_util.c:868-874 | Every conversation of a file has a record if and only if the distinct conversations fit the flow limit; otherwise exactly as many as fit have one |
| FlowHistory.OfflineStep | example/reader_util.c:868-874 | Without expiry a packet adds the record of its conversation if that is new and there is room, and removes none |
| Pipeline.PayloadInsideCapture | example/reader_util.c:2750-2755 | After any run on a capture of any length, the transport region and the payload of an accepted packet are bytes of the capture, the payload being the tail of the region |
| Pipeline.PlainFrameDelivered | example/reader_util.c:2282-2755 | An Ethernet frame with any number of VLAN tags and an unfragmented TCP or UDP packet over IPv4 that is no tunnel is delivered at its IP header, in the VLAN of its last tag |
| Pipeline.PlainFrameRead | example/reader_util.c:753-835 | The tuple of such a frame is read off its bytes: last VLAN, protocol, addresses and ports |
| Pipeline.AnswersShareConversation | example/reader_util.c:831-835 | The tuples of a frame and its answer are mirror images and name one conversation |
| Pipeline.AnswersReachOneRecord | example/reader_util.c:1811-1834 | From raw bytes and any state of the table: a frame and its answer raise the packet count of one record by two |
| Pipeline.EnvelopeKeepsConversation | example/reader_util.c:2722-2755 | A frame in a VXLAN envelope has the tuple of the bare frame, or none where that has none |
| Pipeline.CaptureFilesAreSummarised | example/reader_util.c:2194-2755 | For a file of raw captures on which decapsulation ends, every record summarises all captures whose bytes lead to its conversation, and all conversations have one exactly when they fit the limit |
| Conservation.AccountAllAdds | example/ndpiReader.c:2906-2917 | Accounting a list of flows adds its packets, bytes and number to the protocol and category sums alike |
| Conservation.RunBalances | example/reader_util.c:1832-1834 | In every state of every run, counters on arrival equal the accounted totals plus what is still in the table |
| Conservation.FinalWalkSettles | example/ndpiReader.c:4389-4391 | The final walk accounts every flow in the table exactly once |
| Conservation.TrafficIsConserved | example/ndpiReader.c:2906-2917 | At the end of any capture the protocol sums equal the category sums and equal packets, bytes and flows counted on arrival |
| ReaderThread.Reader.GetFlow | example/reader_util.c:847-993 | The lookup on the thread's own trees: the flow found or created, the direction flag, and the whole new state |
| ReaderThread.Reader.PacketProcessing | example/reader_util.c:1829-1950 | The in-place update equals the receive function of the specification |
| ReaderThread.Reader.IdleScanWalker | example/ndpiReader.c:3322-3346 | The recursive walk fills the idle array as the specified walk does and accounts what it queues |
| ReaderThread.Reader.IdleCleanup | example/ndpiReader.c:5183-5205 | The clean-up loop equals the scan of the specification and leaves the queue empty |
| ReaderThread.Reader.ProcessPacket | example/ndpiReader.c:5178-5205 | One packet in place equals one step of the specification |
| ReaderThread.VisitIsWalk | example/ndpiReader.c:3326-3343 | Accounting while walking accounts exactly the queued flows |
| Tracker.NodeCmpIsOrder | example/ndpiSimpleIntegration.c:482-500 | The tracker's comparator is a strict total order on IPv4 keys |
| Tracker.ShardIsSymmetric | example/ndpiSimpleIntegration.c:659-663 | Both directions select the same thread |
| Tracker.StepKeepsInv | example/ndpiSimpleIntegration.c:529-918 | After every packet total_active - total_idle = cur_active = tree nodes <= limit, and detections do not exceed flows |
| Tracker.SoloKeepsInv | example/ndpiSimpleIntegration.c:529-918 | The same in every reachable state of a single worker |
| Tracker.ReapAllAt | example/ndpiSimpleIntegration.c:502-527 | The idle check treats every bucket by itself |
| Sharding.FlowIdsAreUnique | example/ndpiSimpleIntegration.c:829-829 | Flow numbers are unique over all threads in every interleaving of every stream |
| Sharding.ThreadsPartitionTheTable | example/ndpiSimpleIntegration.c:731-738 | In every interleaving a thread between packets holds exactly its part of the single worker's table |
| Sharding.UnionIsTheSingleTable | example/ndpiSimpleIntegration.c:769-851 | When all threads have read the stream, every flow of the single table is in exactly one thread, with the same record up to its number |
| ShardingLog.EveryPacketOnce | example/ndpiSimpleIntegration.c:731-738 | When all threads have read the stream, a packet is in the log of a thread if and only if it carries a flow of that thread's shard; no log repeats a packet, counters are the lengths of the logs, and their sum is the number of accepted packets |
| ShardingLog.LogIsKept | example/ndpiSimpleIntegration.c:731-738 | In every interleaving the packets a thread has counted are its own up to where it stands, in order |
| ShardingLog.EveryScheduleCompletes | example/ndpiSimpleIntegration.c:529-918 | Every interleaving can be continued until all threads have read the stream |
| Sharding.ExecuteIsOk | example/ndpiSimpleIntegration.c:529-918 | The relation to the single worker, and the invariant of each thread, hold after every schedule, also between drawing a number and storing the flow |
| ShardingLimit.UnionWithinLimitIff | example/ndpiSimpleIntegration.c:812-820 | For any flow limit, any number of threads and any complete interleaving of any stream in which no flow is idle at a scan: the union of the tables is the single table, record by record, if and only if the distinct conversations fit the limit or all go to one thread |
| ShardingLimit.ThreadServes | example/ndpiSimpleIntegration.c:812-918 | In every interleaving of such a stream a thread between packets holds exactly the first conversations of its own, up to the limit, each with the record the stream gives it |
| ShardingLimit.ShortStreamsAreAwake | example/ndpiSimpleIntegration.c:467-470 | Streams that end before the first scan, or within the idle time without a closed flow, are such streams |
| ShardingQueue.UnionWithinQueueIff | example/ndpiSimpleIntegration.c:502-527 | One scan after such a stream, on each bucket: the threads keep as many flows as the single worker if and only if at most 64 are idle or the idle ones are of one shard; with at most 64 they keep the same flows, with more over several shards they do not |
| ShardingQueue.SixtyFifthFlowStays | example/ndpiSimpleIntegration.c:463-465 | A stream of 65 conversations in one bucket after which two threads and the single worker disagree on it |
| CommunityId.BufferIsSymmetricUnlessIcmp | src/lib/ndpi_community_id.c:251-309 | The hashed buffer is the same in both directions if and only if the packet is not ICMP or goes to its own address |
| CommunityId.HashIsSymmetricUnlessIcmp | example/ndpiSimpleIntegration.c:744-770 | Outside ICMP the flow hash is symmetric for every digest |
| CommunityId.HashAgreesIff | example/ndpiSimpleIntegration.c:744-770 | The flow hashes of two directions agree exactly when the digests of their buffers do, modulo 2^64 |
| CommunityId.EchoWouldBeSymmetric | src/lib/ndpi_community_id.c:74-106 | With the type of an echo request the buffer would match its reply |
| TrackerTable.OneRecordIffHashSymmetric | example/ndpiSimpleIntegration.c:772-851 | Over all runs a conversation has at most one record if and only if the hash agrees on its directions |
| TrackerTable.HashedApartIsHeldTwice | example/ndpiSimpleIntegration.c:772-851 | One packet each way, hashed apart, leaves two records |
| TrackerTable.OneRecordIffNotIcmp | example/ndpiSimpleIntegration.c:744-851 | With the tracker's own hash and any digest, over all runs a conversation has at most one record if and only if it is not ICMP between two hosts or its two digests collide |
| TrackerHistory.RecordsSummariseTheirPackets | example/ndpiSimpleIntegration.c:853-869 | In every run of a single worker every record is the summary of its packets since it was created: packets, bytes, times, FIN and last ACK flag |
| TrackerThread.FlowCounter.FetchAndAdd | example/ndpiSimpleIntegration.c:829-829 | The atomic counter returns its old value and grows by one |
| TrackerThread.Thread.IdleScanWalker | example/ndpiSimpleIntegration.c:454-480 | The recursive walk fills the idle array as the specified walk does |
| TrackerThread.Thread.FreeQueued | example/ndpiSimpleIntegration.c:510-522 | The loop deletes the queued keys one by one; for nodes of the bucket queued once each, every deletion finds the very record that was queued, and exactly those are gone |
| TrackerThread.Thread.ReapBucket | example/ndpiSimpleIntegration.c:507-522 | Queue and free on a sorted bucket: the queue is of that kind, so every deletion finds its record |
| TrackerThread.Thread.CheckForIdleFlows | example/ndpiSimpleIntegration.c:502-527 | The nested loops equal the idle check of the specification, and at a scan every deletion in every bucket finds the record that was queued |
| TrackerThread.Thread.KeepPacket | example/ndpiSimpleIntegration.c:737-918 | A kept packet updates or creates its flow as specified and draws a number only for a new one |
| TrackerThread.Thread.ProcessPacket | example/ndpiSimpleIntegration.c:529-918 | One packet in place equals one step of the specification |
| AddressTree.UpdateCounts | example/ndpiReader.c:2969-3003 | The tree refines a map from (version, address) to number of updates although it branches on the address alone |
| AddressTree.OneNodePerHost | example/ndpiReader.c:2978-2989 | No host has two nodes |
| AddressTree.UpdateTotals | example/ndpiReader.c:2978-3001 | An update adds one to the sum of counts, and one node exactly for a new host |
| AddressTree.WriteUpdates | example/ndpiReader.c:2978-3001 | One write where the search stops turns the linked nodes into the updated tree |
| AddressTree.AddrTree.Descend | example/ndpiReader.c:2978-2989 | The pointer loop stops at the host or at its future parent |
| AddressTree.AddrTree.UpdateIpTree | example/ndpiReader.c:2969-3003 | On linked nodes in memory: the tree denoted is the updated one and the count of the host is returned |
| TopAddresses.UpdateTopIpAddress | example/ndpiReader.c:3019-3061 | The two array loops compute the table of the specification |
| TopAddresses.UpdateKeepsTop | example/ndpiReader.c:3019-3061 | An update keeps a table of any size a true top: used slots a prefix, one per address, exact counts, no address outside busier than a slot |
| PortStats.PortIsExact | example/ndpiReader.c:3065-3111 | After any updates num_addr is the number of hosts seen and of nodes, cumulative_addr and num_flows the sum of node counts, and each node's count its host's updates |
| PortStats.TopIsTrueIff | example/ndpiReader.c:3081-3107 | For any set of hosts: the table of a port is its true top after all updates from the set if and only if the set has one IP version per address |
| PortStats.TopIsTrue | example/ndpiReader.c:3081-3107 | After any updates with one IP version per address the table of each port is its true top |
| PortStats.TwoVersionsMislead | example/ndpiReader.c:3035-3038 | For any address and any two versions, one update of each leaves a wrong count |
| PortStats.PortRecord.constructor | example/ndpiReader.c:3074-3096 | The record of a port seen for the first time |
| PortStats.PortRecord.Update | example/ndpiReader.c:3100-3109 | The record of a port seen again, on its own tree and table |
| Receivers.EveryPacketAccountedIff | example/ndpiReader.c:3208-3245 | For all feeds of up to a limit of packets per address, fed = working table + top table + dropped holds for every address if and only if the limit is below 2^32 |
| Receivers.ReportedWithinTrue | example/ndpiReader.c:3208-3245 | In every feed, wrapped counters included: unique addresses, tables within their two limits, and a reported count never exceeds the packets fed for its address |
| Receivers.FeedsCutRightIff | example/ndpiReader.c:3228-3237 | Over all feeds with records from lo and totals up to hi, for any lo once the first table has room for two (4096 in the program): every cut drops only entries no larger than every kept one if and only if hi - lo < 2^31 |
| Receivers.CutsDropSmallest | example/ndpiReader.c:3228-3237 | The cut after any one feed in that range |
| Receivers.TablesCutRightIff | example/ndpiReader.c:3122-3152 | Sorting by the signed difference and cutting is right on all tables with counts from lo to hi if and only if hi - lo < 2^31 |
| Receivers.CompareIsRightIff | example/ndpiReader.c:3122-3127 | The signed difference orders two counters if and only if they differ by less than 2^31 |
| Receivers.MergeSums | example/ndpiReader.c:3160-3181 | Merging adds the counts per address and keeps addresses unique |
| Receivers.CutBackTo | example/ndpiReader.c:3133-3152 | The deletion loop keeps exactly the last max entries |
| Receivers.MergeTables | example/ndpiReader.c:3160-3181 | The loop empties the first table into the second |
| Receivers.ReceiverTables.UpdateReceivers | example/ndpiReader.c:3208-3245 | The update in place equals the step of the specification |
| Transport.Ipv4AcceptedIff | example/reader_util.c:756-772 | A packet is accepted if and only if its header fits the claimed length and that fits the capture; the 16-bit length is then the true difference |
| Transport.WrapIsRejected | example/reader_util.c:1814-1821 | A subtraction that wraps always fails a later test |
| Transport.Ipv6Contained | example/reader_util.c:1042-1066 | The IPv6 region starts behind the fixed header and ends with the payload |
| Transport.SplitIsExact | example/reader_util.c:794-813 | For TCP and UDP header skip plus payload length is the transport length |
| Transport.DataLenCoversPayload | example/reader_util.c:794-829 | The statistics' data length equals the payload for UDP, and covers it for TCP exactly when the data offset is at least 5 |
| Transport.PayloadInside | example/reader_util.c:756-829 | The payload lies inside the captured IP packet and ends with the transport region |
| ByteStats.WelfordIsExact | example/reader_util.c:701-725 | After any octets the mean is sum / n and the accumulator the sum of squared deviations |
| ByteStats.ObserveSplits | example/reader_util.c:701-725 | The split into packets does not matter |
| ByteStats.BothMeansIsMean | example/ndpiReader.c:883-885 | The bidirectional formula is the mean of both directions' octets together |
| ByteStats.TallyTotals | example/reader_util.c:676-687 | A histogram grows by the number of octets counted |
| Entropy.Run | example/reader_util.c:1955-1959 | In every run with 1 <= max <= 10 the packet counts sum to (flow packets mod max), so array indices stay in range |
| Entropy.ResetsCoincide | example/reader_util.c:1731-1739 | A packet clears the entropy exactly when it resets the reference times |
| Entropy.StatsAreOfTheWindow | example/reader_util.c:971-1015 | The statistics are those of the packets since the last reset, and the copy those of the full window before |
| EntropyMeaning.FlowMoments | example/reader_util.c:701-725 | In every run both the current and the copied window report the true moments and the true mean of both directions |
| EntropyMeaning.UdpHistogram | example/reader_util.c:653-689 | For UDP each histogram, of the current window and of the reported copy, is the byte frequency of the first min(4000, n) octets of its window |
| EntropyMeaning.TcpHistogramBounded | example/reader_util.c:653-689 | For TCP with data offsets of at least 5 none of the four histograms, current or copied, holds more than 4000 octets |
| TcpSample.TcpBoundedIff | example/reader_util.c:653-689 | For every window length and every set of data offsets: all flows of such segments keep all histograms within 4000 octets if and only if the set is safe for that length |
| TcpSample.SafeIsBounded | example/reader_util.c:653-689 | One direction: any window of one packet, windows of two whose short and long offsets make up for each other, or offsets of at least 5 |
| TcpSample.UnsafeOverflows | example/reader_util.c:666-673 | The other: two or three segments that overflow a histogram |
| EntropyMeaning.ParsedPackets | example/reader_util.c:794-829 | Which parsed packets meet those conditions, both ways for TCP |
| EntropyRecord.CountOctets | example/reader_util.c:673-687 | The counting loop with its early exit counts exactly the specified sample |
| EntropyRecord.Direction.UpdateByteCount | example/reader_util.c:653-689 | The histogram update in place |
| EntropyRecord.Direction.UpdateByteDistMeanVar | example/reader_util.c:701-725 | The loop equals the recurrence over all octets |
| EntropyRecord.FlowRecord.ClearEntropyStats | example/reader_util.c:1731-1739 | A full window is copied aside and cleared |
| EntropyRecord.FlowRecord.Process | example/reader_util.c:1921-1959 | One packet in place equals one step of the specification |
| PayloadPatterns.PatternsAreExact | example/reader_util.c:120-227 | After any run a pattern's count is its number of positions (modulo its 16-bit counter), and its flow and packet sets are exactly those with a position |
| PayloadPatterns.Analyzer.AnalyzePayload | example/reader_util.c:120-194 | One visit updates count, flow set and packet set |
| PayloadPatterns.Analyzer.PayloadAnalyzer | example/reader_util.c:198-227 | The nested loops visit exactly the specified patterns in order |
| Fingerprints.IndexesAreConverse | example/ndpiReader.c:3737-3873 | For every list of flows the two indexes of each side are converse relations equal to the pairs of the flows, with no empty entry |
| Fingerprints.BuildIndexes | example/ndpiReader.c:3737-3873 | The loop over all flows builds those indexes |
| FlowKey.SameKeyIffSameFlow | python/ndpi_example.py:96-108 | Same key if and only if same protocol and same unordered pair of endpoints, for space-free strings |
| FlowKey.KeyIsSymmetric | python/ndpi_example.py:96-108 | The key does not depend on the direction |
| FlowKey.FormatIsInjective | python/ndpi_example.py:23-23 | The format string can be read back |
| FlowKey.DecimalReadsBack | python/ndpi_example.py:23-23 | Printed port numbers can be read back |

## Left out

- Sharding.UnionIsTheSingleTable: assumes that a single worker would not reach its flow limit and that no bucket has more than 64 idle flows at a scan; ShardingLimit and ShardingQueue say what happens beyond either, for streams in which no flow is idle at an earlier scan.
- ShardingQueue.UnionWithinQueueIff: with more than 64 idle flows of one shard in a bucket the numbers agree, but which flows stay depends on the shapes of the trees and is not stated.
- DecapsulationPosition.SuffixDecides: captures above 65495 octets, where 16-bit offsets wrap and positions are not independent.
- Vxlan.VxlanRoundTrip: envelopes with VLAN tags, whose VLAN the inner frame inherits, and IPv6 envelopes; frames of other types inherit ether type, protocol and fragment offset from the envelope (Vxlan.EnvelopeCarriesOver).
- Pipeline.AnswersReachOneRecord: states it for Ethernet frames with IPv4; for other encapsulations the conversation is that of the delivered packet.
- Receivers.FeedsCutRightIff: the library's merge sort is modelled as a stable insertion sort, which gives the same table wherever the comparison is consistent; counts 2^31 or more apart with others between them make it cyclic.
- Workflow.SweepRemovesIdleFlow: assumes that no scanned root exceeds the budget while the sweep lasts; WorkflowSweep.RootIsSwept does not.
- Counters of MPLS, PPPoE, VLAN, fragment and discarded packets in the decapsulation code, packet-length classes and TCP flag counts: only add easy members.
- Wrap-around of 32-bit and 64-bit statistics counters and of flow numbers; captures beyond 2^31 octets.
- Allocation failures, and freeing of flow data other than removal from the tables.
- The trees of the flow tables are values, not linked nodes: rotation-free insertion and deletion are modelled, aliasing of nodes is not. The address tree is modelled on linked nodes.
- IPv6 addresses in the tracker, whose comparison is not a total order and whose thread choice depends on the direction; IPv6 addresses of the reader are the 32-bit folded keys.
- Breed totals, which a reset does not clear; the pooled bidirectional variance, which is not the variance of the union; floating-point rounding, entropy logarithms and classification scores.
- Which inner protocol a re-entered label should see: datalink type, ether type and protocol carry over between layers as in the code.
- Detection, serializers and the other parts of the library; printing, option parsing, capture input and output, signals.
