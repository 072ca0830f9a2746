# Verified model of the ns-3 data-centre load-balancing extension

This project models, in Dafny, the decision procedures and data structures of an ns-3 extension
for load balancing in data-centre fabrics, and proves what each one promises:

- **Packet tags.** The CONGA, XPath, DRB, CLOVE and ECN tags are fixed-width fields written to and
  read from a tag buffer. Each one's Deserialize inverts its Serialize, and its serialized size
  matches what Serialize writes.
- **Path and port selection.**
  - CONGA leaf/spine routing: the DRE counters, the congestion-to-leaf and congestion-from-leaf
    tables, feedback piggybacking, flowlets, the least-congested choice of uplink, and aging.
  - LetFlow flowlet routing.
  - DRILL's power-of-d least-loaded sampling.
  - CLOVE's flowlet path cache.
  - The two weighted round-robin sprayers: Ipv4Drb and DRB routing.
  - XPath source routes, which consume two decimal digits of the path id per hop.
- **TCP structures.**
  - The resequence buffer: an in-order queue plus a heap on sequence numbers.
  - The pause-buffer FIFO.
  - FlowBender's congestion counter.
  - The DCTCP receiver's CE state machine and the alpha estimator (sections 3.2 and 3.3 of
    RFC 8257).
- **Link probe.** Per-interface byte and queue counters, and the append-only history that each
  periodic check extends.
- **Flow-monitor parsers.** The two Python scripts that read FlowMonitor XML.
  - They derive per-flow metrics, which are absent when a denominator is not positive.
  - They join classifier and probe records onto flows by flow id.
  - They reduce the retained flows to counts, tiers and the worst small flow.
  - The failure-debug script also diffs a baseline run against a comparison run, keyed by five-tuple.

**Form of the model**

- Components whose methods update fields are Dafny classes, with one field per source member.
  Each method is proved equal to a specification function of the old state. The properties are
  then proved as lemmas about those functions.
- Loops are `while` loops with invariants.
- Pure derivations are functions.

**External inputs**

- Simulator::Now becomes a `now` parameter in nanoseconds.
- `rand()` becomes a caller-supplied value `r`, and `std::random_shuffle` a caller-supplied
  permutation.
- CONGA's QuantizingX and DRILL's queue-length read become function parameters.
- The `ucb`/`ecb` callbacks become a returned verdict: the list of callback invocations, and
  whether the packet was accepted.

**Modules and files**

| module | file | source |
|---|---|---|
| Wrappers, Words | wrappers.dfy, words.dfy | Option/Result; 8- and 32-bit words and the tag buffer |
| CongaTag, XPathTag, DrbTag, CloveTag, EcnTag | conga_tag.dfy … ecn_tag.dfy | the five packet tags |
| Routing | routing.dfy | route entries, mask match and the lookup loop shared by CONGA, LetFlow and DRILL |
| RoundRobin, Drb, DrbRouting | round_robin.dfy, drb.dfy, drb_routing.dfy | Ipv4Drb and Ipv4DrbRouting |
| Conga, LetFlow, Drill, XPath, Clove | conga.dfy … clove.dfy | the routing protocols |
| Resequence, PauseBuffer, FlowBender, Dctcp | resequence.dfy … dctcp.dfy | the TCP structures |
| LinkProbe | link_probe.dfy | Ipv4LinkProbe |
| FlowRecord, FlowSimulation, FlowTotals, FailDebugParser, FlowmonReport | flow_record.dfy … flowmon_report.dfy | the two flow-monitor parsers |

## Model

| member | source | states |
|---|---|---|
| CongaTag.Encode | src/internet/model/ipv4-conga-tag.cc:81-88 | Serialize writes four 32-bit words (16 bytes) in the order lbTag, ce, fbLbTag, fbMetric |
| CongaTag.Decode | src/internet/model/ipv4-conga-tag.cc:90-98 | Deserialize reads four words in the order Serialize wrote them; re-encoding what it read and appending the rest gives back the stream |
| CongaTag.DecodeEncode | src/internet/model/ipv4-conga-tag.cc:81-98 | Deserialize after Serialize restores all four fields and consumes exactly their words |
| CongaTag.Ipv4CongaTag.constructor | src/internet/model/ipv4-conga-tag.cc:6 | a new tag holds four zero fields |
| CongaTag.Ipv4CongaTag.GetLbTag | src/internet/model/ipv4-conga-tag.cc:24-28 | the LbTag last set (SetLbTag) or read back by Deserialize |
| CongaTag.Ipv4CongaTag.GetCe | src/internet/model/ipv4-conga-tag.cc:36-40 | the CE last set (SetCe) or read back by Deserialize |
| CongaTag.Ipv4CongaTag.GetFbLbTag | src/internet/model/ipv4-conga-tag.cc:48-52 | the feedback LbTag last set (SetFbLbTag) or read back by Deserialize |
| CongaTag.Ipv4CongaTag.GetFbMetric | src/internet/model/ipv4-conga-tag.cc:60-64 | the feedback metric last set (SetFbMetric) or read back by Deserialize |
| CongaTag.Ipv4CongaTag.SetLbTag | src/internet/model/ipv4-conga-tag.cc:18-28 | sets lbTag (read back by GetLbTag) and leaves the other three fields unchanged |
| CongaTag.Ipv4CongaTag.SetCe | src/internet/model/ipv4-conga-tag.cc:30-40 | sets ce and leaves the other three fields unchanged |
| CongaTag.Ipv4CongaTag.SetFbLbTag | src/internet/model/ipv4-conga-tag.cc:42-52 | sets fbLbTag and leaves the other three fields unchanged |
| CongaTag.Ipv4CongaTag.SetFbMetric | src/internet/model/ipv4-conga-tag.cc:54-64 | sets fbMetric and leaves the other three fields unchanged |
| CongaTag.Ipv4CongaTag.GetSerializedSize | src/internet/model/ipv4-conga-tag.cc:72-79 | the size (16) equals the byte size of what Serialize writes |
| CongaTag.Ipv4CongaTag.Serialize | src/internet/model/ipv4-conga-tag.cc:81-88 | the words written decode to exactly this tag's four fields with nothing left over |
| CongaTag.Ipv4CongaTag.Deserialize | src/internet/model/ipv4-conga-tag.cc:90-98 | the tag's fields and the remaining stream are what Decode reads |
| CongaTag.SerializeRoundTrip | src/internet/model/ipv4-conga-tag.cc:81-98 | deserializing a tag's serialization into a new tag reproduces every field |
| XPathTag.Ipv4XPathTag.constructor | src/internet/model/ipv4-xpath-tag.cc:5 | a new tag has path id 0 |
| XPathTag.Ipv4XPathTag.GetPathId | src/internet/model/ipv4-xpath-tag.cc:18-22 | the path id last set (SetPathId) or read back by Deserialize |
| XPathTag.Ipv4XPathTag.SetPathId | src/internet/model/ipv4-xpath-tag.cc:18-28 | GetPathId returns the value last set |
| XPathTag.Ipv4XPathTag.GetSerializedSize | src/internet/model/ipv4-xpath-tag.cc:36-40 | the size (4) equals the byte size of what Serialize writes |
| XPathTag.Ipv4XPathTag.Serialize | src/internet/model/ipv4-xpath-tag.cc:42-46 | writes exactly one 32-bit word, which reads back as the path id |
| XPathTag.Ipv4XPathTag.Deserialize | src/internet/model/ipv4-xpath-tag.cc:48-52 | the path id becomes the first word and the rest of the stream is returned |
| DrbTag.Ipv4DrbTag.constructor | src/internet/model/ipv4-drb-tag.cc:6 | a new tag holds 0x66666666, the value of a default-constructed Ipv4Address |
| DrbTag.Ipv4DrbTag.GetOriginalDestAddr | src/internet/model/ipv4-drb-tag.cc:14-18 | the address last set (SetOriginalDestAddr) or read back by Deserialize |
| DrbTag.Ipv4DrbTag.SetOriginalDestAddr | src/internet/model/ipv4-drb-tag.cc:8-18 | GetOriginalDestAddr returns the address last set |
| DrbTag.Ipv4DrbTag.GetSerializedSize | src/internet/model/ipv4-drb-tag.cc:36-40 | the size (4) equals the byte size of what Serialize writes |
| DrbTag.Ipv4DrbTag.Serialize | src/internet/model/ipv4-drb-tag.cc:42-46 | writes the address as exactly one 32-bit word, which reads back as the address |
| DrbTag.Ipv4DrbTag.Deserialize | src/internet/model/ipv4-drb-tag.cc:48-52 | the address becomes the first word and the rest of the stream is returned |
| CloveTag.TcpCloveTag.constructor | src/clove/model/tcp-clove-tag.cc:18-21 | a new tag has path 0 |
| CloveTag.TcpCloveTag.GetPath | src/clove/model/tcp-clove-tag.cc:23-27 | the path last set (SetPath) or read back by Deserialize |
| CloveTag.TcpCloveTag.SetPath | src/clove/model/tcp-clove-tag.cc:23-33 | GetPath returns the value last set |
| CloveTag.TcpCloveTag.GetSerializedSize | src/clove/model/tcp-clove-tag.cc:41-45 | the size (4) equals the byte size of what Serialize writes |
| CloveTag.TcpCloveTag.Serialize | src/clove/model/tcp-clove-tag.cc:47-51 | writes exactly one 32-bit word, which reads back as the path |
| CloveTag.TcpCloveTag.Deserialize | src/clove/model/tcp-clove-tag.cc:53-57 | the path becomes the first word and the rest of the stream is returned |
| EcnTag.Codepoint | src/internet/model/ipv4-ecn-tag.cc:8-12 | the byte stored for an ECN codepoint is below 4 (the two-bit field of section 5 of RFC 3168) |
| EcnTag.FromCodepoint | src/internet/model/ipv4-ecn-tag.cc:14-18 | a byte names a codepoint exactly when it is below 4, and that codepoint's byte is the byte |
| EcnTag.CodepointRoundTrip | src/internet/model/ipv4-ecn-tag.cc:8-18 | GetEcn after SetEcn returns the codepoint set |
| EcnTag.Ipv4EcnTag.constructor | src/internet/model/ipv4-ecn-tag.cc:6 | a new tag reads as Not-ECT |
| EcnTag.Ipv4EcnTag.GetEcn | src/internet/model/ipv4-ecn-tag.cc:14-18 | the codepoint last set (SetEcn) or read back by Deserialize; CodepointRoundTrip and EcnRoundTrip are stated over it |
| EcnTag.Ipv4EcnTag.SetEcn | src/internet/model/ipv4-ecn-tag.cc:8-18 | GetEcn returns the codepoint last set |
| EcnTag.Ipv4EcnTag.GetSerializedSize | src/internet/model/ipv4-ecn-tag.cc:36-40 | the size (1) equals the byte size of what Serialize writes |
| EcnTag.Ipv4EcnTag.Serialize | src/internet/model/ipv4-ecn-tag.cc:42-46 | writes exactly one byte, the stored codepoint |
| EcnTag.Ipv4EcnTag.Deserialize | src/internet/model/ipv4-ecn-tag.cc:48-52 | the stored byte becomes the first byte of the stream, and GetEcn then decodes it |
| EcnTag.EcnRoundTrip | src/internet/model/ipv4-ecn-tag.cc:42-52 | deserializing a tag serialized after SetEcn(e) gives a tag whose GetEcn is e |
| Words.ByteSizeAppend | src/internet/model/ipv4-conga-tag.cc:72-79 | the bytes a TagBuffer holds add up over concatenation, so a tag's size is the sum of its fields' widths |
| Words.ByteSizeAll32 | src/internet/model/ipv4-conga-tag.cc:72-79 | n 32-bit words occupy 4n bytes |
| RoundRobin.Copies | src/internet/model/ipv4-drb.cc:66-73 | a weight-k addition contributes exactly k entries, all equal to the added value |
| RoundRobin.Next | src/internet/model/ipv4-drb.cc:51 | the stored position after using position i is (i+1) mod n: the next position, wrapping to 0 after the last |
| RoundRobin.Start | src/internet/model/ipv4-drb.cc:43-50 | the position used is inside the list, and is the flow's stored position whenever it has one |
| RoundRobin.PicksPrefix | src/internet/model/ipv4-drb.cc:43-53 | k successive packets of a flow (k at most the list length) receive the list rotated to the stored position, cut to k |
| RoundRobin.PicksRotation | src/internet/model/ipv4-drb.cc:43-53 | a round of list-length packets receives every position exactly once, starting at the stored one |
| RoundRobin.RoundIsWeighted | src/internet/model/ipv4-drb.cc:43-73 | in each round an entry is received exactly as often as it occurs in the list, i.e. by its weight |
| Drb.Ipv4Drb.constructor | src/internet/model/ipv4-drb.cc:21-24 | the list and the index map start empty |
| Drb.Ipv4Drb.AddCoreSwitchAddress | src/internet/model/ipv4-drb.cc:59-64 | appends the address and keeps every stored position inside the list |
| Drb.Ipv4Drb.AddCoreSwitchAddressWeighted | src/internet/model/ipv4-drb.cc:66-73 | appends exactly k copies of the address; the index map is unchanged |
| Drb.Ipv4Drb.GetCoreSwitchAddress | src/internet/model/ipv4-drb.cc:31-57 | an empty list gives the default address and changes nothing; otherwise the entry at the stored (or random) position, and the stored position advances cyclically |
| Drb.ConsecutiveCalls | src/internet/model/ipv4-drb.cc:43-53 | successive calls for a flow with an unchanged list return the list walked cyclically from its stored position |
| DrbRouting.FlowKey | src/drb-routing/model/ipv4-drb-routing.cc:127-149 | a key exists exactly in PER_FLOW mode with a FlowIdTag (the flow id) or in PER_DEST mode (the destination) |
| DrbRouting.AppendCopies | src/drb-routing/model/ipv4-drb-routing.cc:59-62 | the push_back loop appends exactly weight copies of the path |
| DrbRouting.Ipv4DrbRouting.constructor | src/drb-routing/model/ipv4-drb-routing.cc:34-38 | the tables start empty and the mode is PER_FLOW |
| DrbRouting.Ipv4DrbRouting.AddPath | src/drb-routing/model/ipv4-drb-routing.cc:45-49 | AddPath(p) always succeeds and appends p once, as AddPath(1, p) does |
| DrbRouting.Ipv4DrbRouting.AddPathWithWeight | src/drb-routing/model/ipv4-drb-routing.cc:51-64 | succeeds exactly when the weight is 1 or the mode is PER_FLOW, and then appends weight copies; on refusal nothing changes |
| DrbRouting.Ipv4DrbRouting.AddWeightedPath | src/drb-routing/model/ipv4-drb-routing.cc:67-91 | always true; m_paths changes as AddPath(w, p) does; every destination table not excluded grows by w copies, excluded ones are unchanged, no key is added |
| DrbRouting.Ipv4DrbRouting.AddWeightedPathForDest | src/drb-routing/model/ipv4-drb-routing.cc:93-114 | the destination's table becomes its old table (or a copy of m_paths) plus w copies; nothing else changes |
| DrbRouting.Ipv4DrbRouting.RouteOutput | src/drb-routing/model/ipv4-drb-routing.cc:119-183 | a null packet changes nothing; no flow key gives ERROR_NOROUTETOHOST with the index map unchanged; otherwise the packet is tagged with the path at the stored (or random) position of the destination's list and the position advances cyclically |
| DrbRouting.Ipv4DrbRouting.RouteInput | src/drb-routing/model/ipv4-drb-routing.cc:185-193 | always refuses, reporting ERROR_NOROUTETOHOST |
| DrbRouting.SprayFlow | src/drb-routing/model/ipv4-drb-routing.cc:164-176 | successive packets of a keyed flow are tagged with the destination's list walked cyclically from the stored position |
| Routing.Forward | src/letflow-routing/model/ipv4-letflow-routing.cc:184-189 | a forwarded packet is handed to ucb once, on the chosen interface, and RouteInput returns true |
| Routing.Matching | src/letflow-routing/model/ipv4-letflow-routing.cc:55-68 | the matching entries are a sub-list of the route list, in list order |
| Routing.MatchingMembers | src/letflow-routing/model/ipv4-letflow-routing.cc:55-68 | an entry is returned by the lookup exactly when it is in the route list and its mask matches the destination |
| Routing.DefaultRouteMatches | src/letflow-routing/model/ipv4-letflow-routing.cc:62 | an entry with an all-zero mask matches every destination |
| Routing.MatchingAppend | src/letflow-routing/model/ipv4-letflow-routing.cc:44-68 | after AddRoute appends an entry, the lookup returns the old result plus that entry when it matches |
| Routing.LookupRouteEntries | src/drill-routing/model/ipv4-drill-routing.cc:59-72 | the filtering loop returns exactly the matching entries in insertion order |
| XPath.Pow100 | src/xpath-routing/model/ipv4-xpath-routing.cc:89 | the weight of the k-th two-digit group is positive |
| XPath.EncodeBound | examples/load-balance/fattree-simulation.cc:505-510 | a path of k ports below 100 encodes below 100^k, so paths of up to four hops fit in 32 bits |
| XPath.Pow100Monotone | src/xpath-routing/model/ipv4-xpath-routing.cc:89 | longer paths have larger group weights |
| XPath.CurrentPort | src/xpath-routing/model/ipv4-xpath-routing.cc:89 | the current port is pathId minus (pathId div 100)*100, i.e. pathId mod 100, below 100 |
| XPath.DecodeHop | src/xpath-routing/model/ipv4-xpath-routing.cc:89-104 | on an encoded path, one hop yields the first port and leaves the encoding of the remaining ports as the new path id |
| XPath.RouteInputAsWritten | src/xpath-routing/model/ipv4-xpath-routing.cc:44-120 | as written, a packet is forwarded exactly when it is unicast, the interface forwards, it carries a non-zero path id and the port is at most (not below) the interface count |
| XPath.AsWrittenAcceptsMissingInterface | src/xpath-routing/model/ipv4-xpath-routing.cc:95 | with 3 interfaces, path id 3 is forwarded to interface 3, which does not exist |
| XPath.RouteInput | src/xpath-routing/model/ipv4-xpath-routing.cc:44-120 | corrected: forwarded exactly when unicast, forwarding, tagged with a non-zero path id and the port is below the interface count; then ucb on port pathId mod 100 and the tag becomes pathId div 100; otherwise ecb and false |
| XPath.AsWrittenDiffersOnlyAtBound | src/xpath-routing/model/ipv4-xpath-routing.cc:95 | the written and corrected guards agree on every packet whose port is not exactly the interface count |
| XPath.Hops | src/xpath-routing/model/ipv4-xpath-routing.cc:89-106 | one forwarding action per hop of the path |
| XPath.JourneyFollowsPath | examples/load-balance/fattree-simulation.cc:505-510 | a path encoded from up to four valid ports is forwarded hop by hop on exactly those ports, and the final hop (path id 0) is refused |
| XPath.EncodeNonZero | src/xpath-routing/model/ipv4-xpath-routing.cc:82-87 | a path whose last port is non-zero encodes to a non-zero path id, so it is not taken for the final hop |
| LetFlow.RouteInputSpec | src/letflow-routing/model/ipv4-letflow-routing.cc:100-190 | a packet is forwarded exactly when unicast, forwarding, flow-tagged and some entry matches; a refused packet leaves the flowlet table unchanged |
| LetFlow.AcceptedPacket | src/letflow-routing/model/ipv4-letflow-routing.cc:152-189 | a forwarded packet goes to the cached port on a flowlet hit (even one no longer routed) and to a matching entry's port on a miss; the table maps the flow to (that port, now) and nothing else changes |
| LetFlow.Ports | src/letflow-routing/model/ipv4-letflow-routing.cc:152-189 | one chosen port per packet of a sequence of arrivals |
| LetFlow.BurstSticks | src/letflow-routing/model/ipv4-letflow-routing.cc:156-173 | packets of a flow whose gaps never exceed the flowlet timeout all take the port of the first packet |
| LetFlow.Ipv4LetFlowRouting.constructor | src/letflow-routing/model/ipv4-letflow-routing.cc:20-21 | no routes, an empty flowlet table and the 50 us default timeout |
| LetFlow.Ipv4LetFlowRouting.AddRoute | src/letflow-routing/model/ipv4-letflow-routing.cc:44-53 | appends one route entry; the flowlet table is unchanged |
| LetFlow.Ipv4LetFlowRouting.SetFlowletTimeout | src/letflow-routing/model/ipv4-letflow-routing.cc:87-91 | sets the timeout and nothing else |
| LetFlow.Ipv4LetFlowRouting.RouteInput | src/letflow-routing/model/ipv4-letflow-routing.cc:100-190 | the verdict and the new flowlet table are those of RouteInputSpec; the route list and timeout are unchanged |
| Drill.Sample | src/drill-routing/model/ipv4-drill-routing.cc:191-199 | the result is no more loaded than the start or any sampled port, and is either the start or a sampled port strictly less loaded than it |
| Drill.Shuffled | src/drill-routing/model/ipv4-drill-routing.cc:179 | the shuffled list has every candidate's port at its permuted position |
| Drill.SampleNum | src/drill-routing/model/ipv4-drill-routing.cc:189 | the number of samples is min(d, number of candidates) |
| Drill.RouteInputSpec | src/drill-routing/model/ipv4-drill-routing.cc:139-209 | forwarded exactly when unicast, forwarding and some entry matches; a refusal leaves the previous-best table unchanged; otherwise the packet goes to the port the table now records for the destination, and no other key changes |
| Drill.ChosenIsLeastLoaded | src/drill-routing/model/ipv4-drill-routing.cc:176-203 | the chosen port is no more loaded than the previous best and each sampled candidate, and is the previous best (or 0) unless it is a matching entry's port |
| Drill.TiesKeepStart | src/drill-routing/model/ipv4-drill-routing.cc:176-194 | the comparison is strict: if no sample is strictly less loaded, the previous best is kept, or interface 0 when there is none |
| Drill.SamplingEverything | src/drill-routing/model/ipv4-drill-routing.cc:189-199 | when d is at least the number of candidates, the chosen port's queue is the shortest among all matching entries |
| Drill.Ipv4DrillRouting.constructor | src/drill-routing/model/ipv4-drill-routing.cc:37-41 | no routes, an empty previous-best table and d = 2 |
| Drill.Ipv4DrillRouting.AddRoute | src/drill-routing/model/ipv4-drill-routing.cc:48-57 | appends one route entry; nothing else changes |
| Drill.Ipv4DrillRouting.RouteInput | src/drill-routing/model/ipv4-drill-routing.cc:139-209 | the verdict and the new previous-best table are those of RouteInputSpec; routes and d are unchanged |
| Clove.CalPath | src/clove/model/ipv4-clove.cc:110-128 | the path is 0 or one of the ToR's known paths; in edge-flowlet mode with a known ToR it is always one of them |
| Clove.FindTorId | src/clove/model/ipv4-clove.cc:97-108 | a ToR id is found exactly when the address is mapped, and it is the mapped id |
| Clove.Ipv4Clove.constructor | src/clove/model/ipv4-clove.cc:13-18 | empty tables, a 200 us flowlet timeout and edge-flowlet mode |
| Clove.Ipv4Clove.Copy | src/clove/model/ipv4-clove.cc:20-25 | the copy keeps the timeout and the run mode only; its tables start empty |
| Clove.Ipv4Clove.AddAddressWithTor | src/clove/model/ipv4-clove.cc:39-43 | overwrites the address's ToR id; nothing else changes |
| Clove.Ipv4Clove.AddAvailPath | src/clove/model/ipv4-clove.cc:45-56 | appends the path to the ToR's list, creating the list if needed, so every stored list is non-empty |
| Clove.Ipv4Clove.GetPathOutcome | src/clove/model/ipv4-clove.cc:58-94 | an unknown destination ToR gives 0 and leaves the flowlet table unchanged; otherwise the flowlet is stamped with now, keeps its path when seen within the timeout, and the path returned is 0, a known path of the ToR, or the flow's cached path |
| Clove.Ipv4Clove.GetPath | src/clove/model/ipv4-clove.cc:58-94 | the path returned and the new flowlet table are those of GetPathSpec; the other tables are unchanged |
| PauseBuffer.TcpPauseBuffer.constructor | src/internet/model/tcp-pause-buffer.cc:24-27 | the buffer starts empty |
| PauseBuffer.TcpPauseBuffer.BufferItem | src/internet/model/tcp-pause-buffer.cc:48-55 | appends (packet, header) at the back and changes nothing else |
| PauseBuffer.TcpPauseBuffer.GetBufferedItem | src/internet/model/tcp-pause-buffer.cc:34-40 | on a non-empty buffer, returns the oldest item and removes exactly it |
| PauseBuffer.TcpPauseBuffer.HasBufferedItemAsWritten | src/internet/model/tcp-pause-buffer.cc:42-46 | as written, the answer is true exactly when the buffer is empty |
| PauseBuffer.TcpPauseBuffer.HasBufferedItem | src/internet/model/tcp-pause-buffer.cc:42-46 | corrected: true exactly when an item is buffered, the negation of the written answer |
| PauseBuffer.EmptyBufferClaimsItems | src/internet/model/tcp-pause-buffer.cc:42-46 | a new, empty buffer answers true to the written HasBufferedItem |
| PauseBuffer.Drain | src/internet/model/tcp-pause-buffer.cc:34-55 | popping while items remain releases them in exactly the order they were buffered (FIFO) and empties the buffer |
| FlowBender.AfterCheck | src/internet/model/tcp-flow-bender.cc:101-126 | both byte counters end at 0; V grows by one exactly when the RTT is congested and the congested-RTT count reaches N, never otherwise; a calm RTT resets the count; with N >= 1 the count stays below N |
| FlowBender.AfterAck | src/internet/model/tcp-flow-bender.cc:70-85 | below the high mark the ACK only adds to the total and, when ECE is set, to the marked count (marked <= total is kept); at or above it the mark is replaced and the check runs, leaving the counters at 0 |
| FlowBender.CongestedRun | src/internet/model/tcp-flow-bender.cc:108-118 | a run of congested RTTs increments V exactly once, when the count reaches N, and until then only counts |
| FlowBender.VBounded | src/internet/model/tcp-flow-bender.cc:108-122 | over k checks V never decreases and grows by at most k |
| FlowBender.TcpFlowBender.constructor | src/internet/model/tcp-flow-bender.cc:33-44 | counters 0, V = 1, high mark 0, T = 0.05, N = 1 |
| FlowBender.TcpFlowBender.Copy | src/internet/model/tcp-flow-bender.cc:46-57 | the copy restarts every counter and keeps T and N |
| FlowBender.TcpFlowBender.GetV | src/internet/model/tcp-flow-bender.cc:88-93 | the current V, the value CheckCongestion and VBounded are stated over |
| FlowBender.TcpFlowBender.ReceivedPacket | src/internet/model/tcp-flow-bender.cc:70-85 | the new counters are AfterAck of the old ones; T and N are unchanged |
| FlowBender.TcpFlowBender.CheckCongestion | src/internet/model/tcp-flow-bender.cc:101-126 | the new counters are AfterCheck of the old ones; T and N are unchanged |
| Dctcp.MarkedFraction | src/internet/model/tcp-dctcp.cc:83-88 | f is 0 when nothing was acked or nothing was marked, 1 when everything acked was marked, and within [0,1] whenever the marked bytes do not exceed the acked bytes |
| Dctcp.AlphaBounds | src/internet/model/tcp-dctcp.cc:89 | with g, alpha and f in [0,1] the new alpha is in [0,1] and lies between the old alpha and f (section 3.3 of RFC 8257) |
| Dctcp.UnmarkedRoundsDecay | src/internet/model/tcp-dctcp.cc:80-93 | k windows without marks multiply alpha by (1-g)^k |
| Dctcp.AlphaStaysFraction | src/internet/model/tcp-dctcp.cc:80-93 | any number of updates with fractions in [0,1] keep alpha within [0,1] |
| Dctcp.ReducedWindow | src/internet/model/tcp-dctcp.cc:159 | for alpha in [0,1], the reduced window (1-alpha/2)*cWnd truncated lies between cWnd/2 and cWnd |
| Dctcp.ReducedWindowBounds | src/internet/model/tcp-dctcp.cc:152-159 | the truncated product (1-alpha/2)*cWnd lies between cWnd/2 and cWnd |
| Dctcp.TcpDctcp.constructor | src/internet/model/tcp-dctcp.cc:27-38 | g = 0.0625, alpha = 1, no CE, no delayed ACK, counters and high mark 0 |
| Dctcp.TcpDctcp.Copy | src/internet/model/tcp-dctcp.cc:40-52 | the copy keeps g, alpha, the byte counters and the high mark, and resets the CE and delayed-ACK flags |
| Dctcp.TcpDctcp.PktsAcked | src/internet/model/tcp-dctcp.cc:64-78 | the acked bytes, and when ECE is set the marked bytes, grow by segments*segmentSize; at or above the high mark the mark is replaced and alpha updated from the accumulated fraction with both counters reset; the receiver flags are unchanged |
| Dctcp.TcpDctcp.UpdateAlpha | src/internet/model/tcp-dctcp.cc:80-93 | alpha := (1-g)*alpha + g*f with f the marked fraction (0 when nothing was acked), and both counters become 0 |
| Dctcp.TcpDctcp.CwndEvent | src/internet/model/tcp-dctcp.cc:95-132 | the flags and the ACK sent are CeStep's; demandCWR follows CE on a CE transition and is otherwise kept; alpha, the counters and the window are unchanged |
| Dctcp.TcpDctcp.IncreaseWindow | src/internet/model/tcp-dctcp.cc:134-142 | in CA_CWR the window is kept; otherwise it grows as NewReno grows it |
| Dctcp.TcpDctcp.GetSsThresh | src/internet/model/tcp-dctcp.cc:144-153 | outside recovery the threshold is at least half the bytes in flight and half the window, and at most the window when the flight half does not exceed the window half |
| Dctcp.TcpDctcp.GetCwnd | src/internet/model/tcp-dctcp.cc:155-160 | the reduced window lies between cWnd/2 and cWnd |
| Dctcp.CeStep | src/internet/model/tcp-dctcp.cc:98-131 | the CE flag follows the ECN event (same-state events keep it), the delayed-ACK flag changes only on the two reservation events; an ACK is sent only on a CE transition with a delayed ACK pending, with ECE exactly on the CE to no-CE transition; every transition with a pending delayed ACK sends one |
| Dctcp.LastEcnEvent | src/internet/model/tcp-dctcp.cc:98-121 | the index of the last CE or no-CE event, if any, with no such event after it |
| Dctcp.CeTracksLastPacket | src/internet/model/tcp-dctcp.cc:98-131 | after any event sequence the CE state equals whether the last ECN event was CE (and is unchanged when there was none): the receiver state machine of section 3.2 of RFC 8257 |
| Dctcp.LastEcnShift | src/internet/model/tcp-dctcp.cc:98-121 | the last ECN event of a sequence is the last one of its tail, shifted by one, or its head when the tail has none |
| LinkProbe.Utility | src/link-monitor/model/ipv4-link-probe.cc:200-210 | an interface without a data rate has utility 0; otherwise the utility is non-negative and at most 1 when the bytes fit in the link's capacity over the period |
| LinkProbe.UtilityAtMostOne | src/link-monitor/model/ipv4-link-probe.cc:209 | bytes*8 over rate*period is at most 1 whenever the bytes fit in the capacity |
| LinkProbe.NewStats | src/link-monitor/model/ipv4-link-probe.cc:142-181 | corrected: the record holds the check time and the six current counters (queue-disc bytes from the byte counter); its utilities are over the bytes since the previous record, or since 0 for the first one |
| LinkProbe.NewStatsAsWritten | src/link-monitor/model/ipv4-link-probe.cc:164-181 | as written, a later record is the corrected one except that its queue-disc bytes are the queue disc's packet count |
| LinkProbe.Checked | src/link-monitor/model/ipv4-link-probe.cc:137-186 | corrected: the records after a check has reached an interface: each interface 1..upTo-1 gains the NewStats record computed from its earlier records (properties in CheckedRecords) |
| LinkProbe.CheckedRecords | src/link-monitor/model/ipv4-link-probe.cc:137-182 | a check appends exactly one new record to each interface 1..N-1, keeps earlier records, and leaves loopback and other keys untouched |
| LinkProbe.Ipv4LinkProbe.constructor | src/link-monitor/model/ipv4-link-probe.cc:28-45 | every counter reads 0, no data rates or records, a 100 us check period |
| LinkProbe.Ipv4LinkProbe.SetDataRateAll | src/link-monitor/model/ipv4-link-probe.cc:84-91 | every interface 1..N-1 gets the rate; other keys are unchanged |
| LinkProbe.Ipv4LinkProbe.SetCheckTime | src/link-monitor/model/ipv4-link-probe.cc:212-216 | sets the check period |
| LinkProbe.Ipv4LinkProbe.TxLogger | src/link-monitor/model/ipv4-link-probe.cc:93-99 | adds the packet size to that interface's transmitted bytes only |
| LinkProbe.Ipv4LinkProbe.DequeueLogger | src/link-monitor/model/ipv4-link-probe.cc:101-107 | adds the packet size to that interface's dequeued bytes only |
| LinkProbe.Ipv4LinkProbe.PacketsInQueueLogger | src/link-monitor/model/ipv4-link-probe.cc:109-114 | overwrites the interface's queue packet count |
| LinkProbe.Ipv4LinkProbe.BytesInQueueLogger | src/link-monitor/model/ipv4-link-probe.cc:116-121 | overwrites the interface's queue byte count |
| LinkProbe.Ipv4LinkProbe.PacketsInQueueDiscLogger | src/link-monitor/model/ipv4-link-probe.cc:123-128 | overwrites the interface's queue-disc packet count |
| LinkProbe.Ipv4LinkProbe.BytesInQueueDiscLogger | src/link-monitor/model/ipv4-link-probe.cc:130-135 | overwrites the interface's queue-disc byte count |
| LinkProbe.Ipv4LinkProbe.GetLinkUtility | src/link-monitor/model/ipv4-link-probe.cc:200-210 | 0 for an interface with no rate; otherwise non-negative, and at most 1 when the bytes fit in the period's capacity |
| LinkProbe.Ipv4LinkProbe.AppendRecord | src/link-monitor/model/ipv4-link-probe.cc:145-180 | corrected: appends to one interface's records the record NewStats describes |
| LinkProbe.Ipv4LinkProbe.CheckCurrentStatus | src/link-monitor/model/ipv4-link-probe.cc:137-186 | corrected: the records become those of Checked: one new record per interface 1..N-1 |
| LinkProbe.SecondCheckRecordsPacketCount | src/link-monitor/model/ipv4-link-probe.cc:159-179 | with 3 queue-disc packets holding 4500 bytes, the second check records 3 as written but 4500 once corrected |
| Resequence.ElementOf | src/internet/model/tcp-resequence-buffer.cc:60-69 | the element keeps the segment's sequence number and packet, its SYN and FIN flags are the header's bits, and its data size is the packet size minus four times the header length |
| Resequence.NextSeqBounds | src/internet/model/tcp-resequence-buffer.cc:156-165 | the next sequence number is seq + dataSize, plus 1 exactly when the element is SYN or FIN |
| Resequence.Insert | src/internet/model/tcp-resequence-buffer.cc:125 | pushing onto the out-of-order heap adds exactly that element |
| Resequence.InsertAscending | src/internet/model/tcp-resequence-buffer.cc:125 | the heap, kept as a list in ascending sequence order (std::greater on m_seq), stays ascending after a push |
| Resequence.Put | src/internet/model/tcp-resequence-buffer.cc:136-154 | an accepted element is appended at the back, nextSeq becomes its next sequence number, firstSeq changes only when that is 0, and the heap and forwarded packets are unchanged |
| Resequence.TotalSizeAppend | src/internet/model/tcp-resequence-buffer.cc:142 | m_size grows by exactly the appended element's data size |
| Resequence.PutValid | src/internet/model/tcp-resequence-buffer.cc:136-154 | an accepted put keeps the in-order queue contiguous, nextSeq at the last element's end and m_size at the queue's payload |
| Resequence.AscendingTail | src/internet/model/tcp-resequence-buffer.cc:108 | popping the heap's top leaves it ascending |
| Resequence.Drain | src/internet/model/tcp-resequence-buffer.cc:104-114 | the refill loop: heap elements move to the in-order queue while the smallest one is the expected next (properties in DrainShape, DrainValid, DrainSeen) |
| Resequence.Moved | src/internet/model/tcp-resequence-buffer.cc:104-114 | the number of heap elements the refill loop moves is at most the heap's size |
| Resequence.DrainShape | src/internet/model/tcp-resequence-buffer.cc:104-114 | the refill loop moves the heap's smallest elements, in order, to the back of the in-order queue and stops at the first one that does not fit |
| Resequence.DrainValid | src/internet/model/tcp-resequence-buffer.cc:104-114 | the refill loop keeps the buffer's invariant |
| Resequence.DrainSeen | src/internet/model/tcp-resequence-buffer.cc:104-114 | the refill loop neither loses nor duplicates an element |
| Resequence.Step | src/internet/model/tcp-resequence-buffer.cc:74-126 | BufferPacket on one element, with the source's four cases in order: retransmission, duplicate, expected, early (properties in StepValid, StepConserves, Retransmission, InOrderArrival, EarlyArrival) |
| Resequence.Receive | src/internet/model/tcp-resequence-buffer.cc:44-127 | BufferPacket on a packet: one whose TCP header cannot be peeked leaves the buffer unchanged, any other is Step on its element |
| Resequence.StepValid | src/internet/model/tcp-resequence-buffer.cc:74-126 | every BufferPacket case keeps the buffer's invariant |
| Resequence.StepConserves | src/internet/model/tcp-resequence-buffer.cc:74-126 | a duplicate inside [firstSeq, nextSeq) changes nothing; any other element is held or forwarded exactly once, and nothing else is lost or repeated |
| Resequence.RetransmissionSeen | src/internet/model/tcp-resequence-buffer.cc:75-91 | a retransmission is added exactly once to what the buffer holds or forwarded |
| Resequence.ArrivalSeen | src/internet/model/tcp-resequence-buffer.cc:101-121 | an expected arrival is added exactly once to what the buffer holds or forwarded |
| Resequence.Retransmission | src/internet/model/tcp-resequence-buffer.cc:75-91 | seq < firstSeq flushes the in-order queue and then the packet itself; nextSeq changes only when the packet's next sequence number differs from firstSeq; afterwards firstSeq == nextSeq |
| Resequence.InOrderArrival | src/internet/model/tcp-resequence-buffer.cc:101-121 | an expected packet is appended, followed by the heap elements that now fit; when the size after that refill reaches the limit (64000) the whole queue is forwarded in order, the queue is empty and firstSeq becomes nextSeq, and below the limit the queue keeps the packets and nothing is forwarded; the heap keeps the rest in order and its new top does not fit |
| Resequence.EarlyArrival | src/internet/model/tcp-resequence-buffer.cc:122-126 | a packet beyond nextSeq is only pushed onto the heap, which stays ascending |
| Resequence.FlushOutAscending | src/internet/model/tcp-resequence-buffer.cc:194-207 | flushing the heap forwards all its elements in ascending sequence order and keeps everything seen |
| Resequence.TcpResequenceBuffer.constructor | src/internet/model/tcp-resequence-buffer.cc:24-37 | nothing queued or forwarded, size 0, both sequence numbers 0 |
| Resequence.TcpResequenceBuffer.FlushOneElement | src/internet/model/tcp-resequence-buffer.cc:167-172 | hands exactly the element up |
| Resequence.TcpResequenceBuffer.PutInTheInOrderQueue | src/internet/model/tcp-resequence-buffer.cc:135-154 | accepts exactly when nextSeq is 0 or the element is the expected one; then the state is Put's, else unchanged |
| Resequence.TcpResequenceBuffer.FlushInOrderQueue | src/internet/model/tcp-resequence-buffer.cc:174-192 | forwards every queued element once in queue order, empties the queue and zeroes the size |
| Resequence.TcpResequenceBuffer.FlushOutOrderQueue | src/internet/model/tcp-resequence-buffer.cc:194-207 | forwards every heap element once, smallest sequence number first, and empties the heap |
| Resequence.TcpResequenceBuffer.BufferElement | src/internet/model/tcp-resequence-buffer.cc:74-126 | the new state is Step's: retransmission, duplicate, expected or early arrival, in the source's order |
| Resequence.TcpResequenceBuffer.BufferPacket | src/internet/model/tcp-resequence-buffer.cc:44-127 | a packet whose TCP header cannot be read is ignored; otherwise the element it carries is buffered as Step describes |
| Conga.AddToDre | src/conga-routing/model/ipv4-conga-routing.cc:634-647 | the port's DRE counter becomes its old value (0 when absent) plus the packet's bytes, modulo 2^32, exact when no wrap occurs; every other port's counter is unchanged |
| Conga.SetRemote | src/conga-routing/model/ipv4-conga-routing.cc:115-129 | the (leaf, port) entry of the to-leaf table is set, a new inner table is created for an unknown leaf, and every other entry is kept |
| Conga.RecordFeedback | src/conga-routing/model/ipv4-conga-routing.cc:476-506 | the (source leaf, LbTag) entry of the from-leaf table becomes the received CE, marked changed, stamped now; every other entry is kept |
| Conga.SortedKeys | src/conga-routing/model/ipv4-conga-routing.cc:297 | a map's keys in ascending order (std::map iteration order), each exactly once |
| Conga.Rotation | src/conga-routing/model/ipv4-conga-routing.cc:298-311 | the keys read from the round-robin start, wrapping to the beginning, as the feedback loop advances the iterator |
| Conga.RotationCovers | src/conga-routing/model/ipv4-conga-routing.cc:302-311 | the wrapped walk reaches every key of the table |
| Conga.FirstChanged | src/conga-routing/model/ipv4-conga-routing.cc:300-311 | the position of the first entry with the change flag set, or none when no entry is changed |
| Conga.PickFeedback | src/conga-routing/model/ipv4-conga-routing.cc:297-314 | the piggybacked path is in the table and is a changed entry whenever the table has one |
| Conga.Piggyback | src/conga-routing/model/ipv4-conga-routing.cc:287-317 | the source leaf's feedback step: the sent FbLbTag and metric and the new from-leaf table and index (properties in PiggybackSpec) |
| Conga.PiggybackSpec | src/conga-routing/model/ipv4-conga-routing.cc:287-317 | with no from-leaf table for the destination leaf, FbLbTag 0 and metric 0 are sent and nothing changes; otherwise a recorded path and its CE are sent, a changed one if any, only that entry's flag is cleared and the index advances by one; no from-leaf table becomes empty |
| Conga.MinDegree | src/conga-routing/model/ipv4-conga-routing.cc:371-409 | the least congestion degree over the route entries: no entry is below it and, when there are entries, one attains it |
| Conga.PortsOfDegree | src/conga-routing/model/ipv4-conga-routing.cc:371-409 | a port is listed exactly when some route entry has that port and the given degree |
| Conga.CandidatesAsWritten | src/conga-routing/model/ipv4-conga-routing.cc:371-409 | the candidate loop as written, where the strictly-better branch is followed by a separate equal test (properties in AsWrittenRepeatsFirst, AsWrittenFavoursFirst) |
| Conga.Candidates | src/conga-routing/model/ipv4-conga-routing.cc:371-409 | corrected: the candidate loop with else-if, giving the minimum degree and the ports of that degree (properties in CandidatesAreMinimal, CandidatesNonEmpty) |
| Conga.CandidatesAreMinimal | src/conga-routing/model/ipv4-conga-routing.cc:371-409 | the corrected candidate loop yields the least degree and exactly the ports of that degree, in entry order, non-empty when there are entries |
| Conga.CandidatesNonEmpty | src/conga-routing/model/ipv4-conga-routing.cc:371-409 | the candidate list is empty exactly when there are no entries, and then the minimum stays at 2^32-1 |
| Conga.AsWrittenRepeatsFirst | src/conga-routing/model/ipv4-conga-routing.cc:397-408 | the loop as written finds the same minimum but lists the first minimal port twice whenever the minimum is below 2^32-1 |
| Conga.AsWrittenFavoursFirst | src/conga-routing/model/ipv4-conga-routing.cc:397-408 | two equally idle ports 1 and 2 give the list [1, 1, 2] as written against [1, 2] corrected, so rand() picks port 1 two times in three |
| Conga.CandidatePorts | src/conga-routing/model/ipv4-conga-routing.cc:371-409 | the loop over the route entries computes the minimum degree and candidate list of the corrected candidate specification |
| Conga.WalkToChanged | src/conga-routing/model/ipv4-conga-routing.cc:297-312 | the iterator walk ends on the first changed entry of the rotation, or back at the start when none is changed |
| Conga.ScanFeedback | src/conga-routing/model/ipv4-conga-routing.cc:297-314 | the entry the round-robin scan stops on is the one the feedback specification picks |
| Conga.DegreeTo | src/conga-routing/model/ipv4-conga-routing.cc:366-395 | corrected: a port's congestion degree towards a destination leaf, the larger of its local and remote metrics, a missing to-leaf table reading as remote congestion 0 |
| Conga.ReadsMissingTable | src/conga-routing/model/ipv4-conga-routing.cc:366-389 | as written: the path on which a new flowlet is placed at a source leaf while the destination leaf has no to-leaf table, where the source dereferences the end iterator |
| Conga.FirstFlowletReadsMissingTable | src/conga-routing/model/ipv4-conga-routing.cc:366-389 | as written, the first packet a fresh leaf sends to another leaf without InitCongestion takes that path; the corrected model accepts it and gives every port remote congestion 0 |
| Conga.MissingTableIsLocalOnly | src/conga-routing/model/ipv4-conga-routing.cc:376-389 | corrected: with no to-leaf table for the destination leaf, a port's congestion degree is its quantised local DRE value, or 0 without one |
| Conga.SenderPort | src/conga-routing/model/ipv4-conga-routing.cc:323-436 | corrected: an open flowlet keeps its port; otherwise the cached port if it is still a candidate, else candidate r mod the number of candidates (properties in SenderPortIsLeastCongested) |
| Conga.Send | src/conga-routing/model/ipv4-conga-routing.cc:265-456 | corrected: the source-leaf branch: an unknown destination leaf is rejected; otherwise piggyback, pick SenderPort, tag the packet and refresh the flowlet and DRE (properties in SenderTags) |
| Conga.Receive | src/conga-routing/model/ipv4-conga-routing.cc:457-544 | the destination-leaf branch: an unknown source leaf is rejected; otherwise record CE and feedback, remove the tag and forward by ECMP (properties in ReceiverRecords) |
| Conga.Relay | src/conga-routing/model/ipv4-conga-routing.cc:546-583 | the spine branch: an untagged packet is rejected; otherwise forward by ECMP and raise CE (properties in SpineRaisesCe) |
| Conga.RouteInputSpec | src/conga-routing/model/ipv4-conga-routing.cc:182-584 | corrected: RouteInput as a function of configuration, tables, packet, time, rand() and QuantizingX (properties in RouteInputAccepts, SenderTags, ReceiverRecords, SpineRaisesCe, RouteInputValid) |
| Conga.RouteInputAccepts | src/conga-routing/model/ipv4-conga-routing.cc:182-584 | a packet is accepted exactly when it is unicast, arrives on a forwarding interface, has a flow id and a matching route, its leaf is known (the destination's at a source leaf, the source's at a destination leaf) and, at a spine, it carries a Conga tag; a refused packet gets ERROR_NOROUTETOHOST and changes no table and no tag; an accepted one is handed to ucb |
| Conga.SenderPortIsLeastCongested | src/conga-routing/model/ipv4-conga-routing.cc:323-436 | a flow with an open flowlet keeps its port; otherwise the port taken is a routed port whose congestion degree (the larger of local and remote) is the least among all routed ports |
| Conga.SenderTags | src/conga-routing/model/ipv4-conga-routing.cc:287-455 | a source leaf forwards on the sender port, tags the packet with that LbTag, CE 0 and the piggybacked feedback, records the flowlet as active now, and adds the packet's bytes to that port's DRE counter |
| Conga.ReceiverRecords | src/conga-routing/model/ipv4-conga-routing.cc:476-537 | a destination leaf records the CE under (source leaf, LbTag) as changed, stores the fed-back metric in the to-leaf table unless FbLbTag is 0, strips the tag, and leaves the flowlet table and feedback index alone |
| Conga.SpineRaisesCe | src/conga-routing/model/ipv4-conga-routing.cc:559-580 | a spine forwards by flow id modulo the number of routes and raises the tag's CE to the port's quantised DRE value when larger, changing no other tag field and only that port's counter |
| Conga.RouteInputValid | src/conga-routing/model/ipv4-conga-routing.cc:298 | RouteInput never leaves an empty from-leaf table, so the round-robin modulus by the table size is never 0 |
| Conga.AgingSpec | src/conga-routing/model/ipv4-conga-routing.cc:679-721 | aging zeroes the metric of every to-leaf entry older than the aging time and keeps its time stamp and all keys; a from-leaf entry is kept, unchanged, exactly when it is not older than the aging time, and emptied tables go; DRE counters and flowlets are untouched |
| Conga.AgeRemoteTable | src/conga-routing/model/ipv4-conga-routing.cc:686-698 | the inner loop over one to-leaf table ages it as specified and reports whether any entry is still fresh |
| Conga.AgeToLeafTables | src/conga-routing/model/ipv4-conga-routing.cc:682-699 | the outer loop ages every to-leaf table and reports whether any entry anywhere is fresh |
| Conga.DropStaleFeedback | src/conga-routing/model/ipv4-conga-routing.cc:704-720 | the inner loop keeps exactly the from-leaf entries that are not stale |
| Conga.DropStaleTables | src/conga-routing/model/ipv4-conga-routing.cc:700-721 | the outer loop drops stale entries and tables left empty, and reports whether any entry is fresh |
| Conga.Ipv4CongaRouting.constructor | src/conga-routing/model/ipv4-conga-routing.cc:23-41 | a spine (not leaf) with leaf id 0, ECMP mode off, a 50 us flowlet timeout, no routes, no leaf map and empty tables |
| Conga.Ipv4CongaRouting.SetLeafId | src/conga-routing/model/ipv4-conga-routing.cc:60-64 | the router becomes a leaf with the given id; nothing else changes |
| Conga.Ipv4CongaRouting.SetFlowletTimeout | src/conga-routing/model/ipv4-conga-routing.cc:67-70 | only the flowlet timeout changes |
| Conga.Ipv4CongaRouting.AddAddressToLeafIdMap | src/conga-routing/model/ipv4-conga-routing.cc:103-106 | the address maps to the leaf id, overwriting any earlier mapping |
| Conga.Ipv4CongaRouting.EnableEcmpMode | src/conga-routing/model/ipv4-conga-routing.cc:109-112 | only ECMP mode is switched on |
| Conga.Ipv4CongaRouting.AddRoute | src/conga-routing/model/ipv4-conga-routing.cc:132-140 | the entry is appended to the route list |
| Conga.Ipv4CongaRouting.InitCongestion | src/conga-routing/model/ipv4-conga-routing.cc:115-129 | the to-leaf entry for (leaf, port) is set to the congestion, stamped now; nothing else changes |
| Conga.Ipv4CongaRouting.UpdateLocalDre | src/conga-routing/model/ipv4-conga-routing.cc:634-647 | the port's counter grows by the packet's bytes (32-bit) and the new value is returned |
| Conga.Ipv4CongaRouting.PiggybackFeedback | src/conga-routing/model/ipv4-conga-routing.cc:287-317 | the feedback fields and the new from-leaf table and index are those of the piggyback specification |
| Conga.Ipv4CongaRouting.SelectPort | src/conga-routing/model/ipv4-conga-routing.cc:323-436 | corrected: the port chosen for a source leaf's packet is SenderPort's: the open flowlet's, else the cached candidate, else candidate r mod the number of candidates, a missing to-leaf table reading as no remote congestion |
| Conga.Ipv4CongaRouting.SendLeaf | src/conga-routing/model/ipv4-conga-routing.cc:265-456 | corrected: the source-leaf branch leaves the verdict, tag and tables of the source-leaf specification |
| Conga.Ipv4CongaRouting.ReceiveLeaf | src/conga-routing/model/ipv4-conga-routing.cc:457-544 | the destination-leaf branch leaves the verdict, tag and tables of the destination-leaf specification |
| Conga.Ipv4CongaRouting.RelaySpine | src/conga-routing/model/ipv4-conga-routing.cc:546-583 | the spine branch leaves the verdict, tag and tables of the spine specification |
| Conga.Ipv4CongaRouting.RouteInput | src/conga-routing/model/ipv4-conga-routing.cc:182-584 | corrected: the verdict, tag and tables are those of the RouteInput specification, and no from-leaf table is empty afterwards |
| Conga.Ipv4CongaRouting.AgingEvent | src/conga-routing/model/ipv4-conga-routing.cc:679-732 | the tables become the aged tables, and the event reschedules itself exactly when some entry was still fresh |
| FlowRecord.ParseShow | examples/load-balance/fail-debug-parser.py:12 | long() reads back the decimal rendering of every integer, negative ones included |
| FlowRecord.DropLast4 | examples/load-balance/fail-debug-parser.py:12 | tm[:-4] drops the last four characters, and yields the empty string for a string shorter than four |
| FlowRecord.ParseTimeNs | examples/load-balance/fail-debug-parser.py:10-13 | a time not ending in "ns" raises ValueError; the parse succeeds exactly when it ends in "ns" and what is left after dropping four characters is an integer |
| FlowRecord.ParseTimeRoundTrip | examples/load-balance/fail-debug-parser.py:10-13 | a time written as ns-3 writes it ("+N.0ns" or "N.0ns") reads back as N nanoseconds |
| FlowRecord.ShortTimeLosesDigits | examples/load-balance/fail-debug-parser.py:10-13 | the four dropped characters are assumed to be ".0ns": "1500ns" reads as 15 |
| FlowRecord.FiveTupleKeys | examples/load-balance/fail-debug-parser.py:26-35 | __eq__ holds exactly for equal five-tuples, __ne__ is its negation, and equal tuples hash alike, so the tuple is a sound dict key |
| FlowRecord.RatesPresence | examples/load-balance/fail-debug-parser.py:55-87 | fct, txBitrate and rxBitrate are present exactly when their duration (last rx - first tx, last tx - first tx, last rx - first rx) is positive; fct is then that duration in seconds and each rate is bytes*8 over its duration, never negative |
| FlowRecord.ReceivedMetrics | examples/load-balance/fail-debug-parser.py:70-94 | with no packet received the delay mean, packet-size mean and loss ratio are absent and hopCount is -1000; otherwise they are present, hopCount is timesForwarded/rxPackets + 1 (at least 1) and the loss ratio is lost/(rx + lost), in [0, 1) |
| FlowRecord.MakeFlow | examples/load-balance/fail-debug-parser.py:51-100 | Flow.__init__ on one FlowStats/Flow element (properties in RatesPresence, ReceivedMetrics, NewFlowIsBare) |
| FlowRecord.NewFlowIsBare | examples/load-balance/fail-debug-parser.py:51-69 | a new flow copies its id and counters from the element and has no five-tuple and no probe records yet |
| FlowSimulation.FlowIndex | examples/load-balance/fail-debug-parser.py:110-114 | every flow's id is in flow_map, and it maps to the position of the last flow carrying that id |
| FlowSimulation.Classify | examples/load-balance/fail-debug-parser.py:115-117 | attaching five-tuples keeps the number of flows and their ids, and can only fail with KeyError |
| FlowSimulation.ClassifyOk | examples/load-balance/fail-debug-parser.py:115-117 | attaching five-tuples succeeds exactly when every classifier record's flow id is in flow_map |
| FlowSimulation.ClassifySpec | examples/load-balance/fail-debug-parser.py:115-117 | on success only the five-tuples change: the flow flow_map points to gets the last record's tuple for its id, every other flow keeps its own |
| FlowSimulation.ClassifyStops | examples/load-balance/fail-debug-parser.py:117 | once a record raises, later records change nothing: the outcome is that error |
| FlowSimulation.Tagged | examples/load-balance/fail-debug-parser.py:119-122 | each probe's records are paired with that probe's index, in order |
| FlowSimulation.Attach | examples/load-balance/fail-debug-parser.py:119-131 | attaching probe records keeps the number of flows and their ids |
| FlowSimulation.AttachOk | examples/load-balance/fail-debug-parser.py:119-131 | attaching probe records succeeds exactly when every record's flow id is in flow_map and its delay parses |
| FlowSimulation.AttachSpec | examples/load-balance/fail-debug-parser.py:119-131 | on success only the probe lists change: the flow flow_map points to gets, appended in order, the records for its id, every other flow none |
| FlowSimulation.AttachStops | examples/load-balance/fail-debug-parser.py:128-131 | once a record raises, later records change nothing: the outcome is that error |
| FlowSimulation.Flows | examples/load-balance/fail-debug-parser.py:111-114 | one Flow per FlowStats/Flow element, in document order |
| FlowSimulation.Simulate | examples/load-balance/fail-debug-parser.py:106-131 | Simulation.__init__: one classifier or ValueError, then flows, five-tuples and probe records (properties in SimulateErrors, SimulateStages, SimulateFlows, SimulateShadowed) |
| FlowSimulation.SimulateErrors | examples/load-balance/fail-debug-parser.py:109-117 | a FlowMonitor without exactly one Ipv4FlowClassifier raises ValueError; one whose classifier names a flow id no flow has raises KeyError |
| FlowSimulation.SimulateStages | examples/load-balance/fail-debug-parser.py:106-131 | a successful Simulation is the flows built, then classified, then given their probe records, in that order |
| FlowSimulation.SimulateFlows | examples/load-balance/fail-debug-parser.py:106-131 | a successful Simulation has one flow per element, each the element's Flow with only its five-tuple and probe records filled in |
| FlowSimulation.SimulateShadowed | examples/load-balance/fail-debug-parser.py:110-117 | a flow whose id a later flow reuses is shadowed in flow_map: it never gets a five-tuple or a probe record |
| FlowSimulation.BuildFlows | examples/load-balance/fail-debug-parser.py:110-114 | the loop builds the flows and flow_map of the specification |
| FlowSimulation.ApplyClassifier | examples/load-balance/fail-debug-parser.py:115-117 | the loop over the classifier records has the outcome of the five-tuple specification |
| FlowSimulation.AttachProbe | examples/load-balance/fail-debug-parser.py:121-131 | the loop over one probe's records extends the attached flows by exactly that probe's records |
| FlowSimulation.ApplyProbes | examples/load-balance/fail-debug-parser.py:119-131 | the loop over the probes has the outcome of the probe specification on all probes' records in order |
| FlowSimulation.BuildSimulation | examples/load-balance/fail-debug-parser.py:106-131 | Simulation.__init__ has the outcome of the Simulation specification |
| FlowSimulation.BuildEach | examples/load-balance/fail-debug-parser.py:140-147 | reading the FlowMonitor elements succeeds exactly when every one builds, and then yields one Simulation per element, in order |
| FlowSimulation.BuildEachError | examples/load-balance/fail-debug-parser.py:140-147 | a failed read reports the error of the first element that fails, all elements before it having built |
| FlowSimulation.ReadSimulations | examples/load-balance/fail-debug-parser.py:139-151 | the loop over the FlowMonitor elements yields sim_list, or the first error raised |
| FlowTotals.AccumulateAllCounts | examples/load-balance/flowmon-parse-results.py:153-172 | from zero, the accumulators count every retained flow, the large flows (over 10,000,000 bytes sent) and the small ones (under 100,000); no flow is in both tiers |
| FlowTotals.AccumulateWorst | examples/load-balance/flowmon-parse-results.py:167-172 | a small flow counts as small and becomes the worst small flow exactly when its completion time is strictly above the worst so far; otherwise the worst is kept |
| FlowTotals.AccumulateAllWorstSmall | examples/load-balance/flowmon-parse-results.py:150-172 | with no small flow the worst id and time stay 0; otherwise they are those of the first small flow of longest completion time |
| FlowTotals.WorstExtends | examples/load-balance/flowmon-parse-results.py:170-172 | a new flow takes over as the first worst small flow exactly when it is small and strictly slower than the current one |
| FlowTotals.NoSmall | examples/load-balance/flowmon-parse-results.py:167 | a run with a small-flow count of 0 holds no small flow |
| FlowTotals.Summarize | examples/load-balance/flowmon-parse-results.py:187-196 | the overall average raises ZeroDivisionError exactly when no flow was retained and is otherwise total/count; each tier average is present exactly when its count is positive, and is then the tier's total/count |
| FlowTotals.FoldAppend | examples/load-balance/flowmon-parse-results.py:153-154 | running the loop body over two runs of flows is running it over the first, then over the second from where the first stopped, and an exception stops it |
| FlowTotals.FoldPrefixErr | examples/load-balance/flowmon-parse-results.py:153-154 | an exception raised by a prefix of the flows ends the whole loop with that exception |
| FlowTotals.VisitAll | examples/load-balance/flowmon-parse-results.py:154-185 | the inner loop over one simulation's flows yields the fold of the loop body over them |
| FlowTotals.VisitSimulations | examples/load-balance/flowmon-parse-results.py:153-185 | the nested loop over the simulations yields the fold of the loop body over all their flows in order |
| FailDebugParser.Visit | examples/load-balance/fail-debug-parser.py:174-213 | the body of the loop over flows: no five-tuple raises AttributeError, an uncounted flow changes nothing, an unknown protocol raises KeyError, a counted flow is accumulated and written (properties in PassOutcome, PassTotals, PassWrites, PassKeeps) |
| FailDebugParser.WrittenSpec | examples/load-balance/fail-debug-parser.py:210-213 | after the writes a tuple is in the dictionary exactly when it was before or some counted flow carries it, and it maps to the packets sent by the last counted flow carrying it |
| FailDebugParser.PassOutcome | examples/load-balance/fail-debug-parser.py:174-199 | the loop over flows completes exactly when every flow has a five-tuple and every counted flow's protocol is TCP (6) or UDP (17) |
| FailDebugParser.PassKeeps | examples/load-balance/fail-debug-parser.py:210-213 | the baseline run never writes the comparison dictionary, and the second run never writes the baseline one |
| FailDebugParser.PassTotals | examples/load-balance/fail-debug-parser.py:174-198 | a completed loop has accumulated exactly the counted flows: complete ones, minus control-only flows in the baseline run and unknown tuples in the second |
| FailDebugParser.PassWrites | examples/load-balance/fail-debug-parser.py:210-213 | a completed loop has written the packets sent by exactly the counted flows into the run's own dictionary |
| FailDebugParser.Parse | examples/load-balance/fail-debug-parser.py:133-232 | parse: a completed run carries a summary exactly when it is not the baseline run (properties in ParseReport) |
| FailDebugParser.ParseReport | examples/load-balance/fail-debug-parser.py:214-232 | a completed second run prints the summary of exactly the flows it counted, and there was at least one |
| FailDebugParser.ParseFile | examples/load-balance/fail-debug-parser.py:133-232 | parse reads the simulations, runs the loop over all their flows and, except in the baseline run, summarises, with the outcome of the parse specification |
| FailDebugParser.DiffPartition | examples/load-balance/fail-debug-parser.py:247-258 | every baseline flow is either missing from the second run or seen by both; a wrong-size flow is one seen by both that sent fewer packets the second time; none is missing exactly when every baseline tuple was seen again |
| FailDebugParser.CountNotExist | examples/load-balance/fail-debug-parser.py:247-251 | the loop counts exactly the baseline flows the second run never recorded |
| FailDebugParser.CountWrongSize | examples/load-balance/fail-debug-parser.py:254-258 | the loop counts exactly the flows both runs recorded whose baseline packet count is larger |
| FailDebugParser.RunComparison | examples/load-balance/fail-debug-parser.py:236-259 | main runs the baseline parse, then the second parse on the baseline's dictionary, then both counts, with the outcome of the comparison specification |
| FailDebugParser.Compare | examples/load-balance/fail-debug-parser.py:236-259 | main: the baseline parse, the second parse on its dictionary, then the not-exist and wrong-size counts (properties in CompareSpec) |
| FailDebugParser.CompareSpec | examples/load-balance/fail-debug-parser.py:236-259 | after both runs a summary was printed, the second run recorded only baseline tuples and left the baseline dictionary as the first run wrote it, and missing plus common flows are all the baseline flows |
| FlowmonReport.Visit | examples/load-balance/flowmon-parse-results.py:153-185 | the body of the loop over flows: an uncounted flow changes nothing; a counted one raises when it has no five-tuple, an unknown protocol or no mean delay, and is otherwise accumulated (properties in PassSpec) |
| FlowmonReport.PassSpec | examples/load-balance/flowmon-parse-results.py:153-185 | the loop completes exactly when every counted flow (complete and not control-only) has a five-tuple of a known protocol and a mean delay, and then it has accumulated exactly the counted flows |
| FlowmonReport.Run | examples/load-balance/flowmon-parse-results.py:119-201 | main: the simulations, the loop over their flows, then the summary (properties in RunSpec) |
| FlowmonReport.RunSpec | examples/load-balance/flowmon-parse-results.py:119-201 | when every counted flow prints, the report is the summary of the counted flows, it raises ZeroDivisionError exactly when none is counted, and it covers all of them |
| FlowmonReport.PrintReport | examples/load-balance/flowmon-parse-results.py:119-201 | main reads the simulations and runs the loop and the summary, with the outcome of the report specification |

## Left out

- Floating-point arithmetic is modelled over reals, with no rounding. This covers DCTCP's alpha and window, FlowBender's marked fraction, link utilities, and the Python rates, delays and completion times.
- CONGA's DreEvent decay (multiplying by 1 - alpha in doubles) and its rescheduling are not part of this model.
- CONGA's QuantizingX is a function parameter `quantize`, because it is a floating-point ratio of counter, link rate and DRE period.
- Timers and scheduling are not modelled: Simulator::Schedule chains, CONGA's DRE and aging events being started from RouteInput, the link probe's periodic re-check, and the resequence buffer's flush timer. The events themselves are modelled as methods.
- ConstructIpv4Route, the `ucb`/`ecb` callbacks, PeekPacketTag/AddPacketTag, Ipv4Mask::IsMatch and the interface lookups are replaced by values. A packet carries its optional tags. The mask match is a bit-vector AND. The verdict lists the callbacks invoked.
- `rand()` and `std::random_shuffle` are caller-supplied values: `r`, CLOVE's `r1`/`r2`, DRILL's `perm`. The model states what holds for every choice, not a distribution.
- DRILL's CalculateQueueLength (device and queue-disc byte counts) is the function parameter `load`.
- Resequence.Insert: elements with equal sequence numbers leave the out-of-order heap first in, first out. std::priority_queue leaves their order unspecified, so this order is a choice of the model.
- SequenceNumber32 is a natural number. Its wrap-around comparison is not modelled, because the resequence buffer's ordering is stated over unbounded sequence numbers.
- Conga.Ipv4CongaRouting.AgingEvent: the source erases from a map while iterating over it, and may erase the outer map's current element inside the inner loop. Both have undefined behaviour. The model states the evident intent: drop stale from-leaf entries and the tables they leave empty.
- Conga.Ipv4CongaRouting.PiggybackFeedback: the round-robin index is a natural number. The source keeps it in an unsigned long, which wraps only after 2^64 piggybacked feedbacks.
- DrbRouting.Ipv4DrbRouting.RouteOutput: requires a packet with a flow key to have a non-empty path list for its destination (CanTag). The source takes a remainder by the list size there, which divides by zero on an empty list.
- DrbRouting.Ipv4DrbRouting.RouteOutput: also requires a stored round-robin index for the packet's flow key to be below the size of the destination's path list (CanTag). The source reads `paths[index]` there with no bound check (src/drb-routing/model/ipv4-drb-routing.cc:165-171), A destination's list only grows (AddPath appends to the shared list, src/drb-routing/model/ipv4-drb-routing.cc:51-64, and AddWeightedPath builds a destination's list from its old list or the shared list plus copies, :67-111), so the stored index is out of range only when one key serves two destinations whose lists differ in length: a per-flow id whose packets go to a destination with a shorter list, or a per-destination address key reused after a mode change. std::vector::operator[] then has undefined behaviour.
- DrbRouting.SprayFlow: carries RouteOutput's CanTag requirement, for the same two reasons.
- PauseBuffer.TcpPauseBuffer.GetBufferedItem: requires a non-empty buffer, because front() on an empty deque has undefined behaviour.
- Clove.CalPath: requires every known ToR to have a non-empty path list. The source takes `rand() % size`, and AddAvailPath never stores an empty list.
- LinkProbe.Ipv4LinkProbe.SetDataRateAll and LinkProbe.Ipv4LinkProbe.SetCheckTime: require a positive rate and a positive period. The utility divides by their product, and a zero gives a floating-point infinity or NaN that reals cannot represent.
- FlowBender.TcpFlowBender.ReceivedPacket and FlowBender.TcpFlowBender.CheckCongestion: the byte counters (m_totalBytes, m_markedBytes), the congested-RTT count and V are natural numbers, so a uint32_t wrap-around is not modelled. The header that ships with the repository (src/internet/model/tcp-flow-bender.h:31-35) is an older version: it declares these as uint32_t packet counters, while the implementation (src/internet/model/tcp-flow-bender.cc:35-36, 75-78) counts bytes, as the model does.
- FlowRecord.ParseTimeNs: the integer part is read in its strict form (optional sign, digits). Python 2's long() also accepts surrounding blanks and a trailing L or l, which the model treats as errors; ns-3's flow monitor never writes either form.
- Dctcp.TcpDctcp.UpdateAlpha: the g attribute (src/internet/model/tcp-dctcp.cc:19-22) is not modelled, so g stays at its default 1/16 and Valid bounds it by 1. The source accepts any g >= 0, and for g > 1 the update at src/internet/model/tcp-dctcp.cc:89 can take alpha outside [0, 1]; AlphaBounds holds only for the modelled range.
- Dctcp.TcpDctcp.PktsAcked: the acked and ECE-acked byte counts are natural numbers. The source keeps them in uint32_t fields (src/internet/model/tcp-dctcp.h:41-42), so their wrap-around after 2^32 bytes in one observation window is not modelled.
- FlowBender.AfterCheck: a round trip with no bytes counts as not congested. The source computes 0/0, a NaN that compares false.
- Dctcp.TcpDctcp.IncreaseWindow and Dctcp.TcpDctcp.GetSsThresh: TcpNewReno's window increase and its recovery threshold are parameters (`renoIncrease`, `renoSsThresh`). TcpNewReno is not part of this model.
- Dctcp.TcpDctcp.CwndEvent: the immediate ACK that SendEmptyPacket sends on a CE change is returned as its flags (ACK, or ACK with ECE) and not sent.
- Python I/O is not modelled: the ElementTree streaming loop, `elem.clear()`, argv and file handling, and printing. Each XML element is a datatype value, and each printed summary is a Report value.
- FlowRecord.MakeFlow: the flowInterruptionsHistogram is not modelled, because its float bins are stored and never read.
- FlowRecord.MakeFlow: the four time attributes and delaySum are taken as integer nanoseconds. The source slices `[:-4]` off each and never checks the suffix.
- FailDebugParser: `flow_list` and `small_flow_list` are not modelled, because they are filled and never read.
- FlowmonReport: the per-flow lines are not modelled, only whether printing a flow raises. The report prints no total-flows line, and the model keeps the count only for the lemmas.
- FlowTotals.AccumulateAllWorstSmall: requires every flow's completion time to be positive. Retained flows always satisfy this, because the parsers drop a flow whose time is not positive.
- CongaTag.Ipv4CongaTag.constructor, XPathTag.Ipv4XPathTag.constructor, CloveTag.TcpCloveTag.constructor and EcnTag.Ipv4EcnTag.constructor: the source's default constructors leave the fields uninitialised (src/internet/model/ipv4-conga-tag.cc:6, src/internet/model/ipv4-xpath-tag.cc:5, src/clove/model/tcp-clove-tag.cc:18-21, src/internet/model/ipv4-ecn-tag.cc:6). Starting them at 0, or at Not-ECT for the ECN tag, is a choice of the model.
- The packet tags' TagBuffer is a sequence of fixed-width words. Its byte layout is not modelled.
- Out of scope: the simulation scripts, the routing helpers, the TLB and probing components, the tags that carry floating-point times, and the stub files. Only the path encoding in examples/load-balance/fattree-simulation.cc:505-510 is used, as the XPath round trip.

## Findings

| source | as written | input that shows it | evidently intended | confidence | as-written member | corrected member |
|---|---|---|---|---|---|---|
| src/xpath-routing/model/ipv4-xpath-routing.cc:95 | the port guard is `currentPort > GetNInterfaces ()`, so port N passes although interfaces are numbered 0..N-1 | 3 interfaces and path id 3: the packet is forwarded to interface 3, which does not exist | `currentPort >= GetNInterfaces ()`: reject ports that are not an interface | high, not executed | XPath.RouteInputAsWritten, XPath.AsWrittenAcceptsMissingInterface | XPath.RouteInput |
| src/internet/model/tcp-pause-buffer.cc:42-46 | HasBufferedItem returns `m_pauseItems.empty ()` | a new, empty buffer answers true; GetBufferedItem on it would call front() on an empty deque | return `!m_pauseItems.empty ()` | high, not executed | PauseBuffer.TcpPauseBuffer.HasBufferedItemAsWritten, PauseBuffer.EmptyBufferClaimsItems | PauseBuffer.TcpPauseBuffer.HasBufferedItem |
| src/link-monitor/model/ipv4-link-probe.cc:179 | from an interface's second check on, bytesInQueueDisc is assigned `m_NPacketsInQueueDisc` | 3 queue-disc packets holding 4500 bytes: the second record stores 3 bytes | `m_NBytesInQueueDisc`, as the first check does (line 159) | high, not executed | LinkProbe.NewStatsAsWritten, LinkProbe.SecondCheckRecordsPacketCount | LinkProbe.NewStats, LinkProbe.Checked, LinkProbe.Ipv4LinkProbe.AppendRecord, LinkProbe.Ipv4LinkProbe.CheckCurrentStatus |
| src/conga-routing/model/ipv4-conga-routing.cc:397-408 | a strictly better port clears the candidates and is pushed, then the following `if (congestionDegree == minPortCongestion)` pushes it again | two idle ports 1 and 2: candidates [1, 1, 2], so rand() picks port 1 with probability 2/3 | `else if`: each least-congested port listed once | medium, not executed | Conga.CandidatesAsWritten, Conga.AsWrittenRepeatsFirst, Conga.AsWrittenFavoursFirst | Conga.Candidates, Conga.CandidatesAreMinimal, Conga.SenderPort, Conga.Send, Conga.RouteInputSpec, Conga.Ipv4CongaRouting.SendLeaf, Conga.Ipv4CongaRouting.RouteInput |
| src/conga-routing/model/ipv4-conga-routing.cc:366-389 | a new flowlet's port is chosen by looking each port up in `congaToLeafItr->second`, and the result of `m_congaToLeafTable.find (destLeafId)` is never compared with `end ()` | a fresh leaf with one route and leaf map {10.0.0.1: 1}, no InitCongestion, sends an untagged packet of flow 7 to 10.0.0.1: no to-leaf table for leaf 1 exists, so the end iterator is dereferenced | a missing to-leaf table reads as no remote congestion (0 for every port), the default the inner lookup already gives for a missing port | medium, not executed | Conga.ReadsMissingTable, Conga.FirstFlowletReadsMissingTable | Conga.DegreeTo, Conga.MissingTableIsLocalOnly, Conga.SenderPort, Conga.Ipv4CongaRouting.SelectPort, Conga.RouteInputSpec, Conga.Ipv4CongaRouting.SendLeaf, Conga.Ipv4CongaRouting.RouteInput |
