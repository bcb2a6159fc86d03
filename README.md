# Network packet analysis: flows, top talkers and per-layer tallies

This project models the core of a packet-capture analyser in Dafny and proves properties of the model.

The analyser groups a capture into **flows**. A flow is a bidirectional conversation between two (address, port) endpoints over TCP or UDP.

- **Flow record.** Each flow keeps:
  - its packet history with inter-arrival times;
  - running byte and header-byte totals;
  - the largest inter-arrival gap;
  - a small TCP close/reset state machine driven by the FIN, ACK and RST bits.

  From these come the flow's queries: duration, overhead ratio, inter-arrival times, validity, lifecycle state and RTT packet pairs.
- **Flow registry.** A registry files each new flow under both orientations of its endpoint pair. It appends later packets of either direction to the existing flow and keeps a per-protocol count and list of unique flows.
- **Per-flow statistics.**
  - Select the three flows with the most packets, the most bytes or the longest duration.
  - Group TCP flows by host pair, regardless of direction, and select the three busiest pairs.
  - Build the RTT and smoothed-RTT series of a flow.
- **Per-layer tally.** A layer counts packets per type, with an "Other" bucket for types that are not main types. It renders the counts, shares and byte sums as a table and as Markdown.

## Modules

- `Packets` (`packets.dfy`): the decoded packet and the TCP flag bits.
  - The header lookups: IPv4 before IPv6, TCP before UDP.
  - The flow key.
  - The lookups exactly as the flow constructor writes them.
- `Flows` (`flow.dfy`):
  - the class `Flow`, with one field per attribute of the record;
  - specification functions giving each running field's meaning as a function of the packet history;
  - the close-state machine, the lifecycle classifier and RTT pairing.

  `FlowScenarios` in the same file holds end-to-end runs over short packet sequences.
- `FlowTable` (`flowlist.dfy`): the class `FlowList`.
  - A nested endpoint index per protocol, the count and the list of unique flows.
  - Ghost bookkeeping: `Repr`, the flows it owns, and `Hist`, the packet history of each. From these come `Held`, the multiset of packets the listed flows hold, and its size, the total number of packets.
- `PerFlow` (`perflow.dfy`):
  - the top-three selectors;
  - host-pair grouping and the busiest pairs;
  - the RTT/SRTT series.
- `Layers` (`layer.dfy`): the class `Layer`, its table and its Markdown rendering.
- `Wrappers` (`wrappers.dfy`): `Option`, `Result`, and `Checked`, a value or a division by zero.

Python dictionaries iterate in insertion order. The model keeps that order explicitly: host pairs carry the sequence of pairs in first-seen order.

A Python set iterates in an unspecified order. `GenerateTable` therefore picks the next type nondeterministically, and its contract holds for every order.

## Model

| member | source | states |
|---|---|---|
| Packets.Network | flow.py:17-22 | the network header is the IPv4 header when there is one, and otherwise the IPv6 header; there is none exactly when both are missing |
| Packets.Transport | flow.py:28-35 | the transport protocol is TCP exactly when a TCP header is present, else UDP; none exactly when both are missing |
| Packets.ParseKey | flow.py:16-37 | a packet yields a flow key exactly when it has a network and a transport header; the error says which is missing; the key's protocol and addresses come from those headers, and its ports come from the TCP header when there is one, otherwise from the UDP header |
| Packets.KeyAsWritten | flow.py:17-35 | the lookups as written succeed exactly when the packet is routable and then agree with ParseKey; every failure is IndexError, never the announced ValueError |
| Packets.TcpWithoutIpEscapes | flow.py:212-218 | a TCP segment without an IP header passes the TCP-or-UDP filter, and its failure is not the exception the add operation catches |
| Flows.Flow.constructor | flow.py:16-59 | a new flow has the packet's endpoints and protocol, a one-entry history with gap 0, the packet's sizes, sender 0, and the close state after the first packet; it is consistent |
| Flows.Step | flow.py:152-162 | FIN opens the close with its sender; a later FIN+ACK from the other side completes it; RST sets reset for good; the finish state never decreases and stays well formed |
| Flows.Flow.UpdateState | flow.py:152-162 | a TCP flow's close state advances by one Step on the last packet's flags and sender; a UDP flow's does not change |
| Flows.Replay | flow.py:152-162 | the close state after a TCP history is well formed |
| Flows.ResetIsSticky | flow.py:160-161 | a history with an RST anywhere ends in the reset state |
| Flows.FinishNeverRegresses | flow.py:152-159 | the finish state after a prefix of the history is at most the finish state after the whole history |
| Flows.SenderOf | flow.py:106-109 | the sender is 0 exactly when the packet's source is the flow's first endpoint, else 1 |
| Flows.Flow.AddPacket | flow.py:81-112 | the history gains the packet with its gap since the last arrival; the totals, the largest gap, the last sender and the close state advance accordingly; the flow stays consistent |
| Flows.AddedIsConsistent | flow.py:81-112 | appending a packet of the flow's protocol to a consistent flow gives a consistent flow |
| Flows.AppendEntry | flow.py:81-88 | one more entry adds its sizes to the sums and takes the maximum of the largest gap and its own gap |
| Flows.GapsTelescope | flow.py:81-84 | the gaps of a history add up to the time from its first to its last packet |
| Flows.InterArrivalTimesSumToDuration | flow.py:114-115 | a flow's duration, the time from its first to its last packet in milliseconds, equals the sum of its packets' inter-arrival times in milliseconds |
| Flows.Flow.TotalPackets | flow.py:117-118 | a flow holds at least one packet |
| Flows.Flow.OverheadRatio | flow.py:123-127 | the ratio is 9999 when header and total bytes are equal, else header bytes over total bytes; a division by zero exactly when they differ and the total is 0 |
| Flows.Flow.InterArrivalTimes | flow.py:129-130 | one value per packet: its gap in milliseconds |
| Flows.MillisecondsSum | flow.py:129-130 | the gaps in milliseconds sum to 1000 times the gaps in seconds |
| Flows.Flow.IsValid | flow.py:164-165 | a flow is valid exactly when no gap of its history exceeds 90 minutes |
| Flows.MaxGapBounded | flow.py:164-165 | the largest gap is within a bound exactly when every gap is |
| Flows.MaxGapBoundsEveryGap | flow.py:81-83 | the largest-gap field is at least every gap of the history |
| Flows.Classify | flow.py:132-150 | the lifecycle state is each of Request, Reset, Finished, Ongoing, Failed exactly under the source's conditions, in their order of precedence; not TCP exactly for UDP |
| Flows.Flow.State | flow.py:132-150 | a flow's state is its classification; no lifecycle state exactly for UDP; Reset when a reset was seen and the last packet is not a SYN |
| Flows.ResetWins | flow.py:132-150 | a TCP flow with an RST anywhere whose last packet is not a SYN is in state Reset |
| Flows.RttPacketPairs | flow.py:61-79 | every packet is a key; packet j is paired with packet k exactly when k comes later from the other source with a sequence number equal to j's acknowledgment number, and no packet between them carried that acknowledgment number or answered it; every other packet maps to -1, and no packet acknowledges two |
| FlowScenarios.GracefulClose | flow.py:152-162 | FIN from one side then FIN+ACK from the other finishes the flow |
| FlowScenarios.ResetThenClose | flow.py:132-150 | a reset outranks a completed close |
| FlowScenarios.SameSideFin | flow.py:155-159 | a FIN+ACK from the side that sent the first FIN does not complete the close |
| FlowScenarios.IdleGap | flow.py:164-165 | a flow with a gap above 90 minutes is not valid |
| FlowTable.FlowList.constructor | flow.py:168-171 | a new registry has empty indexes, counts 0 and no flows, and owns no flow |
| FlowTable.File | flow.py:199-208 | after filing, the flow is found under both orientations of its endpoints, and every other pair finds what it found before |
| FlowTable.FindSymmetric | flow.py:199-208 | looking a pair up in either orientation finds the same flow |
| FlowTable.OneFlowPerPair | flow.py:180-208 | no two listed flows of a protocol join the same pair of endpoints |
| FlowTable.FlowList.AddFlow | flow.py:180-208 | a flow is added exactly when no flow of its protocol joins its endpoints; then it is filed and listed, the count grows by one and the packets the registry holds grow by exactly that flow's packets; otherwise nothing changes |
| FlowTable.FlowList.Register | flow.py:193-208 | filing a new flow appends it to its protocol's list, leaves the other protocol alone and adds exactly its packets to those the registry holds |
| FlowTable.FlowList.Install | flow.py:193-208 | filing a flow under its endpoints files it in its protocol's index in both orders, counts it and lists it last, as Filed states, and leaves the other protocol's bucket unchanged |
| FlowTable.FlowList.AddPacket | flow.py:212-218 | a packet opens a new flow exactly when it is routable and its pair has no flow yet, and the registry then holds exactly that packet more; a packet that cannot be parsed returns false and changes nothing; no flow loses any part of its history |
| FlowTable.FlowList.UpdateFlow | flow.py:222-252 | a packet updates a flow exactly when it is routable and its pair has a flow; that flow gains the packet as in Flow.AddPacket, the registry holds exactly that packet more, no flow loses any part of its history, nothing else changes |
| FlowTable.FlowList.Append | flow.py:247-250 | appending to a listed flow gives it the packet, leaves every other owned flow unchanged, extends only that flow's history, and adds exactly that packet to those the registry holds |
| FlowTable.FlowList.Route | flow.py:174-177 | a packet is taken exactly when it is routable, and the registry then holds exactly that packet more; no flow loses any part of its history, and flows are only ever added. When a flow was filed under its source then destination, that flow gains the packet as Flow.AddPacket does, no other owned flow changes and neither protocol's list grows. Otherwise a new flow holding only the packet, with the packet's source and destination as its endpoints, is filed and listed last in its protocol's list |
| FlowTable.FlowList.Populate | flow.py:173-177 | after populating, the packets the registry holds are those it held plus, with their multiplicities, the routable packets of the capture, so the total grows by their number; every flow it held before is still held and keeps its old packets as a prefix; it stays consistent, which includes every flow holding only its own packets |
| FlowTable.FlowList.RouteNext | flow.py:175-177 | routing the next packet of the capture keeps the registry consistent, adds that packet to those it holds exactly when it is routable, and shortens no flow's history |
| FlowTable.RoutablePacketsAreRoutable | flow.py:212-218 | every packet populating adds is one of the capture's and has both a network and a transport header |
| FlowTable.PacketsHomed | flow.py:173-177 | in a consistent registry, which populating preserves, every packet of a listed flow has a flow key of that flow's protocol and travels between the flow's two endpoints, in one direction or the other |
| FlowTable.HomedAdded | flow.py:241-250 | appending a packet of the flow's protocol found under the flow's endpoints keeps every packet of the flow between those endpoints |
| FlowTable.FlowList.GetTotalBytes | flow.py:254-259 | the byte total of a protocol is the sum of the total sizes of its listed flows |
| FlowTable.OpenFlow | flow.py:212-218 | the first packet into an empty registry opens one flow, found from the reverse direction too, and the registry holds exactly that packet |
| FlowTable.RequestAndReply | flow.py:173-252 | a reply to the first packet, routed as populate does, is appended to the request's flow instead of opening a new one: one flow holding two packets, and the registry holds exactly those two |
| PerFlow.Pick | perFlow.py:107-156 | the scan returns an index not excluded with its metric, or (-1, -1) exactly when every index is excluded |
| PerFlow.PickIsFirstMax | perFlow.py:107-156 | when no metric equals -1 the scan finds the largest metric among indices not excluded, and the earliest index on ties |
| PerFlow.MostBy | perFlow.py:107-156 | the loop over the flows returns the flow, metric and index of Pick on the flows' packet counts, byte totals or durations |
| PerFlow.TopThreeRanked | perFlow.py:158-167 | three rounds pick distinct indices; round k finds none exactly when there are fewer than k flows; with metrics above -1 the metrics never increase |
| PerFlow.TopThree | perFlow.py:158-167 | the three flows and metrics are those of three rounds of selection, each round excluding the indices picked before |
| PerFlow.GroupedOk | perFlow.py:174-188 | adding one flow keeps the host pairs consistent, adds one to the total count, puts the flow in its pair's or the reversed pair's bucket and only appends to buckets |
| PerFlow.GroupsOk | perFlow.py:169-189 | grouping gives consistent host pairs: a pair and its reverse are never both keys, each count is its bucket's size, the counts add up to the number of flows and every flow is in its bucket |
| PerFlow.IpPairCounts | perFlow.py:169-189 | the loop over the flows builds the grouping Groups |
| PerFlow.PickPair | perFlow.py:191-203 | the scan over the pairs returns a pair not excluded with its count, or (None, -1) exactly when every pair is excluded |
| PerFlow.PickAtIsFirstMax | perFlow.py:191-203 | the scan finds the largest count among the pairs not excluded, the first in first-seen order on ties |
| PerFlow.MostTcpHosts | perFlow.py:191-203 | the loop over the pairs returns PickPair |
| PerFlow.TopPairsRanked | perFlow.py:205-215 | selection fails with KeyError exactly when there are fewer than three host pairs; otherwise it returns three distinct pairs, each with its own flows and count, in non-increasing order |
| PerFlow.TopThreeOf | perFlow.py:207-215 | the three rounds of selection over built host pairs give TopPairs |
| PerFlow.TopThreeHostPairs | perFlow.py:205-215 | grouping then three rounds of selection give TopPairs of the grouping |
| PerFlow.PairedSendsSound | perFlow.py:245-250 | the sampled keys are keys of the pairing whose value is not -1 |
| PerFlow.PairedSendsComplete | perFlow.py:245-250 | every acknowledged key is sampled |
| PerFlow.PairedSendsIncreasing | perFlow.py:245-250 | the sampled keys come in increasing order, each once |
| PerFlow.SrttFollowsRfc6298 | perFlow.py:253-257 | with samples above -1, the smoothed RTT starts at the first sample and then takes 7/8 of the previous value plus 1/8 of the sample, staying within the samples' bounds |
| PerFlow.SrttOfTwo | perFlow.py:253-257 | two samples r1 and r2 smooth to r1, then 7/8 r1 + 1/8 r2, for any r2 and any r1 other than the unset marker -1 |
| PerFlow.PlotData | perFlow.py:240-263 | for each acknowledged packet in key order, the RTT is the acknowledgment's time minus the packet's time and the time is the packet's; the SRTT series is the smoothing of the RTTs |
| Layers.Layer.constructor | layer.py:21-36 | the caller's type set gains Other; every type starts with count 0 and empty size lists; the totals are 0 |
| Layers.BucketIn | layer.py:44-53 | a packet goes to its own type's bucket exactly when that is a main type, else to Other |
| Layers.Layer.AddPacketOccurrence | layer.py:38-53 | one more packet and its size in the totals; its bucket's count and size lists grow by one; a type that is not a main type is remembered; the totals stay the sums over the buckets |
| Layers.TallyUpdated | layer.py:38-53 | one more occurrence in a bucket adds one to the sum of the counters and the size to the sum of the byte lists |
| Layers.Layer.RowOf | layer.py:61-64 | a row holds the type, its count, its count as a percentage of all packets and its byte sum |
| Layers.Layer.GenerateTable | layer.py:55-72 | the table is the header, one row per main type other than Other in some order, and the Other row last; a division by zero exactly when no packet was recorded |
| Layers.TableAddsUp | layer.py:55-72 | the counts of the table's rows add up to the packet total, the byte sums to the byte total, and the percentages to 100 |
| Layers.Layer.RowMarkdown | layer.py:78-96 | a row renders as a bar-separated line, preceded by a line of dashes when it is the second row |
| Layers.Layer.GenerateMarkdownTable | layer.py:74-97 | the Markdown is the rendering of the layer's table; a division by zero exactly when no packet was recorded |
| Layers.MarkdownLines | layer.py:74-97 | with single-line cells the Markdown has one line per row plus the separator line |
| Layers.MarkdownStartsWithHeader | layer.py:74-97 | the Markdown of a layer's table starts with the header line and the separator |
| Layers.DigitsValue | layer.py:92 | the decimal digits printed for a count read back as that count |

## Left out

- Packet decoding, packet sizes and header sizes are fields of the packet. The decoder and its size computation are not part of this model.
- Timestamps are taken as exact reals. The model does not reproduce floating-point rounding in gaps, durations, percentages or the smoothed RTT.
- FlowTable.FlowList.UpdateFlow: returns false for a packet without an IPv4 or IPv6 header, or without a TCP or UDP header, as the method's own comment promises. The code as written (flow.py:223-241) looks up IPv6 and UDP inside the IndexError handlers of the IPv4 and TCP lookups, so such a packet raises IndexError instead. populate never reaches this case, because addPacket has already raised on the same packet; see the flow.py:17-22 row under "## Findings".
- Layers.Layer.GenerateMarkdownTable: the text of a percentage cell comes from a `showReal` parameter, because the model has no floating-point printing.
- Plotting, report writing, file output and the command-line drivers are I/O. They are not part of this model, and neither are `print`, the getters of the layer, getTotalSize and the per-packet analysis.
- PerFlow.PickIsFirstMax: states the maximum only when no metric equals -1. A metric of exactly -1 can be replaced by the scan's first-value test; the model's Pick keeps that behaviour as written.
- PerFlow.SrttFollowsRfc6298: states the smoothing formula only for samples above -1. The source restarts the smoothing whenever the smoothed value is exactly -1, that is after a first sample of -1 or when 7/8 of the previous value plus 1/8 of the sample comes to -1. Smooth does the same, but the lemma does not describe such series.
- PerFlow.TopThree: the top-three loop is modelled for the three selectors, passed as a ranking. An arbitrary selector function is not modelled.
- FlowTable.FlowList.AddFlow: requires the flow to hold only packets between its own endpoints. The source accepts any Flow, and its one caller, addPacket, passes a flow built from a single packet, which meets the requirement. The same holds for FlowTable.FlowList.Register.
- Flows.Flow.State: the contract states only the UDP case and the reset rule. The full case split is stated on Flows.Classify, which State returns.
- The dictionary from `ack` numbers in RTT pairing is a Dafny map. Python's insertion-order iteration over the pairing in `_getPlotData` is modelled as increasing key order, which is the order in which the pairing is built.
- The registry's per-protocol dictionaries are modelled as a map from endpoint pairs to flows, together with the list of unique flows. The ghost fields `Repr` and `Hist` exist only for the proofs.
- The type set of a layer is shared with the caller, as in the source. Aliasing with other layers that share the same set is not modelled beyond that one reference.
- Integers are unbounded, like Python's.

## Findings

| source | as written | input that shows it | evidently intended | confidence | as-written member | corrected member |
|---|---|---|---|---|---|---|
| flow.py:17-22 | the lookup of IPv6 runs inside the IndexError handler of the IPv4 lookup. A packet with neither header raises IndexError from the handler, so the bare `except` never converts it to ValueError. The `except ValueError` in addPacket (flow.py:212-218) then lets it through, and populate stops. updateFlow (flow.py:223-241) nests its lookups in the same way | a packet whose dissection has a TCP or UDP header but neither an IP nor an IPv6 layer, such as one built as Ether()/TCP(); a captured IP packet, raw link included, decodes with its IP header and does not trigger it | addPacket returns False for a packet without a network or transport header, and populating skips it | not executed | Packets.KeyAsWritten, Packets.TcpWithoutIpEscapes | Packets.ParseKey, FlowTable.FlowList.AddPacket, FlowTable.FlowList.UpdateFlow, FlowTable.FlowList.Route, FlowTable.FlowList.Populate |
