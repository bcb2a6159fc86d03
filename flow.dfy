/** One bidirectional conversation between two endpoints: its packet history,
    running totals and TCP close/reset state, with the specification functions
    that give each running field's meaning as a function of the history. */
module Flows {
  import opened Wrappers
  import opened Packets

  /** One element of a flow's history: a packet and its inter-arrival time in seconds. */
  type Entry = (Packet, real)

  /** A flow whose last packet is at most this many seconds after its first is still active. */
  const ACTIVE_THRESHOLD: real := 300.0
  /** A flow with an inter-arrival gap above this many seconds is not valid (90 minutes). */
  const IDLE_LIMIT: real := 5400.0
  /** The overhead ratio reported when header bytes equal total bytes. */
  const NO_RATIO: real := 9999.0

  function Max(a: real, b: real): (r: real)
    ensures r >= a && r >= b && (r == a || r == b)
  {
    if b > a then b else a
  }

  function Last<T>(s: seq<T>): T
    requires |s| > 0
  {
    s[|s| - 1]
  }

  function AllButLast<T>(s: seq<T>): seq<T>
    requires |s| > 0
  {
    s[..|s| - 1]
  }

  // ---------------------------------------------------------------------------
  // Running totals as functions of the history
  // ---------------------------------------------------------------------------

  function SumSize(es: seq<Entry>): int {
    if es == [] then 0 else SumSize(AllButLast(es)) + Last(es).0.size
  }

  function SumHeaderSize(es: seq<Entry>): int {
    if es == [] then 0 else SumHeaderSize(AllButLast(es)) + Last(es).0.headerSize
  }

  function SumGaps(es: seq<Entry>): real {
    if es == [] then 0.0 else SumGaps(AllButLast(es)) + Last(es).1
  }

  /** The largest inter-arrival gap, starting from 0. */
  function MaxGap(es: seq<Entry>): real {
    if es == [] then 0.0 else Max(MaxGap(AllButLast(es)), Last(es).1)
  }

  function SumReals(s: seq<real>): real {
    if s == [] then 0.0 else SumReals(AllButLast(s)) + Last(s)
  }

  /** The history is time-chained: the first gap is 0 and every later gap is the
      difference between the packet's time and the previous packet's time. */
  ghost predicate Chained(es: seq<Entry>) {
    && |es| > 0
    && es[0].1 == 0.0
    && forall i {:trigger es[i].1} :: 0 < i < |es| ==> es[i].1 == es[i].0.time - es[i - 1].0.time
  }

  /** The largest gap is at most `limit` exactly when every gap is. */
  lemma {:induction false} MaxGapBounded(es: seq<Entry>, limit: real)
    requires limit >= 0.0
    ensures MaxGap(es) <= limit <==> forall i :: 0 <= i < |es| ==> es[i].1 <= limit
  {
    if es != [] {
      var pre := AllButLast(es);
      MaxGapBounded(pre, limit);
      assert forall i :: 0 <= i < |pre| ==> pre[i] == es[i];
    }
  }

  /** The gaps of a chained history add up to the time between its first and last packet. */
  lemma {:induction false} GapsTelescope(es: seq<Entry>)
    requires Chained(es)
    ensures SumGaps(es) == Last(es).0.time - es[0].0.time
  {
    if |es| > 1 {
      var pre := AllButLast(es);
      assert Chained(pre);
      GapsTelescope(pre);
    }
  }

  /** Inter-arrival times in milliseconds. */
  function Milliseconds(es: seq<Entry>): (r: seq<real>)
    ensures |r| == |es|
  {
    seq(|es|, i requires 0 <= i < |es| => es[i].1 * 1000.0)
  }

  lemma {:induction false} MillisecondsSum(es: seq<Entry>)
    ensures SumReals(Milliseconds(es)) == SumGaps(es) * 1000.0
  {
    if es != [] {
      var pre := AllButLast(es);
      assert AllButLast(Milliseconds(es)) == Milliseconds(pre);
      MillisecondsSum(pre);
    }
  }

  // ---------------------------------------------------------------------------
  // The TCP close/reset state machine
  // ---------------------------------------------------------------------------

  /** finishState: 0 no FIN seen, 1 one side sent FIN, 2 the other side answered
      with FIN+ACK. finishReq: the sender (0 or 1) of the first FIN, -1 before that. */
  datatype CloseState = CloseState(finishState: int, finishReq: int, reset: bool)

  const Open: CloseState := CloseState(0, -1, false)

  ghost predicate WellFormed(s: CloseState) {
    && 0 <= s.finishState <= 2
    && -1 <= s.finishReq <= 1
    && (s.finishState == 0 <==> s.finishReq == -1)
  }

  /** Index into `nodes` of the sender of `p`: 0 exactly when the packet's source
      endpoint is nodes[0]. */
  function SenderOf(nodes: seq<Endpoint>, p: Packet): (r: int)
    requires |nodes| == 2 && Routable(p)
    ensures r == 0 <==> SrcOf(p) == nodes[0]
    ensures r == 0 || r == 1
  {
    if SrcOf(p) == nodes[0] then 0 else 1
  }

  /** One step of the close/reset state machine on a packet's flags. */
  function Step(s: CloseState, flags: bv16, sender: int): (r: CloseState)
    ensures WellFormed(s) && (sender == 0 || sender == 1) ==> WellFormed(r)
    ensures WellFormed(s) ==> s.finishState <= r.finishState
    ensures r.reset <==> s.reset || HasFlag(flags, RST)
    ensures !HasFlag(flags, FIN) ==> r.finishState == s.finishState && r.finishReq == s.finishReq
    ensures HasFlag(flags, FIN) && s.finishState == 0 ==> r.finishState == 1 && r.finishReq == sender
    ensures HasFlag(flags, FIN) && s.finishState != 0 ==> r.finishReq == s.finishReq
    ensures s.finishState != 0 ==>
      (r.finishState == 2 <==> s.finishState == 2 || (HasFlag(flags, FIN) && HasFlag(flags, ACK) && sender != s.finishReq))
  {
    var afterFin :=
      if !HasFlag(flags, FIN) then s
      else if s.finishState == 0 then CloseState(1, sender, s.reset)
      else if HasFlag(flags, ACK) && sender != s.finishReq then s.(finishState := 2)
      else s;
    if HasFlag(flags, RST) then afterFin.(reset := true) else afterFin
  }

  ghost predicate TcpHistory(nodes: seq<Endpoint>, es: seq<Entry>) {
    |nodes| == 2 && forall i :: 0 <= i < |es| ==> Routable(es[i].0) && es[i].0.tcp.Some?
  }

  /** The close/reset state reached by running the state machine over a TCP history. */
  function Replay(nodes: seq<Endpoint>, es: seq<Entry>): (r: CloseState)
    requires TcpHistory(nodes, es)
    ensures WellFormed(r)
  {
    if es == [] then Open
    else
      var p := Last(es).0;
      Step(Replay(nodes, AllButLast(es)), p.tcp.value.flags, SenderOf(nodes, p))
  }

  /** Once any packet of the history carries RST, the replayed state is reset. */
  lemma {:induction false} ResetIsSticky(nodes: seq<Endpoint>, es: seq<Entry>, k: int)
    requires TcpHistory(nodes, es)
    requires 0 <= k < |es| && HasFlag(es[k].0.tcp.value.flags, RST)
    ensures Replay(nodes, es).reset
  {
    if k < |es| - 1 {
      var pre := AllButLast(es);
      assert pre[k] == es[k];
      ResetIsSticky(nodes, pre, k);
    }
  }

  /** finishState never decreases along the history. */
  lemma {:induction false} FinishNeverRegresses(nodes: seq<Endpoint>, es: seq<Entry>, j: int)
    requires TcpHistory(nodes, es) && 0 <= j <= |es|
    ensures TcpHistory(nodes, es[..j])
    ensures Replay(nodes, es[..j]).finishState <= Replay(nodes, es).finishState
  {
    assert TcpHistory(nodes, es[..j]) by {
      forall i | 0 <= i < j ensures es[..j][i] == es[i] { }
    }
    if j < |es| {
      var pre := AllButLast(es);
      assert pre[..j] == es[..j];
      FinishNeverRegresses(nodes, pre, j);
    } else {
      assert es[..j] == es;
    }
  }

  // ---------------------------------------------------------------------------
  // The derived lifecycle state
  // ---------------------------------------------------------------------------

  datatype FlowState = Request | Reset | Finished | Ongoing | Failed | NotTcp

  /** The lifecycle classifier: SYN in the last packet first (Request within the
      active threshold, else Failed), then Reset, then Finished, then Ongoing within
      the threshold, else Failed. A UDP flow has no lifecycle state. */
  function Classify(proto: Proto, lastFlags: bv16, elapsed: real, s: CloseState): (r: FlowState)
    ensures r == NotTcp <==> proto.UDP?
    ensures r == Request <==> proto.TCP? && HasFlag(lastFlags, SYN) && elapsed <= ACTIVE_THRESHOLD
    ensures r == Reset <==> proto.TCP? && !HasFlag(lastFlags, SYN) && s.reset
    ensures r == Finished <==> proto.TCP? && !HasFlag(lastFlags, SYN) && !s.reset && s.finishState == 2
    ensures r == Ongoing <==>
      proto.TCP? && !HasFlag(lastFlags, SYN) && !s.reset && s.finishState != 2 && elapsed <= ACTIVE_THRESHOLD
    ensures r == Failed <==>
      proto.TCP? && elapsed > ACTIVE_THRESHOLD && (HasFlag(lastFlags, SYN) || (!s.reset && s.finishState != 2))
  {
    if proto.TCP? then
      if HasFlag(lastFlags, SYN) then (if elapsed <= ACTIVE_THRESHOLD then Request else Failed)
      else if s.reset then Reset
      else if s.finishState == 2 then Finished
      else if elapsed <= ACTIVE_THRESHOLD then Ongoing
      else Failed
    else NotTcp
  }
  // ---------------------------------------------------------------------------
  // The flow record
  // ---------------------------------------------------------------------------

  /** The value of every field of a flow record. */
  datatype FlowView = FlowView(
    nodes: seq<Endpoint>,
    proto: Proto,
    firstArrival: real,
    lastSender: int,
    close: CloseState,
    lastArrival: real,
    packets: seq<Entry>,
    totalSize: int,
    totalHeaderSize: int,
    maxInterArrivalTime: real)

  /** Every running field agrees with the packet history. */
  ghost predicate Consistent(v: FlowView) {
    && |v.nodes| == 2
    && Chained(v.packets)
    && (forall i :: 0 <= i < |v.packets| ==> Carries(v.packets[i].0, v.proto))
    && Routable(v.packets[0].0)
    && v.nodes == [SrcOf(v.packets[0].0), DstOf(v.packets[0].0)]
    && v.proto == ProtoOf(v.packets[0].0)
    && v.firstArrival == v.packets[0].0.time
    && v.lastArrival == Last(v.packets).0.time
    && v.totalSize == SumSize(v.packets)
    && v.totalHeaderSize == SumHeaderSize(v.packets)
    && v.maxInterArrivalTime == MaxGap(v.packets)
    && Routable(Last(v.packets).0)
    && v.lastSender == SenderOf(v.nodes, Last(v.packets).0)
    && TcpHistory(v.nodes, if v.proto.TCP? then v.packets else [])
    && v.close == Replay(v.nodes, if v.proto.TCP? then v.packets else [])
  }

  /** The record after a packet of the flow is added. */
  function Added(v: FlowView, p: Packet): FlowView
    requires |v.nodes| == 2 && Carries(p, v.proto)
  {
    var gap := p.time - v.lastArrival;
    var sender := if SrcOf(p) == v.nodes[0] then 0 else 1;
    v.(maxInterArrivalTime := Max(v.maxInterArrivalTime, gap),
       lastArrival := p.time,
       packets := v.packets + [(p, gap)],
       totalSize := v.totalSize + p.size,
       totalHeaderSize := v.totalHeaderSize + p.headerSize,
       lastSender := sender,
       close := if v.proto.TCP? then Step(v.close, p.tcp.value.flags, sender) else v.close)
  }

  /** Adding a packet keeps every running field in agreement with the history. */
  lemma AddedIsConsistent(v: FlowView, p: Packet)
    requires Consistent(v) && Carries(p, v.proto)
    ensures Consistent(Added(v, p))
  {
    var w := Added(v, p);
    AppendEntry(v.nodes, v.packets, (p, p.time - v.lastArrival));
    assert forall i :: 0 <= i < |v.packets| ==> w.packets[i] == v.packets[i];
  }

  /** How each history function unfolds on a history extended by one entry. */
  lemma AppendEntry(nodes: seq<Endpoint>, es: seq<Entry>, e: Entry)
    requires |es| > 0
    ensures AllButLast(es + [e]) == es && Last(es + [e]) == e && (es + [e])[0] == es[0]
    ensures SumSize(es + [e]) == SumSize(es) + e.0.size
    ensures SumHeaderSize(es + [e]) == SumHeaderSize(es) + e.0.headerSize
    ensures MaxGap(es + [e]) == Max(MaxGap(es), e.1)
    ensures TcpHistory(nodes, es) && Routable(e.0) && e.0.tcp.Some? ==>
      TcpHistory(nodes, es + [e]) && Replay(nodes, es + [e]) == Step(Replay(nodes, es), e.0.tcp.value.flags, SenderOf(nodes, e.0))
  {
    assert AllButLast(es + [e]) == es;
  }

  class Flow {
    /** The two endpoints, source first, taken from the first packet and never changed. */
    const nodes: seq<Endpoint>
    const proto: Proto
    const firstArrival: real

    /** Index into `nodes` of the sender of the most recent packet. */
    var lastSender: int
    var finishState: int
    var finishReq: int
    var resetState: bool
    var lastArrival: real
    var packets: seq<Entry>
    var totalSize: int
    var totalHeaderSize: int
    var maxInterArrivalTime: real

    function Close(): CloseState
      reads this
    {
      CloseState(finishState, finishReq, resetState)
    }

    function View(): FlowView
      reads this
    {
      FlowView(nodes, proto, firstArrival, lastSender, Close(), lastArrival, packets,
               totalSize, totalHeaderSize, maxInterArrivalTime)
    }

    ghost predicate Valid()
      reads this
    {
      Consistent(View())
    }

    constructor (p: Packet)
      requires Routable(p)
      ensures Valid()
      ensures nodes == [SrcOf(p), DstOf(p)] && proto == ProtoOf(p)
      ensures packets == [(p, 0.0)] && firstArrival == p.time && lastArrival == p.time
      ensures totalSize == p.size && totalHeaderSize == p.headerSize && maxInterArrivalTime == 0.0
      ensures lastSender == 0
      ensures Close() == if proto.TCP? then Step(Open, p.tcp.value.flags, 0) else Open
    {
      nodes := [SrcOf(p), DstOf(p)];
      proto := ProtoOf(p);
      firstArrival := p.time;
      lastSender := 0;
      finishState := 0;
      finishReq := -1;
      resetState := false;
      lastArrival := p.time;
      packets := [(p, 0.0)];
      new;
      UpdateState();
      totalSize := p.size;
      totalHeaderSize := p.headerSize;
      maxInterArrivalTime := 0.0;
      assert AllButLast(packets) == [];
    }

    /** Runs the close/reset state machine on the last packet's flags (TCP only). */
    method UpdateState()
      requires |packets| > 0 && (proto.TCP? ==> Last(packets).0.tcp.Some?)
      modifies this`finishState, this`finishReq, this`resetState
      ensures Close() == if proto.TCP? then Step(old(Close()), Last(packets).0.tcp.value.flags, lastSender)
                         else old(Close())
    {
      ghost var before := Close();
      if proto.TCP? {
        var flags := Last(packets).0.tcp.value.flags;
        if HasFlag(flags, FIN) {
          if finishState == 0 {
            finishState := 1;
            finishReq := lastSender;
          } else if HasFlag(flags, ACK) && lastSender != finishReq {
            finishState := 2;
          }
        }
        if HasFlag(flags, RST) {
          resetState := true;
        }
        assert Close() == Step(before, flags, lastSender);
      }
    }

    /** Appends a packet of this flow to the history and updates every running field. */
    method AddPacket(p: Packet)
      requires Valid() && Carries(p, proto)
      modifies this
      ensures Valid()
      ensures View() == Added(old(View()), p)
      ensures packets == old(packets) + [(p, p.time - old(lastArrival))]
      ensures lastArrival == p.time
      ensures totalSize == old(totalSize) + p.size
      ensures totalHeaderSize == old(totalHeaderSize) + p.headerSize
      ensures maxInterArrivalTime == Max(old(maxInterArrivalTime), p.time - old(lastArrival))
      ensures lastSender == (if SrcOf(p) == nodes[0] then 0 else 1)
      ensures old(finishState) <= finishState && (old(resetState) ==> resetState)
    {
      ghost var v := View();
      ghost var w := Added(v, p);
      var entry := (p, p.time - lastArrival);
      maxInterArrivalTime := Max(maxInterArrivalTime, entry.1);
      lastArrival := p.time;
      packets := packets + [entry];
      totalSize := totalSize + p.size;
      totalHeaderSize := totalHeaderSize + p.headerSize;
      if SrcOf(p) == nodes[0] {
        lastSender := 0;
      } else {
        lastSender := 1;
      }
      UpdateState();
      assert View() == w;
      AddedIsConsistent(v, p);
    }

    /** Flow duration in milliseconds. */
    function Duration(): real
      reads this
    {
      (lastArrival - firstArrival) * 1000.0
    }

    function TotalPackets(): (r: int)
      reads this
      requires Valid()
      ensures r >= 1
    {
      |packets|
    }

    /** Header bytes over total bytes; the sentinel when the two are equal. */
    function OverheadRatio(): (r: Checked<real>)
      reads this
      ensures totalHeaderSize == totalSize ==> r == Ok(NO_RATIO)
      ensures r.DivideByZero? <==> totalHeaderSize != totalSize && totalSize == 0
      ensures r.Ok? && totalHeaderSize != totalSize ==> r.value * totalSize as real == totalHeaderSize as real
    {
      if totalHeaderSize != totalSize then
        if totalSize == 0 then DivideByZero else Ok(totalHeaderSize as real / totalSize as real)
      else Ok(NO_RATIO)
    }

    /** The inter-arrival times of the history, in milliseconds. */
    function InterArrivalTimes(): (r: seq<real>)
      reads this
      ensures |r| == |packets|
      ensures forall i :: 0 <= i < |r| ==> r[i] == packets[i].1 * 1000.0
    {
      Milliseconds(packets)
    }

    /** Valid exactly when no inter-arrival gap exceeds 90 minutes. */
    predicate IsValid()
      reads this
      requires Valid()
      ensures IsValid() <==> forall i :: 0 <= i < |packets| ==> packets[i].1 <= IDLE_LIMIT
    {
      MaxGapBounded(packets, IDLE_LIMIT);
      maxInterArrivalTime <= IDLE_LIMIT
    }

    /** The lifecycle state, from the last packet's flags, the elapsed time and the close state. */
    function State(): (r: FlowState)
      reads this
      requires Valid()
      ensures r == NotTcp <==> proto.UDP?
      ensures proto.TCP? && resetState && !HasFlag(Last(packets).0.tcp.value.flags, SYN) ==> r == Reset
    {
      Classify(proto, if proto.TCP? then Last(packets).0.tcp.value.flags else 0,
               lastArrival - firstArrival, Close())
    }
  }

  /** The inter-arrival times of a valid flow add up to its duration. */
  lemma InterArrivalTimesSumToDuration(f: Flow)
    requires f.Valid()
    ensures SumReals(f.InterArrivalTimes()) == f.Duration()
  {
    MillisecondsSum(f.packets);
    GapsTelescope(f.packets);
  }

  /** A valid flow's running totals are the sums over its history, and its largest
      gap bounds every gap. */
  lemma MaxGapBoundsEveryGap(f: Flow, i: int)
    requires f.Valid() && 0 <= i < |f.packets|
    ensures f.packets[i].1 <= f.maxInterArrivalTime
  {
    MaxGapAtLeast(f.packets, i);
  }

  lemma {:induction false} MaxGapAtLeast(es: seq<Entry>, i: int)
    requires 0 <= i < |es|
    ensures es[i].1 <= MaxGap(es)
  {
    if i < |es| - 1 {
      MaxGapAtLeast(AllButLast(es), i);
    }
  }

  /** A TCP flow that saw RST in any packet is in the Reset state unless its last packet carries SYN. */
  lemma ResetWins(f: Flow, k: int)
    requires f.Valid() && f.proto.TCP?
    requires 0 <= k < |f.packets| && HasFlag(f.packets[k].0.tcp.value.flags, RST)
    requires !HasFlag(Last(f.packets).0.tcp.value.flags, SYN)
    ensures f.State() == Reset
  {
    ResetIsSticky(f.nodes, f.packets, k);
  }

  // ---------------------------------------------------------------------------
  // RTT pairing
  // ---------------------------------------------------------------------------

  /** The acknowledgment and sequence numbers of the `k`-th packet of a TCP flow. */
  ghost function AckOf(es: seq<Entry>, k: int): int
    requires forall i :: 0 <= i < |es| ==> es[i].0.tcp.Some?
    requires 0 <= k < |es|
  {
    es[k].0.tcp.value.ackNum
  }

  ghost function SeqOf(es: seq<Entry>, k: int): int
    requires forall i :: 0 <= i < |es| ==> es[i].0.tcp.Some?
    requires 0 <= k < |es|
  {
    es[k].0.tcp.value.seqNum
  }

  /** Packet `k` answers packet `j`: it comes from the other side and its sequence
      number is the acknowledgment number `j` carried. */
  ghost predicate Answers(es: seq<Entry>, j: int, k: int)
    requires forall i :: 0 <= i < |es| ==> es[i].0.tcp.Some?
    requires 0 <= j < |es| && 0 <= k < |es|
  {
    SeqOf(es, k) == AckOf(es, j) && es[k].0.outerSrc != es[j].0.outerSrc
  }

  /** Packet `j` still waits for its answer when packet `i` arrives: no packet in
      between carried the same acknowledgment number or answered it. */
  ghost predicate Pending(es: seq<Entry>, j: int, i: int)
    requires forall i :: 0 <= i < |es| ==> es[i].0.tcp.Some?
  {
    && 0 <= j < i <= |es|
    && forall k :: j < k < i ==> AckOf(es, k) != AckOf(es, j) && !Answers(es, j, k)
  }

  /** Packet `k` is the one paired with packet `j`: `j` is pending when `k` arrives,
      `k` does not itself repeat `j`'s acknowledgment number, and `k` answers `j`. */
  ghost predicate Acknowledges(es: seq<Entry>, j: int, k: int)
    requires forall i :: 0 <= i < |es| ==> es[i].0.tcp.Some?
  {
    && 0 <= j < k < |es|
    && Pending(es, j, k)
    && AckOf(es, k) != AckOf(es, j)
    && Answers(es, j, k)
  }

  /** Every packet paired so far is paired with the packet that acknowledges it. */
  ghost predicate PairsSound(es: seq<Entry>, i: int, pairs: map<int, int>)
    requires forall i :: 0 <= i < |es| ==> es[i].0.tcp.Some?
  {
    forall j :: j in pairs && pairs[j] != -1 ==> pairs[j] < i && Acknowledges(es, j, pairs[j])
  }

  /** Every acknowledgment among the first `i` packets has been paired. */
  ghost predicate PairsComplete(es: seq<Entry>, i: int, pairs: map<int, int>)
    requires forall i :: 0 <= i < |es| ==> es[i].0.tcp.Some?
  {
    forall j, k :: k < i && Acknowledges(es, j, k) ==> j in pairs && pairs[j] == k
  }

  /** `unpaired` maps acknowledgment numbers to packets that carried them and are
      pending when packet `i` arrives, and holds every such packet. */
  ghost predicate PendingSound(es: seq<Entry>, i: int, unpaired: map<int, int>)
    requires forall i :: 0 <= i < |es| ==> es[i].0.tcp.Some?
  {
    forall a :: a in unpaired ==> Pending(es, unpaired[a], i) && AckOf(es, unpaired[a]) == a
  }

  ghost predicate PendingComplete(es: seq<Entry>, i: int, unpaired: map<int, int>)
    requires forall i :: 0 <= i < |es| ==> es[i].0.tcp.Some?
  {
    forall j :: Pending(es, j, i) ==> AckOf(es, j) in unpaired && unpaired[AckOf(es, j)] == j
  }

  /** What pairing knows after the first `i` packets. */
  ghost predicate Paired(es: seq<Entry>, i: int, pairs: map<int, int>, unpaired: map<int, int>)
    requires forall i :: 0 <= i < |es| ==> es[i].0.tcp.Some?
  {
    && 0 <= i <= |es|
    && (forall k :: k in pairs <==> 0 <= k < i)
    && PairsSound(es, i, pairs) && PairsComplete(es, i, pairs)
    && PendingSound(es, i, unpaired) && PendingComplete(es, i, unpaired)
  }

  /** The packet that packet `i` answers, if any: the one pending under its
      sequence number once `i` itself is pending under its acknowledgment number. */
  ghost function Answered(es: seq<Entry>, i: int, unpaired: map<int, int>): Option<int>
    requires forall i :: 0 <= i < |es| ==> es[i].0.tcp.Some?
    requires 0 <= i < |es|
  {
    var u := unpaired[AckOf(es, i) := i];
    var s := SeqOf(es, i);
    if s in u && 0 <= u[s] < |es| && es[u[s]].0.outerSrc != es[i].0.outerSrc then Some(u[s]) else None
  }

  /** One round of pairing for packet `i`: it becomes pending under its own
      acknowledgment number, and is paired with the packet it answers. */
  ghost predicate PairedNext(es: seq<Entry>, i: int, pairs: map<int, int>, unpaired: map<int, int>,
                             pairs': map<int, int>, unpaired': map<int, int>)
    requires forall i :: 0 <= i < |es| ==> es[i].0.tcp.Some?
    requires 0 <= i < |es|
  {
    var u := unpaired[AckOf(es, i) := i];
    match Answered(es, i, unpaired)
    case Some(j) => pairs' == pairs[i := -1][j := i] && unpaired' == u - {SeqOf(es, i)}
    case None => pairs' == pairs[i := -1] && unpaired' == u
  }

  /** The packet `i` answers was pending, so `i` acknowledges it. */
  lemma AnsweredAcknowledges(es: seq<Entry>, i: int, unpaired: map<int, int>)
    requires forall i :: 0 <= i < |es| ==> es[i].0.tcp.Some?
    requires 0 <= i < |es| && PendingSound(es, i, unpaired)
    requires Answered(es, i, unpaired).Some?
    ensures Acknowledges(es, Answered(es, i, unpaired).value, i)
    ensures SeqOf(es, i) != AckOf(es, i)
  {
    var u := unpaired[AckOf(es, i) := i];
    var s := SeqOf(es, i);
    assert u[s] != i;
    assert unpaired[s] == u[s];
  }

  lemma PairsSoundStep(es: seq<Entry>, i: int, pairs: map<int, int>, unpaired: map<int, int>,
                       pairs': map<int, int>, unpaired': map<int, int>)
    requires forall i :: 0 <= i < |es| ==> es[i].0.tcp.Some?
    requires 0 <= i < |es| && PairsSound(es, i, pairs) && PendingSound(es, i, unpaired)
    requires PairedNext(es, i, pairs, unpaired, pairs', unpaired')
    ensures PairsSound(es, i + 1, pairs')
  {
    if Answered(es, i, unpaired).Some? {
      AnsweredAcknowledges(es, i, unpaired);
    }
  }

  lemma PairsCompleteStep(es: seq<Entry>, i: int, pairs: map<int, int>, unpaired: map<int, int>,
                          pairs': map<int, int>, unpaired': map<int, int>)
    requires forall i :: 0 <= i < |es| ==> es[i].0.tcp.Some?
    requires 0 <= i < |es| && PairsComplete(es, i, pairs)
    requires PendingSound(es, i, unpaired) && PendingComplete(es, i, unpaired)
    requires PairedNext(es, i, pairs, unpaired, pairs', unpaired')
    ensures PairsComplete(es, i + 1, pairs')
  {
    forall j, k | k < i + 1 && Acknowledges(es, j, k)
      ensures j in pairs' && pairs'[j] == k
    {
      if k < i {
        // `j` was answered by `k`, so it no longer pends and cannot pair with `i`
        assert !Pending(es, j, i) by { assert Answers(es, j, k); }
      } else {
        assert unpaired[AckOf(es, j)] == j;
      }
    }
  }

  lemma PendingStep(es: seq<Entry>, i: int, pairs: map<int, int>, unpaired: map<int, int>,
                    pairs': map<int, int>, unpaired': map<int, int>)
    requires forall i :: 0 <= i < |es| ==> es[i].0.tcp.Some?
    requires 0 <= i < |es| && PendingSound(es, i, unpaired) && PendingComplete(es, i, unpaired)
    requires PairedNext(es, i, pairs, unpaired, pairs', unpaired')
    ensures PendingSound(es, i + 1, unpaired') && PendingComplete(es, i + 1, unpaired')
  {
    if Answered(es, i, unpaired).Some? {
      AnsweredAcknowledges(es, i, unpaired);
    }
    forall a | a in unpaired'
      ensures Pending(es, unpaired'[a], i + 1) && AckOf(es, unpaired'[a]) == a
    {
      if a != AckOf(es, i) {
        assert unpaired'[a] == unpaired[a];
      }
    }
    forall j | Pending(es, j, i + 1)
      ensures AckOf(es, j) in unpaired' && unpaired'[AckOf(es, j)] == j
    {
      if j < i {
        assert Pending(es, j, i);
      }
    }
  }

  lemma PairedStep(es: seq<Entry>, i: int, pairs: map<int, int>, unpaired: map<int, int>,
                   pairs': map<int, int>, unpaired': map<int, int>)
    requires forall i :: 0 <= i < |es| ==> es[i].0.tcp.Some?
    requires 0 <= i < |es| && Paired(es, i, pairs, unpaired)
    requires PairedNext(es, i, pairs, unpaired, pairs', unpaired')
    ensures Paired(es, i + 1, pairs', unpaired')
  {
    PairsSoundStep(es, i, pairs, unpaired, pairs', unpaired');
    PairsCompleteStep(es, i, pairs, unpaired, pairs', unpaired');
    PendingStep(es, i, pairs, unpaired, pairs', unpaired');
  }

  /** Pairs each packet with the later packet that acknowledges it, -1 when there is
      none. A pending acknowledgment number is forgotten when a later packet carries
      the same one, and once matched. */
  method RttPacketPairs(es: seq<Entry>) returns (pairs: map<int, int>)
    requires forall i :: 0 <= i < |es| ==> es[i].0.tcp.Some?
    ensures forall k :: k in pairs <==> 0 <= k < |es|
    ensures forall j :: j in pairs && pairs[j] != -1 ==> Acknowledges(es, j, pairs[j])
    ensures forall j, k :: Acknowledges(es, j, k) ==> j in pairs && pairs[j] == k
    ensures forall j1, j2 :: j1 in pairs && j2 in pairs && j1 != j2 && pairs[j1] != -1 ==> pairs[j1] != pairs[j2]
  {
    pairs := map[];
    // maps each pending acknowledgment number to the packet that carried it
    var unpaired: map<int, int> := map[];
    for i := 0 to |es|
      invariant Paired(es, i, pairs, unpaired)
    {
      ghost var pairs0, unpaired0 := pairs, unpaired;
      pairs := pairs[i := -1];
      var pkt := es[i].0;
      unpaired := unpaired[pkt.tcp.value.ackNum := i];
      var seeking := pkt.tcp.value.seqNum;
      if seeking in unpaired {
        var j := unpaired[seeking];
        if es[j].0.outerSrc == pkt.outerSrc {
          // sent in the same direction: not an acknowledgment
          PairedStep(es, i, pairs0, unpaired0, pairs, unpaired);
          continue;
        }
        pairs := pairs[j := i];
        unpaired := unpaired - {seeking};
      }
      PairedStep(es, i, pairs0, unpaired0, pairs, unpaired);
    }
  }
}

/** End-to-end runs of a flow over short packet sequences. */
module FlowScenarios {
  import opened Wrappers
  import opened Packets
  import opened Flows

  const HostA: Endpoint := ("10.0.0.1", 1000)
  const HostB: Endpoint := ("10.0.0.2", 80)

  function TcpPacket(time: real, src: Endpoint, dst: Endpoint, flags: bv16): (p: Packet)
    ensures Carries(p, TCP) && Routable(p) && SrcOf(p) == src && DstOf(p) == dst
  {
    Packet(time, src.0, Some(NetHeader(src.0, dst.0)), None,
           Some(TcpHeader(src.1, dst.1, flags, 0, 0)), None, 60, 40)
  }

  /** SYN, SYN+ACK, ACK, then a FIN from A answered by FIN+ACK from B: the flow is Finished. */
  method GracefulClose() returns (state: FlowState, finish: int)
    ensures state == Finished && finish == 2
  {
    var f := new Flow(TcpPacket(0.0, HostA, HostB, SYN));
    f.AddPacket(TcpPacket(0.1, HostB, HostA, SYN | ACK));
    f.AddPacket(TcpPacket(0.2, HostA, HostB, ACK));
    f.AddPacket(TcpPacket(5.0, HostA, HostB, FIN));
    f.AddPacket(TcpPacket(5.1, HostB, HostA, FIN | ACK));
    state := f.State();
    finish := f.finishState;
  }

  /** A RST in the middle of a flow outweighs the FIN exchange that follows it. */
  method ResetThenClose() returns (state: FlowState)
    ensures state == Reset
  {
    var f := new Flow(TcpPacket(0.0, HostA, HostB, SYN));
    f.AddPacket(TcpPacket(0.1, HostB, HostA, SYN | ACK));
    f.AddPacket(TcpPacket(1.0, HostB, HostA, RST));
    f.AddPacket(TcpPacket(2.0, HostA, HostB, FIN));
    f.AddPacket(TcpPacket(2.1, HostB, HostA, FIN | ACK));
    state := f.State();
  }

  /** A second FIN from the side that sent the first one does not complete the close. */
  method SameSideFin() returns (state: FlowState, finish: int)
    ensures state == Ongoing && finish == 1
  {
    var f := new Flow(TcpPacket(0.0, HostA, HostB, ACK));
    f.AddPacket(TcpPacket(1.0, HostA, HostB, FIN));
    f.AddPacket(TcpPacket(2.0, HostA, HostB, FIN | ACK));
    state := f.State();
    finish := f.finishState;
  }

  /** An idle gap of 100 minutes makes a flow invalid. */
  method IdleGap() returns (valid: bool)
    ensures !valid
  {
    var f := new Flow(TcpPacket(0.0, HostA, HostB, ACK));
    f.AddPacket(TcpPacket(6000.0, HostB, HostA, ACK));
    valid := f.IsValid();
  }
}
