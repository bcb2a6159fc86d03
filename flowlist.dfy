/** The registry of flows: each flow is filed under both orders of its endpoint
    pair, per transport protocol, so a packet travelling in either direction finds it. */
module FlowTable {
  import opened Wrappers
  import opened Packets
  import opened Flows

  /** `nodes` joins `a` and `b`, in either order. */
  predicate Joins(nodes: seq<Endpoint>, a: Endpoint, b: Endpoint) {
    nodes == [a, b] || nodes == [b, a]
  }

  /** The other transport protocol. */
  function Other(t: Proto): (r: Proto)
    ensures r != t
  {
    if t.TCP? then UDP else TCP
  }

  /** The number of packets the registry can route: those with both a network and a
      transport header. */
  function RoutableCount(ps: seq<Packet>): int {
    if ps == [] then 0 else RoutableCount(AllButLast(ps)) + (if Routable(Last(ps)) then 1 else 0)
  }

  /** The packets of a capture that the registry can route, with their multiplicities:
      there are as many as it counts. */
  function RoutablePackets(ps: seq<Packet>): (r: multiset<Packet>)
    ensures |r| == RoutableCount(ps)
  {
    if ps == [] then multiset{}
    else
      var pre := AllButLast(ps);
      RoutablePackets(pre) + (if Routable(Last(ps)) then multiset{Last(ps)} else multiset{})
  }

  /** Every packet counted as routable is one of the capture's and has a flow key. */
  lemma {:induction false} RoutablePacketsAreRoutable(ps: seq<Packet>)
    ensures forall q :: q in RoutablePackets(ps) ==> q in ps && Routable(q)
  {
    if ps != [] {
      RoutablePacketsAreRoutable(AllButLast(ps));
      assert forall q :: q in AllButLast(ps) ==> q in ps;
    }
  }

  /** One more packet adds itself to the routable ones exactly when it is routable. */
  lemma RoutablePacketsStep(ps: seq<Packet>, i: int)
    requires 0 <= i < |ps|
    ensures Routable(ps[i]) ==> RoutablePackets(ps[..i + 1]) == RoutablePackets(ps[..i]) + multiset{ps[i]}
    ensures !Routable(ps[i]) ==> RoutablePackets(ps[..i + 1]) == RoutablePackets(ps[..i])
  {
    assert AllButLast(ps[..i + 1]) == ps[..i] && Last(ps[..i + 1]) == ps[i];
  }

  /** The bytes carried by a list of flows: the sizes of all their packets. */
  ghost function CarriedBytes(fs: seq<Flow>): int
    reads fs
  {
    if fs == [] then 0 else CarriedBytes(AllButLast(fs)) + SumSize(Last(fs).packets)
  }

  // ---------------------------------------------------------------------------
  // Holdings: the packets a list of flows holds, by their recorded histories
  // ---------------------------------------------------------------------------

  /** The packets of a history. */
  function PacketsOf(es: seq<Entry>): (r: multiset<Packet>)
    ensures |r| == |es|
    ensures forall i :: 0 <= i < |es| ==> es[i].0 in r
  {
    if es == [] then multiset{} else PacketsOf(AllButLast(es)) + multiset{Last(es).0}
  }

  /** One more entry adds its packet. */
  lemma PacketsOfAppend(es: seq<Entry>, e: Entry)
    ensures PacketsOf(es + [e]) == PacketsOf(es) + multiset{e.0}
  {
    assert AllButLast(es + [e]) == es;
  }

  /** The packets `hist` records for the flows of a list; a flow without a record
      holds nothing. */
  function HeldIn(fs: seq<Flow>, hist: map<Flow, seq<Entry>>): multiset<Packet> {
    if fs == [] then multiset{}
    else HeldIn(AllButLast(fs), hist) + (if Last(fs) in hist then PacketsOf(hist[Last(fs)]) else multiset{})
  }

  /** Recording a history for a flow the list does not hold changes nothing. */
  lemma {:induction false} HeldUntouched(fs: seq<Flow>, hist: map<Flow, seq<Entry>>, g: Flow, h: seq<Entry>)
    requires g !in fs
    ensures HeldIn(fs, hist[g := h]) == HeldIn(fs, hist)
  {
    if fs != [] {
      assert g !in AllButLast(fs) by {
        assert forall f :: f in AllButLast(fs) ==> f in fs;
      }
      HeldUntouched(AllButLast(fs), hist, g, h);
    }
  }

  /** Listing a new flow with history `h` adds the packets of `h`. */
  lemma HeldAppend(fs: seq<Flow>, hist: map<Flow, seq<Entry>>, f: Flow, h: seq<Entry>)
    requires f !in fs
    ensures HeldIn(fs + [f], hist[f := h]) == HeldIn(fs, hist) + PacketsOf(h)
  {
    assert AllButLast(fs + [f]) == fs;
    HeldUntouched(fs, hist, f, h);
  }

  /** One more entry in the history of a flow listed once adds its packet once. */
  lemma {:induction false} HeldBump(fs: seq<Flow>, hist: map<Flow, seq<Entry>>, f: Flow, e: Entry, after: map<Flow, seq<Entry>>)
    requires Occurrences(fs, f) == 1 && f in hist
    requires after == hist[f := hist[f] + [e]]
    ensures HeldIn(fs, after) == HeldIn(fs, hist) + multiset{e.0}
  {
    var pre, g := AllButLast(fs), Last(fs);
    var own := if g in hist then PacketsOf(hist[g]) else multiset{};
    var own' := if g in after then PacketsOf(after[g]) else multiset{};
    assert HeldIn(fs, hist) == HeldIn(pre, hist) + own;
    assert HeldIn(fs, after) == HeldIn(pre, after) + own';
    if g == f {
      Unlisted(pre, f);
      HeldUntouched(pre, hist, f, hist[f] + [e]);
      PacketsOfAppend(hist[f], e);
      UnionShift(HeldIn(pre, hist), own, multiset{e.0}, own');
    } else {
      HeldBump(pre, hist, f, e, after);
      assert own' == own;
      UnionSwap(HeldIn(pre, hist), multiset{e.0}, own);
    }
  }

  /** Adding `c` after `b` is adding both at once. */
  lemma UnionShift<T>(a: multiset<T>, b: multiset<T>, c: multiset<T>, bc: multiset<T>)
    requires bc == b + c
    ensures a + bc == (a + b) + c
  {
  }

  /** The order in which two multisets are added does not matter. */
  lemma UnionSwap<T>(a: multiset<T>, b: multiset<T>, c: multiset<T>)
    ensures (a + b) + c == (a + c) + b
  {
  }

  /** An empty multiset that gains `x` holds `x` alone. */
  lemma GainedFirst<T>(a: multiset<T>, b: multiset<T>, x: T)
    requires a == multiset{} && b == a + multiset{x}
    ensures b == multiset{x}
  {
  }

  /** A multiset holding `x` alone that gains `y` holds the two. */
  lemma GainedSecond<T>(a: multiset<T>, b: multiset<T>, x: T, y: T)
    requires a == multiset{x} && b == a + multiset{y}
    ensures b == multiset{x, y}
  {
  }

  /** A flow listed no times is not in the list. */
  lemma {:induction false} Unlisted(fs: seq<Flow>, f: Flow)
    requires Occurrences(fs, f) == 0
    ensures f !in fs
  {
    if fs != [] {
      Unlisted(AllButLast(fs), f);
      assert fs == AllButLast(fs) + [Last(fs)];
    }
  }

  /** How many times `f` is listed in `fs`. */
  function Occurrences(fs: seq<Flow>, f: Flow): nat {
    if fs == [] then 0 else Occurrences(AllButLast(fs), f) + (if Last(fs) == f then 1 else 0)
  }

  /** A flow not in the list is listed no times. */
  lemma {:induction false} NotListed(fs: seq<Flow>, f: Flow)
    requires f !in fs
    ensures Occurrences(fs, f) == 0
  {
    if fs != [] {
      assert f !in AllButLast(fs) by {
        assert forall g :: g in AllButLast(fs) ==> g in fs;
      }
      NotListed(AllButLast(fs), f);
    }
  }

  /** A flow listed once sits at exactly one position. */
  lemma {:induction false} ListedOnce(fs: seq<Flow>, i: int, j: int)
    requires 0 <= i < |fs| && 0 <= j < |fs| && fs[i] == fs[j]
    requires Occurrences(fs, fs[i]) == 1
    ensures i == j
  {
    var pre := AllButLast(fs);
    if i < |pre| && j < |pre| {
      if Last(fs) == fs[i] {
        Listed(pre, i);
      } else {
        assert pre[i] == fs[i] && pre[j] == fs[j];
        ListedOnce(pre, i, j);
      }
    } else if i < |pre| {
      Listed(pre, i);
    } else if j < |pre| {
      Listed(pre, j);
    }
  }

  /** A flow at some position is listed at least once. */
  lemma {:induction false} Listed(fs: seq<Flow>, i: int)
    requires 0 <= i < |fs|
    ensures Occurrences(fs, fs[i]) >= 1
  {
    if i < |fs| - 1 {
      assert AllButLast(fs)[i] == fs[i];
      Listed(AllButLast(fs), i);
    }
  }

  // ---------------------------------------------------------------------------
  // One protocol's index
  // ---------------------------------------------------------------------------

  type Index = map<Endpoint, map<Endpoint, Flow>>

  /** The flow filed under `a` then `b` in one protocol's index, if any. */
  function FindIn(index: Index, a: Endpoint, b: Endpoint): Option<Flow> {
    if a in index && b in index[a] then Some(index[a][b]) else None
  }

  /** The index after `f` is filed under [n0][n1] and then [n1][n0], creating the
      inner dictionaries that are missing. */
  function File(index: Index, n0: Endpoint, n1: Endpoint, f: Flow): (r: Index)
    ensures forall a, b ::
      FindIn(r, a, b) == if (a == n0 && b == n1) || (a == n1 && b == n0) then Some(f) else FindIn(index, a, b)
  {
    var step := if n0 !in index then index[n0 := map[n1 := f]] else index[n0 := index[n0][n1 := f]];
    if n1 !in step then step[n1 := map[n0 := f]] else step[n1 := step[n1][n0 := f]]
  }

  /** An index agrees with a list of flows: every filed flow is in the list, joins the
      endpoints it is filed under and is filed under the reverse order too; every
      listed flow is filed under its own endpoints; the list has no repeats. */
  ghost predicate Registry(index: Index, fs: seq<Flow>) {
    && (forall a, b :: FindIn(index, a, b).Some? ==>
          && FindIn(index, a, b).value in fs
          && Joins(FindIn(index, a, b).value.nodes, a, b)
          && FindIn(index, b, a) == FindIn(index, a, b))
    && (forall i :: 0 <= i < |fs| ==> |fs[i].nodes| == 2 && FindIn(index, fs[i].nodes[0], fs[i].nodes[1]) == Some(fs[i]))
    && (forall i :: 0 <= i < |fs| ==> Occurrences(fs, fs[i]) == 1)
  }

  /** Filing a flow whose endpoints are not yet filed keeps the index in agreement
      with the list extended by that flow. */
  lemma FilePreservesRegistry(index: Index, fs: seq<Flow>, f: Flow)
    requires Registry(index, fs) && f !in fs && |f.nodes| == 2
    requires FindIn(index, f.nodes[0], f.nodes[1]).None?
    ensures Registry(File(index, f.nodes[0], f.nodes[1], f), fs + [f])
  {
    var r := File(index, f.nodes[0], f.nodes[1], f);
    var fs' := fs + [f];
    assert AllButLast(fs') == fs;
    NotListed(fs, f);
    forall i | 0 <= i < |fs'|
      ensures |fs'[i].nodes| == 2 && FindIn(r, fs'[i].nodes[0], fs'[i].nodes[1]) == Some(fs'[i])
      ensures Occurrences(fs', fs'[i]) == 1
    {
      if i < |fs| {
        var g := fs[i];
        assert FindIn(index, g.nodes[0], g.nodes[1]) == Some(g);
        assert FindIn(index, g.nodes[1], g.nodes[0]) == Some(g);
        assert Occurrences(fs, g) == 1;
      }
    }
  }

  /** The three entries one protocol has in the registry's dictionaries: its index,
      its count and its list of flows in creation order. */
  datatype Bucket = Bucket(index: Index, count: int, listed: seq<Flow>)

  /** A protocol's bucket is consistent: the count is the list's length, the index
      agrees with the list, and every listed flow has that protocol and is owned. */
  ghost predicate BucketOk(b: Bucket, t: Proto, repr: set<Flow>) {
    && b.count == |b.listed|
    && Registry(b.index, b.listed)
    && (forall i :: 0 <= i < |b.listed| ==> b.listed[i].proto == t && b.listed[i] in repr)
  }

  /** The bucket after a new flow is counted, listed and filed. */
  function Filed(b: Bucket, flow: Flow): Bucket
    requires |flow.nodes| == 2
  {
    Bucket(File(b.index, flow.nodes[0], flow.nodes[1], flow), b.count + 1, b.listed + [flow])
  }

  lemma FiledOk(b: Bucket, t: Proto, repr: set<Flow>, flow: Flow, c: Bucket)
    requires BucketOk(b, t, repr) && |flow.nodes| == 2 && flow.proto == t && flow !in repr
    requires FindIn(b.index, flow.nodes[0], flow.nodes[1]).None?
    requires c == Filed(b, flow)
    ensures BucketOk(c, t, repr + {flow})
  {
    FilePreservesRegistry(b.index, b.listed, flow);
  }

  /** Owning more flows keeps a bucket consistent. */
  lemma BucketGrows(b: Bucket, t: Proto, repr: set<Flow>, more: set<Flow>, c: Bucket)
    requires BucketOk(b, t, repr) && repr <= more && c == b
    ensures BucketOk(c, t, more)
  {
  }

  /** After a flow is filed, it is found under both orders of its endpoints and every
      other lookup is as before. */
  lemma FiledFinds(b: Bucket, flow: Flow, x: Endpoint, y: Endpoint)
    requires |flow.nodes| == 2
    ensures FindIn(Filed(b, flow).index, x, y) == if Joins(flow.nodes, x, y) then Some(flow) else FindIn(b.index, x, y)
  {
    var n := flow.nodes;
    assert n == [n[0], n[1]];
    assert Joins(n, x, y) <==> (x == n[0] && y == n[1]) || (x == n[1] && y == n[0]);
  }

  /** No two listed flows of one protocol join the same pair of endpoints, in either
      order. */
  lemma OneFlowPerPair(b: Bucket, t: Proto, repr: set<Flow>, i: int, j: int)
    requires BucketOk(b, t, repr)
    requires 0 <= i < |b.listed| && 0 <= j < |b.listed|
    requires |b.listed[i].nodes| == 2
    requires Joins(b.listed[j].nodes, b.listed[i].nodes[0], b.listed[i].nodes[1])
    ensures i == j
  {
    var index, fs := b.index, b.listed;
    var x, y := fs[i].nodes[0], fs[i].nodes[1];
    assert FindIn(index, x, y) == Some(fs[i]);
    assert FindIn(index, fs[j].nodes[0], fs[j].nodes[1]) == Some(fs[j]);
    if fs[j].nodes == [y, x] {
      assert FindIn(index, y, x) == FindIn(index, x, y);
    }
    ListedOnce(fs, i, j);
  }

  /** The packets a bucket's flows hold, by their recorded histories. */
  ghost function HeldOf(b: Bucket, hist: map<Flow, seq<Entry>>): multiset<Packet> {
    HeldIn(b.listed, hist)
  }

  /** Filing a new flow with history `h` adds the packets of `h`. */
  lemma FiledHeld(b: Bucket, hist: map<Flow, seq<Entry>>, flow: Flow, h: seq<Entry>)
    requires |flow.nodes| == 2 && flow !in b.listed
    ensures HeldOf(Filed(b, flow), hist[flow := h]) == HeldOf(b, hist) + PacketsOf(h)
  {
    HeldAppend(b.listed, hist, flow, h);
  }

  /** Recording a history for a flow the bucket does not list leaves its holdings alone. */
  lemma UntouchedHeld(b: Bucket, hist: map<Flow, seq<Entry>>, g: Flow, h: seq<Entry>, after: map<Flow, seq<Entry>>)
    requires g !in b.listed && after == hist[g := h]
    ensures HeldOf(b, after) == HeldOf(b, hist)
  {
    HeldUntouched(b.listed, hist, g, h);
  }

  /** One more entry in the history of a listed flow adds its packet to the holdings. */
  lemma BumpHeld(b: Bucket, t: Proto, repr: set<Flow>, hist: map<Flow, seq<Entry>>, k: int, e: Entry, after: map<Flow, seq<Entry>>)
    requires BucketOk(b, t, repr)
    requires 0 <= k < |b.listed| && b.listed[k] in hist
    requires after == hist[b.listed[k] := hist[b.listed[k]] + [e]]
    ensures HeldOf(b, after) == HeldOf(b, hist) + multiset{e.0}
  {
    HeldBump(b.listed, hist, b.listed[k], e, after);
  }

  // ---------------------------------------------------------------------------
  // The registry object
  // ---------------------------------------------------------------------------

  /** Every packet of a flow belongs there: it has a flow key of the flow's protocol
      and travels between the flow's endpoints, in one direction or the other. */
  ghost predicate Homed(v: FlowView) {
    forall i :: 0 <= i < |v.packets| ==>
      var p := v.packets[i].0;
      Routable(p) && ProtoOf(p) == v.proto && Joins(v.nodes, SrcOf(p), DstOf(p))
  }

  /** A flow made from one packet, between that packet's endpoints, is homed. */
  lemma HomedSingle(v: FlowView, p: Packet)
    requires Routable(p) && v.packets == [(p, 0.0)]
    requires v.nodes == [SrcOf(p), DstOf(p)] && v.proto == ProtoOf(p)
    ensures Homed(v)
  {
  }

  /** Adding a packet of the flow's protocol between its endpoints keeps it homed. */
  lemma HomedAdded(v: FlowView, p: Packet)
    requires Homed(v) && |v.nodes| == 2 && Carries(p, v.proto)
    requires Routable(p) && ProtoOf(p) == v.proto && Joins(v.nodes, SrcOf(p), DstOf(p))
    ensures Homed(Added(v, p))
  {
    var w := Added(v, p);
    forall i | 0 <= i < |w.packets|
      ensures var q := w.packets[i].0; Routable(q) && ProtoOf(q) == w.proto && Joins(w.nodes, SrcOf(q), DstOf(q))
    {
      if i < |v.packets| {
        assert w.packets[i] == v.packets[i];
      }
    }
  }


  /** Every flow in `repr` is well formed, holds only its own packets, and `hist`
      records its history. */
  ghost predicate Tracked(repr: set<Flow>, hist: map<Flow, seq<Entry>>)
    reads repr
  {
    forall f {:trigger f.Valid()} :: f in repr ==> f.Valid() && Homed(f.View()) && f in hist && hist[f] == f.packets
  }

  /** A new well-formed flow, recorded with its history, keeps the flows tracked. */
  lemma TrackedAdd(repr: set<Flow>, hist: map<Flow, seq<Entry>>, flow: Flow)
    requires Tracked(repr, hist) && flow.Valid() && Homed(flow.View())
    ensures Tracked(repr + {flow}, hist[flow := flow.packets])
  {
    forall f | f in repr + {flow}
      ensures f.Valid() && Homed(f.View()) && f in hist[flow := flow.packets] && hist[flow := flow.packets][f] == f.packets
    {
      if f != flow {
        assert f in repr;
      }
    }
  }

  /** Leaving one flow out keeps the others tracked. */
  lemma TrackedRemove(repr: set<Flow>, hist: map<Flow, seq<Entry>>, flow: Flow)
    requires Tracked(repr, hist)
    ensures Tracked(repr - {flow}, hist)
  {
    forall f | f in repr - {flow} ensures f.Valid() && Homed(f.View()) && f in hist && hist[f] == f.packets {
      assert f in repr;
    }
  }

  /** A well-formed flow, recorded with its history, joins the flows tracked beside it. */
  lemma TrackedJoin(repr: set<Flow>, hist: map<Flow, seq<Entry>>, flow: Flow, after: map<Flow, seq<Entry>>)
    requires Tracked(repr - {flow}, hist) && flow.Valid() && Homed(flow.View())
    requires after == hist[flow := flow.packets]
    ensures Tracked(repr, after)
  {
    forall f | f in repr ensures f.Valid() && Homed(f.View()) && f in after && after[f] == f.packets {
      if f != flow {
        assert f in repr - {flow};
      }
    }
  }

  /** Every flow `before` records is still recorded `after`, and its history then
      starts with its history before: packets are only ever added at the end. */
  ghost predicate Extends(before: map<Flow, seq<Entry>>, after: map<Flow, seq<Entry>>) {
    forall f :: f in before ==> f in after && before[f] <= after[f]
  }

  /** Histories that only grow twice have only grown. */
  lemma ExtendsTrans(a: map<Flow, seq<Entry>>, b: map<Flow, seq<Entry>>, c: map<Flow, seq<Entry>>)
    requires Extends(a, b) && Extends(b, c)
    ensures Extends(a, c)
  {
    forall f | f in a ensures f in c && a[f] <= c[f] {
      assert a[f] <= b[f] && b[f] <= c[f];
      assert a[f] == b[f][..|a[f]|] && b[f] == c[f][..|b[f]|];
    }
  }

  /** Histories are extensions of themselves. */
  lemma ExtendsSame(h: map<Flow, seq<Entry>>)
    ensures Extends(h, h)
  {
    forall f | f in h ensures h[f] <= h[f] {
      assert h[f] == h[f][..|h[f]|];
    }
  }

  /** Recording a flow not yet recorded only extends the histories. */
  lemma ExtendsAdd(h: map<Flow, seq<Entry>>, f: Flow, v: seq<Entry>)
    requires f !in h
    ensures Extends(h, h[f := v])
  {
    ExtendsSame(h);
  }

  /** Recording one more entry for a recorded flow only extends the histories. */
  lemma ExtendsAppend(h: map<Flow, seq<Entry>>, f: Flow, e: Entry, v: seq<Entry>)
    requires f in h && v == h[f] + [e]
    ensures Extends(h, h[f := v])
  {
    ExtendsSame(h);
    assert h[f] == v[..|h[f]|];
  }

  class FlowList {
    /** protocol -> endpoint -> endpoint -> flow; each flow is filed under both orders. */
    var flows: map<Proto, map<Endpoint, map<Endpoint, Flow>>>
    var count: map<Proto, int>
    /** The flows of each protocol, in creation order. */
    var uniqueFlows: map<Proto, seq<Flow>>
    ghost var Repr: set<Flow>
    /** The history of each owned flow: its packets in arrival order, with their gaps. */
    ghost var Hist: map<Flow, seq<Entry>>

    /** Both protocols have an entry in each dictionary. */
    ghost predicate Keyed()
      reads this`flows, this`count, this`uniqueFlows
    {
      && TCP in flows && TCP in count && TCP in uniqueFlows
      && UDP in flows && UDP in count && UDP in uniqueFlows
    }

    /** The entries of protocol `t`. */
    function BucketOf(t: Proto): Bucket
      reads this`flows, this`count, this`uniqueFlows
      requires Keyed()
    {
      assert t.TCP? || t.UDP?;
      Bucket(flows[t], count[t], uniqueFlows[t])
    }

    ghost predicate Valid()
      reads this, Repr
    {
      && Keyed()
      && (forall t: Proto :: BucketOk(BucketOf(t), t, Repr))
      && Tracked(Repr, Hist)
    }

    /** The flow filed for protocol `t` under `a` then `b`, if any. */
    ghost function Find(t: Proto, a: Endpoint, b: Endpoint): Option<Flow>
      reads this`flows, this`count, this`uniqueFlows
      requires Keyed()
    {
      FindIn(BucketOf(t).index, a, b)
    }

    /** The flow filed under a packet's source then destination endpoint, when the
        packet has a flow key. */
    ghost function FlowOf(p: Packet): Option<Flow>
      reads this`flows, this`count, this`uniqueFlows
      requires Keyed()
    {
      if Routable(p) then Find(ProtoOf(p), SrcOf(p), DstOf(p)) else None
    }

    /** The packets held by the flows of protocol `t`. */
    ghost function HeldBy(t: Proto): multiset<Packet>
      reads this`flows, this`count, this`uniqueFlows, this`Hist
      requires Keyed()
    {
      HeldOf(BucketOf(t), Hist)
    }

    /** The packets held by all flows. */
    ghost function Held(): multiset<Packet>
      reads this`flows, this`count, this`uniqueFlows, this`Hist
    {
      if Keyed() then HeldBy(TCP) + HeldBy(UDP) else multiset{}
    }

    /** The number of packets held by all flows. */
    ghost function TotalPackets(): int
      reads this`flows, this`count, this`uniqueFlows, this`Hist
    {
      |Held()|
    }

    constructor ()
      ensures Valid()
      ensures forall t: Proto :: BucketOf(t) == Bucket(map[], 0, [])
      ensures Repr == {} && Held() == multiset{}
    {
      flows := map[TCP := map[], UDP := map[]];
      count := map[TCP := 0, UDP := 0];
      uniqueFlows := map[TCP := [], UDP := []];
      Repr := {};
      Hist := map[];
      new;
      forall t: Proto ensures BucketOf(t) == Bucket(map[], 0, []) {
        assert t.TCP? || t.UDP?;
      }
    }

    /** Files a new flow under both orders of its endpoints and counts it, unless a
        flow is already filed under its endpoints; reports whether it was added. */
    method AddFlow(flow: Flow) returns (added: bool)
      requires Valid() && flow.Valid() && Homed(flow.View()) && flow !in Repr
      modifies this
      ensures Valid()
      ensures added <==> old(Find(flow.proto, flow.nodes[0], flow.nodes[1])).None?
      ensures !added ==> unchanged(this)
      ensures added ==> BucketOf(flow.proto) == Filed(old(BucketOf(flow.proto)), flow)
      ensures BucketOf(Other(flow.proto)) == old(BucketOf(Other(flow.proto)))
      ensures added ==> Repr == old(Repr) + {flow} && Hist == old(Hist)[flow := flow.packets]
      ensures added ==> Held() == old(Held()) + PacketsOf(flow.packets)
    {
      var t := flow.proto;
      var n0, n1 := flow.nodes[0], flow.nodes[1];
      if n0 in flows[t] && n1 in flows[t][n0] {
        return false;
      }
      Register(flow);
      return true;
    }

    /** Counts, lists and files a flow whose endpoints are not filed yet. */
    method Register(flow: Flow)
      requires Valid() && flow.Valid() && Homed(flow.View()) && flow !in Repr
      requires Find(flow.proto, flow.nodes[0], flow.nodes[1]).None?
      modifies this
      ensures Valid()
      ensures BucketOf(flow.proto) == Filed(old(BucketOf(flow.proto)), flow)
      ensures BucketOf(Other(flow.proto)) == old(BucketOf(Other(flow.proto)))
      ensures Repr == old(Repr) + {flow} && Hist == old(Hist)[flow := flow.packets]
      ensures Held() == old(Held()) + PacketsOf(flow.packets)
    {
      var t := flow.proto;
      ghost var mine, theirs := BucketOf(t), BucketOf(Other(t));
      ghost var repr, hist := Repr, Hist;
      assert BucketOk(mine, t, repr) && BucketOk(theirs, Other(t), repr);
      ghost var held := Held();
      assert held == HeldOf(mine, hist) + HeldOf(theirs, hist) by {
        TotalSplit(this, t);
      }
      TrackedAdd(repr, hist, flow);
      Install(t, flow);
      Enroll(t, flow, mine, theirs, repr, hist, held);
    }

    /** Files `flow` under its endpoints, counts it and lists it last. */
    method Install(t: Proto, flow: Flow)
      requires Keyed() && |flow.nodes| == 2
      modifies this`count, this`uniqueFlows, this`flows
      ensures Keyed()
      ensures BucketOf(t) == Filed(old(BucketOf(t)), flow)
      ensures BucketOf(Other(t)) == old(BucketOf(Other(t)))
    {
      var n0, n1 := flow.nodes[0], flow.nodes[1];
      count, uniqueFlows, flows :=
        count[t := count[t] + 1], uniqueFlows[t := uniqueFlows[t] + [flow]], flows[t := File(flows[t], n0, n1, flow)];
    }

    /** Takes ownership of a flow just filed in the bucket of `t`, recording its
        history. */
    ghost method Enroll(t: Proto, flow: Flow, mine: Bucket, theirs: Bucket, repr: set<Flow>, hist: map<Flow, seq<Entry>>, held: multiset<Packet>)
      requires Keyed() && flow.proto == t && |flow.nodes| == 2 && flow !in repr
      requires BucketOk(mine, t, repr) && BucketOk(theirs, Other(t), repr)
      requires FindIn(mine.index, flow.nodes[0], flow.nodes[1]).None?
      requires BucketOf(t) == Filed(mine, flow) && BucketOf(Other(t)) == theirs
      requires Tracked(repr + {flow}, hist[flow := flow.packets])
      requires held == HeldOf(mine, hist) + HeldOf(theirs, hist)
      modifies this`Repr, this`Hist
      ensures Repr == repr + {flow} && Hist == hist[flow := flow.packets]
      ensures Valid()
      ensures Held() == held + PacketsOf(flow.packets)
    {
      Repr, Hist := repr + {flow}, hist[flow := flow.packets];
      FiledValid(this, t, mine, theirs, flow, repr, hist);
    }

    /** Builds a flow from a packet and adds it, unless the packet has no flow key or a
        flow is already filed under its endpoints; reports whether it was added. */
    method AddPacket(p: Packet) returns (added: bool)
      requires Valid()
      modifies this
      ensures Valid()
      ensures added <==> Routable(p) && old(FlowOf(p)).None?
      ensures !added ==> unchanged(this)
      ensures added ==> |BucketOf(ProtoOf(p)).listed| > 0
      ensures added ==>
        var t := ProtoOf(p);
        var f := Last(BucketOf(t).listed);
        && fresh(f) && f.nodes == [SrcOf(p), DstOf(p)] && f.packets == [(p, 0.0)]
        && BucketOf(t) == Filed(old(BucketOf(t)), f)
        && BucketOf(Other(t)) == old(BucketOf(Other(t)))
        && Repr == old(Repr) + {f} && Hist == old(Hist)[f := f.packets]
      ensures Extends(old(Hist), Hist)
      ensures added ==> Held() == old(Held()) + multiset{p}
    {
      ghost var hist := Hist;
      ExtendsSame(hist);
      if ParseKey(p).Failure? {
        return false;
      }
      var flow := new Flow(p);
      HomedSingle(flow.View(), p);
      assert PacketsOf(flow.packets) == multiset{p} by {
        assert AllButLast(flow.packets) == [];
      }
      assert flow !in hist;
      added := AddFlow(flow);
      if added {
        ExtendsAdd(hist, flow, flow.packets);
        assert Last(BucketOf(flow.proto).listed) == flow;
      }
    }

    /** Appends a packet to the flow filed under its source then destination endpoint;
        reports false, changing nothing, when the packet has no flow key or no such flow
        is filed. */
    method UpdateFlow(p: Packet) returns (updated: bool)
      requires Valid()
      modifies Repr, this`Hist
      ensures Valid()
      ensures updated <==> old(FlowOf(p)).Some?
      ensures updated ==>
        var f := old(FlowOf(p)).value;
        && f.View() == Added(old(f.View()), p)
        && unchanged(Repr - {f})
        && Hist == old(Hist)[f := f.packets]
      ensures !updated ==> unchanged(Repr) && Hist == old(Hist)
      ensures Extends(old(Hist), Hist)
      ensures updated ==> Held() == old(Held()) + multiset{p}
    {
      if ParseKey(p).Failure? {
        return false;
      }
      var key := ParseKey(p).value;
      var t := key.proto;
      var cur := flows[t];
      if !(key.src in cur && key.dst in cur[key.src]) {
        return false;
      }
      var flow: Flow := cur[key.src][key.dst];
      assert FindIn(BucketOf(t).index, key.src, key.dst) == Some(flow);
      FoundListed(this, t, flow, key.src, key.dst);
      Append(t, flow, p);
      return true;
    }

    /** Appends a packet to a listed flow of protocol `t`, recording the flow's new
        history: the registry stays consistent and holds that packet too. */
    method Append(t: Proto, flow: Flow, p: Packet)
      requires Valid() && flow in BucketOf(t).listed && Carries(p, t)
      requires Routable(p) && ProtoOf(p) == t && Joins(flow.nodes, SrcOf(p), DstOf(p))
      modifies Repr, this`Hist
      ensures Valid()
      ensures flow.View() == Added(old(flow.View()), p)
      ensures unchanged(Repr - {flow})
      ensures Hist == old(Hist)[flow := flow.packets] && Extends(old(Hist), Hist)
      ensures Held() == old(Held()) + multiset{p}
    {
      ghost var hist, v := Hist, flow.View();
      ListedFacts(this, t, flow);
      flow.AddPacket(p);
      HomedAdded(v, p);
      assert flow.packets == hist[flow] + [Last(flow.packets)] && Last(flow.packets).0 == p by {
        assert flow.packets == flow.View().packets && v.packets == hist[flow];
      }
      Recount(t, flow, hist);
    }

    /** Records the new history of the listed flow `flow`, which has just gained one
        entry while no other flow changed. */
    ghost method Recount(t: Proto, flow: Flow, hist: map<Flow, seq<Entry>>)
      requires Keyed() && flow in BucketOf(t).listed
      requires BucketOk(BucketOf(t), t, Repr) && BucketOk(BucketOf(Other(t)), Other(t), Repr)
      requires Hist == hist && Tracked(Repr - {flow}, hist)
      requires flow in hist && flow.Valid() && Homed(flow.View())
      requires |flow.packets| > 0 && flow.packets == hist[flow] + [Last(flow.packets)]
      modifies this`Hist
      ensures Valid()
      ensures Hist == hist[flow := flow.packets] && Extends(hist, Hist)
      ensures Held() == HeldOf(BucketOf(t), hist) + HeldOf(BucketOf(Other(t)), hist) + multiset{Last(flow.packets).0}
    {
      ghost var b, theirs := BucketOf(t), BucketOf(Other(t));
      Hist := hist[flow := flow.packets];
      AppendedValid(this, t, flow, b, theirs, hist);
      ExtendsAppend(hist, flow, Last(flow.packets), flow.packets);
    }

    /** One step of populating: a TCP or UDP packet goes to a new flow when none is
        filed under its endpoints and to the filed flow otherwise; reports whether the
        packet was taken, which is exactly when it has a flow key. */
    method Route(p: Packet) returns (routed: bool)
      requires Valid()
      modifies this, Repr
      ensures Valid()
      ensures routed <==> Routable(p)
      ensures routed && old(FlowOf(p)).Some? ==>
        var f := old(FlowOf(p)).value;
        && f.View() == Added(old(f.View()), p)
        && unchanged(old(Repr) - {f})
        && (forall t: Proto :: BucketOf(t) == old(BucketOf(t)))
        && Repr == old(Repr)
      ensures routed && old(FlowOf(p)).None? ==>
        var t := ProtoOf(p);
        && |BucketOf(t).listed| > 0
        && var f := Last(BucketOf(t).listed);
        && fresh(f) && f.nodes == [SrcOf(p), DstOf(p)] && f.packets == [(p, 0.0)]
        && BucketOf(t) == Filed(old(BucketOf(t)), f)
        && BucketOf(Other(t)) == old(BucketOf(Other(t)))
        && Repr == old(Repr) + {f}
      ensures !routed ==> unchanged(this) && unchanged(Repr)
      ensures Extends(old(Hist), Hist)
      ensures routed ==> Held() == old(Held()) + multiset{p}
      ensures old(Repr) <= Repr && fresh(Repr - old(Repr))
    {
      routed := false;
      if p.tcp.Some? || p.udp.Some? {
        routed := AddPacket(p);
        label tried:
        if !routed {
          // nothing changed, so the packet's flow, if it has a key, is already filed
          assert FlowOf(p) == old(FlowOf(p)) && (Routable(p) ==> FlowOf(p).Some?);
          routed := UpdateFlow(p);
          if routed {
            ghost var f := old(FlowOf(p)).value;
            assert old@tried(f.View()) == old(f.View());
          }
        }
      }
    }

    /** Routes every TCP or UDP packet, in order, to a new flow or to the flow already
        filed under its endpoints: the registry comes to hold exactly the packets that
        have a flow key, on top of what it held, the others are skipped, and a flow
        that was there before only gains packets at the end of its list. */
    /** The list is valid, holds the packets `base` and the routable ones among the first
        `i` of `ps`, and every flow of `hist` has kept its history there as a prefix. */
    ghost predicate Populating(base: multiset<Packet>, hist: map<Flow, seq<Entry>>, ps: seq<Packet>, i: int)
      reads this, Repr
    {
      && Valid()
      && 0 <= i <= |ps|
      && Held() == base + RoutablePackets(ps[..i])
      && Extends(hist, Hist)
    }

    /** Routes the `i`-th packet of a capture, one step of `Populate`. */
    method RouteNext(ps: seq<Packet>, i: int, ghost base: multiset<Packet>, ghost hist: map<Flow, seq<Entry>>)
      requires Populating(base, hist, ps, i) && i < |ps|
      modifies this, Repr
      ensures Populating(base, hist, ps, i + 1)
      ensures old(Repr) <= Repr && fresh(Repr - old(Repr))
    {
      ghost var now := Hist;
      var routed := Route(ps[i]);
      ExtendsTrans(hist, now, Hist);
      RoutablePacketsStep(ps, i);
      if routed {
        UnionShift(base, RoutablePackets(ps[..i]), multiset{ps[i]}, RoutablePackets(ps[..i + 1]));
      }
    }

    method Populate(ps: seq<Packet>)
      requires Valid()
      modifies this, Repr
      ensures Valid()
      ensures Held() == old(Held()) + RoutablePackets(ps)
      ensures TotalPackets() == old(TotalPackets()) + RoutableCount(ps)
      ensures forall f :: f in old(Repr) ==> f in Repr && old(f.packets) <= f.packets
      ensures fresh(Repr - old(Repr))
    {
      var i := 0;
      ghost var base, hist := Held(), Hist;
      assert RoutablePackets(ps[..0]) == multiset{} by { assert ps[..0] == []; }
      while i < |ps|
        invariant Populating(base, hist, ps, i)
        invariant old(Repr) <= Repr && fresh(Repr - old(Repr))
      {
        RouteNext(ps, i, base, hist);
        i := i + 1;
      }
      assert ps[..i] == ps;
      forall f | f in old(Repr) ensures f in Repr && old(f.packets) <= f.packets {
        assert old(f.Valid()) && f in old(Hist) && f.Valid();
      }
    }

    /** The bytes carried by the flows of protocol `t`. */
    method GetTotalBytes(t: Proto) returns (total: int)
      requires Valid()
      ensures total == CarriedBytes(BucketOf(t).listed)
    {
      var fs := uniqueFlows[t];
      assert fs == BucketOf(t).listed;
      ListedSizes(this, t);
      total := 0;
      var i := 0;
      while i < |fs|
        invariant 0 <= i <= |fs|
        invariant total == CarriedBytes(fs[..i])
      {
        assert AllButLast(fs[..i + 1]) == fs[..i];
        total := total + fs[i].totalSize;
        i := i + 1;
      }
      assert fs[..i] == fs;
    }
  }

  /** Every packet held by a listed flow of a consistent registry has a flow key of
      that flow's protocol and travels between the flow's endpoints: populating files
      each packet with the flow of its own endpoint pair. */
  lemma PacketsHomed(l: FlowList, t: Proto, i: int, k: int)
    requires l.Valid() && 0 <= i < |l.BucketOf(t).listed|
    requires 0 <= k < |l.BucketOf(t).listed[i].packets|
    ensures var f := l.BucketOf(t).listed[i];
      var p := f.packets[k].0;
      && Routable(p) && ProtoOf(p) == t && f.proto == t
      && Joins(f.nodes, SrcOf(p), DstOf(p))
  {
    var f := l.BucketOf(t).listed[i];
    ListedFacts(l, t, f);
    assert f.packets == f.View().packets;
  }

  /** Each listed flow of a consistent registry knows the bytes its packets carry. */
  lemma ListedSizes(l: FlowList, t: Proto)
    requires l.Valid()
    ensures forall i :: 0 <= i < |l.BucketOf(t).listed| ==>
      l.BucketOf(t).listed[i].totalSize == SumSize(l.BucketOf(t).listed[i].packets)
  {
    forall i | 0 <= i < |l.BucketOf(t).listed|
      ensures l.BucketOf(t).listed[i].totalSize == SumSize(l.BucketOf(t).listed[i].packets)
    {
      ListedFacts(l, t, l.BucketOf(t).listed[i]);
    }
  }

  /** A flow found in a consistent registry is listed in its protocol's bucket and is
      well formed. */
  lemma FoundListed(l: FlowList, t: Proto, f: Flow, x: Endpoint, y: Endpoint)
    requires l.Valid() && FindIn(l.BucketOf(t).index, x, y) == Some(f)
    ensures f in l.BucketOf(t).listed && Joins(f.nodes, x, y)
  {
    assert BucketOk(l.BucketOf(t), t, l.Repr);
  }

  /** What a consistent registry knows of one of its listed flows: the flow is well
      formed and tracked, and the others stay tracked without it. */
  lemma ListedFacts(l: FlowList, t: Proto, f: Flow)
    requires l.Valid() && f in l.BucketOf(t).listed
    ensures BucketOk(l.BucketOf(t), t, l.Repr) && BucketOk(l.BucketOf(Other(t)), Other(t), l.Repr)
    ensures f.proto == t && f.Valid() && Homed(f.View()) && f in l.Hist && l.Hist[f] == f.packets
    ensures Tracked(l.Repr - {f}, l.Hist)
    ensures l.Held() == HeldOf(l.BucketOf(t), l.Hist) + HeldOf(l.BucketOf(Other(t)), l.Hist)
  {
    assert BucketOk(l.BucketOf(t), t, l.Repr) && BucketOk(l.BucketOf(Other(t)), Other(t), l.Repr);
    assert f in l.Repr;
    TrackedRemove(l.Repr, l.Hist, f);
    TotalSplit(l, t);
  }

  /** The packets of a registry are those of its `t` flows and of its other flows. */
  lemma TotalSplit(l: FlowList, t: Proto)
    requires l.Keyed()
    ensures l.Held() == l.HeldBy(t) + l.HeldBy(Other(t))
  {
    if t == UDP {
      assert Other(t) == TCP;
    }
  }

  /** A consistent registry finds the same flow for a pair of endpoints in either
      order, so a reply joins the flow its request opened. */
  lemma FindSymmetric(l: FlowList, t: Proto, a: Endpoint, b: Endpoint)
    requires l.Valid()
    ensures l.Find(t, a, b) == l.Find(t, b, a)
  {
    var index := l.BucketOf(t).index;
    assert BucketOk(l.BucketOf(t), t, l.Repr);
    assert Registry(index, l.BucketOf(t).listed);
    if FindIn(index, b, a).Some? {
      assert FindIn(index, a, b) == FindIn(index, b, a);
    }
  }

  /** A first packet with a flow key, given to an empty registry, opens the one flow
      there is, holding that packet and filed under both orders of its endpoints. */
  method OpenFlow(p: Packet) returns (l: FlowList, first: bool)
    requires Routable(p)
    ensures first && fresh(l) && fresh(l.Repr) && l.Valid()
    ensures |l.BucketOf(ProtoOf(p)).listed| == 1 && l.Held() == multiset{p}
    ensures |l.BucketOf(ProtoOf(p)).listed[0].packets| == 1
    ensures l.Find(ProtoOf(p), DstOf(p), SrcOf(p)) == Some(l.BucketOf(ProtoOf(p)).listed[0])
  {
    var t := ProtoOf(p);
    l := new FlowList();
    ghost var empty, held := l.BucketOf(t), l.Held();
    first := l.AddPacket(p);
    GainedFirst(held, l.Held(), p);
    FiledFinds(empty, l.BucketOf(t).listed[0], DstOf(p), SrcOf(p));
  }

  /** A request and its reply, starting from an empty registry: the request opens a
      flow, and routing the reply appends it to the request's flow instead of opening
      another, so the registry ends with one flow holding both packets. */
  method RequestAndReply(p: Packet, q: Packet) returns (l: FlowList, first: bool, second: bool)
    requires Routable(p) && Routable(q) && ProtoOf(q) == ProtoOf(p)
    requires SrcOf(q) == DstOf(p) && DstOf(q) == SrcOf(p)
    ensures first && second
    ensures l.Valid() && |l.BucketOf(ProtoOf(p)).listed| == 1 && l.Held() == multiset{p, q}
    ensures |l.BucketOf(ProtoOf(p)).listed[0].packets| == 2
  {
    l, first := OpenFlow(p);
    ghost var f := l.BucketOf(ProtoOf(p)).listed[0];
    assert l.FlowOf(q) == Some(f) by {
      assert l.Find(ProtoOf(q), SrcOf(q), DstOf(q)) == Some(f);
    }
    ghost var v, held := f.View(), l.Held();
    second := l.Route(q);
    assert f.View() == Added(v, q);
    GainedSecond(held, l.Held(), p, q);
  }

  /** A registry whose bucket for `t` has just filed a new flow, and whose other
      bucket and flows are as before, is consistent again and holds that flow's
      packets on top of what it held. */
  lemma FiledValid(l: FlowList, t: Proto, mine: Bucket, theirs: Bucket, flow: Flow, repr: set<Flow>, hist: map<Flow, seq<Entry>>)
    requires l.Keyed() && flow.proto == t && |flow.nodes| == 2 && flow !in repr
    requires BucketOk(mine, t, repr) && BucketOk(theirs, Other(t), repr)
    requires FindIn(mine.index, flow.nodes[0], flow.nodes[1]).None?
    requires l.BucketOf(t) == Filed(mine, flow) && l.BucketOf(Other(t)) == theirs
    requires l.Repr == repr + {flow} && l.Hist == hist[flow := flow.packets]
    requires Tracked(l.Repr, l.Hist)
    ensures l.Valid()
    ensures l.Held() == HeldOf(mine, hist) + HeldOf(theirs, hist) + PacketsOf(flow.packets)
  {
    FiledOk(mine, t, repr, flow, l.BucketOf(t));
    BucketGrows(theirs, Other(t), repr, l.Repr, l.BucketOf(Other(t)));
    forall u: Proto ensures BucketOk(l.BucketOf(u), u, l.Repr) {
      if u != t {
        assert u == Other(t);
      }
    }
    FiledHeld(mine, hist, flow, flow.packets);
    UntouchedHeld(theirs, hist, flow, flow.packets, l.Hist);
    TotalSplit(l, t);
    UnionSwap(HeldOf(mine, hist), PacketsOf(flow.packets), HeldOf(theirs, hist));
  }

  /** A registry whose flow `k` of protocol `t` has just gained the entry `e`, and
      whose buckets are as before, is consistent and holds that entry's packet too. */
  lemma BumpedValid(l: FlowList, t: Proto, b: Bucket, theirs: Bucket, k: int, e: Entry, hist: map<Flow, seq<Entry>>)
    requires l.Keyed() && l.BucketOf(t) == b && l.BucketOf(Other(t)) == theirs
    requires BucketOk(b, t, l.Repr) && BucketOk(theirs, Other(t), l.Repr)
    requires 0 <= k < |b.listed| && b.listed[k] in hist
    requires l.Hist == hist[b.listed[k] := hist[b.listed[k]] + [e]]
    requires Tracked(l.Repr, l.Hist)
    ensures l.Valid()
    ensures l.HeldBy(t) == HeldOf(b, hist) + multiset{e.0} && l.HeldBy(Other(t)) == HeldOf(theirs, hist)
  {
    forall u: Proto ensures BucketOk(l.BucketOf(u), u, l.Repr) {
      if u != t {
        assert u == Other(t);
      }
    }
    var f := b.listed[k];
    BumpHeld(b, t, l.Repr, hist, k, e, l.Hist);
    assert f !in theirs.listed;
    UntouchedHeld(theirs, hist, f, hist[f] + [e], l.Hist);
  }

  /** The registry after one more entry in the listed flow `f` of bucket `b` is
      consistent again, and holds that entry's packet too. */
  lemma AppendedValid(l: FlowList, t: Proto, f: Flow, b: Bucket, theirs: Bucket, hist: map<Flow, seq<Entry>>)
    requires l.Keyed() && l.BucketOf(t) == b && l.BucketOf(Other(t)) == theirs
    requires BucketOk(b, t, l.Repr) && BucketOk(theirs, Other(t), l.Repr)
    requires f in b.listed
    requires Tracked(l.Repr - {f}, hist) && f in hist && f.Valid() && Homed(f.View())
    requires |f.packets| > 0 && f.packets == hist[f] + [Last(f.packets)]
    requires l.Hist == hist[f := f.packets]
    ensures l.Valid()
    ensures l.Held() == HeldOf(b, hist) + HeldOf(theirs, hist) + multiset{Last(f.packets).0}
  {
    var k :| 0 <= k < |b.listed| && b.listed[k] == f;
    TrackedJoin(l.Repr, hist, f, l.Hist);
    BumpedValid(l, t, b, theirs, k, Last(f.packets), hist);
    TotalSplit(l, t);
    UnionSwap(HeldOf(b, hist), multiset{Last(f.packets).0}, HeldOf(theirs, hist));
  }
}
