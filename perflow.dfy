/** The per-flow analyses: the three largest flows by a metric, the busiest host
    pairs, and the round-trip-time series of one flow. */
module PerFlow {
  import opened Wrappers
  import opened Packets
  import opened Flows

  // ---------------------------------------------------------------------------
  // The three largest flows by a metric
  // ---------------------------------------------------------------------------

  /** What a selector ranks flows by: the number of packets, the total bytes, or the
      time from the first to the last packet in seconds. */
  datatype Ranking = ByPackets | ByBytes | ByDuration

  function Metric(f: Flow, rank: Ranking): real
    reads f
  {
    match rank
    case ByPackets => |f.packets| as real
    case ByBytes => f.totalSize as real
    case ByDuration => f.lastArrival - f.firstArrival
  }

  ghost function Metrics(fs: seq<Flow>, rank: Ranking): (r: seq<real>)
    reads set f | f in fs
    ensures |r| == |fs|
    ensures forall i :: 0 <= i < |fs| ==> r[i] == Metric(fs[i], rank)
  {
    seq(|fs|, i requires 0 <= i < |fs| reads set f | f in fs => Metric(fs[i], rank))
  }

  /** Every metric lies above -1, the value a selector's running best starts from. */
  predicate AboveSentinel(ms: seq<real>) {
    forall i :: 0 <= i < |ms| ==> ms[i] > -1.0
  }

  /** No metric equals -1, the value a selector's running best starts from. */
  predicate NoSentinel(ms: seq<real>) {
    forall i :: 0 <= i < |ms| ==> ms[i] != -1.0
  }

  /** What a selector's scan over the metrics `ms` ends with: the index and metric of
      the running best, which is replaced by an index not excluded when the best is
      still -1 or the index's metric is strictly larger; (-1, -1) when every index is
      excluded. */
  function Pick(ms: seq<real>, exclude: seq<int>): (r: (int, real))
    ensures r.0 == -1 <==> forall i :: 0 <= i < |ms| ==> i in exclude
    ensures r.0 == -1 ==> r.1 == -1.0
    ensures r.0 != -1 ==> 0 <= r.0 < |ms| && r.0 !in exclude && r.1 == ms[r.0]
  {
    if ms == [] then (-1, -1.0)
    else
      var prev := Pick(AllButLast(ms), exclude);
      var k := |ms| - 1;
      if k in exclude then prev
      else if prev.1 == -1.0 || ms[k] > prev.1 then (k, ms[k])
      else prev
  }

  /** When no metric can be mistaken for the starting -1, the scan finds the largest
      metric among the indices not excluded, and the earliest such index on ties. */
  lemma {:induction false} PickIsFirstMax(ms: seq<real>, exclude: seq<int>)
    requires NoSentinel(ms)
    ensures Pick(ms, exclude).0 != -1 ==>
      && (forall i :: 0 <= i < |ms| && i !in exclude ==> ms[i] <= Pick(ms, exclude).1)
      && (forall i :: 0 <= i < Pick(ms, exclude).0 && i !in exclude ==> ms[i] < Pick(ms, exclude).1)
  {
    if ms != [] {
      var front := AllButLast(ms);
      assert NoSentinel(front);
      PickIsFirstMax(front, exclude);
    }
  }

  /** The index with the largest metric among the flows not excluded, and that
      metric; None and -1 when every flow is excluded. */
  method MostBy(flows: seq<Flow>, exclude: seq<int>, rank: Ranking) returns (flow: Option<Flow>, metric: real, index: int)
    ensures (index, metric) == Pick(Metrics(flows, rank), exclude)
    ensures flow == if index == -1 then None else Some(flows[index])
  {
    ghost var ms := Metrics(flows, rank);
    flow, metric, index := None, -1.0, -1;
    for i := 0 to |flows|
      invariant (index, metric) == Pick(ms[..i], exclude)
      invariant flow == if index == -1 then None else Some(flows[index])
    {
      assert AllButLast(ms[..i + 1]) == ms[..i];
      if i in exclude {
        continue;
      }
      var m := Metric(flows[i], rank);
      if metric == -1.0 || m > metric {
        flow, metric, index := Some(flows[i]), m, i;
      }
    }
    assert ms[..|flows|] == ms;
  }

  /** The first components of a sequence of picks: what later rounds exclude. */
  function Firsts<A, B>(ps: seq<(A, B)>): (r: seq<A>)
    ensures |r| == |ps| && forall i :: 0 <= i < |ps| ==> r[i] == ps[i].0
  {
    seq(|ps|, i requires 0 <= i < |ps| => ps[i].0)
  }

  /** The first `n` rounds of selection: each round excludes the indices picked
      before it. */
  function Picks(ms: seq<real>, n: nat): (r: seq<(int, real)>)
    ensures |r| == n
    ensures forall j :: 0 <= j < n ==> r[j].0 == -1 || 0 <= r[j].0 < |ms|
  {
    if n == 0 then [] else
      var prev := Picks(ms, n - 1);
      prev + [Pick(ms, Firsts(prev))]
  }

  /** The three rounds of selection spelled out. */
  lemma ThreeRounds(ms: seq<real>) returns (p0: (int, real), p1: (int, real), p2: (int, real))
    ensures Picks(ms, 3) == [p0, p1, p2]
    ensures p0 == Pick(ms, []) && p1 == Pick(ms, [p0.0]) && p2 == Pick(ms, [p0.0, p1.0])
  {
    assert Firsts<int, real>([]) == [];
    p0 := Pick(ms, []);
    assert Picks(ms, 1) == [p0];
    assert Firsts([p0]) == [p0.0];
    p1 := Pick(ms, [p0.0]);
    assert Picks(ms, 2) == [p0, p1];
    assert Firsts([p0, p1]) == [p0.0, p1.0];
    p2 := Pick(ms, [p0.0, p1.0]);
  }

  /** A round picks -1 exactly when all flows were picked in earlier rounds. */
  lemma SecondRoundEmpty(ms: seq<real>, p0: (int, real), p1: (int, real))
    requires p0 == Pick(ms, []) && p1 == Pick(ms, [p0.0])
    ensures p0.0 == -1 <==> |ms| == 0
    ensures p1.0 == -1 <==> |ms| <= 1
  {
    if |ms| >= 1 {
      assert 0 !in [];
    }
    if |ms| >= 2 {
      assert 0 !in [p0.0] || 1 !in [p0.0];
    }
  }

  lemma ThirdRoundEmpty(ms: seq<real>, p0: (int, real), p1: (int, real), p2: (int, real))
    requires p0 == Pick(ms, []) && p1 == Pick(ms, [p0.0]) && p2 == Pick(ms, [p0.0, p1.0])
    ensures p2.0 == -1 <==> |ms| <= 2
  {
    SecondRoundEmpty(ms, p0, p1);
    if |ms| >= 3 {
      assert 0 !in [p0.0, p1.0] || 1 !in [p0.0, p1.0] || 2 !in [p0.0, p1.0];
    } else if |ms| == 2 {
      assert p0.0 != p1.0;
      assert forall i :: 0 <= i < 2 ==> i in [p0.0, p1.0];
    }
  }

  /** Three rounds of selection pick distinct flows, pick -1 exactly in the rounds
      beyond the number of flows, and, when no metric can be mistaken for -1, report
      metrics that never increase from one round to the next. */
  lemma TopThreeRanked(ms: seq<real>)
    ensures var ps := Picks(ms, 3);
      && (ps[0].0 != -1 ==> ps[0].0 != ps[1].0 && ps[0].0 != ps[2].0)
      && (ps[1].0 != -1 ==> ps[1].0 != ps[2].0)
      && (ps[0].0 == -1 <==> |ms| < 1) && (ps[1].0 == -1 <==> |ms| < 2) && (ps[2].0 == -1 <==> |ms| < 3)
      && (AboveSentinel(ms) ==> ps[1].1 <= ps[0].1 && ps[2].1 <= ps[1].1)
  {
    var p0, p1, p2 := ThreeRounds(ms);
    ThirdRoundEmpty(ms, p0, p1, p2);
    SecondRoundEmpty(ms, p0, p1);
    if AboveSentinel(ms) {
      PickIsFirstMax(ms, []);
      PickIsFirstMax(ms, [p0.0]);
    }
  }

  /** The flow at index `k`, None for the index -1 that marks no flow. */
  function FlowAt(flows: seq<Flow>, k: int): (r: Option<Flow>)
    ensures r.Some? <==> 0 <= k < |flows|
  {
    if 0 <= k < |flows| then Some(flows[k]) else None
  }

  /** The three flows with the largest metric, in decreasing order, and their metrics;
      the rounds beyond the number of flows give None and -1. */
  method TopThree(flows: seq<Flow>, rank: Ranking) returns (top: seq<Option<Flow>>, metrics: seq<real>)
    ensures |top| == 3 && |metrics| == 3
    ensures var ps := Picks(Metrics(flows, rank), 3);
      forall j :: 0 <= j < 3 ==> metrics[j] == ps[j].1 && top[j] == FlowAt(flows, ps[j].0)
  {
    ghost var ms := Metrics(flows, rank);
    ghost var ps: seq<(int, real)> := [];
    top, metrics := [], [];
    var indices: seq<int> := [];
    for n := 0 to 3
      invariant ps == Picks(ms, n) && ms == Metrics(flows, rank)
      invariant |top| == n && |metrics| == n && |indices| == n
      invariant forall j :: 0 <= j < n ==> ps[j] == (indices[j], metrics[j]) && top[j] == FlowAt(flows, indices[j])
    {
      assert indices == Firsts(ps);
      var flow, metric, index := MostBy(flows, indices, rank);
      ps := ps + [(index, metric)];
      top, indices, metrics := top + [flow], indices + [index], metrics + [metric];
    }
  }

  // ---------------------------------------------------------------------------
  // Host pairs with the most flows
  // ---------------------------------------------------------------------------

  /** The addresses of a flow's two endpoints, source first. */
  type HostPair = (Address, Address)

  function PairOf(f: Flow): HostPair
    requires |f.nodes| == 2
  {
    (f.nodes[0].0, f.nodes[1].0)
  }

  function Swap(k: HostPair): HostPair {
    (k.1, k.0)
  }

  /** Every flow has two endpoints. */
  predicate TwoNodes(fs: seq<Flow>) {
    forall i :: 0 <= i < |fs| ==> |fs[i].nodes| == 2
  }

  /** Host pairs in the order they were first seen, with the number of flows and the
      flows of each. */
  datatype HostPairs = HostPairs(order: seq<HostPair>, counts: map<HostPair, int>, members: map<HostPair, seq<Flow>>)

  /** The host pairs after one more flow: it joins the bucket of its own pair if there
      is one, else the bucket of the reversed pair, else a new bucket at the end. */
  function Grouped(h: HostPairs, f: Flow): (r: HostPairs)
    requires |f.nodes| == 2 && h.counts.Keys == h.members.Keys
    ensures r.counts.Keys == r.members.Keys
  {
    var key := PairOf(f);
    if key in h.counts then
      h.(counts := h.counts[key := h.counts[key] + 1], members := h.members[key := h.members[key] + [f]])
    else if Swap(key) in h.counts then
      h.(counts := h.counts[Swap(key) := h.counts[Swap(key)] + 1], members := h.members[Swap(key) := h.members[Swap(key)] + [f]])
    else
      HostPairs(h.order + [key], h.counts[key := 1], h.members[key := [f]])
  }

  /** The host pairs of a list of flows, grouped one flow at a time. */
  function Groups(fs: seq<Flow>): (r: HostPairs)
    requires TwoNodes(fs)
    ensures r.counts.Keys == r.members.Keys
  {
    if fs == [] then HostPairs([], map[], map[]) else Grouped(Groups(AllButLast(fs)), Last(fs))
  }

  predicate NoDup<T(==)>(s: seq<T>) {
    forall i, j :: 0 <= i < j < |s| ==> s[i] != s[j]
  }

  /** The host pairs are consistent: the listed pairs are the keys of both
      dictionaries, each once; each count is the number of flows in its bucket, at
      least one; and a pair and its reverse are never both keys. */
  ghost predicate PairsOk(h: HostPairs) {
    && h.counts.Keys == h.members.Keys
    && (forall k :: k in h.counts <==> k in h.order)
    && NoDup(h.order)
    && (forall k :: k in h.counts ==> h.counts[k] == |h.members[k]| && h.counts[k] >= 1)
    && (forall k :: k in h.counts && Swap(k) in h.counts ==> Swap(k) == k)
  }

  /** The number of flows over all host pairs. */
  function SumCounts(order: seq<HostPair>, counts: map<HostPair, int>): int
    requires forall k :: k in order ==> k in counts
  {
    if order == [] then 0 else SumCounts(AllButLast(order), counts) + counts[Last(order)]
  }

  /** Setting the count of one pair changes the total by the change of that count, if
      the pair is listed (once). */
  lemma {:induction false} SumCountsUpdate(order: seq<HostPair>, counts: map<HostPair, int>, key: HostPair, v: int, after: map<HostPair, int>)
    requires forall k :: k in order ==> k in counts
    requires NoDup(order) && key in counts && after == counts[key := v]
    ensures SumCounts(order, after) == SumCounts(order, counts) + (if key in order then v - counts[key] else 0)
  {
    if order != [] {
      var front := AllButLast(order);
      assert forall k :: k in front ==> k in order;
      assert NoDup(front);
      SumCountsUpdate(front, counts, key, v, after);
      if Last(order) == key {
        assert key !in front;
      }
      assert key in order <==> key in front || Last(order) == key;
    }
  }

  /** A new pair at the end of the list adds its count to the total. */
  lemma {:induction false} SumCountsAppend(order: seq<HostPair>, counts: map<HostPair, int>, key: HostPair, after: map<HostPair, int>)
    requires forall k :: k in order ==> k in counts
    requires key !in order && after == counts[key := 1]
    ensures SumCounts(order + [key], after) == SumCounts(order, counts) + 1
  {
    assert AllButLast(order + [key]) == order;
    SumCountsFresh(order, counts, key, after);
  }

  lemma {:induction false} SumCountsFresh(order: seq<HostPair>, counts: map<HostPair, int>, key: HostPair, after: map<HostPair, int>)
    requires forall k :: k in order ==> k in counts
    requires key !in order && after == counts[key := 1]
    ensures SumCounts(order, after) == SumCounts(order, counts)
  {
    if order != [] {
      var front := AllButLast(order);
      assert forall k :: k in front ==> k in order;
      SumCountsFresh(front, counts, key, after);
    }
  }

  /** `f` is in the bucket of its own pair or of the reversed pair. */
  ghost predicate InBucket(h: HostPairs, f: Flow)
    requires |f.nodes| == 2
  {
    || (PairOf(f) in h.members && f in h.members[PairOf(f)])
    || (Swap(PairOf(f)) in h.members && f in h.members[Swap(PairOf(f))])
  }

  /** Every bucket of `h` is in `r`, possibly with more flows at its end. */
  ghost predicate Extends(h: HostPairs, r: HostPairs) {
    forall k :: k in h.members ==> k in r.members && h.members[k] <= r.members[k]
  }

  /** A flow joining the existing bucket of pair `k`. */
  lemma GroupedIntoExisting(h: HostPairs, f: Flow, k: HostPair, r: HostPairs)
    requires PairsOk(h) && k in h.counts
    requires r == h.(counts := h.counts[k := h.counts[k] + 1], members := h.members[k := h.members[k] + [f]])
    ensures PairsOk(r) && SumCounts(r.order, r.counts) == SumCounts(h.order, h.counts) + 1
    ensures k in r.members && f in r.members[k] && Extends(h, r)
  {
    SumCountsUpdate(h.order, h.counts, k, h.counts[k] + 1, r.counts);
    assert Last(r.members[k]) == f;
  }

  /** A flow opening a new bucket for its pair at the end of the list. */
  lemma GroupedIntoNew(h: HostPairs, f: Flow, key: HostPair, r: HostPairs)
    requires PairsOk(h) && key !in h.counts && Swap(key) !in h.counts
    requires r == HostPairs(h.order + [key], h.counts[key := 1], h.members[key := [f]])
    ensures PairsOk(r) && SumCounts(r.order, r.counts) == SumCounts(h.order, h.counts) + 1
    ensures key in r.members && f in r.members[key] && Extends(h, r)
  {
    SumCountsAppend(h.order, h.counts, key, r.counts);
    NewPairOk(h, key, r.counts, r.members);
  }

  lemma NewPairOk(h: HostPairs, key: HostPair, counts: map<HostPair, int>, members: map<HostPair, seq<Flow>>)
    requires PairsOk(h) && key !in h.counts && Swap(key) !in h.counts
    requires counts == h.counts[key := 1] && key in members && |members[key]| == 1
    requires forall k :: k in members <==> k in counts
    requires forall k :: k in h.members ==> members[k] == h.members[k]
    ensures PairsOk(HostPairs(h.order + [key], counts, members))
  {
    NoDupAppend(h.order, key);
    forall k | k in counts && Swap(k) in counts
      ensures Swap(k) == k
    {
      if k != key && Swap(k) != key {
        assert k in h.counts && Swap(k) in h.counts;
      }
    }
  }

  lemma NoDupAppend<T>(s: seq<T>, x: T)
    requires NoDup(s) && x !in s
    ensures NoDup(s + [x])
  {
    assert forall i :: 0 <= i < |s| ==> (s + [x])[i] == s[i];
  }

  /** Grouping one more flow keeps the host pairs consistent, counts that flow once,
      files it, and only extends the existing buckets. */
  lemma GroupedOk(h: HostPairs, f: Flow)
    requires PairsOk(h) && |f.nodes| == 2
    ensures var r := Grouped(h, f);
      && PairsOk(r)
      && SumCounts(r.order, r.counts) == SumCounts(h.order, h.counts) + 1
      && InBucket(r, f)
      && Extends(h, r)
  {
    var r := Grouped(h, f);
    var key := PairOf(f);
    if key in h.counts {
      GroupedIntoExisting(h, f, key, r);
    } else if Swap(key) in h.counts {
      GroupedIntoExisting(h, f, Swap(key), r);
    } else {
      GroupedIntoNew(h, f, key, r);
    }
  }

  /** Grouping a list of flows counts every flow exactly once in the total, files each
      flow with its own pair or its reverse, and keeps the host pairs consistent. */
  lemma {:induction false} GroupsOk(fs: seq<Flow>)
    requires TwoNodes(fs)
    ensures PairsOk(Groups(fs))
    ensures SumCounts(Groups(fs).order, Groups(fs).counts) == |fs|
    ensures forall i :: 0 <= i < |fs| ==> InBucket(Groups(fs), fs[i])
  {
    if fs != [] {
      var front := AllButLast(fs);
      assert TwoNodes(front);
      GroupsOk(front);
      var h := Groups(front);
      var r := Grouped(h, Last(fs));
      assert Groups(fs) == r;
      GroupedOk(h, Last(fs));
      assert fs == front + [Last(fs)];
      StillInBuckets(front, Last(fs), h, r);
    }
  }

  /** The flows already in the buckets of `h` stay in them as the buckets grow, and
      the last flow, put in a bucket of `r`, joins them. */
  lemma StillInBuckets(front: seq<Flow>, f: Flow, h: HostPairs, r: HostPairs)
    requires TwoNodes(front) && |f.nodes| == 2
    requires forall i :: 0 <= i < |front| ==> InBucket(h, front[i])
    requires Extends(h, r) && InBucket(r, f)
    ensures forall i :: 0 <= i < |front + [f]| ==> InBucket(r, (front + [f])[i])
  {
    forall i | 0 <= i < |front + [f]|
      ensures InBucket(r, (front + [f])[i])
    {
      if i < |front| {
        assert (front + [f])[i] == front[i] && InBucket(h, front[i]);
      }
    }
  }

  /** Groups the flows by host pair, a pair and its reverse sharing one bucket: the
      number of flows of each pair and the flows themselves, pairs in first-seen order. */
  method IpPairCounts(flows: seq<Flow>) returns (h: HostPairs)
    requires TwoNodes(flows)
    ensures h == Groups(flows)
  {
    var order: seq<HostPair> := [];
    var counts: map<HostPair, int> := map[];
    var members: map<HostPair, seq<Flow>> := map[];
    for i := 0 to |flows|
      invariant TwoNodes(flows[..i])
      invariant HostPairs(order, counts, members) == Groups(flows[..i])
    {
      assert AllButLast(flows[..i + 1]) == flows[..i] && Last(flows[..i + 1]) == flows[i];
      var flow := flows[i];
      var key := (flow.nodes[0].0, flow.nodes[1].0);
      var key2 := (flow.nodes[1].0, flow.nodes[0].0);
      if key in counts {
        counts := counts[key := counts[key] + 1];
        members := members[key := members[key] + [flow]];
      } else if key2 in counts {
        counts := counts[key2 := counts[key2] + 1];
        members := members[key2 := members[key2] + [flow]];
      } else {
        order := order + [key];
        counts := counts[key := 1];
        members := members[key := [flow]];
      }
    }
    assert flows[..|flows|] == flows;
    h := HostPairs(order, counts, members);
  }

  /** Every listed pair is a key of both dictionaries. */
  predicate Listed(h: HostPairs) {
    forall k :: k in h.order ==> k in h.counts && k in h.members
  }

  /** What the scan over the host pairs, in first-seen order, ends with: the position
      of the running best pair and its count, replaced by a pair not excluded when the
      best count is still -1 or the pair's count is strictly larger; (-1, -1) when
      every pair is excluded. */
  function PickAt(order: seq<HostPair>, counts: map<HostPair, int>, exclude: seq<Option<HostPair>>): (r: (int, int))
    requires forall k :: k in order ==> k in counts
    ensures r.0 == -1 <==> forall i :: 0 <= i < |order| ==> Some(order[i]) in exclude
    ensures r.0 == -1 ==> r.1 == -1
    ensures r.0 != -1 ==> 0 <= r.0 < |order| && Some(order[r.0]) !in exclude && r.1 == counts[order[r.0]]
  {
    if order == [] then (-1, -1)
    else
      var prev := PickAt(AllButLast(order), counts, exclude);
      var i := |order| - 1;
      if Some(order[i]) in exclude then prev
      else if prev.1 == -1 || counts[order[i]] > prev.1 then (i, counts[order[i]])
      else prev
  }

  /** The pair the scan ends with, None when every pair is excluded. */
  function PickPair(order: seq<HostPair>, counts: map<HostPair, int>, exclude: seq<Option<HostPair>>): (r: (Option<HostPair>, int))
    requires forall k :: k in order ==> k in counts
    ensures r.0.None? <==> forall i :: 0 <= i < |order| ==> Some(order[i]) in exclude
    ensures r.0.Some? ==> r.0.value in order && Some(r.0.value) !in exclude && r.1 == counts[r.0.value]
    ensures r.0.None? ==> r.1 == -1
  {
    var (i, c) := PickAt(order, counts, exclude);
    (if i == -1 then None else Some(order[i]), c)
  }

  /** When every count lies above -1, the scan finds the largest count among the
      pairs not excluded, and the first such pair in first-seen order on ties. */
  lemma {:induction false} PickAtIsFirstMax(order: seq<HostPair>, counts: map<HostPair, int>, exclude: seq<Option<HostPair>>)
    requires forall k :: k in order ==> k in counts && counts[k] > -1
    ensures var r := PickAt(order, counts, exclude);
      r.0 != -1 ==>
        && (forall i :: 0 <= i < |order| && Some(order[i]) !in exclude ==> counts[order[i]] <= r.1)
        && (forall i :: 0 <= i < r.0 && Some(order[i]) !in exclude ==> counts[order[i]] < r.1)
  {
    if order != [] {
      var front := AllButLast(order);
      assert forall k :: k in front ==> k in order;
      PickAtIsFirstMax(front, counts, exclude);
    }
  }

  /** The host pair not excluded with the most flows, and that number; None and -1
      when every pair is excluded. */
  method MostTcpHosts(h: HostPairs, exclude: seq<Option<HostPair>>) returns (pair: Option<HostPair>, count: int)
    requires forall k :: k in h.order ==> k in h.counts
    ensures (pair, count) == PickPair(h.order, h.counts, exclude)
  {
    ghost var at := -1;
    pair, count := None, -1;
    for i := 0 to |h.order|
      invariant forall k :: k in h.order[..i] ==> k in h.counts
      invariant (at, count) == PickAt(h.order[..i], h.counts, exclude)
      invariant pair == if at == -1 then None else Some(h.order[at])
    {
      assert AllButLast(h.order[..i + 1]) == h.order[..i];
      var k := h.order[i];
      if Some(k) in exclude {
        continue;
      }
      if count == -1 || h.counts[k] > count {
        pair, count, at := Some(k), h.counts[k], i;
      }
    }
    assert h.order[..|h.order|] == h.order;
  }

  /** The first `n` rounds of host-pair selection: each round excludes the pairs
      picked before it. */
  function PairPicks(h: HostPairs, n: nat): (r: seq<(Option<HostPair>, int)>)
    requires forall k :: k in h.order ==> k in h.counts
    ensures |r| == n
    ensures forall j :: 0 <= j < n && r[j].0.Some? ==> r[j].0.value in h.order
  {
    if n == 0 then [] else
      var prev := PairPicks(h, n - 1);
      prev + [PickPair(h.order, h.counts, Firsts(prev))]
  }

  lemma {:induction false} PairPicksPrefix(h: HostPairs, n: nat, m: nat)
    requires forall k :: k in h.order ==> k in h.counts
    requires n <= m
    ensures PairPicks(h, m)[..n] == PairPicks(h, n)
  {
    if n < m {
      PairPicksPrefix(h, n, m - 1);
      assert PairPicks(h, m)[..m - 1] == PairPicks(h, m - 1);
    }
  }

  datatype LookupError = KeyError

  /** The three busiest host pairs with their flows, and their numbers of flows; a
      round that finds no pair left fails, the missing pair being looked up. */
  function TopPairs(h: HostPairs): Result<(seq<(HostPair, seq<Flow>)>, seq<int>), LookupError>
    requires Listed(h)
  {
    var ps := PairPicks(h, 3);
    if ps[0].0.None? || ps[1].0.None? || ps[2].0.None? then Failure(KeyError)
    else
      var a, b, c := ps[0].0.value, ps[1].0.value, ps[2].0.value;
      Success(([(a, h.members[a]), (b, h.members[b]), (c, h.members[c])], [ps[0].1, ps[1].1, ps[2].1]))
  }

  /** The three rounds of host-pair selection spelled out. */
  lemma ThreePairRounds(h: HostPairs) returns (p0: (Option<HostPair>, int), p1: (Option<HostPair>, int), p2: (Option<HostPair>, int))
    requires forall k :: k in h.order ==> k in h.counts
    ensures PairPicks(h, 3) == [p0, p1, p2]
    ensures p0 == PickPair(h.order, h.counts, [])
    ensures p1 == PickPair(h.order, h.counts, [p0.0])
    ensures p2 == PickPair(h.order, h.counts, [p0.0, p1.0])
  {
    assert Firsts<Option<HostPair>, int>([]) == [];
    p0 := PickPair(h.order, h.counts, []);
    assert PairPicks(h, 1) == [p0];
    assert Firsts([p0]) == [p0.0];
    p1 := PickPair(h.order, h.counts, [p0.0]);
    assert PairPicks(h, 2) == [p0, p1];
    assert Firsts([p0, p1]) == [p0.0, p1.0];
    p2 := PickPair(h.order, h.counts, [p0.0, p1.0]);
  }

  /** With at least three distinct pairs, each of three rounds finds a pair. */
  lemma PairRoundsFull(o: seq<HostPair>, counts: map<HostPair, int>, p0: (Option<HostPair>, int), p1: (Option<HostPair>, int), p2: (Option<HostPair>, int))
    requires forall k :: k in o ==> k in counts
    requires |o| >= 3 && o[0] != o[1] && o[0] != o[2] && o[1] != o[2]
    requires p0 == PickPair(o, counts, []) && p1 == PickPair(o, counts, [p0.0]) && p2 == PickPair(o, counts, [p0.0, p1.0])
    ensures p0.0.Some? && p1.0.Some? && p2.0.Some?
  {
    assert Some(o[0]) !in [p0.0, p1.0] || Some(o[1]) !in [p0.0, p1.0] || Some(o[2]) !in [p0.0, p1.0];
    assert Some(o[0]) !in [p0.0] || Some(o[1]) !in [p0.0];
    assert Some(o[0]) !in [];
  }

  /** With fewer than three pairs, one of three rounds finds none. */
  lemma PairRoundsShort(o: seq<HostPair>, counts: map<HostPair, int>, p0: (Option<HostPair>, int), p1: (Option<HostPair>, int), p2: (Option<HostPair>, int))
    requires forall k :: k in o ==> k in counts
    requires |o| < 3
    requires p0 == PickPair(o, counts, []) && p1 == PickPair(o, counts, [p0.0]) && p2 == PickPair(o, counts, [p0.0, p1.0])
    ensures p0.0.None? || p1.0.None? || p2.0.None?
  {
    if |o| == 2 && p0.0.Some? && p1.0.Some? {
      assert forall i :: 0 <= i < 2 ==> Some(o[i]) in [p0.0, p1.0];
    } else if |o| == 1 && p0.0.Some? {
      assert forall i :: 0 <= i < 1 ==> Some(o[i]) in [p0.0];
    }
  }

  /** Picks of later rounds never have more flows than picks of earlier ones. */
  lemma PairRoundsOrdered(o: seq<HostPair>, counts: map<HostPair, int>, p0: (Option<HostPair>, int), p1: (Option<HostPair>, int), p2: (Option<HostPair>, int))
    requires forall k :: k in o ==> k in counts && counts[k] > -1
    requires p0 == PickPair(o, counts, []) && p1 == PickPair(o, counts, [p0.0]) && p2 == PickPair(o, counts, [p0.0, p1.0])
    requires p0.0.Some? && p1.0.Some? && p2.0.Some?
    ensures p1.1 <= p0.1 && p2.1 <= p1.1
  {
    PickAtIsFirstMax(o, counts, []);
    PickAtIsFirstMax(o, counts, [p0.0]);
    var i1 := PickAt(o, counts, [p0.0]).0;
    var i2 := PickAt(o, counts, [p0.0, p1.0]).0;
    assert Some(o[i1]) !in [];
    assert Some(o[i2]) !in [p0.0];
  }

  /** Three distinct pairs of `h`, each with its own flows and number of flows, in
      non-increasing order of that number. */
  ghost predicate RankedPairs(h: HostPairs, top: seq<(HostPair, seq<Flow>)>, counts: seq<int>) {
    && |top| == 3 && |counts| == 3
    && top[0].0 != top[1].0 && top[0].0 != top[2].0 && top[1].0 != top[2].0
    && counts[1] <= counts[0] && counts[2] <= counts[1]
    && (forall j :: 0 <= j < 3 ==> top[j].0 in h.counts && top[j].0 in h.members && counts[j] == h.counts[top[j].0] == |h.members[top[j].0]| && top[j].1 == h.members[top[j].0])
  }

  /** Selection over consistent host pairs fails exactly when there are fewer than
      three pairs; otherwise it picks three distinct pairs with their own flows, in
      non-increasing order of their numbers of flows. */
  lemma TopPairsRanked(h: HostPairs)
    requires PairsOk(h)
    ensures TopPairs(h).Failure? <==> |h.order| < 3
    ensures TopPairs(h).Success? ==> RankedPairs(h, TopPairs(h).value.0, TopPairs(h).value.1)
  {
    var p0, p1, p2 := ThreePairRounds(h);
    if |h.order| >= 3 {
      PairRoundsFull(h.order, h.counts, p0, p1, p2);
      PairRoundsOrdered(h.order, h.counts, p0, p1, p2);
      RankedFromRounds(h, p0, p1, p2);
    } else {
      PairRoundsShort(h.order, h.counts, p0, p1, p2);
    }
  }

  lemma RankedFromRounds(h: HostPairs, p0: (Option<HostPair>, int), p1: (Option<HostPair>, int), p2: (Option<HostPair>, int))
    requires PairsOk(h)
    requires p0 == PickPair(h.order, h.counts, []) && p1 == PickPair(h.order, h.counts, [p0.0]) && p2 == PickPair(h.order, h.counts, [p0.0, p1.0])
    requires p0.0.Some? && p1.0.Some? && p2.0.Some?
    requires p1.1 <= p0.1 && p2.1 <= p1.1
    ensures var a, b, c := p0.0.value, p1.0.value, p2.0.value;
      RankedPairs(h, [(a, h.members[a]), (b, h.members[b]), (c, h.members[c])], [p0.1, p1.1, p2.1])
  {
  }

  /** Three rounds that each found a pair give the selection's result. */
  lemma TopPairsFound(h: HostPairs, ps: seq<(Option<HostPair>, int)>, top: seq<(HostPair, seq<Flow>)>, counts: seq<int>)
    requires Listed(h) && ps == PairPicks(h, 3) && |top| == 3 && |counts| == 3
    requires forall j :: 0 <= j < 3 ==> ps[j].0.Some? && top[j] == (ps[j].0.value, h.members[ps[j].0.value]) && counts[j] == ps[j].1
    ensures TopPairs(h) == Success((top, counts))
  {
    assert top == [top[0], top[1], top[2]] && counts == [counts[0], counts[1], counts[2]];
  }

  /** A round that found no pair makes the selection fail. */
  lemma TopPairsMissing(h: HostPairs, n: nat)
    requires Listed(h) && n < 3 && PairPicks(h, n + 1)[n].0.None?
    ensures TopPairs(h) == Failure(KeyError)
  {
    PairPicksPrefix(h, n + 1, 3);
    assert PairPicks(h, 3)[n] == PairPicks(h, n + 1)[n];
  }

  /** The three host pairs with the most flows, with their flows and their numbers of
      flows; fails with a key error when there are fewer than three host pairs. */
  method TopThreeHostPairs(flows: seq<Flow>) returns (r: Result<(seq<(HostPair, seq<Flow>)>, seq<int>), LookupError>)
    requires TwoNodes(flows)
    ensures Listed(Groups(flows)) && r == TopPairs(Groups(flows))
  {
    var h := IpPairCounts(flows);
    assert Listed(h) by {
      GroupsOk(flows);
    }
    r := TopThreeOf(h);
  }

  /** Three rounds of host-pair selection over grouped host pairs. */
  method TopThreeOf(h: HostPairs) returns (r: Result<(seq<(HostPair, seq<Flow>)>, seq<int>), LookupError>)
    requires Listed(h)
    ensures r == TopPairs(h)
  {
    var pairs: seq<Option<HostPair>> := [];
    var top: seq<(HostPair, seq<Flow>)> := [];
    var counts: seq<int> := [];
    ghost var ps: seq<(Option<HostPair>, int)> := [];
    for n := 0 to 3
      invariant ps == PairPicks(h, n) && pairs == Firsts(ps)
      invariant |top| == n && |counts| == n
      invariant forall j :: 0 <= j < n ==> ps[j].0.Some? && top[j] == (ps[j].0.value, h.members[ps[j].0.value]) && counts[j] == ps[j].1
    {
      var pair, count := MostTcpHosts(h, pairs);
      ps := ps + [(pair, count)];
      pairs := pairs + [pair];
      if pair.None? {
        TopPairsMissing(h, n);
        return Failure(KeyError);
      }
      top := top + [(pair.value, h.members[pair.value])];
      counts := counts + [count];
    }
    TopPairsFound(h, ps, top, counts);
    r := Success((top, counts));
  }

  // ---------------------------------------------------------------------------
  // Round-trip-time series of one flow
  // ---------------------------------------------------------------------------

  /** The weight of a new sample in the smoothed RTT, as in section 2 of RFC 6298. */
  const ALPHA: real := 1.0 / 8.0

  /** The smoothed RTT after one more sample; -1 stands for no sample yet, and the
      first sample is taken as it is. */
  function Smooth(srtt: real, rtt: real): real {
    if srtt == -1.0 then rtt else (1.0 - ALPHA) * srtt + ALPHA * rtt
  }

  /** The smoothed RTT after each sample. */
  function SrttSeries(rtts: seq<real>): (r: seq<real>)
    ensures |r| == |rtts|
  {
    if rtts == [] then []
    else
      var prev := SrttSeries(AllButLast(rtts));
      prev + [Smooth(if prev == [] then -1.0 else Last(prev), Last(rtts))]
  }

  /** When every sample lies above -1, the series follows section 2 of RFC 6298: the
      first value is the first sample, and each later value is 7/8 of the previous
      one plus 1/8 of the new sample; every value stays within the bounds of the
      samples so far. */
  lemma {:induction false} SrttFollowsRfc6298(rtts: seq<real>, lo: real, hi: real)
    requires AboveSentinel(rtts)
    requires forall i :: 0 <= i < |rtts| ==> lo <= rtts[i] <= hi
    ensures var r := SrttSeries(rtts);
      && (|rtts| > 0 ==> r[0] == rtts[0])
      && (forall k :: 0 < k < |rtts| ==> r[k] == 7.0 / 8.0 * r[k - 1] + 1.0 / 8.0 * rtts[k])
      && (forall k :: 0 <= k < |rtts| ==> lo <= r[k] <= hi && r[k] > -1.0)
  {
    if rtts != [] {
      var front := AllButLast(rtts);
      assert AboveSentinel(front);
      SrttFollowsRfc6298(front, lo, hi);
      var r := SrttSeries(rtts);
      assert r[..|front|] == SrttSeries(front);
    }
  }

  /** Two samples r1 and r2 smooth to r1, then 7/8 r1 + 1/8 r2, whatever r2 is, as long
      as the first smoothed value is not mistaken for the unset marker -1. */
  lemma SrttOfTwo(r1: real, r2: real)
    requires r1 != -1.0
    ensures SrttSeries([r1, r2]) == [r1, 7.0 / 8.0 * r1 + 1.0 / 8.0 * r2]
  {
    assert AllButLast([r1, r2]) == [r1];
    assert AllButLast([r1]) == [];
  }

  /** The keys below `n` whose packet was acknowledged, in increasing order. */
  function PairedSends(pairs: map<int, int>, n: nat): (r: seq<int>)
    ensures |r| <= n
  {
    if n == 0 then []
    else PairedSends(pairs, n - 1) + (if n - 1 in pairs && pairs[n - 1] != -1 then [n - 1] else [])
  }

  /** The acknowledged keys are exactly the keys below `n` paired with something
      other than -1, each once and in increasing order. */
  lemma {:induction false} PairedSendsSound(pairs: map<int, int>, n: nat)
    ensures forall k :: 0 <= k < |PairedSends(pairs, n)| ==>
      var i := PairedSends(pairs, n)[k]; 0 <= i < n && i in pairs && pairs[i] != -1
  {
    if n > 0 {
      PairedSendsSound(pairs, n - 1);
    }
  }

  lemma {:induction false} PairedSendsComplete(pairs: map<int, int>, n: nat)
    ensures forall i :: 0 <= i < n && i in pairs && pairs[i] != -1 ==> i in PairedSends(pairs, n)
  {
    if n > 0 {
      PairedSendsComplete(pairs, n - 1);
      var front := PairedSends(pairs, n - 1);
      assert front <= PairedSends(pairs, n);
    }
  }

  lemma {:induction false} PairedSendsIncreasing(pairs: map<int, int>, n: nat)
    ensures forall a, b :: 0 <= a < b < |PairedSends(pairs, n)| ==> PairedSends(pairs, n)[a] < PairedSends(pairs, n)[b]
  {
    if n > 0 {
      PairedSendsIncreasing(pairs, n - 1);
      PairedSendsSound(pairs, n - 1);
    }
  }

  /** A pairing of a history's packets: keys are the positions, values -1 or a position. */
  ghost predicate PairsOver(pairs: map<int, int>, n: nat) {
    && (forall k :: k in pairs <==> 0 <= k < n)
    && (forall k :: k in pairs ==> pairs[k] == -1 || 0 <= pairs[k] < n)
  }

  /** `rtts` and `times` hold, for each acknowledged position in `s`, the time from
      that packet to its acknowledgement and the time it was sent. */
  ghost predicate Sampled(es: seq<Entry>, pairs: map<int, int>, s: seq<int>, rtts: seq<real>, times: seq<real>) {
    && |rtts| == |s| && |times| == |s|
    && forall k :: 0 <= k < |s| ==>
         && s[k] in pairs && 0 <= s[k] < |es| && 0 <= pairs[s[k]] < |es|
         && rtts[k] == es[pairs[s[k]]].0.time - es[s[k]].0.time
         && times[k] == es[s[k]].0.time
  }

  lemma SampledExtend(es: seq<Entry>, pairs: map<int, int>, s: seq<int>, rtts: seq<real>, times: seq<real>, key: int,
                      rtt: real, time: real)
    requires Sampled(es, pairs, s, rtts, times)
    requires key in pairs && 0 <= key < |es| && 0 <= pairs[key] < |es|
    requires rtt == es[pairs[key]].0.time - es[key].0.time && time == es[key].0.time
    ensures Sampled(es, pairs, s + [key], rtts + [rtt], times + [time])
  {
  }

  /** One more sample extends the smoothed series by its smoothed value. */
  lemma SrttStep(rtts: seq<real>, srtts: seq<real>, prev: real, rtt: real)
    requires srtts == SrttSeries(rtts)
    requires prev == if rtts == [] then -1.0 else Last(srtts)
    ensures srtts + [Smooth(prev, rtt)] == SrttSeries(rtts + [rtt])
  {
    assert AllButLast(rtts + [rtt]) == rtts;
  }

  /** The RTT samples of a flow, with the smoothed RTT after each and the send time of
      each, one per acknowledged packet in the order of the packets: the RTT is the
      acknowledging packet's time minus the acknowledged packet's time. */
  method PlotData(f: Flow, pairs: map<int, int>) returns (rtts: seq<real>, srtts: seq<real>, times: seq<real>)
    requires PairsOver(pairs, |f.packets|)
    ensures Sampled(f.packets, pairs, PairedSends(pairs, |f.packets|), rtts, times)
    ensures srtts == SrttSeries(rtts)
  {
    ghost var es := f.packets;
    ghost var s: seq<int> := [];
    rtts, srtts, times := [], [], [];
    var srtt := -1.0;
    for key := 0 to |f.packets|
      invariant es == f.packets
      invariant s == PairedSends(pairs, key)
      invariant Sampled(es, pairs, s, rtts, times)
      invariant srtts == SrttSeries(rtts)
      invariant srtt == if rtts == [] then -1.0 else Last(srtts)
    {
      var sendPkt := f.packets[key].0;
      if pairs[key] == -1 {
        continue;
      }
      var ackPkt := f.packets[pairs[key]].0;
      var rtt := ackPkt.time - sendPkt.time;
      ghost var prev := srtt;
      srtt := Smooth(srtt, rtt);
      assert srtts + [srtt] == SrttSeries(rtts + [rtt]) by {
        SrttStep(rtts, srtts, prev, rtt);
      }
      assert Sampled(es, pairs, s + [key], rtts + [rtt], times + [sendPkt.time]) by {
        SampledExtend(es, pairs, s, rtts, times, key, rtt, sendPkt.time);
      }
      rtts, srtts, times := rtts + [rtt], srtts + [srtt], times + [sendPkt.time];
      s := s + [key];
    }
  }
}
