/** The chunks of a linearization: the segments of the least concave majorant of its diagram. */
module Chunking {
  import opened FeeRates
  import opened Clusters
  import opened Linearizations
  import opened ForestStates
  import opened DepGraphs

  /** A sequence of distinct transactions of the cluster, in any order. */
  ghost predicate IsList(g: Cluster, L: seq<Tx>) {
    Distinct(L) && Elems(L) <= g.txs
  }

  /** The transactions at places `a` up to `b`. */
  ghost function Segment(g: Cluster, L: seq<Tx>, a: nat, b: nat): (S: set<Tx>)
    requires IsList(g, L) && a <= b <= |L|
    ensures S <= g.txs
    ensures a < b ==> S != {}
  {
    var S := Elems(L[a..b]);
    assert S <= Elems(L);
    assert a < b ==> L[a..b][0] in S;
    S
  }

  ghost function SegmentRate(g: Cluster, L: seq<Tx>, a: nat, b: nat): real
    requires IsList(g, L) && a < b <= |L|
  {
    R(g, Segment(g, L, a, b))
  }

  lemma SegmentJoin(g: Cluster, L: seq<Tx>, a: nat, b: nat, c: nat)
    requires IsList(g, L) && a <= b <= c <= |L|
    ensures Segment(g, L, a, c) == Segment(g, L, a, b) + Segment(g, L, b, c)
    ensures Segment(g, L, a, b) !! Segment(g, L, b, c)
  {
    assert L[a..c] == L[a..b] + L[b..c];
    forall t | t in L[a..b]
      ensures t !in L[b..c]
    {
      var m :| 0 <= m < b - a && L[a..b][m] == t;
      assert forall n :: b <= n < c ==> L[n] != L[a + m];
    }
  }

  /** The feerate of a joined segment lies between those of its parts. */
  lemma SegmentRates(g: Cluster, L: seq<Tx>, a: nat, b: nat, c: nat)
    requires IsList(g, L) && a < b < c <= |L|
    ensures SegmentRate(g, L, a, b) < SegmentRate(g, L, b, c) ==>
              SegmentRate(g, L, a, b) < SegmentRate(g, L, a, c) < SegmentRate(g, L, b, c)
    ensures SegmentRate(g, L, a, b) >= SegmentRate(g, L, b, c) ==>
              SegmentRate(g, L, a, b) >= SegmentRate(g, L, a, c) >= SegmentRate(g, L, b, c)
    ensures SegmentRate(g, L, a, b) > SegmentRate(g, L, b, c) ==>
              SegmentRate(g, L, a, b) > SegmentRate(g, L, a, c) > SegmentRate(g, L, b, c)
  {
    SegmentJoin(g, L, a, b, c);
    var A, B := Segment(g, L, a, b), Segment(g, L, b, c);
    if R(g, A) <= R(g, B) {
      RateOfUnion(g, A, B);
    } else {
      assert A + B == B + A;
      RateOfUnion(g, B, A);
    }
  }

  // ---------- chunkings ----------

  /** Every proper prefix of the segment has a lower feerate than the segment. */
  ghost predicate OneChunk(g: Cluster, L: seq<Tx>, a: nat, b: nat) {
    && IsList(g, L) && a < b <= |L|
    && forall m :: a < m < b ==> SegmentRate(g, L, a, m) < SegmentRate(g, L, a, b)
  }

  /** The places where one chunk ends and the next starts, for the transactions before the last of
      them: the feerates of the chunks do not increase. */
  ghost predicate Chunked(g: Cluster, L: seq<Tx>, cuts: seq<nat>) {
    && IsList(g, L)
    && |cuts| > 0 && cuts[0] == 0
    && (forall k :: 0 <= k < |cuts| - 1 ==> OneChunk(g, L, cuts[k], cuts[k + 1]))
    && (forall k :: 0 <= k < |cuts| - 2 ==> NotIncreasing(g, L, cuts[k], cuts[k + 1], cuts[k + 2]))
    && cuts[|cuts| - 1] <= |L|
  }

  ghost predicate NotIncreasing(g: Cluster, L: seq<Tx>, a: nat, b: nat, c: nat)
    requires IsList(g, L) && a < b <= |L| && b < c <= |L|
  {
    SegmentRate(g, L, a, b) >= SegmentRate(g, L, b, c)
  }

  /** The chunks of all of `L`. */
  ghost predicate ChunksOf(g: Cluster, L: seq<Tx>, cuts: seq<nat>) {
    Chunked(g, L, cuts) && cuts[|cuts| - 1] == |L|
  }

  /** A chunk that the next segment beats in feerate becomes one chunk with it. */
  lemma AbsorbChunk(g: Cluster, L: seq<Tx>, a: nat, b: nat, c: nat)
    requires OneChunk(g, L, a, b) && OneChunk(g, L, b, c) && SegmentRate(g, L, a, b) < SegmentRate(g, L, b, c)
    ensures OneChunk(g, L, a, c)
  {
    SegmentRates(g, L, a, b, c);
    forall m | a < m < c
      ensures SegmentRate(g, L, a, m) < SegmentRate(g, L, a, c)
    {
      if m > b {
        assert SegmentRate(g, L, b, m) < SegmentRate(g, L, b, c);
        SegmentRates(g, L, b, m, c);
        SegmentRates(g, L, a, m, c);
      }
    }
  }

  // ---------- uniqueness ----------

  /** What follows a chunk never has a higher feerate, up to whatever place. */
  lemma {:induction false} LaterNotHigher(g: Cluster, L: seq<Tx>, cuts: seq<nat>, k: nat, y: nat)
    requires Chunked(g, L, cuts) && k + 1 < |cuts| && cuts[k + 1] < y <= cuts[|cuts| - 1]
    ensures SegmentRate(g, L, cuts[k + 1], y) <= SegmentRate(g, L, cuts[k], cuts[k + 1])
    decreases |cuts| - k
  {
    assert k + 2 < |cuts|;
    var a, b, c := cuts[k], cuts[k + 1], cuts[k + 2];
    assert OneChunk(g, L, a, b) && OneChunk(g, L, b, c) && NotIncreasing(g, L, a, b, c);
    if y > c {
      LaterNotHigher(g, L, cuts, k + 1, y);
      SegmentRates(g, L, b, c, y);
    }
  }

  lemma {:induction false} CutsIncrease(g: Cluster, L: seq<Tx>, cuts: seq<nat>, k: nat)
    requires Chunked(g, L, cuts) && k < |cuts|
    ensures cuts[k] <= cuts[|cuts| - 1]
    ensures k < |cuts| - 1 ==> cuts[k] < cuts[|cuts| - 1]
    decreases |cuts| - k
  {
    if k < |cuts| - 1 {
      assert OneChunk(g, L, cuts[k], cuts[k + 1]);
      CutsIncrease(g, L, cuts, k + 1);
    }
  }

  /** Two chunkings that agree up to some cut agree on the next. */
  lemma SameNextCut(g: Cluster, L: seq<Tx>, c: seq<nat>, c': seq<nat>, k: nat)
    requires ChunksOf(g, L, c) && ChunksOf(g, L, c') && k + 1 < |c| && k + 1 < |c'| && c[k] == c'[k]
    ensures c[k + 1] >= c'[k + 1]
  {
    var a, x, y := c[k], c[k + 1], c'[k + 1];
    assert OneChunk(g, L, a, x) && OneChunk(g, L, a, y);
    if x < y {
      LaterNotHigher(g, L, c, k, y);
      SegmentRates(g, L, a, x, y);
    }
  }

  lemma {:induction false} SameCuts(g: Cluster, L: seq<Tx>, c: seq<nat>, c': seq<nat>, k: nat)
    requires ChunksOf(g, L, c) && ChunksOf(g, L, c') && k < |c|
    ensures k < |c'| && c[..k + 1] == c'[..k + 1]
  {
    if k > 0 {
      SameCuts(g, L, c, c', k - 1);
      assert c[k - 1] == c[..k][k - 1] == c'[..k][k - 1] == c'[k - 1];
      CutsIncrease(g, L, c, k - 1);
      assert k < |c'|;
      SameNextCut(g, L, c, c', k - 1);
      SameNextCut(g, L, c', c, k - 1);
    }
  }

  /** A linearization has one chunking. */
  lemma ChunkingUnique(g: Cluster, L: seq<Tx>, c: seq<nat>, c': seq<nat>)
    requires ChunksOf(g, L, c) && ChunksOf(g, L, c')
    ensures c == c'
  {
    SameCuts(g, L, c, c', |c| - 1);
    SameCuts(g, L, c', c, |c'| - 1);
    assert c[..|c|] == c && c'[..|c'|] == c';
  }

  // ---------- the least concave majorant ----------

  /** What the first `k` chunks add to the diagram: the height of the concave diagram of the chunks,
      seen along direction `theta`. */
  ghost function ChunkDiagram(g: Cluster, L: seq<Tx>, cuts: seq<nat>, k: nat, theta: real): (r: real)
    requires Chunked(g, L, cuts) && k < |cuts|
    ensures r >= 0.0
  {
    if k == 0 then 0.0
    else
      assert OneChunk(g, L, cuts[k - 1], cuts[k]);
      ChunkDiagram(g, L, cuts, k - 1, theta) + Positive(GainOf(g, Segment(g, L, cuts[k - 1], cuts[k]), theta))
  }

  /** The height of the diagram of all of `L`. */
  ghost function Height(g: Cluster, L: seq<Tx>, cuts: seq<nat>, theta: real): real
    requires Chunked(g, L, cuts)
  {
    ChunkDiagram(g, L, cuts, |cuts| - 1, theta)
  }

  lemma PrefixIsSegment(g: Cluster, L: seq<Tx>, a: nat, b: nat, theta: real)
    requires IsList(g, L) && a <= b <= |L|
    ensures PrefixGain(g, L, b, theta) == PrefixGain(g, L, a, theta) + GainOf(g, Segment(g, L, a, b), theta)
  {
    SegmentJoin(g, L, 0, a, b);
    assert L[0..a] == L[..a] && L[0..b] == L[..b];
    GainUnion(g, Segment(g, L, 0, a), Segment(g, L, a, b), theta);
  }

  /** Within a chunk, no prefix pays more than the chunk grants. */
  lemma PrefixUnderChunk(g: Cluster, L: seq<Tx>, a: nat, m: nat, b: nat, theta: real)
    requires OneChunk(g, L, a, b) && a < m <= b
    ensures GainOf(g, Segment(g, L, a, m), theta) <= Positive(GainOf(g, Segment(g, L, a, b), theta))
  {
    if m < b {
      SegmentJoin(g, L, a, m, b);
      var A, B := Segment(g, L, a, m), Segment(g, L, m, b);
      GainUnion(g, A, B, theta);
      SegmentRates(g, L, a, m, b);
      GainAtRate(g, A, theta);
      GainAtRate(g, B, theta);
    }
  }

  lemma {:induction false} PrefixUnderHeight(g: Cluster, L: seq<Tx>, cuts: seq<nat>, k: nat, m: nat, theta: real)
    requires Chunked(g, L, cuts) && k < |cuts| && m <= cuts[k] <= |L|
    ensures PrefixGain(g, L, m, theta) <= ChunkDiagram(g, L, cuts, k, theta)
  {
    if k == 0 {
      assert Elems(L[..0]) == {};
    } else {
      assert OneChunk(g, L, cuts[k - 1], cuts[k]);
      if m <= cuts[k - 1] {
        PrefixUnderHeight(g, L, cuts, k - 1, m, theta);
      } else {
        PrefixUnderHeight(g, L, cuts, k - 1, cuts[k - 1], theta);
        PrefixIsSegment(g, L, cuts[k - 1], m, theta);
        PrefixUnderChunk(g, L, cuts[k - 1], m, cuts[k], theta);
      }
    }
  }

  /** The prefix that ends with the last chunk above the threshold is on the diagram. */
  lemma {:induction false} HeightReached(g: Cluster, L: seq<Tx>, cuts: seq<nat>, k: nat, theta: real) returns (m: nat)
    requires Chunked(g, L, cuts) && k < |cuts|
    ensures m <= cuts[k] <= |L| && PrefixGain(g, L, m, theta) == ChunkDiagram(g, L, cuts, k, theta)
    ensures k > 0 && m < cuts[k] ==> cuts[k - 1] < cuts[k] && SegmentRate(g, L, cuts[k - 1], cuts[k]) <= theta
  {
    hide PrefixGain, Segment;
    CutsIncrease(g, L, cuts, k);
    if k == 0 {
      m := 0;
      NoPrefix(g, L, theta);
    } else {
      var a, b := cuts[k - 1], cuts[k];
      assert OneChunk(g, L, a, b);
      m := HeightReached(g, L, cuts, k - 1, theta);
      RateAndGain(g, L, a, b, theta);
      if SegmentRate(g, L, a, b) > theta {
        assert k > 1 ==> NotIncreasing(g, L, cuts[k - 2], a, b);
        PrefixIsSegment(g, L, a, b, theta);
        m := b;
      }
    }
  }

  lemma NoPrefix(g: Cluster, L: seq<Tx>, theta: real)
    requires IsList(g, L)
    ensures PrefixGain(g, L, 0, theta) == 0.0
  {
    assert Elems(L[..0]) == {};
  }

  lemma RateAndGain(g: Cluster, L: seq<Tx>, a: nat, b: nat, theta: real)
    requires IsList(g, L) && a < b <= |L|
    ensures SegmentRate(g, L, a, b) > theta <==> GainOf(g, Segment(g, L, a, b), theta) > 0.0
  {
    GainAtRate(g, Segment(g, L, a, b), theta);
  }

  /** The chunk diagram is the least concave function above the diagram of all prefixes: along every
      direction its height is that of the highest prefix. */
  lemma LeastMajorant(g: Cluster, L: seq<Tx>, cuts: seq<nat>, theta: real)
    requires ChunksOf(g, L, cuts)
    ensures forall m: nat :: m <= |L| ==> PrefixGain(g, L, m, theta) <= Height(g, L, cuts, theta)
    ensures exists m: nat :: m <= |L| && PrefixGain(g, L, m, theta) == Height(g, L, cuts, theta)
  {
    forall m: nat | m <= |L|
      ensures PrefixGain(g, L, m, theta) <= Height(g, L, cuts, theta)
    {
      PrefixUnderHeight(g, L, cuts, |cuts| - 1, m, theta);
    }
    var m := HeightReached(g, L, cuts, |cuts| - 1, theta);
  }

  /** Comparing linearizations by their chunk diagrams is comparing them prefix by prefix. */
  lemma AsGoodByChunks(g: Cluster, L: seq<Tx>, cuts: seq<nat>, L': seq<Tx>, cuts': seq<nat>)
    requires ChunksOf(g, L, cuts) && ChunksOf(g, L', cuts')
    ensures AsGoodAs(g, L, L') <==> forall theta: real :: Height(g, L, cuts, theta) >= Height(g, L', cuts', theta)
  {
    if AsGoodAs(g, L, L') {
      forall theta: real
        ensures Height(g, L, cuts, theta) >= Height(g, L', cuts', theta)
      {
        LeastMajorant(g, L, cuts, theta);
        LeastMajorant(g, L', cuts', theta);
        var m: nat :| m <= |L'| && PrefixGain(g, L', m, theta) == Height(g, L', cuts', theta);
        assert ReachesAt(g, L, PrefixGain(g, L', m, theta), theta);
      }
    }
    if forall theta: real :: Height(g, L, cuts, theta) >= Height(g, L', cuts', theta) {
      forall m: nat, theta: real | m <= |L'|
        ensures ReachesAt(g, L, PrefixGain(g, L', m, theta), theta)
      {
        LeastMajorant(g, L, cuts, theta);
        LeastMajorant(g, L', cuts', theta);
        assert Height(g, L, cuts, theta) >= Height(g, L', cuts', theta);
        var n: nat :| n <= |L| && PrefixGain(g, L, n, theta) == Height(g, L, cuts, theta);
      }
    }
  }

  // ---------- computing the chunks ----------

  /** `s` is the segment with its feerate. */
  ghost predicate InfoOf(g: Cluster, L: seq<Tx>, a: nat, b: nat, s: SetInfo) {
    && IsList(g, L) && a < b <= |L|
    && s.transactions == Segment(g, L, a, b) && s.feerate == Total(g, Segment(g, L, a, b))
  }

  ghost predicate InfosOf(g: Cluster, L: seq<Tx>, cuts: seq<nat>, infos: seq<SetInfo>) {
    |cuts| == |infos| + 1 && forall k :: 0 <= k < |infos| ==> InfoOf(g, L, cuts[k], cuts[k + 1], infos[k])
  }

  /** The feerates of the chunks. */
  ghost predicate FeeratesOf(infos: seq<SetInfo>, rates: seq<FeeFrac>) {
    |infos| == |rates| && forall k :: 0 <= k < |rates| ==> rates[k] == infos[k].feerate
  }

  lemma SingleSegment(d: GraphData, L: seq<Tx>, i: nat)
    requires ValidGraph(d) && IsList(AsCluster(d), L) && i < |L|
    ensures L[i] in d.used && L[i] < |d.entries| && Segment(AsCluster(d), L, i, i + 1) == {L[i]}
    ensures Total(AsCluster(d), {L[i]}) == d.entries[L[i]].feerate
    ensures OneChunk(AsCluster(d), L, i, i + 1)
  {
    hide Closed;
    assert L[i..i + 1] == [L[i]];
    assert L[i] in Elems(L);
    TotalSingleton(AsCluster(d), L[i]);
  }

  /** The last chunk so far has a lower feerate than the new one exactly if the code finds so. */
  lemma CompareLast(g: Cluster, L: seq<Tx>, a: nat, b: nat, c: nat)
    requires IsList(g, L) && a < b < c <= |L|
    ensures Lower(Total(g, Segment(g, L, a, b)), Total(g, Segment(g, L, b, c))) <==>
              SegmentRate(g, L, a, b) < SegmentRate(g, L, b, c)
  {
    ByRatioIsRate(Total(g, Segment(g, L, a, b)), Total(g, Segment(g, L, b, c)));
  }

  /** The last chunk has been taken off, to be joined with what follows it. */
  lemma TakeLast(g: Cluster, L: seq<Tx>, cuts: seq<nat>, c: nat)
    requires Chunked(g, L, cuts) && |cuts| > 1 && OneChunk(g, L, cuts[|cuts| - 1], c)
    requires SegmentRate(g, L, cuts[|cuts| - 2], cuts[|cuts| - 1]) < SegmentRate(g, L, cuts[|cuts| - 1], c)
    ensures Chunked(g, L, cuts[..|cuts| - 1]) && OneChunk(g, L, cuts[|cuts| - 2], c)
    ensures cuts[|cuts| - 2] < cuts[|cuts| - 1] < c
  {
    hide SegmentRate;
    assert OneChunk(g, L, cuts[|cuts| - 2], cuts[|cuts| - 1]);
    AbsorbChunk(g, L, cuts[|cuts| - 2], cuts[|cuts| - 1], c);
  }

  lemma PutLast(g: Cluster, L: seq<Tx>, cuts: seq<nat>, c: nat)
    requires Chunked(g, L, cuts) && OneChunk(g, L, cuts[|cuts| - 1], c)
    requires |cuts| > 1 ==> cuts[|cuts| - 2] < cuts[|cuts| - 1]
    requires |cuts| > 1 ==> NotIncreasing(g, L, cuts[|cuts| - 2], cuts[|cuts| - 1], c)
    ensures Chunked(g, L, cuts + [c])
  {
    hide SegmentRate, NotIncreasing, IsList;
    var cuts' := cuts + [c];
    forall k | 0 <= k < |cuts'| - 1
      ensures OneChunk(g, L, cuts'[k], cuts'[k + 1])
    {
      if k < |cuts| - 1 {
        assert OneChunk(g, L, cuts[k], cuts[k + 1]);
      }
    }
    forall k | 0 <= k < |cuts'| - 2
      ensures NotIncreasing(g, L, cuts'[k], cuts'[k + 1], cuts'[k + 2])
    {
      if k < |cuts| - 2 {
        assert NotIncreasing(g, L, cuts[k], cuts[k + 1], cuts[k + 2]);
      }
    }
  }

  lemma LastChunk(g: Cluster, L: seq<Tx>, cuts: seq<nat>, c: nat)
    requires Chunked(g, L, cuts) && |cuts| > 1 && cuts[|cuts| - 1] < c <= |L|
    ensures cuts[|cuts| - 2] < cuts[|cuts| - 1]
    ensures Lower(Total(g, Segment(g, L, cuts[|cuts| - 2], cuts[|cuts| - 1])),
      Total(g, Segment(g, L, cuts[|cuts| - 1], c))) <==>
              SegmentRate(g, L, cuts[|cuts| - 2], cuts[|cuts| - 1]) < SegmentRate(g, L, cuts[|cuts| - 1], c)
  {
    hide SegmentRate;
    assert OneChunk(g, L, cuts[|cuts| - 2], cuts[|cuts| - 1]);
    CompareLast(g, L, cuts[|cuts| - 2], cuts[|cuts| - 1], c);
  }

  lemma JoinInfos(g: Cluster, L: seq<Tx>, a: nat, b: nat, c: nat, s: SetInfo, t: SetInfo)
    requires InfoOf(g, L, a, b, s) && InfoOf(g, L, b, c, t)
    ensures s.transactions !! t.transactions && InfoOf(g, L, a, c, Union(t, s))
  {
    SegmentJoin(g, L, a, b, c);
    TotalUnion(g, s.transactions, t.transactions);
  }

  /** Compute the chunks of a linearization. */
  method ChunkLinearizationInfo(dg: DepGraph, L: seq<Tx>) returns (ret: seq<SetInfo>, ghost cuts: seq<nat>)
    requires dg.Valid() && IsList(AsCluster(dg.d), L)
    ensures ChunksOf(AsCluster(dg.d), L, cuts) && InfosOf(AsCluster(dg.d), L, cuts, ret)
    ensures forall c :: ChunksOf(AsCluster(dg.d), L, c) ==> InfosOf(AsCluster(dg.d), L, c, ret)
  {
    hide ValidGraph, IsList, InfoOf, OneChunk, SegmentRate;
    ghost var g := AsCluster(dg.d);
    ret, cuts := [], [0];
    for i := 0 to |L|
      invariant Chunked(g, L, cuts) && cuts[|cuts| - 1] == i && InfosOf(g, L, cuts, ret)
    {
      hide Chunked;
      SingleSegment(dg.d, L, i);
      var chunk := SetInfo({L[i]}, dg.d.entries[L[i]].feerate);
      assert InfoOf(g, L, i, i + 1, chunk) by {
        SingleInfo(dg.d, L, i, chunk);
      }
      while |ret| > 0 && Lower(ret[|ret| - 1].feerate, chunk.feerate)
        invariant Chunked(g, L, cuts) && cuts[|cuts| - 1] <= i && InfosOf(g, L, cuts, ret)
        invariant OneChunk(g, L, cuts[|cuts| - 1], i + 1) && InfoOf(g, L, cuts[|cuts| - 1], i + 1, chunk)
      {
        var last := ret[|ret| - 1];
        InfoFacts(g, L, cuts, ret, i + 1, chunk);
        JoinInfos(g, L, cuts[|cuts| - 2], cuts[|cuts| - 1], i + 1, last, chunk);
        TakeLast(g, L, cuts, i + 1);
        chunk := Union(chunk, last);
        ret, cuts := ret[..|ret| - 1], cuts[..|cuts| - 1];
      }
      InfoFacts(g, L, cuts, ret, i + 1, chunk);
      PutLast(g, L, cuts, i + 1);
      ret, cuts := ret + [chunk], cuts + [i + 1];
    }
    forall c | ChunksOf(g, L, c)
      ensures c == cuts
    {
      ChunkingUnique(g, L, c, cuts);
    }
  }

  lemma SingleInfo(d: GraphData, L: seq<Tx>, i: nat, s: SetInfo)
    requires ValidGraph(d) && IsList(AsCluster(d), L) && i < |L| && L[i] < |d.entries|
    requires s == SetInfo({L[i]}, d.entries[L[i]].feerate)
    ensures InfoOf(AsCluster(d), L, i, i + 1, s)
  {
    SingleSegment(d, L, i);
  }

  /** The last chunk so far, if any, and the new one, as the code sees them. */
  lemma InfoFacts(g: Cluster, L: seq<Tx>, cuts: seq<nat>, infos: seq<SetInfo>, c: nat, s: SetInfo)
    requires Chunked(g, L, cuts) && InfosOf(g, L, cuts, infos) && InfoOf(g, L, cuts[|cuts| - 1], c, s)
    ensures |infos| > 0 ==> cuts[|cuts| - 2] < cuts[|cuts| - 1] < c <= |L|
    ensures |infos| > 0 ==> InfoOf(g, L, cuts[|cuts| - 2], cuts[|cuts| - 1], infos[|infos| - 1])
    ensures |infos| > 0 ==>
      (Lower(infos[|infos| - 1].feerate, s.feerate) <==> !NotIncreasing(g, L, cuts[|cuts| - 2], cuts[|cuts| - 1], c))
  {
    if |infos| > 0 {
      assert InfoOf(g, L, cuts[|infos| - 1], cuts[|infos|], infos[|infos| - 1]);
      LastChunk(g, L, cuts, c);
    }
  }

  /** Compute only the feerates of the chunks of a linearization. */
  method ChunkLinearization(dg: DepGraph, L: seq<Tx>)
    returns (ret: seq<FeeFrac>, ghost infos: seq<SetInfo>, ghost cuts: seq<nat>)
    requires dg.Valid() && IsList(AsCluster(dg.d), L)
    ensures ChunksOf(AsCluster(dg.d), L, cuts) && InfosOf(AsCluster(dg.d), L, cuts, infos) && FeeratesOf(infos, ret)
    ensures forall c, s :: ChunksOf(AsCluster(dg.d), L, c) && InfosOf(AsCluster(dg.d), L, c, s) ==> FeeratesOf(s, ret)
  {
    hide ValidGraph, IsList, InfoOf, OneChunk, SegmentRate;
    ghost var g := AsCluster(dg.d);
    ret, infos, cuts := [], [], [0];
    for i := 0 to |L|
      invariant Chunked(g, L, cuts) && cuts[|cuts| - 1] == i && InfosOf(g, L, cuts, infos) && FeeratesOf(infos, ret)
    {
      hide Chunked;
      SingleSegment(dg.d, L, i);
      var chunk := dg.d.entries[L[i]].feerate;
      ghost var info := SetInfo({L[i]}, chunk);
      SingleInfo(dg.d, L, i, info);
      while |ret| > 0 && Lower(ret[|ret| - 1], chunk)
        invariant Chunked(g, L, cuts) && cuts[|cuts| - 1] <= i && InfosOf(g, L, cuts, infos) && FeeratesOf(infos, ret)
        invariant OneChunk(g, L, cuts[|cuts| - 1], i + 1) && InfoOf(g, L, cuts[|cuts| - 1], i + 1, info)
        invariant chunk == info.feerate
      {
        var last := ret[|ret| - 1];
        InfoFacts(g, L, cuts, infos, i + 1, info);
        JoinInfos(g, L, cuts[|cuts| - 2], cuts[|cuts| - 1], i + 1, infos[|infos| - 1], info);
        TakeLast(g, L, cuts, i + 1);
        chunk, info := FeeFrac(chunk.fee + last.fee, chunk.size + last.size), Union(info, infos[|infos| - 1]);
        ret, infos, cuts := ret[..|ret| - 1], infos[..|infos| - 1], cuts[..|cuts| - 1];
      }
      InfoFacts(g, L, cuts, infos, i + 1, info);
      PutLast(g, L, cuts, i + 1);
      ret, infos, cuts := ret + [chunk], infos + [info], cuts + [i + 1];
    }
    forall c, s | ChunksOf(g, L, c) && InfosOf(g, L, c, s)
      ensures s == infos
    {
      ChunksDetermined(g, L, c, s, cuts, infos);
    }
  }

  /** There is one answer to either computation, and the one is the feerates of the other. */
  lemma ChunksDetermined(g: Cluster, L: seq<Tx>, cuts: seq<nat>, infos: seq<SetInfo>, cuts': seq<nat>,
      infos': seq<SetInfo>)
    requires ChunksOf(g, L, cuts) && InfosOf(g, L, cuts, infos)
    requires ChunksOf(g, L, cuts') && InfosOf(g, L, cuts', infos')
    ensures infos == infos'
  {
    ChunkingUnique(g, L, cuts, cuts');
    forall k | 0 <= k < |infos|
      ensures infos[k] == infos'[k]
    {
      assert InfoOf(g, L, cuts[k], cuts[k + 1], infos[k]) && InfoOf(g, L, cuts[k], cuts[k + 1], infos'[k]);
    }
  }
}
