/** What postlinearization guarantees. */
module PostLinearization {
  import opened Clusters
  import opened Forests
  import opened Linearizations
  import opened DepGraphs
  import opened Chunking
  import opened GroupLists
  import opened Mirrors

  // ---------- orders that respect dependencies ----------

  /** Parents before children is the same as ancestors before descendants. */
  lemma ValidIffInOrder(d: GraphData, L: seq<Tx>)
    requires ValidGraph(d) && AcyclicGraph(d) && Distinct(L) && Elems(L) == d.used
    ensures ValidLinearization(AsCluster(d), L) <==> InOrder(d, L)
  {
    hide ValidGraph, AcyclicGraph;
    if ValidLinearization(AsCluster(d), L) {
      ValidInOrder(d, L);
    }
    if InOrder(d, L) {
      InOrderValid(d, L);
    }
  }

  lemma ValidInOrder(d: GraphData, L: seq<Tx>)
    requires ValidGraph(d) && AcyclicGraph(d) && ValidLinearization(AsCluster(d), L)
    ensures InOrder(d, L)
  {
    hide ValidGraph, AcyclicGraph;
    forall m, n | 0 <= m < n < |L| && L[m] < |d.entries|
      ensures L[n] !in Anc(d, L[m])
    {
      var S := Elems(L[..m + 1]);
      assert L[m] in S && L[m] in Elems(L);
      assert L[n] !in S;
      PrefixClosed(AsCluster(d), L, m + 1);
      if L[n] in Anc(d, L[m]) {
        ClosedUnderAncestors(d, S, L[m], L[n]);
      }
    }
  }

  lemma InOrderValid(d: GraphData, L: seq<Tx>)
    requires ValidGraph(d) && AcyclicGraph(d) && Distinct(L) && Elems(L) == d.used && InOrder(d, L)
    ensures ValidLinearization(AsCluster(d), L)
  {
    var g := AsCluster(d);
    forall m, e | 0 <= m < |L| && e in g.deps && e.chl == L[m]
      ensures e.par in L[..m]
    {
      assert e.par in Elems(L);
      var n :| 0 <= n < |L| && L[n] == e.par;
      assert e.par in Anc(d, e.chl) && e.par != e.chl;
      assert n < m;
      assert L[..m][n] == e.par;
    }
  }

  lemma AsGoodTrans(g: Cluster, L: seq<Tx>, L': seq<Tx>, L'': seq<Tx>)
    requires AsGoodAs(g, L, L') && AsGoodAs(g, L', L'')
    ensures AsGoodAs(g, L, L'')
  {
    forall m: nat, theta: real | m <= |L''|
      ensures ReachesAt(g, L, PrefixGain(g, L'', m, theta), theta)
    {
      assert ReachesAt(g, L', PrefixGain(g, L'', m, theta), theta);
      var n: nat :| n <= |L'| && PrefixGain(g, L', n, theta) >= PrefixGain(g, L'', m, theta);
      assert ReachesAt(g, L, PrefixGain(g, L', n, theta), theta);
    }
  }

  // ---------- one pass ----------

  /** The order that a pass leaves. */
  ghost function PassResult(d: GraphData, L: seq<Tx>): seq<Tx>
    requires ValidGraph(d)
  {
    Flatten(Pass(d, L, |L|))
  }

  lemma PassAsGood(d: GraphData, L: seq<Tx>)
    requires ValidGraph(d) && IsList(AsCluster(d), L) && InOrder(d, L)
    ensures IsList(AsCluster(d), PassResult(d, L)) && InOrder(d, PassResult(d, L))
    ensures Elems(PassResult(d, L)) == Elems(L)
    ensures AsGoodAs(AsCluster(d), PassResult(d, L), L)
  {
    hide ValidGraph, InOrder, Falling, AllFine, Flatten, Pass, Distinct;
    var g, gs := AsCluster(d), Pass(d, L, |L|);
    PassShape(d, L, |L|);
    assert L[..|L|] == L;
    forall m: nat, theta: real | m <= |L|
      ensures ReachesAt(g, Flatten(gs), PrefixGain(g, L, m, theta), theta)
    {
      var b := PassGain(d, L, |L|, m, theta);
      StartOfFlat(gs, b);
      var n := |Flatten(gs[..b])|;
      assert Flatten(gs)[..n] == Flatten(gs[..b]);
      assert PrefixGain(g, Flatten(gs), n, theta) >= PrefixGain(g, L, m, theta);
    }
  }

  /** Where the groups end. */
  ghost function Ends(gs: seq<Group>): (r: seq<nat>)
    ensures |r| == |gs| + 1
    ensures forall k :: 0 <= k <= |gs| ==> r[k] == |Flatten(gs[..k])|
  {
    seq(|gs| + 1, k requires 0 <= k <= |gs| => |Flatten(gs[..k])|)
  }

  lemma GroupInFlat(gs: seq<Group>, k: nat)
    requires k < |gs|
    ensures Ends(gs)[k + 1] == Ends(gs)[k] + |gs[k]| <= |Flatten(gs)|
    ensures Flatten(gs)[Ends(gs)[k]..Ends(gs)[k + 1]] == gs[k]
  {
    hide Flatten;
    FlattenUpTo(gs, k);
    FlattenAt(gs, k);
  }

  /** The chunk from `a` to `b` is connected, through ancestors within it. */
  ghost predicate ConnectedSegment(d: GraphData, L: seq<Tx>, a: nat, b: nat) {
    && ValidGraph(d) && IsList(AsCluster(d), L) && a <= b <= |L|
    && ConnectedBy(Segment(AsCluster(d), L, a, b), Pairs(d))
  }

  /** The chunks of `L` are connected. */
  ghost predicate ConnectedChunks(d: GraphData, L: seq<Tx>) {
    && ValidGraph(d)
    && exists cuts :: ChunksOf(AsCluster(d), L, cuts) && SegmentsConnected(d, L, cuts)
  }

  ghost predicate SegmentsConnected(d: GraphData, L: seq<Tx>, cuts: seq<nat>) {
    forall k :: 0 <= k < |cuts| - 1 ==> ConnectedSegment(d, L, cuts[k], cuts[k + 1])
  }

  lemma FineSegment(d: GraphData, gs: seq<Group>, k: nat)
    requires ValidGraph(d) && IsList(AsCluster(d), Flatten(gs)) && k < |gs| && Fine(d, gs[k])
    ensures Ends(gs)[k] < Ends(gs)[k + 1] <= |Flatten(gs)|
    ensures OneChunk(AsCluster(d), Flatten(gs), Ends(gs)[k], Ends(gs)[k + 1])
    ensures ConnectedSegment(d, Flatten(gs), Ends(gs)[k], Ends(gs)[k + 1])
    ensures Elems(gs[k]) <= AsCluster(d).txs
    ensures SegmentRate(AsCluster(d), Flatten(gs), Ends(gs)[k], Ends(gs)[k + 1]) == GroupRate(AsCluster(d), gs[k])
  {
    hide ValidGraph, Flatten, Distinct, OneChunk, SegmentRate, GroupRate;
    GroupInFlat(gs, k);
    PartOneChunk(AsCluster(d), Flatten(gs), gs[k], Ends(gs)[k]);
  }

  ghost predicate FallingAt(g: Cluster, L: seq<Tx>, cuts: seq<nat>, k: nat) {
    && IsList(g, L) && k + 2 < |cuts| && cuts[k] < cuts[k + 1] < cuts[k + 2] <= |L|
    && NotIncreasing(g, L, cuts[k], cuts[k + 1], cuts[k + 2])
  }

  /** The groups are the chunks of the order, and are connected. */
  lemma GroupsAreChunks(d: GraphData, gs: seq<Group>)
    requires GoodGroups(d, gs) && Falling(AsCluster(d), gs) && AllFine(d, gs)
    ensures ConnectedChunks(d, Flatten(gs))
  {
    hide ValidGraph, Fine, IsList, OneChunk, ConnectedSegment, SegmentRate, GroupRate, InOrder, Flatten;
    var g, L, cuts := AsCluster(d), Flatten(gs), Ends(gs);
    forall k | 0 <= k < |gs|
      ensures OneChunk(g, L, cuts[k], cuts[k + 1]) && ConnectedSegment(d, L, cuts[k], cuts[k + 1])
    {
      FineSegment(d, gs, k);
    }
    forall k | 0 <= k < |gs| - 1
      ensures FallingAt(g, L, cuts, k)
    {
      FineSegment(d, gs, k);
      FineSegment(d, gs, k + 1);
      assert NotBelow(g, gs[k], gs[k + 1]);
    }
    assert gs[..|gs|] == gs && gs[..0] == [];
    EmptyFlat();
    assert forall k :: 0 <= k < |gs| - 1 ==> FallingAt(g, L, cuts, k);
    forall k | 0 <= k < |cuts| - 2
      ensures NotIncreasing(g, L, cuts[k], cuts[k + 1], cuts[k + 2])
    {
      assert FallingAt(g, L, cuts, k);
    }
    assert ChunksOf(g, L, cuts);
    assert SegmentsConnected(d, L, cuts);
  }

  lemma PassConnected(d: GraphData, L: seq<Tx>)
    requires ValidGraph(d) && IsList(AsCluster(d), L) && InOrder(d, L)
    ensures ConnectedChunks(d, PassResult(d, L))
  {
    hide ValidGraph, IsList, InOrder, ConnectedChunks, GoodGroups, Falling, AllFine;
    PassShape(d, L, |L|);
    GroupsAreChunks(d, Pass(d, L, |L|));
  }

  // ---------- both passes ----------

  /** The pass from back to front. */
  ghost function BackwardResult(d: GraphData, L: seq<Tx>): seq<Tx>
    requires ValidGraph(d)
  {
    MirroredValid(d);
    Reversed(PassResult(Mirrored(d), Reversed(L)))
  }

  lemma BackwardAsGood(d: GraphData, L: seq<Tx>)
    requires ValidGraph(d) && IsList(AsCluster(d), L) && InOrder(d, L)
    ensures IsList(AsCluster(d), BackwardResult(d, L)) && InOrder(d, BackwardResult(d, L))
    ensures Elems(BackwardResult(d, L)) == Elems(L)
    ensures AsGoodAs(AsCluster(d), BackwardResult(d, L), L)
  {
    hide ValidGraph, InOrder, AsGoodAs, Distinct, PassResult;
    MirroredValid(d);
    MirroredTwice(d);
    var r, K := Mirrored(d), Reversed(L);
    var K' := PassResult(r, K);
    ReversedElems(L);
    ReversedInOrder(d, L);
    PassAsGood(r, K);
    ReversedElems(K');
    ReversedTwice(L);
    ReversedTwice(K');
    ReversedInOrder(r, K');
    MirroredAsGood(d, Reversed(K'), L);
  }

  /** What the two passes leave. */
  ghost function PostLinearized(d: GraphData, L: seq<Tx>): seq<Tx>
    requires ValidGraph(d)
  {
    PassResult(d, BackwardResult(d, L))
  }

  /** Postlinearization turns a valid linearization into a valid one whose diagram is nowhere worse
      and whose chunks are connected. */
  lemma PostLinearizeGuarantee(d: GraphData, L: seq<Tx>)
    requires ValidGraph(d) && AcyclicGraph(d) && ValidLinearization(AsCluster(d), L)
    ensures ValidLinearization(AsCluster(d), PostLinearized(d, L))
    ensures AsGoodAs(AsCluster(d), PostLinearized(d, L), L)
    ensures ConnectedChunks(d, PostLinearized(d, L))
  {
    hide ValidGraph, AcyclicGraph, InOrder, AsGoodAs, Distinct, PassResult, BackwardResult, ConnectedChunks;
    ValidInOrder(d, L);
    BackwardAsGood(d, L);
    var K := BackwardResult(d, L);
    PassAsGood(d, K);
    PassConnected(d, K);
    InOrderValid(d, PassResult(d, K));
    AsGoodTrans(AsCluster(d), PassResult(d, K), K, L);
  }
}
