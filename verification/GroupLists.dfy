/** One pass of postlinearization, as an operation on a list of groups of transactions. */
module GroupLists {
  import opened FeeRates
  import opened Clusters
  import opened Forests
  import opened Linearizations
  import opened DepGraphs
  import opened Chunking

  /** A non-empty sequence of transactions. */
  type Group = s: seq<Tx> | |s| > 0 witness [0]

  /** The concatenation of the groups. */
  ghost function Flatten(gs: seq<Group>): seq<Tx> {
    if |gs| == 0 then [] else Flatten(gs[..|gs| - 1]) + gs[|gs| - 1]
  }

  lemma {:induction false} FlattenAppend(gs: seq<Group>, hs: seq<Group>)
    ensures Flatten(gs + hs) == Flatten(gs) + Flatten(hs)
  {
    if |hs| == 0 {
      assert gs + hs == gs;
    } else {
      var last := hs[|hs| - 1];
      assert (gs + hs)[..|gs + hs| - 1] == gs + hs[..|hs| - 1];
      FlattenAppend(gs, hs[..|hs| - 1]);
      assert Flatten(gs) + (Flatten(hs[..|hs| - 1]) + last) == Flatten(gs) + Flatten(hs[..|hs| - 1]) + last;
    }
  }

  lemma FlattenOne(h: Group)
    ensures Flatten([h]) == h
  {
    assert [h][..0] == [];
    assert [] + h == h;
  }

  /** The list around the group at place `k`. */
  lemma FlattenAt(gs: seq<Group>, k: nat)
    requires k < |gs|
    ensures Flatten(gs) == Flatten(gs[..k]) + gs[k] + Flatten(gs[k + 1..])
  {
    hide Flatten;
    var x, y := gs[..k + 1], gs[k + 1..];
    assert gs == x + y;
    FlattenAppend(x, y);
    FlattenUpTo(gs, k);
  }

  /** The list around the groups before and at place `k`. */
  lemma FlattenAround(gs: seq<Group>, k: nat)
    requires 0 < k < |gs|
    ensures Flatten(gs) == Flatten(gs[..k - 1]) + gs[k - 1] + gs[k] + Flatten(gs[k + 1..])
  {
    hide Flatten;
    FlattenAt(gs, k);
    FlattenUpTo(gs, k - 1);
  }

  lemma FlattenUpTo(gs: seq<Group>, k: nat)
    requires k < |gs|
    ensures Flatten(gs[..k + 1]) == Flatten(gs[..k]) + gs[k]
  {
    assert gs[..k + 1][..k] == gs[..k];
  }

  // ---------- the steps ----------

  /** Some member of `c` has an ancestor in `p`. */
  ghost predicate Needs(d: GraphData, c: Group, p: Group) {
    exists m, n :: 0 <= m < |c| && 0 <= n < |p| && c[m] < |d.entries| && p[n] in Anc(d, c[m])
  }

  ghost predicate Beats(g: Cluster, c: Group, p: Group) {
    && Elems(c) <= g.txs && Elems(p) <= g.txs
    && Lower(Total(g, Elems(p)), Total(g, Elems(c)))
  }

  ghost function Merged(gs: seq<Group>, k: nat): (hs: seq<Group>)
    requires 0 < k < |gs|
    ensures |hs| == |gs| - 1
  {
    gs[..k - 1] + [gs[k - 1] + gs[k]] + gs[k + 1..]
  }

  ghost function Swapped(gs: seq<Group>, k: nat): (hs: seq<Group>)
    requires 0 < k < |gs|
    ensures |hs| == |gs|
  {
    gs[..k - 1] + [gs[k], gs[k - 1]] + gs[k + 1..]
  }

  ghost function Stepped(d: GraphData, gs: seq<Group>, k: nat): (r: seq<Group>)
    requires 0 < k < |gs|
    ensures |r| >= k
  {
    if Needs(d, gs[k], gs[k - 1]) then Merged(gs, k) else Swapped(gs, k)
  }

  /** Move group `k` forward as long as it beats the group before it, merging with those it needs. */
  ghost function Settled(d: GraphData, gs: seq<Group>, k: nat): seq<Group>
    requires ValidGraph(d) && k < |gs|
    decreases k
  {
    if k > 0 && Beats(AsCluster(d), gs[k], gs[k - 1]) then Settled(d, Stepped(d, gs, k), k - 1) else gs
  }

  /** The groups after the first `n` transactions of `L` have been added one by one. */
  ghost function Pass(d: GraphData, L: seq<Tx>, n: nat): seq<Group>
    requires ValidGraph(d) && n <= |L|
  {
    if n == 0 then []
    else
      var gs := Pass(d, L, n - 1) + [[L[n - 1]]];
      Settled(d, gs, |gs| - 1)
  }

  // ---------- what the steps keep ----------

  /** No transaction comes before one of its ancestors. */
  ghost predicate InOrder(d: GraphData, L: seq<Tx>) {
    forall m, n :: 0 <= m < n < |L| && L[m] < |d.entries| ==> L[n] !in Anc(d, L[m])
  }

  lemma SwapElems(A: seq<Tx>, P: seq<Tx>, C: seq<Tx>, B: seq<Tx>)
    ensures Elems(A + P + C + B) == Elems(A + C + P + B) == Elems(A) + Elems(P) + Elems(C) + Elems(B)
  {
  }

  /** Where the elements come from when two parts of a sequence are swapped. */
  ghost function Unswap(a: nat, p: nat, c: nat, m: nat): nat {
    if a <= m < a + c then m + p else if a + c <= m < a + c + p then m - c else m
  }

  lemma UnswapAt(A: seq<Tx>, P: seq<Tx>, C: seq<Tx>, B: seq<Tx>, m: nat)
    requires m < |A + C + P + B|
    ensures Unswap(|A|, |P|, |C|, m) < |A + P + C + B|
    ensures (A + C + P + B)[m] == (A + P + C + B)[Unswap(|A|, |P|, |C|, m)]
  {
  }

  lemma SwapDistinct(A: seq<Tx>, P: seq<Tx>, C: seq<Tx>, B: seq<Tx>)
    requires Distinct(A + P + C + B)
    ensures Distinct(A + C + P + B)
  {
    var L, L' := A + P + C + B, A + C + P + B;
    forall m, n | 0 <= m < n < |L'|
      ensures L'[m] != L'[n]
    {
      UnswapAt(A, P, C, B, m);
      UnswapAt(A, P, C, B, n);
      var i, j := Unswap(|A|, |P|, |C|, m), Unswap(|A|, |P|, |C|, n);
      assert i < j || j < i;
    }
  }

  lemma SwapInOrder(d: GraphData, A: seq<Tx>, P: Group, C: Group, B: seq<Tx>)
    requires InOrder(d, A + P + C + B) && !Needs(d, C, P)
    ensures InOrder(d, A + C + P + B)
  {
    var L, L' := A + P + C + B, A + C + P + B;
    forall m, n | 0 <= m < n < |L'| && L'[m] < |d.entries|
      ensures L'[n] !in Anc(d, L'[m])
    {
      UnswapAt(A, P, C, B, m);
      UnswapAt(A, P, C, B, n);
      var i, j := Unswap(|A|, |P|, |C|, m), Unswap(|A|, |P|, |C|, n);
      if i > j {
        assert L'[m] == C[m - |A|] && L'[n] == P[n - |A| - |C|];
      }
    }
  }

  /** The groups hold distinct transactions of the graph, none before one of its ancestors. */
  ghost predicate GoodGroups(d: GraphData, gs: seq<Group>) {
    && ValidGraph(d)
    && IsList(AsCluster(d), Flatten(gs)) && InOrder(d, Flatten(gs))
  }

  lemma FlattenMerged(gs: seq<Group>, k: nat)
    requires 0 < k < |gs|
    ensures Flatten(Merged(gs, k)) == Flatten(gs)
  {
    var x, p, c, y := gs[..k - 1], gs[k - 1], gs[k], gs[k + 1..];
    FlattenAround(gs, k);
    FlattenAppend(x + [p + c], y);
    FlattenAppend(x, [p + c]);
    FlattenOne(p + c);
    assert Flatten(x) + (p + c) == Flatten(x) + p + c;
  }

  lemma FlattenSwapped(gs: seq<Group>, k: nat)
    requires 0 < k < |gs|
    ensures Flatten(Swapped(gs, k)) == Flatten(gs[..k - 1]) + gs[k] + gs[k - 1] + Flatten(gs[k + 1..])
  {
    var hs := Swapped(gs, k);
    assert hs[..k - 1] == gs[..k - 1] && hs[k + 1..] == gs[k + 1..];
    FlattenAround(hs, k);
  }

  lemma SteppedGood(d: GraphData, gs: seq<Group>, k: nat)
    requires GoodGroups(d, gs) && 0 < k < |gs|
    ensures GoodGroups(d, Stepped(d, gs, k)) && Elems(Flatten(Stepped(d, gs, k))) == Elems(Flatten(gs))
  {
    hide ValidGraph;
    if Needs(d, gs[k], gs[k - 1]) {
      FlattenMerged(gs, k);
    } else {
      FlattenAround(gs, k);
      FlattenSwapped(gs, k);
      var A, P, C, B := Flatten(gs[..k - 1]), gs[k - 1], gs[k], Flatten(gs[k + 1..]);
      SwapElems(A, P, C, B);
      SwapDistinct(A, P, C, B);
      SwapInOrder(d, A, P, C, B);
    }
  }

  lemma SteppedElems(d: GraphData, gs: seq<Group>, k: nat)
    requires 0 < k < |gs|
    ensures Elems(Flatten(Stepped(d, gs, k))) == Elems(Flatten(gs))
  {
    if Needs(d, gs[k], gs[k - 1]) {
      FlattenMerged(gs, k);
    } else {
      FlattenAround(gs, k);
      FlattenSwapped(gs, k);
      SwapElems(Flatten(gs[..k - 1]), gs[k - 1], gs[k], Flatten(gs[k + 1..]));
    }
  }

  // ---------- the diagram never gets worse ----------

  /** What the first `b` groups pay beyond the threshold. */
  ghost function GroupsGain(g: Cluster, gs: seq<Group>, b: nat, theta: real): real
    requires IsList(g, Flatten(gs)) && b <= |gs|
  {
    StartOfFlat(gs, b);
    GainOf(g, Elems(Flatten(gs[..b])), theta)
  }

  lemma StartOfFlat(gs: seq<Group>, b: nat)
    requires b <= |gs|
    ensures Flatten(gs[..b]) <= Flatten(gs) && Elems(Flatten(gs[..b])) <= Elems(Flatten(gs))
  {
    assert gs == gs[..b] + gs[b..];
    FlattenAppend(gs[..b], gs[b..]);
  }

  lemma GroupsGainNext(g: Cluster, gs: seq<Group>, b: nat, theta: real)
    requires IsList(g, Flatten(gs)) && b < |gs|
    ensures Elems(gs[b]) <= g.txs
    ensures GroupsGain(g, gs, b + 1, theta) == GroupsGain(g, gs, b, theta) + GainOf(g, Elems(gs[b]), theta)
  {
    hide Flatten, Distinct;
    FlattenUpTo(gs, b);
    FlattenAt(gs, b);
    PartsApart(g, Flatten(gs[..b]), gs[b], Flatten(gs[b + 1..]));
    GainUnion(g, Elems(Flatten(gs[..b])), Elems(gs[b]), theta);
  }

  lemma PartsApart(g: Cluster, A: seq<Tx>, C: seq<Tx>, B: seq<Tx>)
    requires IsList(g, A + C + B)
    ensures Elems(A) !! Elems(C) && Elems(A) <= g.txs && Elems(C) <= g.txs && Elems(A + C) == Elems(A) + Elems(C)
    ensures IsList(g, C)
  {
    var L := A + C + B;
    forall t | t in A
      ensures t in Elems(L) && t !in C
    {
      var m :| 0 <= m < |A| && A[m] == t;
      assert L[m] == t;
      forall n | 0 <= n < |C|
        ensures C[n] != t
      {
        assert L[|A| + n] == C[n];
      }
    }
    forall t | t in C
      ensures t in Elems(L)
    {
      var n :| 0 <= n < |C| && C[n] == t;
      assert L[|A| + n] == t;
    }
    forall m, n | 0 <= m < n < |C|
      ensures C[m] != C[n]
    {
      assert L[|A| + m] == C[m] && L[|A| + n] == C[n];
    }
  }

  lemma SteppedPrefix(d: GraphData, gs: seq<Group>, k: nat, b: nat)
    requires 0 < k < b <= |gs|
    ensures |Stepped(d, gs, k)| == |gs| - (if Needs(d, gs[k], gs[k - 1]) then 1 else 0)
    ensures var b' := if Needs(d, gs[k], gs[k - 1]) then b - 1 else b;
      Stepped(d, gs, k)[..b'] == Stepped(d, gs[..b], k)
  {
    assert gs[..b][k + 1..] == gs[k + 1..][..b - k - 1];
    assert gs[..b][..k - 1] == gs[..k - 1];
  }

  /** Wherever the groups before a step reach, those after it do. */
  lemma SteppedGain(d: GraphData, gs: seq<Group>, k: nat, b: nat, theta: real) returns (b': nat)
    requires GoodGroups(d, gs) && 0 < k < |gs| && Beats(AsCluster(d), gs[k], gs[k - 1]) && b <= |gs|
    requires GoodGroups(d, Stepped(d, gs, k))
    ensures b' <= |Stepped(d, gs, k)|
    ensures GroupsGain(AsCluster(d), Stepped(d, gs, k), b', theta) >= GroupsGain(AsCluster(d), gs, b, theta)
  {
    hide ValidGraph, InOrder, IsList, Needs;
    var g := AsCluster(d);
    var b0 := b;
    if b == k {
      GroupsGainNext(g, gs, k - 1, theta);
      GroupsGainNext(g, gs, k, theta);
      var P, C := Elems(gs[k - 1]), Elems(gs[k]);
      assert gs[k - 1][0] in P && gs[k][0] in C;
      ByRatioIsRate(Total(g, P), Total(g, C));
      GainAtRate(g, P, theta);
      GainAtRate(g, C, theta);
      b0 := if GainOf(g, P, theta) > 0.0 then k + 1 else k - 1;
    }
    assert GroupsGain(g, gs, b0, theta) >= GroupsGain(g, gs, b, theta);
    if b0 < k {
      b' := b0;
      assert Stepped(d, gs, k)[..b0] == gs[..b0];
    } else {
      SteppedPrefix(d, gs, k, b0);
      SteppedElems(d, gs[..b0], k);
      b' := if Needs(d, gs[k], gs[k - 1]) then b0 - 1 else b0;
    }
  }

  // ---------- the groups become the chunks ----------

  ghost function GroupRate(g: Cluster, c: Group): real
    requires Elems(c) <= g.txs
  {
    assert c[0] in Elems(c);
    R(g, Elems(c))
  }

  ghost predicate NotBelow(g: Cluster, c: Group, c': Group) {
    Elems(c) <= g.txs && Elems(c') <= g.txs && GroupRate(g, c) >= GroupRate(g, c')
  }

  ghost predicate Above(g: Cluster, c: Group, c': Group) {
    Elems(c) <= g.txs && Elems(c') <= g.txs && GroupRate(g, c) > GroupRate(g, c')
  }

  /** The feerates of the groups do not increase, except that group `k` may still have to move forward. */
  ghost predicate FallingBut(g: Cluster, gs: seq<Group>, k: nat) {
    && (forall i, j :: 0 <= i < j < |gs| && i != k && j != k ==> NotBelow(g, gs[i], gs[j]))
    && (forall j :: k < j < |gs| && k < |gs| ==> Above(g, gs[k], gs[j]))
  }

  ghost predicate Falling(g: Cluster, gs: seq<Group>) {
    forall i, j :: 0 <= i < j < |gs| ==> NotBelow(g, gs[i], gs[j])
  }

  /** All pairs of a transaction and one of its proper ancestors. */
  ghost function Pairs(d: GraphData): set<Dep>
    requires InRange(d)
  {
    set a, c | a in d.used && c in d.used && a != c && a in Anc(d, c) :: Dep(a, c)
  }

  /** The group is a single chunk, and connected through ancestors within it. */
  ghost predicate Fine(d: GraphData, c: Group) {
    && ValidGraph(d)
    && OneChunk(AsCluster(d), c, 0, |c|) && ConnectedBy(Elems(c), Pairs(d))
  }

  lemma FineElems(d: GraphData, c: Group)
    requires Fine(d, c)
    ensures IsList(AsCluster(d), c) && Elems(c) <= AsCluster(d).txs == d.used
  {
  }

  lemma BeatsIsAbove(g: Cluster, c: Group, p: Group)
    requires Elems(c) <= g.txs && Elems(p) <= g.txs
    ensures Beats(g, c, p) <==> Above(g, c, p)
  {
    assert c[0] in Elems(c) && p[0] in Elems(p);
    ByRatioIsRate(Total(g, Elems(p)), Total(g, Elems(c)));
  }

  lemma PartOneChunk(g: Cluster, L: seq<Tx>, c: Group, a: nat)
    requires IsList(g, L) && a + |c| <= |L| && L[a..a + |c|] == c && OneChunk(g, c, 0, |c|)
    ensures OneChunk(g, L, a, a + |c|)
    ensures Segment(g, L, a, a + |c|) == Elems(c) <= g.txs && SegmentRate(g, L, a, a + |c|) == GroupRate(g, c)
  {
    assert c[0..|c|] == c;
    forall m | a < m < a + |c|
      ensures SegmentRate(g, L, a, m) < SegmentRate(g, L, a, a + |c|)
    {
      assert L[a..m] == c[0..m - a];
      assert SegmentRate(g, c, 0, m - a) < SegmentRate(g, c, 0, |c|);
    }
  }

  lemma WholeRate(g: Cluster, c: Group)
    requires IsList(g, c)
    ensures Elems(c) <= g.txs && SegmentRate(g, c, 0, |c|) == GroupRate(g, c)
  {
    assert c[0..|c|] == c;
  }

  /** A group merged with one that it needs and beats is a connected chunk again. */
  lemma MergedFine(d: GraphData, p: Group, c: Group)
    requires Fine(d, p) && Fine(d, c) && IsList(AsCluster(d), p + c)
    requires Needs(d, c, p) && Above(AsCluster(d), c, p)
    ensures Fine(d, p + c)
    ensures Above(AsCluster(d), p + c, p)
  {
    hide ValidGraph, IsList, ConnectedBy, OneChunk, SegmentRate, GroupRate, Needs;
    var g, L := AsCluster(d), p + c;
    PartOneChunk(g, L, p, 0);
    PartOneChunk(g, L, c, |p|);
    AbsorbChunk(g, L, 0, |p|, |L|);
    SegmentRates(g, L, 0, |p|, |L|);
    WholeRate(g, L);
    MergedConnected(d, p, c);
  }

  lemma MergedConnected(d: GraphData, p: Group, c: Group)
    requires Fine(d, p) && Fine(d, c) && IsList(AsCluster(d), p + c) && Needs(d, c, p)
    ensures ConnectedBy(Elems(p + c), Pairs(d))
  {
    hide OneChunk, ConnectedBy;
    var L := p + c;
    var m, n :| 0 <= m < |c| && 0 <= n < |p| && c[m] < |d.entries| && p[n] in Anc(d, c[m]);
    FineElems(d, p);
    FineElems(d, c);
    assert c[m] in Elems(c) && p[n] in Elems(p);
    assert L[n] == p[n] && L[|p| + m] == c[m];
    assert Dep(p[n], c[m]) in Pairs(d);
    assert p + c + [] == L;
    PartsApart(AsCluster(d), p, c, []);
    ConnectedUnion(Elems(p), Elems(c), Pairs(d), Dep(p[n], c[m]));
  }

  lemma AboveThen(g: Cluster, a: Group, b: Group, c: Group)
    requires Above(g, a, b) && NotBelow(g, b, c)
    ensures Above(g, a, c)
  {
  }

  /** Moving group `k` before the one that it beats. */
  lemma SwappedFalling(g: Cluster, gs: seq<Group>, k: nat)
    requires 0 < k < |gs| && FallingBut(g, gs, k) && Above(g, gs[k], gs[k - 1])
    ensures FallingBut(g, Swapped(gs, k), k - 1)
  {
    hide NotBelow, Above;
    var hs := Swapped(gs, k);
    assert forall i :: 0 <= i < |gs| ==> hs[i] == gs[if i == k then k - 1 else if i == k - 1 then k else i];
  }

  /** Merging group `k` with the one before it. */
  lemma MergedFalling(g: Cluster, gs: seq<Group>, k: nat)
    requires 0 < k < |gs| && FallingBut(g, gs, k) && Above(g, gs[k - 1] + gs[k], gs[k - 1])
    ensures FallingBut(g, Merged(gs, k), k - 1)
  {
    hide NotBelow, Above;
    var hs := Merged(gs, k);
    assert forall i :: 0 <= i < |hs| && i != k - 1 ==> hs[i] == gs[if i < k then i else i + 1];
    forall j | k - 1 < j < |hs|
      ensures Above(g, hs[k - 1], hs[j])
    {
      AboveThen(g, hs[k - 1], gs[k - 1], gs[j + 1]);
    }
  }

  /** Every group is a connected chunk. */
  ghost predicate AllFine(d: GraphData, gs: seq<Group>) {
    forall i :: 0 <= i < |gs| ==> Fine(d, gs[i])
  }

  lemma SteppedShape(d: GraphData, gs: seq<Group>, k: nat)
    requires GoodGroups(d, gs) && 0 < k < |gs| && Beats(AsCluster(d), gs[k], gs[k - 1])
    requires FallingBut(AsCluster(d), gs, k) && AllFine(d, gs)
    ensures FallingBut(AsCluster(d), Stepped(d, gs, k), k - 1) && AllFine(d, Stepped(d, gs, k))
  {
    hide ValidGraph, InOrder, FallingBut, Fine, Flatten, Needs, Beats, Above, IsList;
    var g := AsCluster(d);
    FineElems(d, gs[k]);
    FineElems(d, gs[k - 1]);
    BeatsIsAbove(g, gs[k], gs[k - 1]);
    if Needs(d, gs[k], gs[k - 1]) {
      FlattenAround(gs, k);
      var A, P, C, B := Flatten(gs[..k - 1]), gs[k - 1], gs[k], Flatten(gs[k + 1..]);
      assert A + P + C + B == A + (P + C) + B;
      PartsApart(g, A, P + C, B);
      MergedFine(d, P, C);
      MergedFalling(g, gs, k);
    } else {
      SwappedFalling(g, gs, k);
    }
  }

  lemma NotBeaten(d: GraphData, gs: seq<Group>, k: nat)
    requires ValidGraph(d) && k < |gs| && AllFine(d, gs) && FallingBut(AsCluster(d), gs, k)
    requires k > 0 ==> !Beats(AsCluster(d), gs[k], gs[k - 1])
    ensures Falling(AsCluster(d), gs)
  {
    hide ValidGraph;
    var g := AsCluster(d);
    forall i | 0 <= i < |gs|
      ensures Elems(gs[i]) <= g.txs
    {
      FineElems(d, gs[i]);
    }
    if k > 0 {
      BeatsIsAbove(g, gs[k], gs[k - 1]);
    }
    forall i, j | 0 <= i < j < |gs|
      ensures NotBelow(g, gs[i], gs[j])
    {
      if j == k && i < k - 1 {
        assert NotBelow(g, gs[i], gs[k - 1]);
      }
    }
  }

  lemma {:induction false} SettledShape(d: GraphData, gs: seq<Group>, k: nat)
    requires GoodGroups(d, gs) && k < |gs| && FallingBut(AsCluster(d), gs, k) && AllFine(d, gs)
    ensures GoodGroups(d, Settled(d, gs, k)) && Elems(Flatten(Settled(d, gs, k))) == Elems(Flatten(gs))
    ensures Falling(AsCluster(d), Settled(d, gs, k)) && AllFine(d, Settled(d, gs, k))
    decreases k
  {
    hide ValidGraph, GoodGroups, FallingBut, Falling, AllFine, Flatten, Beats;
    GraphOf(d, gs);
    if k > 0 && Beats(AsCluster(d), gs[k], gs[k - 1]) {
      SteppedGood(d, gs, k);
      SteppedShape(d, gs, k);
      SettledShape(d, Stepped(d, gs, k), k - 1);
    } else {
      NotBeaten(d, gs, k);
    }
  }

  lemma GraphOf(d: GraphData, gs: seq<Group>)
    requires GoodGroups(d, gs)
    ensures ValidGraph(d) && IsList(AsCluster(d), Flatten(gs)) && InOrder(d, Flatten(gs))
  {
  }

  lemma {:induction false} SettledGain(d: GraphData, gs: seq<Group>, k: nat, b: nat, theta: real) returns (b': nat)
    requires GoodGroups(d, gs) && k < |gs| && b <= |gs| && GoodGroups(d, Settled(d, gs, k))
    ensures b' <= |Settled(d, gs, k)|
    ensures GroupsGain(AsCluster(d), Settled(d, gs, k), b', theta) >= GroupsGain(AsCluster(d), gs, b, theta)
    decreases k
  {
    hide ValidGraph, GoodGroups, Flatten, Beats, GroupsGain, Stepped, Elems;
    GraphOf(d, gs);
    GraphOf(d, Settled(d, gs, k));
    if k > 0 && Beats(AsCluster(d), gs[k], gs[k - 1]) {
      SteppedGood(d, gs, k);
      GraphOf(d, Stepped(d, gs, k));
      var b0 := SteppedGain(d, gs, k, b, theta);
      b' := SettledGain(d, Stepped(d, gs, k), k - 1, b0, theta);
    } else {
      b' := b;
    }
  }

  // ---------- a whole pass ----------

  lemma SingleFine(d: GraphData, t: Tx)
    requires ValidGraph(d) && t in d.used
    ensures Fine(d, [t]) && IsList(AsCluster(d), [t])
  {
    hide Closed;
    assert [t][0..1] == [t];
    forall S: set<Tx>
      ensures !ProperPart(S, Elems([t]))
    {
    }
  }

  /** Adding the next transaction of the old linearization as a group of its own. */
  lemma Appended(d: GraphData, L: seq<Tx>, n: nat, gs: seq<Group>)
    requires ValidGraph(d) && IsList(AsCluster(d), L) && InOrder(d, L) && n < |L|
    requires GoodGroups(d, gs) && Elems(Flatten(gs)) == Elems(L[..n])
    requires Falling(AsCluster(d), gs) && AllFine(d, gs)
    ensures GoodGroups(d, gs + [[L[n]]]) && Elems(Flatten(gs + [[L[n]]])) == Elems(L[..n + 1])
    ensures FallingBut(AsCluster(d), gs + [[L[n]]], |gs|) && AllFine(d, gs + [[L[n]]])
  {
    hide ValidGraph, Fine, IsList, InOrder, Flatten, Falling, FallingBut;
    var t := L[n];
    AppendedList(d, L, n, Flatten(gs));
    SingleFine(d, t);
    FlattenAppend(gs, [[t]]);
    FlattenOne([t]);
    AppendedFalling(AsCluster(d), gs, [t]);
  }

  lemma AppendedFalling(g: Cluster, gs: seq<Group>, c: Group)
    requires Falling(g, gs)
    ensures FallingBut(g, gs + [c], |gs|)
  {
    hide NotBelow, Above;
  }

  lemma AppendedList(d: GraphData, L: seq<Tx>, n: nat, K: seq<Tx>)
    requires ValidGraph(d) && IsList(AsCluster(d), L) && InOrder(d, L) && n < |L|
    requires IsList(AsCluster(d), K) && InOrder(d, K) && Elems(K) == Elems(L[..n])
    ensures IsList(AsCluster(d), K + [L[n]]) && InOrder(d, K + [L[n]]) && Elems(K + [L[n]]) == Elems(L[..n + 1])
    ensures L[n] in d.used
  {
    hide ValidGraph;
    ElemsPrefix(L, n);
    ElemsAppend(K, L[n]);
    assert L[n] in Elems(L);
    forall m | 0 <= m < |K|
      ensures K[m] != L[n] && (K[m] < |d.entries| ==> L[n] !in Anc(d, K[m]))
    {
      assert K[m] in Elems(K);
      var i :| 0 <= i < n && L[..n][i] == K[m];
      assert L[i] == K[m];
    }
  }

  /** After a pass, the groups hold the transactions of the old linearization in an order that
      respects dependencies, and they are the chunks of this order, each of them connected. */
  lemma {:induction false} PassShape(d: GraphData, L: seq<Tx>, n: nat)
    requires ValidGraph(d) && IsList(AsCluster(d), L) && InOrder(d, L) && n <= |L|
    ensures GoodGroups(d, Pass(d, L, n)) && Elems(Flatten(Pass(d, L, n))) == Elems(L[..n])
    ensures Falling(AsCluster(d), Pass(d, L, n)) && AllFine(d, Pass(d, L, n))
  {
    hide ValidGraph, GoodGroups, Falling, FallingBut, AllFine, Settled, InOrder, IsList;
    if n == 0 {
      PassNone(d);
      assert L[..0] == [];
    } else {
      PassShape(d, L, n - 1);
      var gs := Pass(d, L, n - 1);
      Appended(d, L, n - 1, gs);
      SettledShape(d, gs + [[L[n - 1]]], |gs|);
    }
  }

  lemma PassNone(d: GraphData)
    requires ValidGraph(d)
    ensures GoodGroups(d, []) && Elems(Flatten([])) == {} && Falling(AsCluster(d), []) && AllFine(d, [])
  {
  }

  lemma {:induction false} PassGain(d: GraphData, L: seq<Tx>, n: nat, m: nat, theta: real) returns (b: nat)
    requires ValidGraph(d) && IsList(AsCluster(d), L) && InOrder(d, L) && m <= n <= |L|
    requires GoodGroups(d, Pass(d, L, n))
    ensures b <= |Pass(d, L, n)|
    ensures GroupsGain(AsCluster(d), Pass(d, L, n), b, theta) >= PrefixGain(AsCluster(d), L, m, theta)
    decreases n
  {
    hide ValidGraph, InOrder, IsList, Falling, FallingBut, AllFine, Flatten, Settled;
    var g := AsCluster(d);
    if n == 0 {
      b := 0;
      assert L[..0] == [] && Pass(d, L, 0)[..0] == [];
      EmptyFlat();
    } else {
      PassShape(d, L, n - 1);
      var gs := Pass(d, L, n - 1);
      var hs := gs + [[L[n - 1]]];
      Appended(d, L, n - 1, gs);
      var b0;
      if m < n {
        b0 := PassGain(d, L, n - 1, m, theta);
        assert hs[..b0] == gs[..b0];
      } else {
        b0 := |hs|;
        assert hs[..b0] == hs;
      }
      b := SettledGain(d, hs, |gs|, b0, theta);
    }
  }

  lemma EmptyFlat()
    ensures Flatten([]) == []
  {
  }
}
