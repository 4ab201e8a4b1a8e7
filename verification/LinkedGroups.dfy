/** Groups of transactions kept as linked lists in an array of entries, one per transaction and a
    sentinel, as postlinearization does. */
module LinkedGroups {
  import opened FiniteSets
  import opened FeeRates
  import opened Clusters
  import opened Linearizations
  import opened DepGraphs
  import opened Chunking
  import opened GroupLists
  import opened Mirrors
  import opened PostLinearization
  import opened TreeShapes

  /** Information about transaction `t` is in entry `t + 1`; entry 0 is the sentinel. Only `prevTx`
      is used for transactions that are not the last of their group. */
  datatype TxEntry = TxEntry(
    prevTx: nat, firstTx: nat, prevGroup: nat, group: set<Tx>, deps: set<Tx>, feerate: FeeFrac)

  /** The entry of the last transaction of a group, which stands for the group. */
  ghost function Tail(c: Group): nat {
    c[|c| - 1] + 1
  }

  /** The entry that stands for the group before place `k`, or for the sentinel. */
  ghost function Before(gs: seq<Group>, k: nat): nat
    requires k <= |gs|
  {
    if k == 0 then 0 else Tail(gs[k - 1])
  }

  /** The entry that stands for the group after place `k`, or for the sentinel. */
  ghost function After(gs: seq<Group>, k: nat): nat
    requires k < |gs|
  {
    if k + 1 == |gs| then 0 else Tail(gs[k + 1])
  }

  ghost function AncSet(x: GraphData, c: Group): set<Tx> {
    set m, a | 0 <= m < |c| && c[m] < |x.entries| && a in Anc(x, c[m]) :: a
  }

  /** Each entry of the group points to the one before it. */
  ghost predicate Chained(es: seq<TxEntry>, c: Group) {
    forall j :: 0 <= j < |c| ==> ChainAt(es, c, j)
  }

  ghost predicate ChainAt(es: seq<TxEntry>, c: Group, j: nat)
    requires j < |c|
  {
    c[j] + 1 < |es| && es[c[j] + 1].prevTx == PrevOf(c, j)
  }

  ghost function PrevOf(c: Group, j: nat): nat
    requires j < |c|
  {
    if j == 0 then 0 else c[j - 1] + 1
  }

  /** The tail entry of the group describes it. */
  ghost predicate Described(x: GraphData, es: seq<TxEntry>, c: Group) {
    && ValidGraph(x) && Elems(c) <= x.used && Tail(c) < |es|
    && es[Tail(c)].firstTx == c[0] + 1
    && es[Tail(c)].group == Elems(c)
    && es[Tail(c)].deps == AncSet(x, c)
    && es[Tail(c)].feerate == Total(AsCluster(x), Elems(c))
  }

  ghost predicate GroupAt(x: GraphData, es: seq<TxEntry>, c: Group) {
    Chained(es, c) && Described(x, es, c)
  }

  /** The entries hold the list of groups, as a circle through the sentinel. */
  ghost predicate Holds(x: GraphData, es: seq<TxEntry>, gs: seq<Group>) {
    && |es| == |x.entries| + 1
    && es[0].feerate == FeeFrac(0, 0) && es[0].prevGroup == Before(gs, |gs|)
    && (forall k :: 0 <= k < |gs| ==> GroupAt(x, es, gs[k]))
    && (forall k :: 0 <= k < |gs| ==> LinkAt(es, gs, k))
  }

  /** The group at place `k` points to the one before it. */
  ghost predicate LinkAt(es: seq<TxEntry>, gs: seq<Group>, k: nat)
    requires k < |gs|
  {
    Tail(gs[k]) < |es| && es[Tail(gs[k])].prevGroup == Before(gs, k)
  }

  // ---------- groups are apart ----------

  lemma GroupInside(gs: seq<Group>, k: nat)
    requires k < |gs|
    ensures Elems(gs[k]) <= Elems(Flatten(gs))
  {
    FlattenAt(gs, k);
  }

  lemma GroupsApart(gs: seq<Group>, i: nat, j: nat)
    requires Distinct(Flatten(gs)) && i < j < |gs|
    ensures Elems(gs[i]) !! Elems(gs[j])
  {
    hide Flatten;
    FlattenAt(gs, j);
    GroupInside(gs[..j], i);
    var A, C, B := Flatten(gs[..j]), gs[j], Flatten(gs[j + 1..]);
    forall t | t in A
      ensures t !in C
    {
      var m :| 0 <= m < |A| && A[m] == t;
      forall n | 0 <= n < |C|
        ensures C[n] != t
      {
        assert (A + C + B)[|A| + n] == C[n] && (A + C + B)[m] == t;
      }
    }
  }

  /** Different groups are represented by different entries. */
  lemma TailsApart(gs: seq<Group>, i: nat, j: nat)
    requires Distinct(Flatten(gs)) && i < |gs| && j < |gs| && i != j
    ensures Tail(gs[i]) != Tail(gs[j])
  {
    hide Flatten, Distinct;
    if i < j {
      GroupsApart(gs, i, j);
    } else {
      GroupsApart(gs, j, i);
    }
    assert gs[i][|gs[i]| - 1] in Elems(gs[i]) && gs[j][|gs[j]| - 1] in Elems(gs[j]);
  }

  // ---------- frames ----------

  /** A group is not affected by changes to entries of others. */
  lemma GroupFrame(x: GraphData, es: seq<TxEntry>, es': seq<TxEntry>, c: Group)
    requires GroupAt(x, es, c) && |es'| == |es|
    requires forall t :: t in Elems(c) && t + 1 < |es| ==> es'[t + 1] == es[t + 1]
    ensures GroupAt(x, es', c)
  {
    hide ValidGraph, AncSet, Total;
    forall j | 0 <= j < |c|
      ensures ChainAt(es', c, j)
    {
      assert c[j] in Elems(c) && ChainAt(es, c, j);
    }
    assert c[|c| - 1] in Elems(c);
  }

  ghost predicate SameButPrev(es: seq<TxEntry>, es': seq<TxEntry>) {
    |es'| == |es| && forall i :: 0 <= i < |es| ==> es'[i] == es[i].(prevGroup := es'[i].prevGroup)
  }

  lemma GroupFramePrev(x: GraphData, es: seq<TxEntry>, es': seq<TxEntry>, c: Group)
    requires GroupAt(x, es, c) && SameButPrev(es, es')
    ensures GroupAt(x, es', c)
  {
    hide ValidGraph, AncSet, Total;
    forall j | 0 <= j < |c|
      ensures ChainAt(es', c, j)
    {
      assert ChainAt(es, c, j);
    }
  }

  // ---------- swapping ----------

  /** What swapping group `k` with the one before it does to the entries. */
  ghost predicate PrevSwapped(es: seq<TxEntry>, es': seq<TxEntry>, gs: seq<Group>, k: nat)
    requires 0 < k < |gs|
  {
    && SameButPrev(es, es') && |es'| == |es|
    && After(gs, k) < |es| && Tail(gs[k]) < |es| && Tail(gs[k - 1]) < |es|
    && es'[After(gs, k)].prevGroup == Tail(gs[k - 1])
    && es'[Tail(gs[k - 1])].prevGroup == Tail(gs[k])
    && es'[Tail(gs[k])].prevGroup == Before(gs, k - 1)
    && (forall i :: 0 <= i < |es| && i != After(gs, k) && i != Tail(gs[k - 1]) && i != Tail(gs[k]) ==> es'[i] == es[i])
  }

  ghost function SwapPlace(k: nat, i: nat): nat
    requires k > 0
  {
    if i == k then k - 1 else if i == k - 1 then k else i
  }

  lemma SwappedElem(gs: seq<Group>, k: nat, i: nat)
    requires 0 < k < |gs| && i < |gs|
    ensures Swapped(gs, k)[i] == gs[SwapPlace(k, i)]
  {
  }

  lemma SwappedBefore(gs: seq<Group>, k: nat, i: nat)
    requires 0 < k < |gs| && i < |gs|
    ensures Before(Swapped(gs, k), i) ==
      if i == k then Tail(gs[k])
      else if i == k + 1 then Tail(gs[k - 1])
      else if i == k - 1 then Before(gs, k - 1)
      else Before(gs, i)
  {
    hide Swapped;
    if i > 0 {
      SwappedElem(gs, k, i - 1);
    }
  }

  lemma OtherTail(es: seq<TxEntry>, es': seq<TxEntry>, gs: seq<Group>, k: nat, i: nat)
    requires 0 < k < |gs| && Distinct(Flatten(gs)) && PrevSwapped(es, es', gs, k)
    requires i < |gs| && i != k && i != k - 1 && i != k + 1 && LinkAt(es, gs, i)
    ensures es'[Tail(gs[i])].prevGroup == Before(gs, i)
  {
    hide Flatten, Distinct, SameButPrev;
    TailsApart(gs, i, k - 1);
    TailsApart(gs, i, k);
    if k + 1 < |gs| {
      TailsApart(gs, i, k + 1);
    }
  }

  lemma SwapAt(x: GraphData, es: seq<TxEntry>, es': seq<TxEntry>, gs: seq<Group>, k: nat, i: nat)
    requires Holds(x, es, gs) && Distinct(Flatten(gs)) && 0 < k < |gs| && PrevSwapped(es, es', gs, k) && i < |gs|
    ensures LinkAt(es', Swapped(gs, k), i)
  {
    hide GroupAt, Flatten, Distinct, SameButPrev, Swapped, Before;
    SwappedElem(gs, k, i);
    SwappedBefore(gs, k, i);
    assert LinkAt(es, gs, SwapPlace(k, i));
    if i != k && i != k - 1 && i != k + 1 {
      OtherTail(es, es', gs, k, i);
    }
  }

  lemma SwapGroup(x: GraphData, es: seq<TxEntry>, es': seq<TxEntry>, gs: seq<Group>, k: nat, i: nat)
    requires Holds(x, es, gs) && 0 < k < |gs| && SameButPrev(es, es') && i < |gs|
    ensures GroupAt(x, es', Swapped(gs, k)[i])
  {
    hide GroupAt, SameButPrev, LinkAt;
    SwappedElem(gs, k, i);
    GroupFramePrev(x, es, es', gs[SwapPlace(k, i)]);
  }

  lemma SwapSentinel(x: GraphData, es: seq<TxEntry>, es': seq<TxEntry>, gs: seq<Group>, k: nat)
    requires Holds(x, es, gs) && 0 < k < |gs| && PrevSwapped(es, es', gs, k)
    ensures es'[0].feerate == FeeFrac(0, 0) && es'[0].prevGroup == Before(Swapped(gs, k), |gs|)
  {
    hide GroupAt, LinkAt;
    var hs := Swapped(gs, k);
    assert hs[|gs| - 1] == if k == |gs| - 1 then gs[k - 1] else gs[|gs| - 1];
  }

  lemma SwapHolds(x: GraphData, es: seq<TxEntry>, es': seq<TxEntry>, gs: seq<Group>, k: nat)
    requires Holds(x, es, gs) && Distinct(Flatten(gs)) && 0 < k < |gs| && PrevSwapped(es, es', gs, k)
    ensures Holds(x, es', Swapped(gs, k))
  {
    hide GroupAt, Flatten, Distinct, LinkAt, Swapped, Before;
    var hs := Swapped(gs, k);
    SwapSentinel(x, es, es', gs, k);
    forall i | 0 <= i < |hs|
      ensures GroupAt(x, es', hs[i]) && LinkAt(es', hs, i)
    {
      SwapGroup(x, es, es', gs, k, i);
      SwapAt(x, es, es', gs, k, i);
    }
  }

  // ---------- merging ----------

  /** What merging the group `p` into the group `c` after it does to the entries. */
  ghost predicate EntriesMerged(es: seq<TxEntry>, es': seq<TxEntry>, p: Group, c: Group) {
    && |es'| == |es| && Tail(p) < |es| && Tail(c) < |es| && c[0] + 1 < |es|
    && (forall i :: 0 <= i < |es| && i != Tail(c) && i != c[0] + 1 ==> es'[i] == es[i])
    && es'[c[0] + 1].prevTx == Tail(p)
    && (c[0] + 1 != Tail(c) ==> es'[Tail(c)].prevTx == es[Tail(c)].prevTx)
    && es'[Tail(c)].firstTx == es[Tail(p)].firstTx
    && es'[Tail(c)].prevGroup == es[Tail(p)].prevGroup
    && es'[Tail(c)].group == es[Tail(c)].group + es[Tail(p)].group
    && es'[Tail(c)].deps == es[Tail(c)].deps + es[Tail(p)].deps
    && es'[Tail(c)].feerate.fee == es[Tail(c)].feerate.fee + es[Tail(p)].feerate.fee
    && es'[Tail(c)].feerate.size == es[Tail(c)].feerate.size + es[Tail(p)].feerate.size
  }

  lemma AncSetUnion(x: GraphData, p: Group, c: Group)
    ensures AncSet(x, p + c) == AncSet(x, p) + AncSet(x, c)
  {
    var L := p + c;
    forall a | a in AncSet(x, p)
      ensures a in AncSet(x, L)
    {
      var m :| 0 <= m < |p| && p[m] < |x.entries| && a in Anc(x, p[m]);
      assert L[m] == p[m];
    }
    forall a | a in AncSet(x, c)
      ensures a in AncSet(x, L)
    {
      var m :| 0 <= m < |c| && c[m] < |x.entries| && a in Anc(x, c[m]);
      assert L[|p| + m] == c[m];
    }
  }

  lemma MergeChainFirst(es: seq<TxEntry>, es': seq<TxEntry>, p: Group, c: Group, j: nat)
    requires j < |p| && ChainAt(es, p, j) && EntriesMerged(es, es', p, c) && Distinct(p + c)
    ensures ChainAt(es', p + c, j)
  {
    var L := p + c;
    assert L[j] == p[j] && L[|p|] == c[0] && L[|L| - 1] == c[|c| - 1];
  }

  lemma MergeChainSecond(es: seq<TxEntry>, es': seq<TxEntry>, p: Group, c: Group, j: nat)
    requires j < |c| && ChainAt(es, c, j) && EntriesMerged(es, es', p, c) && Distinct(p + c)
    ensures ChainAt(es', p + c, |p| + j)
  {
    var L, i := p + c, c[j] + 1;
    assert L[|p| + j] == c[j] && L[|p|] == c[0];
    if j == 0 {
      assert L[|p| - 1] == p[|p| - 1];
    } else {
      assert L[|p| + j - 1] == c[j - 1];
      assert i != Tail(c) ==> es'[i] == es[i];
    }
  }

  lemma MergeChain(es: seq<TxEntry>, es': seq<TxEntry>, p: Group, c: Group)
    requires Chained(es, p) && Chained(es, c) && EntriesMerged(es, es', p, c) && Distinct(p + c)
    ensures Chained(es', p + c)
  {
    hide EntriesMerged, Distinct, ChainAt;
    forall j | 0 <= j < |p + c|
      ensures ChainAt(es', p + c, j)
    {
      if j < |p| {
        MergeChainFirst(es, es', p, c, j);
      } else {
        MergeChainSecond(es, es', p, c, j - |p|);
      }
    }
  }

  lemma MergeDescribed(x: GraphData, es: seq<TxEntry>, es': seq<TxEntry>, p: Group, c: Group)
    requires Described(x, es, p) && Described(x, es, c) && EntriesMerged(es, es', p, c)
    requires IsList(AsCluster(x), p + c)
    ensures Described(x, es', p + c)
  {
    hide ValidGraph, AncSet, Distinct, Total;
    AncSetUnion(x, p, c);
    assert p + c + [] == p + c;
    PartsApart(AsCluster(x), p, c, []);
    TotalUnion(AsCluster(x), Elems(p), Elems(c));
  }

  lemma MergeOther(x: GraphData, es: seq<TxEntry>, es': seq<TxEntry>, p: Group, c: Group, h: Group)
    requires EntriesMerged(es, es', p, c) && GroupAt(x, es, h) && Elems(h) !! Elems(c)
    ensures GroupAt(x, es', h) && Tail(h) < |es'| && es'[Tail(h)] == es[Tail(h)]
  {
    hide AncSet, ValidGraph, Chained;
    assert c[0] in Elems(c) && c[|c| - 1] in Elems(c) && h[|h| - 1] in Elems(h);
    GroupFrame(x, es, es', h);
  }

  lemma MergedElem(gs: seq<Group>, k: nat, i: nat)
    requires 0 < k < |gs| && i < |gs| - 1
    ensures Merged(gs, k)[i] == if i == k - 1 then gs[k - 1] + gs[k] else if i < k then gs[i] else gs[i + 1]
  {
  }

  lemma MergedBefore(gs: seq<Group>, k: nat, i: nat)
    requires 0 < k < |gs| && i <= |gs| - 1
    ensures Before(Merged(gs, k), i) == if i < k then Before(gs, i) else Before(gs, i + 1)
  {
    hide Merged;
    if i > 0 {
      MergedElem(gs, k, i - 1);
    }
  }

  lemma MergeAt(x: GraphData, es: seq<TxEntry>, es': seq<TxEntry>, gs: seq<Group>, k: nat, i: nat)
    requires Holds(x, es, gs) && GoodGroups(x, gs) && 0 < k < |gs| && EntriesMerged(es, es', gs[k - 1], gs[k])
    requires i < |gs| - 1
    ensures GroupAt(x, es', Merged(gs, k)[i]) && LinkAt(es', Merged(gs, k), i)
  {
    hide GroupAt, Flatten, InOrder, Distinct, ValidGraph, Before, Merged, EntriesMerged;
    MergedElem(gs, k, i);
    MergedBefore(gs, k, i);
    if i == k - 1 {
      assert LinkAt(es, gs, k - 1);
      MergedGroup(x, es, es', gs, k);
    } else {
      var j := if i < k then i else i + 1;
      assert LinkAt(es, gs, j);
      if j < k {
        GroupsApart(gs, j, k);
      } else {
        GroupsApart(gs, k, j);
      }
      MergeOther(x, es, es', gs[k - 1], gs[k], gs[j]);
    }
  }

  lemma MergedGroup(x: GraphData, es: seq<TxEntry>, es': seq<TxEntry>, gs: seq<Group>, k: nat)
    requires Holds(x, es, gs) && GoodGroups(x, gs) && 0 < k < |gs| && EntriesMerged(es, es', gs[k - 1], gs[k])
    ensures GroupAt(x, es', gs[k - 1] + gs[k])
    ensures Tail(gs[k]) < |es'| && Tail(gs[k - 1]) < |es| && es'[Tail(gs[k])].prevGroup == es[Tail(gs[k - 1])].prevGroup
  {
    hide Flatten, InOrder, Chained, Described, ValidGraph, LinkAt;
    var P, C := gs[k - 1], gs[k];
    assert GroupAt(x, es, P) && GroupAt(x, es, C);
    FlattenAround(gs, k);
    assert Flatten(gs[..k - 1]) + P + C + Flatten(gs[k + 1..]) == Flatten(gs[..k - 1]) + (P + C) + Flatten(gs[k + 1..]);
    PartsApart(AsCluster(x), Flatten(gs[..k - 1]), P + C, Flatten(gs[k + 1..]));
    MergeChain(es, es', P, C);
    MergeDescribed(x, es, es', P, C);
  }

  lemma MergeHolds(x: GraphData, es: seq<TxEntry>, es': seq<TxEntry>, gs: seq<Group>, k: nat)
    requires Holds(x, es, gs) && GoodGroups(x, gs) && 0 < k < |gs| && EntriesMerged(es, es', gs[k - 1], gs[k])
    ensures Holds(x, es', Merged(gs, k))
  {
    hide GroupAt, Flatten, LinkAt, Merged, Before, GoodGroups;
    var hs := Merged(gs, k);
    MergedBefore(gs, k, |gs| - 1);
    forall i | 0 <= i < |hs|
      ensures GroupAt(x, es', hs[i]) && LinkAt(es', hs, i)
    {
      MergeAt(x, es, es', gs, k, i);
    }
  }

  // ---------- adding a group ----------

  /** What adding the transaction `t` as a last group of its own does to the entries. */
  ghost predicate EntriesAdded(x: GraphData, es: seq<TxEntry>, es': seq<TxEntry>, t: Tx) {
    && ValidGraph(x) && t in x.used && |es'| == |es| == |x.entries| + 1
    && (forall i :: 0 < i < |es| && i != t + 1 ==> es'[i] == es[i])
    && es'[0].feerate == es[0].feerate && es'[0].prevGroup == t + 1
    && es'[t + 1] == TxEntry(0, t + 1, es[0].prevGroup, {t}, Anc(x, t), x.entries[t].feerate)
  }

  lemma AddedGroup(x: GraphData, es: seq<TxEntry>, es': seq<TxEntry>, t: Tx)
    requires EntriesAdded(x, es, es', t)
    ensures GroupAt(x, es', [t]) && t + 1 < |es'|
  {
    hide Closed;
    TotalSingleton(AsCluster(x), t);
    assert [t][0] == t;
    assert ChainAt(es', [t], 0);
  }

  lemma AddedOther(x: GraphData, es: seq<TxEntry>, es': seq<TxEntry>, t: Tx, c: Group)
    requires EntriesAdded(x, es, es', t) && GroupAt(x, es, c) && t !in c
    ensures GroupAt(x, es', c) && Tail(c) < |es| && es'[Tail(c)] == es[Tail(c)]
  {
    hide ValidGraph, Chained, AncSet;
    GroupFrame(x, es, es', c);
    assert c[|c| - 1] in c;
  }

  lemma AddHolds(x: GraphData, es: seq<TxEntry>, es': seq<TxEntry>, gs: seq<Group>, t: Tx)
    requires Holds(x, es, gs) && EntriesAdded(x, es, es', t) && t !in Elems(Flatten(gs))
    ensures Holds(x, es', gs + [[t]])
  {
    hide GroupAt, Flatten, ValidGraph;
    var hs := gs + [[t]];
    AddedGroup(x, es, es', t);
    forall k | 0 <= k < |hs|
      ensures GroupAt(x, es', hs[k]) && LinkAt(es', hs, k)
    {
      assert Before(hs, k) == Before(gs, k);
      if k < |gs| {
        GroupInside(gs, k);
        AddedOther(x, es, es', t, gs[k]);
        assert LinkAt(es, gs, k);
      } else {
        assert hs[k] == [t] && Tail([t]) == t + 1;
      }
    }
  }

  // ---------- what the code compares ----------

  lemma GroupFacts(x: GraphData, es: seq<TxEntry>, gs: seq<Group>, k: nat)
    requires Holds(x, es, gs) && k < |gs|
    ensures 0 < Tail(gs[k]) < |es| && es[Tail(gs[k])].prevGroup == Before(gs, k) && Before(gs, k) < |es|
    ensures es[Tail(gs[k])].firstTx == gs[k][0] + 1 < |es| && es[Tail(gs[k])].group == Elems(gs[k])
    ensures es[Tail(gs[k])].deps == AncSet(x, gs[k])
    ensures ValidGraph(x) && Elems(gs[k]) <= AsCluster(x).txs
    ensures es[Tail(gs[k])].feerate == Total(AsCluster(x), Elems(gs[k]))
    ensures After(gs, k) < |es|
  {
    hide ValidGraph, AncSet;
    assert GroupAt(x, es, gs[k]) && LinkAt(es, gs, k) && ChainAt(es, gs[k], 0);
    if k > 0 {
      assert LinkAt(es, gs, k - 1);
    }
    if k + 1 < |gs| {
      assert LinkAt(es, gs, k + 1);
    }
  }

  /** The sentinel's empty feerate is never lower than another one. */
  lemma ComparesGroups(x: GraphData, es: seq<TxEntry>, gs: seq<Group>, k: nat)
    requires Holds(x, es, gs) && k < |gs|
    ensures ValidGraph(x) && Tail(gs[k]) < |es| && Before(gs, k) < |es|
    ensures Lower(es[Before(gs, k)].feerate, es[Tail(gs[k])].feerate) <==>
      k > 0 && Beats(AsCluster(x), gs[k], gs[k - 1])
  {
    hide ValidGraph, GroupAt, LinkAt, Total;
    GroupFacts(x, es, gs, k);
    if k > 0 {
      GroupFacts(x, es, gs, k - 1);
    }
  }

  lemma OverlapIsNeed(x: GraphData, c: Group, p: Group)
    ensures AncSet(x, c) * Elems(p) != {} <==> Needs(x, c, p)
  {
    if Needs(x, c, p) {
      var m, n :| 0 <= m < |c| && 0 <= n < |p| && c[m] < |x.entries| && p[n] in Anc(x, c[m]);
      assert p[n] in AncSet(x, c) * Elems(p);
    }
    if AncSet(x, c) * Elems(p) != {} {
      var a := Any(AncSet(x, c) * Elems(p));
      assert a in AncSet(x, c) && a in p;
      var m :| 0 <= m < |c| && c[m] < |x.entries| && a in Anc(x, c[m]);
      var n :| 0 <= n < |p| && p[n] == a;
    }
  }

  lemma FirstNotTail(gs: seq<Group>, k: nat)
    requires Distinct(Flatten(gs)) && 0 < k < |gs|
    ensures gs[k][0] + 1 != Tail(gs[k - 1]) && Tail(gs[k]) != Tail(gs[k - 1])
  {
    hide Flatten, Distinct;
    GroupsApart(gs, k - 1, k);
    assert gs[k][0] in Elems(gs[k]) && gs[k - 1][|gs[k - 1]| - 1] in Elems(gs[k - 1]);
    TailsApart(gs, k - 1, k);
  }

  // ---------- the code ----------

  /** Merge the group of `prev` into that of `cur`. */
  method MergeInto(es0: seq<TxEntry>, cur: nat, prev: nat, ghost p: Group, ghost c: Group) returns (es: seq<TxEntry>)
    requires cur == Tail(c) < |es0| && prev == Tail(p) < |es0| && es0[cur].firstTx == c[0] + 1 < |es0|
    requires c[0] + 1 != prev && cur != prev
    ensures EntriesMerged(es0, es, p, c)
  {
    es := es0;
    var a, b := es[cur], es[prev];
    es := es[cur := a.(
      group := a.group + b.group, deps := a.deps + b.deps,
      feerate := FeeFrac(a.feerate.fee + b.feerate.fee, a.feerate.size + b.feerate.size))];
    var first := es[cur].firstTx;
    es := es[first := es[first].(prevTx := prev)];
    es := es[cur := es[cur].(firstTx := es[prev].firstTx)];
    es := es[cur := es[cur].(prevGroup := es[prev].prevGroup)];
  }

  /** Swap the group of `cur` with that of `prev` before it. */
  method SwapWith(es0: seq<TxEntry>, next: nat, cur: nat, prev: nat, ghost gs: seq<Group>, ghost k: nat)
    returns (es: seq<TxEntry>)
    requires 0 < k < |gs| && next == After(gs, k) < |es0| && cur == Tail(gs[k]) < |es0|
    requires prev == Tail(gs[k - 1]) < |es0|
    requires es0[prev].prevGroup == Before(gs, k - 1) && next != cur && next != prev && cur != prev
    ensures PrevSwapped(es0, es, gs, k)
  {
    es := es0;
    var preprev := es[prev].prevGroup;
    es := es[next := es[next].(prevGroup := prev)];
    es := es[prev := es[prev].(prevGroup := cur)];
    es := es[cur := es[cur].(prevGroup := preprev)];
  }

  lemma NextApart(gs: seq<Group>, k: nat)
    requires Distinct(Flatten(gs)) && 0 < k < |gs|
    ensures After(gs, k) != Tail(gs[k]) && After(gs, k) != Tail(gs[k - 1])
  {
    hide Flatten, Distinct;
    if k + 1 < |gs| {
      TailsApart(gs, k, k + 1);
      TailsApart(gs, k - 1, k + 1);
    }
  }

  /** The merge/swap cycle for the last group. */
  method Settle(ghost x: GraphData, es0: seq<TxEntry>, cur: nat, ghost gs0: seq<Group>)
    returns (es: seq<TxEntry>, ghost gs: seq<Group>)
    requires Holds(x, es0, gs0) && GoodGroups(x, gs0) && |gs0| > 0 && cur == Tail(gs0[|gs0| - 1])
    ensures ValidGraph(x) && gs == Settled(x, gs0, |gs0| - 1) && Holds(x, es, gs)
  {
    hide ValidGraph, Holds, GoodGroups, Beats, AncSet, Needs, Settled, EntriesMerged, PrevSwapped, Merged, Swapped;
    es, gs := es0, gs0;
    ghost var k: nat := |gs| - 1;
    GroupFacts(x, es, gs, k);
    var next, prev := 0, es[cur].prevGroup;
    ComparesGroups(x, es, gs, k);
    while Lower(es[prev].feerate, es[cur].feerate)
      invariant Holds(x, es, gs) && GoodGroups(x, gs)
      invariant k < |gs| && cur == Tail(gs[k]) < |es| && prev == Before(gs, k) < |es| && next == After(gs, k)
      invariant ValidGraph(x) && Settled(x, gs, k) == Settled(x, gs0, |gs0| - 1)
      invariant Lower(es[prev].feerate, es[cur].feerate) <==> k > 0 && Beats(AsCluster(x), gs[k], gs[k - 1])
      decreases k
    {
      ghost var hs := Stepped(x, gs, k);
      GroupFacts(x, es, gs, k);
      GroupFacts(x, es, gs, k - 1);
      GraphOf(x, gs);
      FirstNotTail(gs, k);
      NextApart(gs, k);
      OverlapIsNeed(x, gs[k], gs[k - 1]);
      SteppedGood(x, gs, k);
      SettledStep(x, gs, k);
      ghost var was := es;
      if es[cur].deps * es[prev].group != {} {
        es := MergeInto(es, cur, prev, gs[k - 1], gs[k]);
        MergeHolds(x, was, es, gs, k);
        MergedEnds(gs, k);
        prev := es[cur].prevGroup;
      } else {
        var preprev := es[prev].prevGroup;
        es := SwapWith(es, next, cur, prev, gs, k);
        SwapHolds(x, was, es, gs, k);
        SwappedEnds(gs, k);
        next, prev := prev, preprev;
      }
      gs, k := hs, k - 1;
      GroupFacts(x, es, gs, k);
      ComparesGroups(x, es, gs, k);
    }
    SettledStop(x, gs, k);
  }

  lemma SettledStep(x: GraphData, gs: seq<Group>, k: nat)
    requires ValidGraph(x) && 0 < k < |gs| && Beats(AsCluster(x), gs[k], gs[k - 1])
    ensures Settled(x, gs, k) == Settled(x, Stepped(x, gs, k), k - 1)
  {
    hide ValidGraph, Beats;
  }

  lemma SettledStop(x: GraphData, gs: seq<Group>, k: nat)
    requires ValidGraph(x) && k < |gs| && !(k > 0 && Beats(AsCluster(x), gs[k], gs[k - 1]))
    ensures Settled(x, gs, k) == gs
  {
    hide ValidGraph, Beats;
  }

  lemma MergedEnds(gs: seq<Group>, k: nat)
    requires 0 < k < |gs|
    ensures Tail(Merged(gs, k)[k - 1]) == Tail(gs[k]) && After(Merged(gs, k), k - 1) == After(gs, k)
    ensures Before(Merged(gs, k), k - 1) == Before(gs, k - 1)
  {
    MergedElem(gs, k, k - 1);
    MergedBefore(gs, k, k - 1);
    if k + 1 < |gs| {
      MergedElem(gs, k, k);
    }
  }

  lemma SwappedEnds(gs: seq<Group>, k: nat)
    requires 0 < k < |gs|
    ensures Tail(Swapped(gs, k)[k - 1]) == Tail(gs[k]) && After(Swapped(gs, k), k - 1) == Tail(gs[k - 1])
    ensures Before(Swapped(gs, k), k - 1) == Before(gs, k - 1)
  {
    SwappedElem(gs, k, k - 1);
    SwappedElem(gs, k, k);
    SwappedBefore(gs, k, k - 1);
  }

  /** How a pass sees the graph: upside down if it goes from back to front. */
  ghost function View(d: GraphData, rev: bool): GraphData {
    if rev then Mirrored(d) else d
  }

  ghost function InDirection(L: seq<Tx>, rev: bool): (r: seq<Tx>)
    ensures |r| == |L|
  {
    if rev then Reversed(L) else L
  }

  lemma NextTransaction(d: GraphData, L: seq<Tx>, rev: bool, gs: seq<Group>, i: nat)
    requires ValidGraph(d) && ValidGraph(View(d, rev)) && IsList(AsCluster(d), L) && i < |L|
    requires Elems(Flatten(gs)) == Elems(InDirection(L, rev)[..i])
    ensures InDirection(L, rev)[i] == L[if rev then |L| - 1 - i else i]
    ensures InDirection(L, rev)[i] in View(d, rev).used && InDirection(L, rev)[i] in d.used
    ensures InDirection(L, rev)[i] !in Elems(Flatten(gs)) && InDirection(L, rev)[i] < |d.entries|
  {
    hide Flatten, Closed;
    var K := InDirection(L, rev);
    ReversedElems(L);
    assert K[i] in Elems(L);
    assert forall m :: 0 <= m < i ==> K[m] != K[i];
  }

  lemma PassNext(x: GraphData, L: seq<Tx>, i: nat, gs: seq<Group>)
    requires ValidGraph(x) && i < |L| && gs == Pass(x, L, i)
    ensures Pass(x, L, i + 1) == Settled(x, gs + [[L[i]]], |gs|)
  {
    hide ValidGraph, Settled;
  }

  lemma EmptyHolds(x: GraphData, es: seq<TxEntry>)
    requires |es| == |x.entries| + 1 && es[0].feerate == FeeFrac(0, 0) && es[0].prevGroup == 0
    ensures Holds(x, es, [])
  {
  }

  /** Go over the linearization, from back to front or from front to back, building the groups. */
  method BuildGroups(d: GraphData, lin: array<Tx>, rev: bool, es0: seq<TxEntry>)
    returns (es: seq<TxEntry>, ghost gs: seq<Group>)
    requires ValidGraph(d) && ValidGraph(View(d, rev))
    requires |es0| == |d.entries| + 1 && es0[0].feerate == FeeFrac(0, 0)
    requires IsList(AsCluster(d), lin[..])
    requires IsList(AsCluster(View(d, rev)), InDirection(lin[..], rev))
    requires InOrder(View(d, rev), InDirection(lin[..], rev))
    ensures gs == Pass(View(d, rev), InDirection(lin[..], rev), lin.Length)
    ensures Holds(View(d, rev), es, Pass(View(d, rev), InDirection(lin[..], rev), lin.Length))
  {
    hide ValidGraph, IsList, InOrder, GoodGroups, Holds, Pass, Settled, Falling, FallingBut, AllFine, Flatten,
      InDirection, EntriesAdded;
    ghost var x, L := View(d, rev), InDirection(lin[..], rev);
    es, gs := es0[0 := es0[0].(prevGroup := 0)], [];
    EmptyHolds(x, es);
    PassStart(x, L);
    for i := 0 to lin.Length
      invariant gs == Pass(x, L, i) && Holds(x, es, gs)
      invariant |es| == |d.entries| + 1
    {
      var idx := lin[if rev then lin.Length - 1 - i else i];
      PassShape(x, L, i);
      NextTransaction(d, lin[..], rev, gs, i);
      Appended(x, L, i, gs);
      PassNext(x, L, i, gs);
      var cur := idx + 1;
      var e := d.entries[idx];
      var feerate := if rev then FeeFrac(-e.feerate.fee, e.feerate.size) else e.feerate;
      ghost var was := es;
      es := es[cur := TxEntry(0, cur, es[0].prevGroup, {idx}, if rev then e.descendants else e.ancestors, feerate)];
      es := es[0 := es[0].(prevGroup := cur)];
      AddedIs(d, rev, was, es, idx);
      AddHolds(x, was, es, gs, idx);
      es, gs := Settle(x, es, cur, gs + [[idx]]);
      HoldsSize(x, es, gs);
    }
  }

  lemma PassStart(x: GraphData, L: seq<Tx>)
    requires ValidGraph(x)
    ensures Pass(x, L, 0) == []
  {
  }

  lemma HoldsSize(x: GraphData, es: seq<TxEntry>, gs: seq<Group>)
    requires Holds(x, es, gs)
    ensures |es| == |x.entries| + 1 && es[0].feerate == FeeFrac(0, 0) && es[0].prevGroup == Before(gs, |gs|)
  {
  }

  lemma AddedIs(d: GraphData, rev: bool, es: seq<TxEntry>, es': seq<TxEntry>, t: Tx)
    requires ValidGraph(View(d, rev)) && t in View(d, rev).used && t < |d.entries| && |es| == |d.entries| + 1
    requires var e := d.entries[t];
      && es' == es[t + 1 := TxEntry(0, t + 1, es[0].prevGroup, {t}, if rev then e.descendants else e.ancestors,
                                    if rev then FeeFrac(-e.feerate.fee, e.feerate.size) else e.feerate)]
                  [0 := es[0].(prevGroup := t + 1)]
    ensures EntriesAdded(View(d, rev), es, es', t)
  {
    hide ValidGraph;
  }

  // ---------- writing the result back ----------

  /** `W` has been written, in this order to the back or reversed to the front. */
  ghost predicate Written(s: seq<Tx>, rev: bool, W: seq<Tx>) {
    |W| <= |s| && if rev then s[..|W|] == Reversed(W) else s[|s| - |W|..] == W
  }

  lemma WriteNext(s: seq<Tx>, rev: bool, W: seq<Tx>, t: Tx)
    requires Written(s, rev, W) && |W| < |s|
    ensures Written(s[(if rev then |W| else |s| - |W| - 1) := t], rev, [t] + W)
  {
    var V := [t] + W;
    if rev {
      var s' := s[|W| := t];
      assert s'[..|V|] == s[..|W|] + [t];
      assert Reversed(V) == Reversed(W) + [t];
    } else {
      var s' := s[|s| - |W| - 1 := t];
      assert s'[|s| - |V|..] == [t] + s[|s| - |W|..];
    }
  }

  /** Write one group, from its last transaction to its first. */
  method WriteGroup(lin: array<Tx>, es: seq<TxEntry>, rev: bool, cur: nat, done0: nat, ghost c: Group, ghost W: seq<Tx>)
    returns (done: nat)
    requires Chained(es, c) && cur == Tail(c) && done0 == |W| && |c| + |W| <= lin.Length && Written(lin[..], rev, W)
    modifies lin
    ensures done == |c| + |W| && Written(lin[..], rev, c + W)
  {
    hide Written, ChainAt;
    var tx := cur;
    done := done0;
    ghost var j: nat := |c|;
    assert c[j..] + W == W;
    while tx != 0
      invariant j <= |c| && tx == (if j == 0 then 0 else c[j - 1] + 1)
      invariant done == |c| - j + |W| && Written(lin[..], rev, c[j..] + W)
      decreases j
    {
      WriteNext(lin[..], rev, c[j..] + W, tx - 1);
      ChainFacts(es, c, j - 1);
      ghost var before := lin[..];
      var place := if rev then done else lin.Length - done - 1;
      lin[place] := tx - 1;
      assert lin[..] == before[place := tx - 1];
      assert [c[j - 1]] + (c[j..] + W) == c[j - 1..] + W;
      done := done + 1;
      tx := es[tx].prevTx;
      j := j - 1;
    }
    assert c[0..] == c;
  }

  lemma ChainFacts(es: seq<TxEntry>, c: Group, j: nat)
    requires Chained(es, c) && j < |c|
    ensures c[j] + 1 < |es| && es[c[j] + 1].prevTx == if j == 0 then 0 else c[j - 1] + 1
  {
    assert ChainAt(es, c, j);
  }

  /** Turn the entries back into a linearization. */
  method WriteBack(lin: array<Tx>, es: seq<TxEntry>, rev: bool, ghost x: GraphData, ghost gs: seq<Group>)
    requires Holds(x, es, gs) && |Flatten(gs)| == lin.Length
    modifies lin
    ensures lin[..] == InDirection(Flatten(gs), rev)
  {
    hide Holds, Flatten, Written;
    HoldsSize(x, es, gs);
    var cur, done := es[0].prevGroup, 0;
    ghost var k: nat := |gs|;
    NothingWritten(lin[..], rev, gs);
    while cur != 0
      invariant k <= |gs| && cur == Before(gs, k)
      invariant done == |Flatten(gs[k..])| && Written(lin[..], rev, Flatten(gs[k..]))
      decreases k
    {
      WriteFacts(x, es, gs, k - 1);
      done := WriteGroup(lin, es, rev, cur, done, gs[k - 1], Flatten(gs[k..]));
      cur := es[cur].prevGroup;
      k := k - 1;
    }
    assert gs[0..] == gs;
    AllWritten(lin[..], rev, Flatten(gs));
  }

  lemma NothingWritten(s: seq<Tx>, rev: bool, gs: seq<Group>)
    ensures Flatten(gs[|gs|..]) == [] && Written(s, rev, [])
  {
    assert gs[|gs|..] == [];
  }

  lemma AllWritten(s: seq<Tx>, rev: bool, W: seq<Tx>)
    requires Written(s, rev, W) && |s| == |W|
    ensures s == InDirection(W, rev)
  {
    assert s[..|s|] == s && s[0..] == s;
  }

  lemma WriteFacts(x: GraphData, es: seq<TxEntry>, gs: seq<Group>, k: nat)
    requires Holds(x, es, gs) && k < |gs|
    ensures Chained(es, gs[k]) && Tail(gs[k]) < |es| && es[Tail(gs[k])].prevGroup == Before(gs, k)
    ensures Flatten(gs[k..]) == gs[k] + Flatten(gs[k + 1..])
    ensures |gs[k]| + |Flatten(gs[k + 1..])| <= |Flatten(gs)|
  {
    hide Flatten;
    assert GroupAt(x, es, gs[k]) && LinkAt(es, gs, k);
    FlattenAt(gs, k);
    assert gs[k..] == [gs[k]] + gs[k + 1..];
    FlattenAppend([gs[k]], gs[k + 1..]);
    FlattenOne(gs[k]);
  }

  // ---------- the passes ----------

  lemma ViewReady(d: GraphData, L: seq<Tx>, rev: bool)
    requires ValidGraph(d) && IsList(AsCluster(d), L) && InOrder(d, L)
    ensures ValidGraph(View(d, rev))
    ensures IsList(AsCluster(View(d, rev)), InDirection(L, rev)) && InOrder(View(d, rev), InDirection(L, rev))
  {
    hide ValidGraph, InOrder;
    MirroredValid(d);
    ReversedElems(L);
    ReversedInOrder(d, L);
  }

  /** One pass over the linearization, which it overwrites. */
  method RunPass(d: GraphData, lin: array<Tx>, rev: bool, es0: seq<TxEntry>) returns (es: seq<TxEntry>)
    requires ValidGraph(d) && |es0| == |d.entries| + 1 && es0[0].feerate == FeeFrac(0, 0)
    requires IsList(AsCluster(d), lin[..]) && InOrder(d, lin[..])
    modifies lin
    ensures |es| == |d.entries| + 1 && es[0].feerate == FeeFrac(0, 0)
    ensures lin[..] == if rev then BackwardResult(d, old(lin[..])) else PassResult(d, old(lin[..]))
  {
    hide ValidGraph, IsList, InOrder, Holds, Flatten, Pass, GoodGroups, Falling, AllFine;
    ghost var x, L := View(d, rev), InDirection(lin[..], rev);
    ViewReady(d, lin[..], rev);
    ghost var gs;
    es, gs := BuildGroups(d, lin, rev, es0);
    PassShape(x, L, |L|);
    PassSize(x, L, gs);
    HoldsSize(x, es, gs);
    WriteBack(lin, es, rev, x, gs);
  }

  lemma PassSize(x: GraphData, L: seq<Tx>, gs: seq<Group>)
    requires GoodGroups(x, gs) && IsList(AsCluster(x), L) && Elems(Flatten(gs)) == Elems(L[..|L|])
    ensures |Flatten(gs)| == |L|
  {
    hide ValidGraph, InOrder, Flatten;
    assert L[..|L|] == L;
    SameLength(Flatten(gs), L);
  }

  lemma {:induction false} CountElems(L: seq<Tx>)
    requires Distinct(L)
    ensures |Elems(L)| == |L|
  {
    if |L| > 0 {
      var K, t := L[..|L| - 1], L[|L| - 1];
      CountElems(K);
      assert L == K + [t];
      ElemsAppend(K, t);
      assert t !in Elems(K);
    } else {
      assert Elems(L) == {};
    }
  }

  lemma SameLength(K: seq<Tx>, L: seq<Tx>)
    requires Distinct(K) && Distinct(L) && Elems(K) == Elems(L)
    ensures |K| == |L|
  {
    CountElems(K);
    CountElems(L);
  }

  /** Improve a given linearization: a pass from back to front, then one from front to back. */
  method PostLinearize(dg: DepGraph, lin: array<Tx>)
    requires dg.Valid() && AcyclicGraph(dg.d) && ValidLinearization(AsCluster(dg.d), lin[..])
    modifies lin
    ensures lin[..] == PostLinearized(dg.d, old(lin[..]))
    ensures ValidLinearization(AsCluster(dg.d), lin[..])
    ensures AsGoodAs(AsCluster(dg.d), lin[..], old(lin[..]))
    ensures ConnectedChunks(dg.d, lin[..])
    ensures AtMostOne(dg.d, true) || AtMostOne(dg.d, false) ==> OptimalLinearization(AsCluster(dg.d), lin[..])
  {
    hide ValidGraph, AcyclicGraph, InOrder, AsGoodAs, ConnectedChunks, PassResult, BackwardResult, Distinct, AtMostOne,
      OptimalLinearization;
    PostLinearizeGuarantee(dg.d, lin[..]);
    if AtMostOne(dg.d, true) || AtMostOne(dg.d, false) {
      TreesOptimal(dg.d, lin[..]);
    }
    ValidInOrder(dg.d, lin[..]);
    BackwardAsGood(dg.d, lin[..]);
    var none := TxEntry(0, 0, 0, {}, {}, FeeFrac(0, 0));
    var es := seq(|dg.d.entries| + 1, i => none);
    es := RunPass(dg.d, lin, true, es);
    es := RunPass(dg.d, lin, false, es);
  }
}
