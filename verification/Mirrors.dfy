/** Dependency graphs upside down: what a pass from back to front does. */
module Mirrors {
  import opened FiniteSets
  import opened Sums
  import opened FeeRates
  import opened Clusters
  import opened Linearizations
  import opened DepGraphs
  import opened Chunking
  import opened GroupLists

  ghost function MirroredEntry(e: Entry): Entry {
    Entry(FeeFrac(-e.feerate.fee, e.feerate.size), e.descendants, e.ancestors)
  }

  /** The graph with ancestors and descendants, and high and low feerates, exchanged. */
  ghost function Mirrored(d: GraphData): (r: GraphData)
    ensures |r.entries| == |d.entries|
    ensures forall i :: 0 <= i < |d.entries| ==> r.entries[i] == MirroredEntry(d.entries[i])
  {
    GraphData(seq(|d.entries|, i requires 0 <= i < |d.entries| => MirroredEntry(d.entries[i])), d.used)
  }

  ghost function Reversed(L: seq<Tx>): (r: seq<Tx>)
    ensures |r| == |L|
    ensures forall i :: 0 <= i < |L| ==> r[i] == L[|L| - 1 - i]
  {
    seq(|L|, i requires 0 <= i < |L| => L[|L| - 1 - i])
  }

  lemma MirroredValid(d: GraphData)
    requires ValidGraph(d)
    ensures ValidGraph(Mirrored(d))
  {
    var r := Mirrored(d);
    forall i | i in d.used
      ensures r.entries[i] == MirroredEntry(d.entries[i]) && Reflexive(r, i)
    {
      assert Reflexive(d, i) && Inverse(d, i, i);
    }
    forall i, j | i in d.used && j in d.used
      ensures Inverse(r, i, j) && Transitive(r, i, j)
    {
      MirroredAt(d, i, j);
    }
  }

  lemma MirroredAt(d: GraphData, i: Tx, j: Tx)
    requires ValidGraph(d) && i in d.used && j in d.used
    ensures Inverse(Mirrored(d), i, j) && Transitive(Mirrored(d), i, j)
  {
    assert Inverse(d, j, i);
    if j in Desc(d, i) {
      forall k | k in Desc(d, j)
        ensures k in Desc(d, i)
      {
        assert Reflexive(d, j);
        assert Inverse(d, k, j) && Inverse(d, k, i) && Transitive(d, k, j);
      }
    }
  }

  lemma ReversedElems(L: seq<Tx>)
    ensures Elems(Reversed(L)) == Elems(L)
    ensures Distinct(L) ==> Distinct(Reversed(L))
  {
    forall t | t in L
      ensures t in Reversed(L)
    {
      var i :| 0 <= i < |L| && L[i] == t;
      assert Reversed(L)[|L| - 1 - i] == t;
    }
  }

  lemma ReversedTwice(L: seq<Tx>)
    ensures Reversed(Reversed(L)) == L
  {
  }

  lemma ReversedInOrder(d: GraphData, L: seq<Tx>)
    requires ValidGraph(d) && Elems(L) <= d.used && InOrder(d, L)
    ensures InOrder(Mirrored(d), Reversed(L))
  {
    var r, K := Mirrored(d), Reversed(L);
    forall m, n | 0 <= m < n < |K| && K[m] < |r.entries|
      ensures K[n] !in Anc(r, K[m])
    {
      var i, j := |L| - 1 - m, |L| - 1 - n;
      assert L[i] in Elems(L) && L[j] in Elems(L);
      assert Inverse(d, L[j], L[i]);
      assert L[i] !in Anc(d, L[j]);
    }
  }

  lemma MirroredTwice(d: GraphData)
    ensures Mirrored(Mirrored(d)) == d
  {
    assert Mirrored(Mirrored(d)).entries == d.entries;
  }

  // ---------- gains ----------

  lemma {:induction false} NegatedSum(f: map<Tx, int>, f': map<Tx, int>, S: set<Tx>)
    requires S <= f.Keys && S <= f'.Keys && forall t :: t in S ==> f'[t] == -f[t]
    ensures Sum(f', S) == -Sum(f, S)
  {
    if S != {} {
      var t := Any(S);
      SumPick(f, S, t);
      SumPick(f', S, t);
      NegatedSum(f, f', S - {t});
    }
  }

  lemma MirroredTotals(d: GraphData, S: set<Tx>)
    requires ValidGraph(d) && ValidGraph(Mirrored(d)) && S <= d.used
    ensures Total(AsCluster(Mirrored(d)), S).fee == -Total(AsCluster(d), S).fee
    ensures Total(AsCluster(Mirrored(d)), S).size == Total(AsCluster(d), S).size
  {
    hide Closed;
    var g, r := AsCluster(d), AsCluster(Mirrored(d));
    NegatedSum(g.fee, r.fee, S);
    SameSum(g.size, r.size, S);
  }

  lemma MirroredGain(d: GraphData, S: set<Tx>, theta: real)
    requires ValidGraph(d) && ValidGraph(Mirrored(d)) && S <= d.used
    ensures GainOf(AsCluster(Mirrored(d)), S, -theta) == -GainOf(AsCluster(d), S, theta)
  {
    hide ValidGraph;
    MirroredTotals(d, S);
    NegatedGain(Total(AsCluster(d), S), Total(AsCluster(Mirrored(d)), S), theta);
  }

  lemma NegatedGain(a: FeeFrac, b: FeeFrac, theta: real)
    requires b.fee == -a.fee && b.size == a.size
    ensures Gain(b, -theta) == -Gain(a, theta)
  {
  }

  /** A prefix of the reversed order pays, upside down, what the rest does not. */
  lemma ReversedPrefix(d: GraphData, L: seq<Tx>, m: nat, theta: real)
    requires ValidGraph(d) && ValidGraph(Mirrored(d)) && IsList(AsCluster(d), L) && m <= |L|
    ensures IsList(AsCluster(Mirrored(d)), Reversed(L))
    ensures Elems(L) <= AsCluster(d).txs && Elems(Reversed(L)) <= AsCluster(Mirrored(d)).txs
    ensures PrefixGain(AsCluster(d), L, m, theta) ==
      GainOf(AsCluster(d), Elems(L), theta) + PrefixGain(AsCluster(Mirrored(d)), Reversed(L), |L| - m, -theta)
  {
    hide ValidGraph, GainOf, Distinct;
    var g := AsCluster(d);
    ReversedElems(L);
    PrefixIsSegment(g, L, m, |L|, theta);
    assert L[..|L|] == L;
    assert Reversed(L)[..|L| - m] == Reversed(L[m..|L|]);
    ReversedElems(L[m..|L|]);
    MirroredGain(d, Elems(L[m..|L|]), theta);
  }

  /** A better order upside down is a better order. */
  lemma MirroredAsGood(d: GraphData, L: seq<Tx>, L': seq<Tx>)
    requires ValidGraph(d) && ValidGraph(Mirrored(d)) && IsList(AsCluster(d), L) && IsList(AsCluster(d), L')
    requires Elems(L) == Elems(L')
    requires AsGoodAs(AsCluster(Mirrored(d)), Reversed(L), Reversed(L'))
    ensures AsGoodAs(AsCluster(d), L, L')
  {
    hide ValidGraph, Distinct, PrefixGain, GainOf;
    var g, r := AsCluster(d), AsCluster(Mirrored(d));
    forall m: nat, theta: real | m <= |L'|
      ensures ReachesAt(g, L, PrefixGain(g, L', m, theta), theta)
    {
      ReversedPrefix(d, L', m, theta);
      assert ReachesAt(r, Reversed(L), PrefixGain(r, Reversed(L'), |L'| - m, -theta), -theta);
      var n: nat :| n <= |L| && PrefixGain(r, Reversed(L), n, -theta) >= PrefixGain(r, Reversed(L'), |L'| - m, -theta);
      ReversedPrefix(d, L, |L| - n, theta);
      assert PrefixGain(g, L, |L| - n, theta) >= PrefixGain(g, L', m, theta);
    }
  }
}
