/** Linearizations of a cluster and their feerate diagrams. */
module Linearizations {
  import opened Clusters

  ghost function Elems(s: seq<Tx>): set<Tx> {
    set t | t in s
  }

  ghost predicate Distinct(s: seq<Tx>) {
    forall m, n :: 0 <= m < n < |s| ==> s[m] != s[n]
  }

  /** Every transaction once, and parents before children. */
  ghost predicate ValidLinearization(g: Cluster, L: seq<Tx>) {
    && Distinct(L)
    && Elems(L) == g.txs
    && forall m, d :: 0 <= m < |L| && d in g.deps && d.chl == L[m] ==> d.par in L[..m]
  }

  /** What the first `m` transactions of `L` pay beyond `theta`: the height of the diagram of `L` at
      that point, seen along direction `theta`. */
  ghost function PrefixGain(g: Cluster, L: seq<Tx>, m: nat, theta: real): real
    requires m <= |L| && Elems(L) <= g.txs
  {
    assert Elems(L[..m]) <= Elems(L);
    GainOf(g, Elems(L[..m]), theta)
  }

  /** No prefix of `L` is above the diagram of the partition. */
  ghost predicate Under(g: Cluster, L: seq<Tx>, home: Homes) {
    && home.Keys == g.txs && Elems(L) <= g.txs
    && forall m: nat, theta: real :: m <= |L| ==> PrefixGain(g, L, m, theta) <= Diagram(g, home, theta)
  }

  /** In every direction, some prefix of `L` reaches the diagram of the partition. */
  ghost predicate Reaches(g: Cluster, L: seq<Tx>, home: Homes) {
    && home.Keys == g.txs && Elems(L) <= g.txs
    && forall theta: real :: ReachesAt(g, L, Diagram(g, home, theta), theta)
  }

  ghost predicate ReachesAt(g: Cluster, L: seq<Tx>, x: real, theta: real)
    requires Elems(L) <= g.txs
  {
    exists m: nat :: m <= |L| && PrefixGain(g, L, m, theta) >= x
  }

  /** The diagram of `L` is nowhere below that of `L'`: whatever a prefix of `L'` pays beyond a
      threshold, a prefix of `L` pays as much. */
  ghost predicate AsGoodAs(g: Cluster, L: seq<Tx>, L': seq<Tx>) {
    && Elems(L) <= g.txs && Elems(L') <= g.txs
    && forall m: nat, theta: real :: m <= |L'| ==> ReachesAt(g, L, PrefixGain(g, L', m, theta), theta)
  }

  /** No valid linearization has a diagram that is anywhere above that of `L`. */
  ghost predicate OptimalLinearization(g: Cluster, L: seq<Tx>) {
    forall L' :: ValidLinearization(g, L') ==> AsGoodAs(g, L, L')
  }

  lemma UnderReaches(g: Cluster, L: seq<Tx>, L': seq<Tx>, home: Homes)
    requires Reaches(g, L, home) && Under(g, L', home)
    ensures AsGoodAs(g, L, L')
  {
    forall m: nat, theta: real | m <= |L'|
      ensures ReachesAt(g, L, PrefixGain(g, L', m, theta), theta)
    {
      assert PrefixGain(g, L', m, theta) <= Diagram(g, home, theta);
      assert ReachesAt(g, L, Diagram(g, home, theta), theta);
      var n: nat :| n <= |L| && PrefixGain(g, L, n, theta) >= Diagram(g, home, theta);
      assert PrefixGain(g, L, n, theta) >= PrefixGain(g, L', m, theta);
    }
  }

  /** Prefixes of valid linearizations contain the parents of their members. */
  lemma PrefixClosed(g: Cluster, L: seq<Tx>, m: nat)
    requires ValidLinearization(g, L) && m <= |L|
    ensures AncestorClosed(g, Elems(L[..m]))
  {
    forall d | d in g.deps && d.chl in Elems(L[..m])
      ensures d.par in Elems(L[..m])
    {
      var n :| 0 <= n < m && L[n] == d.chl;
      assert d.par in L[..n];
      assert L[..n] <= L[..m];
    }
  }

  lemma ElemsAppend(s: seq<Tx>, t: Tx)
    ensures Elems(s + [t]) == Elems(s) + {t}
  {
  }

  lemma ElemsPrefix(L: seq<Tx>, m: nat)
    requires m < |L|
    ensures Elems(L[..m + 1]) == Elems(L[..m]) + {L[m]}
    ensures Elems(L[..m]) <= Elems(L)
  {
    assert L[..m + 1] == L[..m] + [L[m]];
    ElemsAppend(L[..m], L[m]);
  }
}
