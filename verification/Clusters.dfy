/** Clusters of transactions, sets of transactions in them, and partitions into chunks. */
module Clusters {
  import opened FiniteSets
  import opened Sums
  import opened FeeRates

  /** The position of a transaction in its cluster; also the index of a chunk. */
  type Tx = nat

  /** A direct dependency: the child spends an output of the parent. */
  datatype Dep = Dep(par: Tx, chl: Tx)

  datatype ClusterData = ClusterData(txs: set<Tx>, deps: set<Dep>, fee: map<Tx, int>, size: map<Tx, int>)

  ghost predicate WellFormed(g: ClusterData) {
    && g.fee.Keys == g.txs
    && g.size.Keys == g.txs
    && (forall t :: t in g.txs ==> g.size[t] > 0)
    && (forall d :: d in g.deps ==> d.par in g.txs && d.chl in g.txs)
  }

  type Cluster = g: ClusterData | WellFormed(g) witness ClusterData({}, {}, map[], map[])

  /** Some member of `S` has no parent in `S`. */
  ghost predicate HasRoot(g: Cluster, S: set<Tx>) {
    exists t :: t in S && NoParentIn(g, t, S)
  }

  ghost predicate NoParentIn(g: Cluster, t: Tx, S: set<Tx>) {
    forall d :: d in g.deps && d.chl == t ==> d.par !in S
  }

  /** The dependencies hold no cycle: every non-empty set of transactions has a root. */
  ghost predicate Acyclic(g: Cluster) {
    forall S: set<Tx> | S <= g.txs && S != {} :: HasRoot(g, S)
  }

  /** `S` contains the parents of its members. */
  ghost predicate AncestorClosed(g: Cluster, S: set<Tx>) {
    forall d :: d in g.deps && d.chl in S ==> d.par in S
  }

  // ---------- fees and sizes of sets ----------

  /** The aggregate feerate of a set of transactions. */
  ghost function Total(g: Cluster, S: set<Tx>): (r: FeeFrac)
    requires S <= g.txs
    ensures r.size >= 0
    ensures S != {} ==> r.size > 0
  {
    SumPositive(g.size, S);
    FeeFrac(Sum(g.fee, S), Sum(g.size, S))
  }

  lemma TotalSingleton(g: Cluster, t: Tx)
    requires t in g.txs
    ensures Total(g, {t}) == FeeFrac(g.fee[t], g.size[t])
  {
    SumPick(g.fee, {t}, t);
    SumPick(g.size, {t}, t);
    assert {t} - {t} == {};
  }

  lemma TotalUnion(g: Cluster, A: set<Tx>, B: set<Tx>)
    requires A <= g.txs && B <= g.txs && A !! B
    ensures Total(g, A + B).fee == Total(g, A).fee + Total(g, B).fee
    ensures Total(g, A + B).size == Total(g, A).size + Total(g, B).size
  {
    SumUnion(g.fee, A, B);
    SumUnion(g.size, A, B);
  }

  lemma TotalDifference(g: Cluster, S: set<Tx>, C: set<Tx>)
    requires S <= C <= g.txs
    ensures Total(g, C).fee == Total(g, S).fee + Total(g, C - S).fee
    ensures Total(g, C).size == Total(g, S).size + Total(g, C - S).size
  {
    TotalUnion(g, S, C - S);
    assert S + (C - S) == C;
  }

  /** What a set pays beyond the threshold. */
  ghost function GainOf(g: Cluster, S: set<Tx>, theta: real): real
    requires S <= g.txs
  {
    Gain(Total(g, S), theta)
  }

  ghost function R(g: Cluster, S: set<Tx>): real
    requires S <= g.txs && S != {}
  {
    Rate(Total(g, S))
  }

  lemma GainUnion(g: Cluster, A: set<Tx>, B: set<Tx>, theta: real)
    requires A <= g.txs && B <= g.txs && A !! B
    ensures GainOf(g, A + B, theta) == GainOf(g, A, theta) + GainOf(g, B, theta)
  {
    TotalUnion(g, A, B);
    GainSum(Total(g, A), Total(g, B), Total(g, A + B), theta);
  }

  lemma GainAtRate(g: Cluster, C: set<Tx>, theta: real)
    requires C <= g.txs && C != {}
    ensures GainOf(g, C, theta) > 0.0 <==> R(g, C) > theta
    ensures GainOf(g, C, theta) == 0.0 <==> R(g, C) == theta
  {
    GainSign(Total(g, C), theta);
  }

  /** The feerate of a union lies between those of its two parts. */
  lemma RateOfUnion(g: Cluster, A: set<Tx>, B: set<Tx>)
    requires A <= g.txs && B <= g.txs && A !! B && A != {} && B != {}
    requires R(g, A) <= R(g, B)
    ensures R(g, A) <= R(g, A + B) <= R(g, B)
    ensures R(g, A) < R(g, B) ==> R(g, A) < R(g, A + B) < R(g, B)
  {
    TotalUnion(g, A, B);
    Mediant(Total(g, A), Total(g, B), Total(g, A + B));
  }

  // ---------- partitions into chunks ----------

  /** A partition into chunks, given as the index of the chunk each transaction is in. */
  type Homes = map<Tx, Tx>

  ghost function Chunk(home: Homes, i: Tx): (C: set<Tx>)
    ensures C <= home.Keys
    ensures C != {} <==> i in home.Values
  {
    var C := set t | t in home && home[t] == i;
    assert i in home.Values ==> exists t :: t in home && home[t] == i && t in C;
    C
  }

  /** The transactions of the chunks `I`. */
  ghost function Members(home: Homes, I: set<Tx>): set<Tx> {
    set t | t in home && home[t] in I
  }

  /** `home` with the chunks `i` and `j` joined into chunk `j`. */
  ghost function Joined(home: Homes, i: Tx, j: Tx): Homes {
    map t | t in home :: if home[t] == i then j else home[t]
  }

  /** `home` with the transactions `T` moved to chunk `i`. */
  ghost function Moved(home: Homes, T: set<Tx>, i: Tx): Homes {
    map t | t in home :: if t in T then i else home[t]
  }

  lemma JoinedChunks(home: Homes, i: Tx, j: Tx)
    requires i in home.Values && j in home.Values && i != j
    ensures Joined(home, i, j).Values == home.Values - {i}
    ensures Chunk(Joined(home, i, j), j) == Chunk(home, i) + Chunk(home, j)
    ensures forall k :: k != i && k != j ==> Chunk(Joined(home, i, j), k) == Chunk(home, k)
    ensures Chunk(home, i) !! Chunk(home, j)
  {
    var home' := Joined(home, i, j);
    forall k | k in home.Values && k != i
      ensures k in home'.Values
    {
      var t :| t in home && home[t] == k;
      assert home'[t] == k;
    }
  }

  lemma MovedChunks(home: Homes, T: set<Tx>, i: Tx, j: Tx)
    requires j in home.Values && i !in home.Values && T != {} && T < Chunk(home, j)
    ensures Moved(home, T, i).Values == home.Values + {i}
    ensures Chunk(Moved(home, T, i), i) == T
    ensures Chunk(Moved(home, T, i), j) == Chunk(home, j) - T
    ensures forall k :: k != i && k != j ==> Chunk(Moved(home, T, i), k) == Chunk(home, k)
  {
    var home' := Moved(home, T, i);
    forall k | k in home.Values
      ensures k in home'.Values
    {
      var t :| t in home && home[t] == k && (k == j ==> t !in T);
      assert home'[t] == k;
    }
    var t := Any(T);
    assert home'[t] == i;
  }

  /** The feerate of chunk `i`. */
  ghost function ChunkRate(g: Cluster, home: Homes, i: Tx): real
    requires home.Keys == g.txs && i in home.Values
  {
    R(g, Chunk(home, i))
  }

  /** No chunk depends on another one of lower or equal feerate. */
  ghost predicate Topological(g: Cluster, home: Homes)
    requires home.Keys == g.txs
  {
    forall d | d in g.deps && home[d.chl] != home[d.par] ::
      ChunkRate(g, home, home[d.chl]) < ChunkRate(g, home, home[d.par])
  }

  /** The height of the feerate diagram of the chunks with index in `I`, seen along direction
      `theta`: the most that a union of the chunks pays beyond `theta`. The concave diagrams of two
      families compare as these values do at every `theta`. */
  ghost function DiagramOn(g: Cluster, home: Homes, I: set<Tx>, theta: real): (r: real)
    requires home.Keys == g.txs
    ensures r >= 0.0
  {
    if I == {} then 0.0
    else
      var i := Any(I);
      Positive(GainOf(g, Chunk(home, i), theta)) + DiagramOn(g, home, I - {i}, theta)
  }

  ghost function Diagram(g: Cluster, home: Homes, theta: real): real
    requires home.Keys == g.txs
  {
    DiagramOn(g, home, home.Values, theta)
  }

  lemma {:induction false} DiagramPick(g: Cluster, home: Homes, I: set<Tx>, i: Tx, theta: real)
    requires home.Keys == g.txs && i in I
    ensures DiagramOn(g, home, I, theta) ==
            Positive(GainOf(g, Chunk(home, i), theta)) + DiagramOn(g, home, I - {i}, theta)
  {
    var k := Any(I);
    if k != i {
      DiagramPick(g, home, I - {k}, i, theta);
      DiagramPick(g, home, I - {i}, k, theta);
      assert I - {k} - {i} == I - {i} - {k};
    }
  }

  lemma {:induction false} DiagramSame(g: Cluster, home: Homes, home': Homes, I: set<Tx>, theta: real)
    requires home.Keys == g.txs && home'.Keys == g.txs
    requires forall i :: i in I ==> Chunk(home, i) == Chunk(home', i)
    ensures DiagramOn(g, home, I, theta) == DiagramOn(g, home', I, theta)
  {
    if I != {} {
      var i := Any(I);
      DiagramPick(g, home, I, i, theta);
      DiagramPick(g, home', I, i, theta);
      DiagramSame(g, home, home', I - {i}, theta);
    }
  }

  /** Partition `one` has a chunk `j` where partition `two` has two chunks `i` and `j`. */
  lemma DiagramOneTwo(g: Cluster, one: Homes, two: Homes, i: Tx, j: Tx, theta: real)
    requires one.Keys == g.txs && two.Keys == g.txs
    requires i in two.Values && j in two.Values && i != j && one.Values == two.Values - {i}
    requires Chunk(one, j) == Chunk(two, i) + Chunk(two, j)
    requires forall k :: k != i && k != j ==> Chunk(one, k) == Chunk(two, k)
    ensures GainOf(g, Chunk(one, j), theta) == GainOf(g, Chunk(two, i), theta) + GainOf(g, Chunk(two, j), theta)
    ensures Diagram(g, two, theta) - Diagram(g, one, theta) ==
            Positive(GainOf(g, Chunk(two, i), theta)) + Positive(GainOf(g, Chunk(two, j), theta))
            - Positive(GainOf(g, Chunk(one, j), theta))
  {
    var I := two.Values - {i} - {j};
    DiagramPick(g, two, two.Values, i, theta);
    DiagramPick(g, two, two.Values - {i}, j, theta);
    DiagramPick(g, one, one.Values, j, theta);
    DiagramSame(g, two, one, I, theta);
    GainUnion(g, Chunk(two, i), Chunk(two, j), theta);
  }
}
