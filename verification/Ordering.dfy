/** When the chunks of a state can be put in an order that respects dependencies and feerates. */
module Ordering {
  import opened FiniteSets
  import opened Clusters

  ghost predicate RightWay(g: Cluster, home: Homes, rank: map<Tx, int>, d: Dep)
    requires home.Keys == g.txs && home.Values <= rank.Keys && d in g.deps
  {
    var p, c := home[d.par], home[d.chl];
    p != c ==>
      || ChunkRate(g, home, c) < ChunkRate(g, home, p)
      || (ChunkRate(g, home, c) == ChunkRate(g, home, p) && rank[p] < rank[c])
  }

  /** No chunk depends on one of lower feerate, and `rank` shows that the chunks of equal feerate do
      not depend on each other in a loop. */
  ghost predicate RankedBy(g: Cluster, home: Homes, rank: map<Tx, int>) {
    && home.Keys == g.txs && home.Values <= rank.Keys
    && forall d :: d in g.deps ==> RightWay(g, home, rank, d)
  }

  ghost predicate Linearizable(g: Cluster, home: Homes) {
    exists rank :: RankedBy(g, home, rank)
  }

  lemma TopologicalLinearizable(g: Cluster, home: Homes)
    requires home.Keys == g.txs && Topological(g, home)
    ensures Linearizable(g, home)
  {
    var rank: map<Tx, int> := map i | i in home.Values :: 0;
    assert RankedBy(g, home, rank);
  }

  /** Splitting chunk `j` into equal-feerate parts, the first of which does not depend on the other,
      keeps the state linearizable: the parts take the place of the chunk. */
  lemma SplitLinearizable(g: Cluster, home: Homes, home': Homes, i: Tx, j: Tx, T: set<Tx>)
    requires Linearizable(g, home) && home.Keys == g.txs && j in home.Values && i !in home.Values
    requires T != {} && T < Chunk(home, j) && Chunk(home, j) - T != {} && home' == Moved(home, T, i)
    requires R(g, T) == ChunkRate(g, home, j) == R(g, Chunk(home, j) - T)
    requires forall d :: d in g.deps && home'[d.chl] == i ==> home'[d.par] != j
    ensures Linearizable(g, home')
  {
    var rank :| RankedBy(g, home, rank);
    MovedChunks(home, T, i, j);
    var rank': map<Tx, int> := map k | k in home'.Values :: if k == i then 2 * rank[j] - 1 else 2 * rank[k];
    forall d | d in g.deps
      ensures RightWay(g, home', rank', d)
    {
      assert RightWay(g, home, rank, d);
      assert forall t :: t in home ==> home'[t] == if t in T then i else home[t];
      assert forall t :: t in T ==> home[t] == j;
    }
    assert RankedBy(g, home', rank');
  }

  /** Giving a chunk another index keeps the state linearizable. */
  lemma RenameLinearizable(g: Cluster, home: Homes, home': Homes, i: Tx, j: Tx)
    requires Linearizable(g, home) && home.Keys == g.txs == home'.Keys && j in home.Values && i !in home.Values
    requires home'.Values == home.Values - {j} + {i}
    requires forall t :: t in home ==> home'[t] == if home[t] == j then i else home[t]
    requires Chunk(home', i) == Chunk(home, j)
    requires forall k :: k != i && k != j ==> Chunk(home', k) == Chunk(home, k)
    ensures Linearizable(g, home')
  {
    var rank :| RankedBy(g, home, rank);
    var rank': map<Tx, int> := map k | k in home'.Values :: if k == i then rank[j] else rank[k];
    forall d | d in g.deps
      ensures RightWay(g, home', rank', d)
    {
      assert RightWay(g, home, rank, d);
    }
    assert RankedBy(g, home', rank');
  }

  // ---------- some chunk can always come next ----------

  /** A chunk of highest feerate, and of lowest rank among those. */
  lemma {:induction false} FirstChunk(g: Cluster, home: Homes, rank: map<Tx, int>, I: set<Tx>) returns (i: Tx)
    requires home.Keys == g.txs && I <= home.Values <= rank.Keys && I != {}
    ensures i in I && forall k :: k in I ==> NotBefore(g, home, rank, k, i)
  {
    var a := Any(I);
    i := a;
    if I - {a} != {} {
      var b := FirstChunk(g, home, rank, I - {a});
      if NotBefore(g, home, rank, a, b) {
        i := b;
      }
      forall k | k in I
        ensures NotBefore(g, home, rank, k, i)
      {
        assert k == a || k in I - {a};
      }
    } else {
      forall k | k in I
        ensures k == a
      {
        assert k !in I - {a};
      }
    }
  }

  ghost predicate NotBefore(g: Cluster, home: Homes, rank: map<Tx, int>, k: Tx, i: Tx) {
    && home.Keys == g.txs && home.Values <= rank.Keys && i in home.Values && k in home.Values
    && (ChunkRate(g, home, k) < ChunkRate(g, home, i)
        || (ChunkRate(g, home, k) == ChunkRate(g, home, i) && rank[k] >= rank[i]))
  }

  /** Among the chunks that are left, one of highest feerate depends on none of the others. */
  lemma SomeChunkReady(g: Cluster, home: Homes, left: set<Tx>) returns (i: Tx)
    requires Linearizable(g, home) && home.Keys == g.txs && left <= home.Values && left != {}
    ensures i in left && forall k :: k in left ==> k in home.Values && ChunkRate(g, home, k) <= ChunkRate(g, home, i)
    ensures forall d :: d in g.deps && home[d.chl] == i && home[d.par] != i ==> home[d.par] !in left
  {
    var rank :| RankedBy(g, home, rank);
    i := FirstChunk(g, home, rank, left);
    forall d | d in g.deps && home[d.chl] == i && home[d.par] != i
      ensures home[d.par] !in left
    {
      assert RightWay(g, home, rank, d);
      assert !NotBefore(g, home, rank, home[d.par], i);
    }
  }
}
