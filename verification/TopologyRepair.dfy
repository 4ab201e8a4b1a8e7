/** Making an arbitrary state topological although every chunk that no merge has touched is only
    tried in one direction. */
module TopologyRepair {
  import opened Clusters
  import opened Merging

  /** The dependency `d` joins two chunks in the wrong feerate order. */
  ghost predicate Violates(g: Cluster, home: Homes, d: Dep) {
    && home.Keys == g.txs && d in g.deps && home[d.chl] != home[d.par]
    && ChunkRate(g, home, home[d.chl]) >= ChunkRate(g, home, home[d.par])
  }

  /** Every violated dependency will be found: the chunk at its near end is still pending, or the one
      at its far end is, and is the result of a merge, and so will be tried in both directions. */
  ghost predicate Covered(g: Cluster, home: Homes, pending: set<Tx>, merged: set<Tx>, dir: bool) {
    forall d :: Violates(g, home, d) ==>
      home[Near(d, dir)] in pending || (home[Far(d, dir)] in pending && home[Far(d, dir)] in merged)
  }

  /** Nothing was found to merge chunk `i` with, in the directions it had to be tried in. */
  lemma CoveredWithout(g: Cluster, home: Homes, pending: set<Tx>, merged: set<Tx>, dir: bool, i: Tx)
    requires Covered(g, home, pending, merged, dir)
    requires NoCandidate(g, home, i, dir)
    requires i in merged ==> NoCandidate(g, home, i, !dir)
    ensures Covered(g, home, pending - {i}, merged, dir)
  {
    forall d | Violates(g, home, d)
      ensures home[Near(d, dir)] != i
      ensures i in merged ==> home[Far(d, dir)] != i
    {
      assert Near(d, !dir) == Far(d, dir) && Far(d, !dir) == Near(d, dir);
    }
  }

  /** Chunk `i` was merged, and the result is pending. */
  lemma CoveredMerge(
    g: Cluster, home: Homes, home': Homes, pending: set<Tx>, merged: set<Tx>, dir: bool, i: Tx, y: Tx, k: Tx)
    requires home.Keys == g.txs && home'.Keys == g.txs && IsMerge(home, home', i, y, k)
    requires Covered(g, home, pending, merged, dir)
    ensures Covered(g, home', pending - {i} + {k}, merged + {k}, dir)
  {
    MergeKeys(g, home, home', i, y, k, false);
    MergeChunks(home, home', i, y, k);
    forall d | Violates(g, home', d) && home'[Near(d, dir)] != k && home'[Far(d, dir)] != k
      ensures Violates(g, home, d)
    {
      assert Key(g, home', home'[d.chl], false) == Key(g, home, home[d.chl], false);
      assert Key(g, home', home'[d.par], false) == Key(g, home, home[d.par], false);
    }
  }

  lemma CoveredAll(g: Cluster, home: Homes, dir: bool)
    requires home.Keys == g.txs
    ensures Covered(g, home, home.Values, {}, dir)
  {
  }

  /** An index that no chunk has anymore need not be looked at. */
  lemma CoveredStale(g: Cluster, home: Homes, pending: set<Tx>, merged: set<Tx>, dir: bool, i: Tx)
    requires Covered(g, home, pending, merged, dir) && i !in home.Values
    ensures Covered(g, home, pending - {i}, merged, dir)
  {
  }

  lemma CoveredNone(g: Cluster, home: Homes, merged: set<Tx>, dir: bool)
    requires home.Keys == g.txs && Covered(g, home, {}, merged, dir)
    ensures Topological(g, home)
  {
    forall d | d in g.deps && home[d.chl] != home[d.par]
      ensures ChunkRate(g, home, home[d.chl]) < ChunkRate(g, home, home[d.par])
    {
      assert !Violates(g, home, d);
    }
  }

  /** In a topological state there is nothing to merge. */
  lemma TopologicalNoCandidate(g: Cluster, home: Homes, x: Tx, y: Tx, down: bool)
    requires home.Keys == g.txs && Topological(g, home)
    ensures !Candidate(g, home, x, y, down)
  {
    forall d | d in g.deps && x in home.Values && y in home.Values && x != y && home[Near(d, down)] == x &&
      home[Far(d, down)] == y
      ensures Key(g, home, x, down) < Key(g, home, y, down)
    {
    }
  }
}
