/** A linearization written chunk by chunk, and when these chunks are the ones its chunking finds. */
module Blocks {
  import opened Clusters
  import opened Forests
  import opened Optimality
  import opened Minimality
  import opened Linearizations
  import opened Chunking
  import opened Emission

  /** From place `a` to `b`, `L` lists chunk `i`. */
  ghost predicate IsBlock(g: Cluster, home: Homes, L: seq<Tx>, a: nat, b: nat, i: Tx) {
    && home.Keys == g.txs && i in home.Values
    && IsList(g, L) && a < b <= |L| && Segment(g, L, a, b) == Chunk(home, i)
  }

  /** `L` lists the chunks `order`, each from one of the `cuts` to the next. */
  ghost predicate InBlocks(g: Cluster, home: Homes, L: seq<Tx>, cuts: seq<nat>, order: seq<Tx>) {
    && home.Keys == g.txs && IsList(g, L)
    && |cuts| == |order| + 1 && cuts[0] == 0 && cuts[|order|] == |L|
    && (forall k :: 0 <= k < |order| ==> IsBlock(g, home, L, cuts[k], cuts[k + 1], order[k]))
    && (forall k :: 0 <= k < |order| - 1 ==> FallingRate(g, home, order[k], order[k + 1]))
  }

  ghost predicate FallingRate(g: Cluster, home: Homes, i: Tx, j: Tx) {
    && home.Keys == g.txs && i in home.Values && j in home.Values
    && ChunkRate(g, home, i) >= ChunkRate(g, home, j)
  }

  lemma NoBlocks(g: Cluster, home: Homes)
    requires home.Keys == g.txs
    ensures InBlocks(g, home, [], [0], [])
  {
  }

  lemma SameBlock(g: Cluster, home: Homes, L: seq<Tx>, L': seq<Tx>, a: nat, b: nat, i: Tx)
    requires IsBlock(g, home, L, a, b, i) && L <= L' && IsList(g, L')
    ensures IsBlock(g, home, L', a, b, i)
  {
    assert L'[a..b] == L[a..b];
  }

  /** One more chunk has been written out. */
  lemma NextBlock(g: Cluster, home: Homes, L: seq<Tx>, cuts: seq<nat>, order: seq<Tx>, i: Tx, L': seq<Tx>)
    requires InBlocks(g, home, L, cuts, order) && i in home.Values
    requires L <= L' && IsList(g, L') && Elems(L') == Elems(L) + Chunk(home, i) && Elems(L) !! Chunk(home, i)
    requires |order| > 0 ==> FallingRate(g, home, order[|order| - 1], i)
    ensures InBlocks(g, home, L', cuts + [|L'|], order + [i])
  {
    hide IsList, FallingRate;
    NewSegment(g, L, L', Chunk(home, i));
    var cuts', order' := cuts + [|L'|], order + [i];
    forall k | 0 <= k < |order'|
      ensures IsBlock(g, home, L', cuts'[k], cuts'[k + 1], order'[k])
    {
      if k < |order| {
        SameBlock(g, home, L, L', cuts[k], cuts[k + 1], order[k]);
      }
    }
    forall k | 0 <= k < |order'| - 1
      ensures FallingRate(g, home, order'[k], order'[k + 1])
    {
      if k < |order| - 1 {
        assert FallingRate(g, home, order[k], order[k + 1]);
      }
    }
  }

  lemma NewSegment(g: Cluster, L: seq<Tx>, L': seq<Tx>, C: set<Tx>)
    requires L <= L' && IsList(g, L) && IsList(g, L') && Elems(L') == Elems(L) + C && Elems(L) !! C && C != {}
    ensures |L| < |L'| && Segment(g, L', |L|, |L'|) == C
  {
    SegmentJoin(g, L', 0, |L|, |L'|);
    assert L'[0..|L|] == L && L'[0..|L'|] == L';
  }

  /** The next chunk that is written out is the next block. */
  lemma EmittedBlock(
    g: Cluster, home: Homes, s: Progress, done: set<Tx>, cuts: seq<nat>, order: seq<Tx>, k: Tx, s': Progress)
    requires k in home.Values && k !in done && (|order| > 0 ==> order[|order| - 1] in done)
    requires s.out <= s'.out && Elems(s'.out) == Elems(s.out) + Chunk(home, k)
    requires InBlocks(g, home, s.out, cuts, order)
    requires BetweenChunks(g, home, s, done) && BetweenChunks(g, home, s', done + {k})
    ensures InBlocks(g, home, s'.out, cuts + [|s'.out|], order + [k])
  {
    hide MetBy, TxCounts, ChunkRight;
    NextBlock(g, home, s.out, cuts, order, k, s'.out);
  }

  // ---------- when the blocks are the chunks of the linearization ----------

  /** Every part of the chunk that can come before the rest of it has a lower feerate than it. */
  ghost predicate StrictChunk(g: Cluster, C: set<Tx>) {
    C <= g.txs && C != {} && forall S | ProperPart(S, C) && ClosedIn(g, C, S) :: R(g, S) < R(g, C)
  }

  /** This is what minimality adds to optimality. */
  lemma MinimalIsStrict(g: Cluster, home: Homes, A: set<Dep>, i: Tx)
    requires Forest(g, home, A) && i in home.Values && Unsplittable(g, home, A, i) && MinimalChunk(g, Chunk(home, i))
    ensures StrictChunk(g, Chunk(home, i))
  {
    var C := Chunk(home, i);
    ChunkIsTree(g, home, A, i);
    forall S | ProperPart(S, C) && ClosedIn(g, C, S)
      ensures R(g, S) < R(g, C)
    {
      GainAtRate(g, C, R(g, C));
      GainAtRate(g, S, R(g, C));
      forall d | d in A && d.chl in S
        ensures d.par in S
      {
        assert !Crosses(d, C);
      }
      ClosedPartPays(g, C, A, S, R(g, C));
      assert !EqualPart(g, C, S);
    }
  }

  /** In a valid linearization, what a block starts with can come before the rest of it. */
  lemma StartOfBlock(g: Cluster, home: Homes, L: seq<Tx>, a: nat, m: nat, b: nat, i: Tx)
    requires ValidLinearization(g, L) && IsBlock(g, home, L, a, b, i) && a < m < b
    ensures ProperPart(Segment(g, L, a, m), Chunk(home, i)) && ClosedIn(g, Chunk(home, i), Segment(g, L, a, m))
  {
    SegmentJoin(g, L, a, m, b);
    SegmentJoin(g, L, 0, a, m);
    SegmentJoin(g, L, 0, m, b);
    var S, C := Segment(g, L, a, m), Chunk(home, i);
    forall d | d in g.deps && d.chl in S && d.par in C
      ensures d.par in S
    {
      PrefixClosed(g, L, m);
      assert L[0..m] == L[..m];
    }
  }

  /** If all chunks are strict, chunking the linearization gives back these chunks. */
  lemma BlocksAreChunks(g: Cluster, home: Homes, L: seq<Tx>, cuts: seq<nat>, order: seq<Tx>)
    requires InBlocks(g, home, L, cuts, order) && ValidLinearization(g, L)
    requires forall i :: i in home.Values ==> StrictChunk(g, Chunk(home, i))
    ensures ChunksOf(g, L, cuts)
  {
    hide IsList, StrictChunk, ValidLinearization;
    forall k | 0 <= k < |order|
      ensures OneChunk(g, L, cuts[k], cuts[k + 1])
    {
      BlockIsChunk(g, home, L, cuts[k], cuts[k + 1], order[k]);
    }
    forall k | 0 <= k < |order| - 1
      ensures NotIncreasing(g, L, cuts[k], cuts[k + 1], cuts[k + 2])
    {
      assert IsBlock(g, home, L, cuts[k], cuts[k + 1], order[k]) &&
        IsBlock(g, home, L, cuts[k + 1], cuts[k + 2], order[k + 1]);
      assert FallingRate(g, home, order[k], order[k + 1]);
    }
  }

  lemma BlockIsChunk(g: Cluster, home: Homes, L: seq<Tx>, a: nat, b: nat, i: Tx)
    requires IsBlock(g, home, L, a, b, i) && ValidLinearization(g, L) && StrictChunk(g, Chunk(home, i))
    ensures OneChunk(g, L, a, b)
  {
    forall m | a < m < b
      ensures SegmentRate(g, L, a, m) < SegmentRate(g, L, a, b)
    {
      StartOfBlock(g, home, L, a, m, b, i);
    }
  }
}
