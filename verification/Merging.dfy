/** Merge sequences: how a chunk that may violate the topology absorbs its neighbours.

    An upward merge joins a chunk with the lowest-feerate chunk it depends on, a downward merge with
    the highest-feerate chunk depending on it. Both are handled at once: `down` tells the direction,
    the near end of a dependency is the one in the moving chunk, and keys are feerates, negated when
    going down. In these terms every merge joins the moving chunk with a lowest-key far chunk. */
module Merging {
  import opened FiniteSets
  import opened FeeRates
  import opened Clusters

  function Near(d: Dep, down: bool): Tx {
    if down then d.par else d.chl
  }

  function Far(d: Dep, down: bool): Tx {
    if down then d.chl else d.par
  }

  ghost function Key(g: Cluster, home: Homes, i: Tx, down: bool): real
    requires home.Keys == g.txs && i in home.Values
  {
    if down then -ChunkRate(g, home, i) else ChunkRate(g, home, i)
  }

  /** The gain of a set, negated when going down. */
  ghost function DirGain(g: Cluster, S: set<Tx>, theta: real, down: bool): real
    requires S <= g.txs
  {
    if down then -GainOf(g, S, theta) else GainOf(g, S, theta)
  }

  ghost function DirKey(theta: real, down: bool): real {
    if down then -theta else theta
  }

  lemma DirGainSign(g: Cluster, home: Homes, i: Tx, theta: real, down: bool)
    requires home.Keys == g.txs && i in home.Values
    ensures DirGain(g, Chunk(home, i), theta, down) > 0.0 <==> Key(g, home, i, down) > DirKey(theta, down)
    ensures DirGain(g, Chunk(home, i), theta, down) == 0.0 <==> Key(g, home, i, down) == DirKey(theta, down)
  {
    GainAtRate(g, Chunk(home, i), theta);
  }

  // ---------- one merge ----------

  /** `home'` joins the chunks `x` and `y` of `home` into chunk `k`. */
  ghost predicate IsMerge(home: Homes, home': Homes, x: Tx, y: Tx, k: Tx) {
    && x in home.Values && y in home.Values && x != y
    && ((k == x && home' == Joined(home, y, x)) || (k == y && home' == Joined(home, x, y)))
  }

  lemma MergeChunks(home: Homes, home': Homes, x: Tx, y: Tx, k: Tx)
    requires IsMerge(home, home', x, y, k)
    ensures home'.Keys == home.Keys
    ensures home'.Values == home.Values - {x, y} + {k}
    ensures forall t :: t in home ==> home'[t] == if home[t] == x || home[t] == y then k else home[t]
    ensures Chunk(home', k) == Chunk(home, x) + Chunk(home, y)
    ensures forall i :: i != x && i != y ==> Chunk(home', i) == Chunk(home, i)
    ensures Chunk(home, x) !! Chunk(home, y)
  {
    if k == x {
      JoinedChunks(home, y, x);
    } else {
      JoinedChunks(home, x, y);
    }
  }

  lemma MergeKeys(g: Cluster, home: Homes, home': Homes, x: Tx, y: Tx, k: Tx, down: bool)
    requires home.Keys == g.txs && IsMerge(home, home', x, y, k)
    ensures home'.Keys == home.Keys && home'.Values == home.Values - {x, y} + {k}
    ensures forall i :: i in home'.Values && i != k ==> Key(g, home', i, down) == Key(g, home, i, down)
    ensures Key(g, home, y, down) <= Key(g, home, x, down) ==>
              Key(g, home, y, down) <= Key(g, home', k, down) <= Key(g, home, x, down)
    ensures Key(g, home, x, down) <= Key(g, home, y, down) ==>
              Key(g, home, x, down) <= Key(g, home', k, down) <= Key(g, home, y, down)
  {
    MergeChunks(home, home', x, y, k);
    var X, Y := Chunk(home, x), Chunk(home, y);
    assert ChunkRate(g, home, x) == R(g, X) && ChunkRate(g, home, y) == R(g, Y);
    assert ChunkRate(g, home', k) == R(g, X + Y);
    if R(g, X) <= R(g, Y) {
      RateOfUnion(g, X, Y);
    }
    if R(g, Y) <= R(g, X) {
      RateOfUnion(g, Y, X);
      assert X + Y == Y + X;
    }
  }

  /** What a merge costs the diagram, from either direction. */
  lemma MergeDiagram(g: Cluster, home: Homes, home': Homes, x: Tx, y: Tx, k: Tx, theta: real, down: bool)
    requires home.Keys == g.txs && IsMerge(home, home', x, y, k)
    ensures home'.Keys == home.Keys
    ensures var gx, gy := DirGain(g, Chunk(home, x), theta, down), DirGain(g, Chunk(home, y), theta, down);
            && DirGain(g, Chunk(home', k), theta, down) == gx + gy
            && Diagram(g, home', theta) == Diagram(g, home, theta) - Positive(gx) - Positive(gy) + Positive(gx + gy)
  {
    MergeChunks(home, home', x, y, k);
    if k == x {
      assert Chunk(home', x) == Chunk(home, y) + Chunk(home, x);
      assert home'.Values == home.Values - {y};
      DiagramOneTwo(g, home', home, y, x, theta);
    } else {
      assert home'.Values == home.Values - {x};
      DiagramOneTwo(g, home', home, x, y, theta);
    }
  }

  // ---------- a merge sequence ----------

  /** What holds between the merges of a sequence moving chunk `x`. The dependencies `E` are set
      aside. `floor` is the key of the chunk merged last: what `x` may still merge with is not below
      it, what `x` must not be merged with is below it, and so `x` itself stays on the right side.
      All chunks involved have keys above `low`. */
  ghost predicate Phase(g: Cluster, home: Homes, E: set<Dep>, x: Tx, floor: real, low: real, down: bool) {
    && home.Keys == g.txs
    && x in home.Values
    && Key(g, home, x, down) >= floor >= low
    && Key(g, home, x, down) > low
    && (forall d :: d in E ==> Near(d, down) in home && home[Near(d, down)] != x)
    && (forall d :: d in g.deps && d !in E ==> Placed(g, home, d, x, floor, low, down))
  }

  ghost predicate Placed(g: Cluster, home: Homes, d: Dep, x: Tx, floor: real, low: real, down: bool)
    requires home.Keys == g.txs && d in g.deps && x in home.Values
  {
    var n, f := home[Near(d, down)], home[Far(d, down)];
    n != f ==>
      && (n == x ==> Key(g, home, f, down) >= floor && Key(g, home, f, down) > low)
      && (n != x ==> Key(g, home, n, down) < Key(g, home, f, down))
      && (f == x ==> Key(g, home, n, down) < floor)
  }

  lemma PhaseWithoutAside(g: Cluster, home: Homes, x: Tx, floor: real, low: real, down: bool)
    requires home.Keys == g.txs && x in home.Values
    requires Key(g, home, x, down) >= floor >= low && Key(g, home, x, down) > low
    requires forall d :: d in g.deps ==> Placed(g, home, d, x, floor, low, down)
    ensures Phase(g, home, {}, x, floor, low, down)
  {
  }

  /** `y` is a lowest-key chunk at the far end of a dependency of `x`, with a key not above `x`'s. */
  ghost predicate Candidate(g: Cluster, home: Homes, x: Tx, y: Tx, down: bool) {
    && home.Keys == g.txs && x in home.Values && y in home.Values
    && x != y
    && (exists d :: d in g.deps && home[Near(d, down)] == x && home[Far(d, down)] == y)
    && Key(g, home, y, down) <= Key(g, home, x, down)
    && (forall d :: d in g.deps && home[Near(d, down)] == x && home[Far(d, down)] != x ==>
          Key(g, home, y, down) <= Key(g, home, home[Far(d, down)], down))
  }

  ghost predicate NoCandidate(g: Cluster, home: Homes, x: Tx, down: bool) {
    && home.Keys == g.txs && x in home.Values
    && (forall d :: d in g.deps && home[Near(d, down)] == x && home[Far(d, down)] != x ==>
          Key(g, home, x, down) < Key(g, home, home[Far(d, down)], down))
  }

  /** A candidate is not below the floor, and above `low`. */
  lemma CandidateKey(g: Cluster, home: Homes, E: set<Dep>, x: Tx, y: Tx, floor: real, low: real, down: bool)
    requires Phase(g, home, E, x, floor, low, down) && Candidate(g, home, x, y, down)
    ensures floor <= Key(g, home, y, down) <= Key(g, home, x, down)
    ensures low < Key(g, home, y, down)
  {
    var e :| e in g.deps && home[Near(e, down)] == x && home[Far(e, down)] == y;
    assert e !in E && Placed(g, home, e, x, floor, low, down);
  }

  lemma MergeKeepsPlaced(
    g: Cluster, home: Homes, home': Homes, d: Dep, x: Tx, y: Tx, k: Tx, floor: real, low: real, down: bool)
    requires home.Keys == g.txs && IsMerge(home, home', x, y, k) && home'.Keys == g.txs && k in home'.Values
    requires d in g.deps && Placed(g, home, d, x, floor, low, down) && Candidate(g, home, x, y, down)
    requires floor <= Key(g, home, y, down) && low < Key(g, home, y, down)
    ensures Placed(g, home', d, k, Key(g, home, y, down), low, down)
  {
    MergeKeys(g, home, home', x, y, k, down);
    MergeChunks(home, home', x, y, k);
  }

  lemma MergeKeepsPhase(
    g: Cluster, home: Homes, home': Homes, E: set<Dep>, x: Tx, y: Tx, k: Tx, floor: real, low: real, down: bool)
    requires Phase(g, home, E, x, floor, low, down) && Candidate(g, home, x, y, down)
    requires IsMerge(home, home', x, y, k)
    requires forall d :: d in E ==> home[Near(d, down)] != y
    ensures Phase(g, home', E, k, Key(g, home, y, down), low, down)
  {
    CandidateKey(g, home, E, x, y, floor, low, down);
    MergeKeys(g, home, home', x, y, k, down);
    MergeChunks(home, home', x, y, k);
    forall d | d in g.deps && d !in E
      ensures Placed(g, home', d, k, Key(g, home, y, down), low, down)
    {
      MergeKeepsPlaced(g, home, home', d, x, y, k, floor, low, down);
    }
  }

  /** When nothing is left to merge, only the dependencies set aside can violate the topology. */
  lemma PhaseEnd(g: Cluster, home: Homes, E: set<Dep>, x: Tx, floor: real, low: real, down: bool)
    requires Phase(g, home, E, x, floor, low, down) && NoCandidate(g, home, x, down)
    ensures forall d :: d in g.deps && d !in E && home[d.chl] != home[d.par] ==>
              ChunkRate(g, home, home[d.chl]) < ChunkRate(g, home, home[d.par])
  {
    forall d | d in g.deps && d !in E && home[d.chl] != home[d.par]
      ensures ChunkRate(g, home, home[d.chl]) < ChunkRate(g, home, home[d.par])
    {
      assert Placed(g, home, d, x, floor, low, down);
    }
  }

  /** The moving chunk never reaches the dependencies set aside. */
  ghost predicate Aside(g: Cluster, home: Homes, E: set<Dep>, low: real, down: bool)
    requires home.Keys == g.txs
  {
    forall d :: d in E ==> d in g.deps && Key(g, home, home[Near(d, down)], down) < low
  }

  /** Chunks with keys not above `low` are left alone, and transactions of other chunks stay in
      chunks with keys above `low`. */
  ghost predicate LowFrame(g: Cluster, home0: Homes, home: Homes, low: real, down: bool)
    requires home0.Keys == g.txs && home.Keys == g.txs
  {
    forall t :: t in g.txs ==> LowFrameAt(g, home0, home, t, low, down)
  }

  ghost predicate LowFrameAt(g: Cluster, home0: Homes, home: Homes, t: Tx, low: real, down: bool)
    requires home0.Keys == g.txs && home.Keys == g.txs && t in g.txs
  {
    && (Key(g, home0, home0[t], down) <= low ==>
          home[t] == home0[t] && Chunk(home, home[t]) == Chunk(home0, home0[t]))
    && (Key(g, home0, home0[t], down) > low ==> Key(g, home, home[t], down) > low)
  }

  lemma MergeKeepsFrameAt(
    g: Cluster, home0: Homes, home: Homes, home': Homes, x: Tx, y: Tx, k: Tx, t: Tx, low: real, down: bool)
    requires home0.Keys == g.txs && home.Keys == g.txs && home'.Keys == g.txs && t in g.txs
    requires LowFrameAt(g, home0, home, t, low, down) && IsMerge(home, home', x, y, k)
    requires Key(g, home, x, down) > low && Key(g, home, y, down) > low
    ensures LowFrameAt(g, home0, home', t, low, down)
  {
    var i := home[t];
    MergeChunks(home, home', x, y, k);
    if Key(g, home0, home0[t], down) <= low {
      assert Key(g, home, i, down) <= low;
      assert i != x && i != y;
      assert Chunk(home', i) == Chunk(home, i);
    } else {
      MergeKeys(g, home, home', x, y, k, down);
    }
  }

  lemma MergeKeepsFrame(
    g: Cluster, home0: Homes, home: Homes, home': Homes, x: Tx, y: Tx, k: Tx, low: real, down: bool)
    requires home0.Keys == g.txs && home.Keys == g.txs && home'.Keys == g.txs
    requires LowFrame(g, home0, home, low, down) && IsMerge(home, home', x, y, k)
    requires Key(g, home, x, down) > low && Key(g, home, y, down) > low
    ensures LowFrame(g, home0, home', low, down)
  {
    forall t | t in g.txs
      ensures LowFrameAt(g, home0, home', t, low, down)
    {
      MergeKeepsFrameAt(g, home0, home, home', x, y, k, t, low, down);
    }
  }

  lemma MergeKeepsAside(
    g: Cluster, home: Homes, home': Homes, E: set<Dep>, x: Tx, y: Tx, k: Tx, low: real, down: bool)
    requires home.Keys == g.txs && home'.Keys == g.txs && Aside(g, home, E, low, down)
    requires IsMerge(home, home', x, y, k) && Key(g, home, x, down) > low && Key(g, home, y, down) > low
    ensures Aside(g, home', E, low, down)
    ensures forall d :: d in E ==> home[Near(d, down)] != y
  {
    MergeChunks(home, home', x, y, k);
    forall d | d in E
      ensures Key(g, home', home'[Near(d, down)], down) < low
    {
      assert home[Near(d, down)] != x && home[Near(d, down)] != y;
    }
  }

  lemma MergedIndex(home: Homes, home': Homes, x: Tx, y: Tx, k: Tx)
    requires IsMerge(home, home', x, y, k)
    ensures k in home'.Values
  {
    MergeChunks(home, home', x, y, k);
  }

  lemma MergeFewer(home: Homes, home': Homes, x: Tx, y: Tx, k: Tx)
    requires IsMerge(home, home', x, y, k)
    ensures |home'.Values| < |home.Values|
  {
    MergeChunks(home, home', x, y, k);
    assert x !in home'.Values || y !in home'.Values;
    FewerElements(home'.Values, home.Values);
  }

  // ---------- what a merge sequence does to the diagram ----------

  /** Comparing the state `home`, moving chunk `x`, with the state `home0` a merge sequence of `x0`
      started from. The sequence gives up at most what `x0` itself adds to the diagram; nothing was
      given up yet at thresholds not below `floor`; and nothing at all at thresholds not above `low`,
      a bound below all keys involved. */
  ghost predicate Run(
    g: Cluster, home0: Homes, x0: Tx, home: Homes, x: Tx, floor: real, low: real, down: bool)
    requires home0.Keys == g.txs && home.Keys == g.txs
  {
    forall theta: real :: RunAt(g, home0, x0, home, x, floor, low, down, theta)
  }

  ghost predicate RunAt(
    g: Cluster, home0: Homes, x0: Tx, home: Homes, x: Tx, floor: real, low: real, down: bool, theta: real)
    requires home0.Keys == g.txs && home.Keys == g.txs
  {
    var rest0 := Diagram(g, home0, theta) - Positive(DirGain(g, Chunk(home0, x0), theta, down));
    && Diagram(g, home, theta) >= rest0
    && (floor <= DirKey(theta, down) ==>
          Diagram(g, home, theta) - Positive(DirGain(g, Chunk(home, x), theta, down)) >= rest0)
    && (DirKey(theta, down) <= low ==> Diagram(g, home, theta) == Diagram(g, home0, theta))
  }

  lemma RunStart(g: Cluster, home: Homes, x: Tx, floor: real, low: real, down: bool)
    requires home.Keys == g.txs
    ensures Run(g, home, x, home, x, floor, low, down)
  {
  }

  lemma MergeKeepsRun(
    g: Cluster, home0: Homes, x0: Tx, home: Homes, home': Homes, x: Tx, y: Tx, k: Tx,
    floor: real, low: real, down: bool)
    requires home0.Keys == g.txs && home.Keys == g.txs && home'.Keys == g.txs
    requires Run(g, home0, x0, home, x, floor, low, down) && IsMerge(home, home', x, y, k)
    requires floor <= Key(g, home, y, down) <= Key(g, home, x, down)
    requires low <= Key(g, home, y, down)
    ensures Run(g, home0, x0, home', k, Key(g, home, y, down), low, down)
  {
    forall theta: real
      ensures RunAt(g, home0, x0, home', k, Key(g, home, y, down), low, down, theta)
    {
      assert RunAt(g, home0, x0, home, x, floor, low, down, theta);
      MergeDiagram(g, home, home', x, y, k, theta, down);
      DirGainSign(g, home, x, theta, down);
      DirGainSign(g, home, y, theta, down);
    }
  }
}
