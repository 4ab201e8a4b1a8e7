/** The spanning-forest linearization algorithm. */
module SpanningForest {
  import opened Options
  import opened FiniteSets
  import opened FeeRates
  import opened Clusters
  import opened Blocks
  import DepGraphs
  import InitialForests
  import opened Forests
  import opened Merging
  import opened Optimality
  import opened Improvement
  import opened TopologyRepair
  import opened Linearizations
  import opened Loading
  import opened Ordering
  import opened Minimality
  import opened Emission
  import opened ForestStates

  /** What the moving chunk reaches are the far ends of its dependencies. */
  lemma ReachIsFar(g: Cluster, v: ForestData, x: Tx, t: Tx, down: bool)
    requires ValidForest(g, v) && x in v.chunkIdxs
    ensures x < |v.reachUp| && x < |v.reachDown|
    ensures t in (if down then v.reachDown[x] else v.reachUp[x]) <==>
            exists d :: d in g.deps && v.home[Near(d, down)] == x && Far(d, down) == t && v.home[t] != x
  {
    assert ChunkOk(g, v, x);
  }

  ghost function DirRate(f: FeeFrac, down: bool): real
    requires f.size > 0
  {
    if down then -Rate(f) else Rate(f)
  }

  /** The stored feerates are the keys of the chunks. */
  lemma StoredRates(g: Cluster, v: ForestData, i: Tx, down: bool)
    requires ValidForest(g, v) && i in v.chunkIdxs
    ensures i in v.home.Values && i < |v.setInfo| && v.setInfo[i].feerate.size > 0
    ensures DirRate(v.setInfo[i].feerate, down) == Key(g, v.home, i, down)
    ensures v.setInfo[i].transactions == Chunk(v.home, i)
  {
    assert ChunkOk(g, v, i);
  }

  /** `y` is the best merge candidate of `x` among the chunks of `seen`, with feerate `best`. */
  ghost predicate BestOf(g: Cluster, home: Homes, x: Tx, seen: set<Tx>, best: FeeFrac, y: Option<Tx>, down: bool) {
    && home.Keys == g.txs && x in home.Values && best.size > 0
    && (y.None? ==> DirRate(best, down) == Key(g, home, x, down))
    && (y.Some? ==>
          && y.value in home.Values && DirRate(best, down) == Key(g, home, y.value, down) <= Key(g, home, x, down)
          && exists t :: t in seen && t in home && home[t] == y.value)
    && (forall t :: t in seen ==> t in home && NotBetter(g, home, home[t], x, best, y, down))
  }

  ghost predicate NotBetter(g: Cluster, home: Homes, k: Tx, x: Tx, best: FeeFrac, y: Option<Tx>, down: bool)
    requires home.Keys == g.txs && k in home.Values && best.size > 0
  {
    && k != x
    && DirRate(best, down) <= Key(g, home, k, down)
    && (y.None? ==> DirRate(best, down) < Key(g, home, k, down))
  }

  /** Looking at one more chunk `k`, all of it within `more`. */
  lemma BestOfMore(
    g: Cluster, home: Homes, x: Tx, seen: set<Tx>, best: FeeFrac, y: Option<Tx>,
    more: set<Tx>, k: Tx, best': FeeFrac, y': Option<Tx>, down: bool)
    requires BestOf(g, home, x, seen, best, y, down) && best'.size > 0
    requires k in home.Values && k != x && more != {} && forall t :: t in more ==> t in home && home[t] == k
    requires DirRate(best', down) <= DirRate(best, down)
    requires (best' == best && y' == y && DirRate(best, down) < Key(g, home, k, down))
             || (best' == best && y' == y && y.Some? && DirRate(best, down) <= Key(g, home, k, down))
             || (y' == Some(k) && DirRate(best', down) == Key(g, home, k, down))
    ensures BestOf(g, home, x, seen + more, best', y', down)
  {
    var u := Any(more);
    assert u in seen + more;
    if y' == y && y.Some? && best' == best {
      var w :| w in seen && w in home && home[w] == y.value;
      assert w in seen + more;
    }
    forall t | t in seen + more
      ensures t in home && NotBetter(g, home, home[t], x, best', y', down)
    {
      if t in seen {
        assert NotBetter(g, home, home[t], x, best, y, down);
      }
    }
  }

  lemma BestOfNone(g: Cluster, v: ForestData, x: Tx, down: bool)
    requires ValidForest(g, v) && x in v.chunkIdxs
    ensures x < |v.setInfo| && x < |v.reachUp| && x < |v.reachDown|
    ensures BestOf(g, v.home, x, {}, v.setInfo[x].feerate, None, down)
  {
    StoredRates(g, v, x, down);
  }

  lemma BestOfSize(g: Cluster, home: Homes, x: Tx, seen: set<Tx>, best: FeeFrac, y: Option<Tx>, down: bool)
    requires BestOf(g, home, x, seen, best, y, down)
    ensures best.size > 0
  {
  }

  lemma BestOfAll(g: Cluster, v: ForestData, x: Tx, reach: set<Tx>, best: FeeFrac, y: Option<Tx>, down: bool)
    requires ValidForest(g, v) && x in v.chunkIdxs && x < |v.reachUp| && x < |v.reachDown|
    requires reach == if down then v.reachDown[x] else v.reachUp[x]
    requires BestOf(g, v.home, x, reach, best, y, down)
    ensures y.None? ==> NoCandidate(g, v.home, x, down)
    ensures y.Some? ==> Candidate(g, v.home, x, y.value, down)
  {
    forall d | d in g.deps && v.home[Near(d, down)] == x && v.home[Far(d, down)] != x
      ensures NotBetter(g, v.home, v.home[Far(d, down)], x, best, y, down)
    {
      ReachIsFar(g, v, x, Far(d, down), down);
    }
    if y.Some? {
      var t :| t in reach && t in v.home && v.home[t] == y.value;
      ReachIsFar(g, v, x, t, down);
    }
  }

  /** Compare one more chunk `k` with the best merge candidate so far. */
  method Consider(best: FeeFrac, y: Option<Tx>, tiebreak: nat, other: FeeFrac, k: Tx, down: bool)
    returns (best': FeeFrac, y': Option<Tx>, tiebreak': nat)
    requires best.size > 0 && other.size > 0 && (y.None? ==> tiebreak == 0)
    ensures best'.size > 0 && (y'.None? ==> tiebreak' == 0)
    ensures DirRate(best', down) <= DirRate(best, down)
    ensures (best' == best && y' == y && DirRate(best, down) < DirRate(other, down))
            || (best' == best && y' == y && y.Some? && DirRate(best, down) <= DirRate(other, down))
            || (y' == Some(k) && best' == other)
  {
    best', y', tiebreak' := best, y, tiebreak;
    ByRatioIsRate(best, other);
    ByRatioIsRate(other, best);
    var worse := if down then Lower(other, best) else Lower(best, other);
    assert worse <==> DirRate(best, down) < DirRate(other, down);
    if !worse {
      var better := if down then Lower(best, other) else Lower(other, best);
      var random: nat :| random >= 0;
      if better || random >= tiebreak {
        best', y', tiebreak' := other, Some(k), random;
      }
    }
  }

  /** The chunks other than `except` are old chunks, and cannot be split if they could not before. */
  ghost predicate Kept(g: Cluster, v0: ForestData, v: ForestData, except: set<Tx>)
    requires v0.home.Keys == g.txs && v.home.Keys == g.txs
  {
    forall i :: i in v.home.Values && i !in except ==> KeptAt(g, v0, v, i)
  }

  ghost predicate KeptAt(g: Cluster, v0: ForestData, v: ForestData, i: Tx)
    requires v0.home.Keys == g.txs && v.home.Keys == g.txs && i in v.home.Values
  {
    && i in v0.home.Values
    && (Unsplittable(g, v0.home, v0.active, i) ==> Unsplittable(g, v.home, v.active, i))
  }

  ghost predicate Links(home: Homes, e: Dep, x: Tx, y: Tx) {
    && e.par in home && e.chl in home
    && ((home[e.par] == x && home[e.chl] == y) || (home[e.par] == y && home[e.chl] == x))
  }

  lemma MergeKeeps(g: Cluster, v: ForestData, v': ForestData, x: Tx, y: Tx, k: Tx, e: Dep)
    requires v.home.Keys == g.txs && IsMerge(v.home, v'.home, x, y, k) && v'.home.Keys == g.txs
    requires v'.active == v.active + {e} && e in g.deps && Links(v.home, e, x, y)
    ensures Kept(g, v, v', {k})
  {
    Merging.MergeChunks(v.home, v'.home, x, y, k);
    forall i | i in v'.home.Values && i != k
      ensures KeptAt(g, v, v', i)
    {
      if Unsplittable(g, v.home, v.active, i) {
        UnsplittableElsewhere(g, v.home, v.active, v'.home, v'.active, i);
      }
    }
  }

  /** Dependencies have only been activated, and none whose far end was in chunk `x0`; all of that chunk is in `x`. */
  ghost predicate MergedOnto(v0: ForestData, v: ForestData, x0: Tx, x: Tx, down: bool) {
    && v0.active <= v.active
    && (forall d :: d in v.active && d !in v0.active ==> Far(d, down) in v0.home && v0.home[Far(d, down)] != x0)
    && (forall t :: t in v0.home && v0.home[t] == x0 ==> t in v.home && v.home[t] == x)
  }

  /** One dependency has been activated, from chunk `x` to another, and they are chunk `k` now. */
  ghost predicate MergedOnce(v: ForestData, v': ForestData, x: Tx, k: Tx, down: bool) {
    && (exists e :: v'.active == v.active + {e} && Far(e, down) in v.home && v.home[Far(e, down)] != x)
    && v.home.Keys == v'.home.Keys && (forall t :: t in v.home && v.home[t] == x ==> v'.home[t] == k)
  }

  lemma OntoStep(v0: ForestData, v: ForestData, v': ForestData, x0: Tx, x: Tx, k: Tx, down: bool)
    requires MergedOnto(v0, v, x0, x, down) && MergedOnce(v, v', x, k, down) && v0.home.Keys == v.home.Keys
    ensures MergedOnto(v0, v', x0, k, down)
  {
    var e :| v'.active == v.active + {e} && Far(e, down) in v.home && v.home[Far(e, down)] != x;
  }

  lemma OntoStart(v: ForestData, x: Tx, down: bool)
    ensures MergedOnto(v, v, x, x, down)
  {
  }

  lemma MergeGrows(g: Cluster, v: ForestData, v': ForestData, x: Tx, y: Tx, k: Tx, e: Dep, down: bool)
    requires v.home.Keys == g.txs && e in g.deps && IsMerge(v.home, v'.home, x, y, k) && v'.active == v.active + {e}
    requires v.home[Far(e, down)] == y
    ensures MergedOnce(v, v', x, k, down)
  {
    Merging.MergeChunks(v.home, v'.home, x, y, k);
  }

  // ---------- runs of merges ----------

  /** A chunk is merged with the best of the chunks that it should not be apart from, in one direction. */
  ghost predicate CandidateMerge(g: Cluster, home: Homes, home': Homes) {
    exists x, y, k, down :: Candidate(g, home, x, y, down) && IsMerge(home, home', x, y, k)
  }

  ghost predicate MergeRun(g: Cluster, run: seq<Homes>) {
    |run| > 0 && forall j :: 0 <= j < |run| - 1 ==> CandidateMerge(g, run[j], run[j + 1])
  }

  lemma RunOn(g: Cluster, run: seq<Homes>, home': Homes, x: Tx, y: Tx, k: Tx, down: bool)
    requires MergeRun(g, run) && Candidate(g, run[|run| - 1], x, y, down) && IsMerge(run[|run| - 1], home', x, y, k)
    ensures MergeRun(g, run + [home'])
  {
    hide Candidate, IsMerge;
    assert CandidateMerge(g, run[|run| - 1], home');
    var run' := run + [home'];
    forall j | 0 <= j < |run'| - 1
      ensures CandidateMerge(g, run'[j], run'[j + 1])
    {
      assert j < |run| - 1 || j == |run| - 1;
    }
  }

  lemma RunNotEmpty(g: Cluster, run: seq<Homes>)
    requires MergeRun(g, run)
    ensures |run| > 0
  {
  }

  lemma NoMerges(g: Cluster, home: Homes)
    ensures MergeRun(g, [home])
  {
  }

  /** All that is kept track of in a merge sequence that started with chunk `x0` of `home0`. */
  ghost predicate InSequence(
    g: Cluster, home0: Homes, x0: Tx, home: Homes, x: Tx, E: set<Dep>, floor: real, low: real, down: bool)
  {
    && home0.Keys == g.txs
    && Phase(g, home, E, x, floor, low, down)
    && Aside(g, home, E, low, down)
    && LowFrame(g, home0, home, low, down)
    && Run(g, home0, x0, home, x, floor, low, down)
  }

  lemma SequenceKeys(
    g: Cluster, home0: Homes, x0: Tx, home: Homes, x: Tx, E: set<Dep>, floor: real, low: real, down: bool)
    requires InSequence(g, home0, x0, home, x, E, floor, low, down)
    ensures home.Keys == g.txs && x in home.Values
  {
  }

  lemma SequenceStart(g: Cluster, home: Homes, x: Tx, E: set<Dep>, floor: real, low: real, down: bool)
    requires Phase(g, home, E, x, floor, low, down) && Aside(g, home, E, low, down)
    ensures InSequence(g, home, x, home, x, E, floor, low, down)
  {
    RunStart(g, home, x, floor, low, down);
    forall t | t in g.txs
      ensures LowFrameAt(g, home, home, t, low, down)
    {
    }
  }

  lemma SequenceStep(
    g: Cluster, home0: Homes, x0: Tx, home: Homes, home': Homes, x: Tx, y: Tx, k: Tx, E: set<Dep>,
    floor: real, low: real, down: bool)
    requires InSequence(g, home0, x0, home, x, E, floor, low, down)
    requires Candidate(g, home, x, y, down) && IsMerge(home, home', x, y, k) && home'.Keys == g.txs
    ensures InSequence(g, home0, x0, home', k, E, Key(g, home, y, down), low, down)
    ensures |home'.Values| < |home.Values|
  {
    CandidateKey(g, home, E, x, y, floor, low, down);
    MergeKeepsFrame(g, home0, home, home', x, y, k, low, down);
    MergeKeepsRun(g, home0, x0, home, home', x, y, k, floor, low, down);
    MergeKeepsAside(g, home, home', E, x, y, k, low, down);
    MergeKeepsPhase(g, home, home', E, x, y, k, floor, low, down);
    MergeFewer(home, home', x, y, k);
  }

  /** A FIFO of indexes of chunks that may be improved still, and the set of its elements. */
  datatype Queue = Queue(chunks: seq<Tx>, idxs: set<Tx>)

  /** Append an index, if it is not in the queue yet. */
  function Enqueue(q: Queue, i: Tx): Queue {
    if i in q.idxs then q else Queue(q.chunks + [i], q.idxs + {i})
  }

  ghost predicate QueueSet(q: Queue) {
    && (forall i :: i in q.idxs <==> i in q.chunks)
    && (forall m, n :: 0 <= m < n < |q.chunks| ==> q.chunks[m] != q.chunks[n])
  }

  /** The queue holds each of its elements once, and every chunk not in it, other than those of
      `except`, has no dependency worth splitting. */
  ghost predicate QueueOk(g: Cluster, v: ForestData, q: Queue, except: set<Tx>) {
    && v.home.Keys == g.txs
    && QueueSet(q)
    && (forall i :: i in v.home.Values && i !in except ==> i in q.idxs || Unsplittable(g, v.home, v.active, i))
  }

  lemma MergeKeepsQueue(g: Cluster, v: ForestData, v': ForestData, q: Queue, x: Tx, y: Tx, k: Tx, except: set<Tx>)
    requires QueueOk(g, v, q, except + {x}) && v'.home.Keys == g.txs
    requires IsMerge(v.home, v'.home, x, y, k) && Kept(g, v, v', {k})
    ensures QueueOk(g, v', q, except + {k})
  {
    Merging.MergeChunks(v.home, v'.home, x, y, k);
    forall i | i in v'.home.Values && i !in except + {k}
      ensures i in q.idxs || Unsplittable(g, v'.home, v'.active, i)
    {
      assert KeptAt(g, v, v', i);
    }
  }

  lemma EnqueueKeepsQueue(g: Cluster, v: ForestData, q: Queue, x: Tx, except: set<Tx>)
    requires QueueOk(g, v, q, except + {x})
    ensures QueueOk(g, v, Enqueue(q, x), except)
  {
    var q' := Enqueue(q, x);
    if x !in q.idxs {
      assert forall i :: i in q'.chunks <==> i in q.chunks || i == x;
    }
  }

  lemma CandidateKeys(g: Cluster, home: Homes, x: Tx, y: Tx, down: bool)
    requires Candidate(g, home, x, y, down)
    ensures home.Keys == g.txs && x in home.Values && y in home.Values
  {
  }

  lemma ForestKeys(g: Cluster, v: ForestData)
    requires ValidForest(g, v)
    ensures v.home.Keys == g.txs && v.chunkIdxs == v.home.Values && v.active <= g.deps
  {
  }

  lemma DeactivateKeepsQueue(g: Cluster, v: ForestData, v': ForestData, q: Queue, e: Dep, T: set<Tx>, i: Tx, j: Tx)
    requires QueueOk(g, v, q, {j}) && e in g.deps && v.home[e.par] == j && v.home[e.chl] == j
    requires j in v.home.Values && i !in v.home.Values && T != {} && T < Chunk(v.home, j)
    requires v'.home == Moved(v.home, T, i) && v'.active == v.active - {e}
    ensures QueueOk(g, v', q, {j} + {i})
  {
    MovedChunks(v.home, T, i, j);
    forall k | k in v'.home.Values && k !in {j} + {i}
      ensures k in q.idxs || Unsplittable(g, v'.home, v'.active, k)
    {
      if k !in q.idxs {
        UnsplittableElsewhere(g, v.home, v.active, v'.home, v'.active, k);
      }
    }
  }

  lemma SelfMergeKeepsQueue(g: Cluster, v: ForestData, v': ForestData, q: Queue, i: Tx, j: Tx, e: Dep)
    requires QueueOk(g, v, q, {j} + {i}) && i in v.home.Values && j in v.home.Values && i != j
    requires e in g.deps && Links(v.home, e, i, j)
    requires v'.home == Joined(v.home, j, i) && v'.active == v.active + {e}
    ensures QueueOk(g, v', Enqueue(q, i), {})
  {
    MergeKeeps(g, v, v', i, j, i, e);
    JoinedChunks(v.home, j, i);
    forall k | k in v'.home.Values && k !in {} + {i}
      ensures k in q.idxs || Unsplittable(g, v'.home, v'.active, k)
    {
      assert KeptAt(g, v, v', k);
    }
    EnqueueKeepsQueue(g, v', q, i, {});
  }

  /** The diagram of `home` is nowhere below that of `home0`. */
  ghost predicate NotWorse(g: Cluster, home0: Homes, home: Homes) {
    && home0.Keys == g.txs && home.Keys == g.txs
    && forall theta: real :: Diagram(g, home, theta) >= Diagram(g, home0, theta)
  }

  ghost predicate StrictlyBetter(g: Cluster, home0: Homes, home: Homes, theta: real) {
    && home0.Keys == g.txs && home.Keys == g.txs
    && Diagram(g, home, theta) > Diagram(g, home0, theta)
  }

  ghost predicate SameDiagram(g: Cluster, home0: Homes, home: Homes) {
    && home0.Keys == g.txs && home.Keys == g.txs
    && forall theta: real :: Diagram(g, home, theta) == Diagram(g, home0, theta)
  }

  lemma SameIntro(g: Cluster, home0: Homes, home: Homes)
    requires home0.Keys == g.txs && home.Keys == g.txs
    requires forall theta: real :: Diagram(g, home, theta) == Diagram(g, home0, theta)
    ensures SameDiagram(g, home0, home) && NotWorse(g, home0, home)
  {
  }

  lemma SameDiagramSelf(g: Cluster, home: Homes)
    requires home.Keys == g.txs
    ensures NotWorse(g, home, home)
  {
  }

  /** Whether chunk `i` depends on chunk `j` shows in the stored reachable sets. */
  lemma ReachOverlap(g: Cluster, v: ForestData, i: Tx, j: Tx)
    requires ValidForest(g, v) && i in v.home.Values && j in v.home.Values && i != j
    ensures i < |v.reachUp| && j < |v.setInfo|
    ensures v.reachUp[i] * v.setInfo[j].transactions != {} <==>
            exists d :: d in g.deps && v.home[d.par] == j && v.home[d.chl] == i
  {
    StoredRates(g, v, j, false);
    ReachIsFar(g, v, i, i, false);
    if exists d :: d in g.deps && v.home[d.par] == j && v.home[d.chl] == i {
      var d :| d in g.deps && v.home[d.par] == j && v.home[d.chl] == i;
      assert v.home[Near(d, false)] == i && Far(d, false) == d.par;
      ReachIsFar(g, v, i, d.par, false);
      assert d.par in v.reachUp[i] * v.setInfo[j].transactions;
    }
    if v.reachUp[i] * v.setInfo[j].transactions != {} {
      var t := Any(v.reachUp[i] * v.setInfo[j].transactions);
      ReachIsFar(g, v, i, t, false);
    }
  }

  /** After the upward sequence of the top part, the downward sequence of the bottom part can start. */
  lemma BetweenSequences(
    g: Cluster, home0: Homes, home1: Homes, home2: Homes, i: Tx, j: Tx, T: set<Tx>, x: Tx, floor: real)
    requires GoodSplit(g, home0, home1, i, j, T)
    requires InSequence(g, home1, i, home2, x, DepsOn(g, home1, j), floor, ChunkRate(g, home0, j), false)
    requires NoCandidate(g, home2, x, false)
    ensures Phase(g, home2, {}, j, -ChunkRate(g, home0, j), -ChunkRate(g, home0, j), true)
    ensures Aside(g, home2, {}, -ChunkRate(g, home0, j), true)
  {
    hide Phase, Run, LowFrame, NoCandidate, GoodSplit;
    SplitKeys(g, home0, home1, i, j, T);
    SequenceKeys(g, home1, i, home2, x, DepsOn(g, home1, j), floor, ChunkRate(g, home0, j), false);
    var rho := ChunkRate(g, home0, j);
    PhaseEnd(g, home2, DepsOn(g, home1, j), x, floor, rho, false);
    UpStartsDown(g, home0, home1, home2, i, j, T);
    PhaseWithoutAside(g, home2, j, -rho, -rho, true);
  }

  /** A dependency between the parts that was not active is not activated by the two sequences. */
  lemma SplitStays(
    g: Cluster, home0: Homes, v1: ForestData, v2: ForestData, v3: ForestData, i: Tx, j: Tx, T: set<Tx>,
    x2: Tx, floor2: real, x3: Tx)
    requires GoodSplit(g, home0, v1.home, i, j, T)
    requires InSequence(g, v1.home, i, v2.home, x2, DepsOn(g, v1.home, j), floor2, ChunkRate(g, home0, j), false)
    requires MergedOnto(v1, v2, i, x2, false) && MergedOnto(v2, v3, j, x3, true)
    ensures forall e :: e in g.deps - v1.active && v1.home[e.par] == i && v1.home[e.chl] == j ==> e !in v3.active
  {
    hide Phase, Aside, Run, LowFrame;
    SplitKeys(g, home0, v1.home, i, j, T);
    SplitRates(g, home0, v1.home, i, j, T);
    SequenceKeys(g, v1.home, i, v2.home, x2, DepsOn(g, v1.home, j), floor2, ChunkRate(g, home0, j), false);
    forall e | e in g.deps - v1.active && v1.home[e.par] == i && v1.home[e.chl] == j
      ensures e !in v3.active
    {
      LowStays(g, v1.home, v2.home, e.chl, ChunkRate(g, home0, j));
    }
  }

  lemma LowStays(g: Cluster, home: Homes, home': Homes, t: Tx, low: real)
    requires home.Keys == g.txs && home'.Keys == g.txs && LowFrame(g, home, home', low, false) && t in g.txs
    requires ChunkRate(g, home, home[t]) <= low
    ensures home'[t] == home[t]
  {
    assert LowFrameAt(g, home, home', t, low, false);
  }

  /** After both sequences the state is topological again, and its diagram is better. */
  lemma AfterSequences(
    g: Cluster, home0: Homes, home1: Homes, home2: Homes, home3: Homes, i: Tx, j: Tx, T: set<Tx>,
    x2: Tx, floor2: real, x3: Tx, floor3: real)
    requires GoodSplit(g, home0, home1, i, j, T)
    requires InSequence(g, home1, i, home2, x2, DepsOn(g, home1, j), floor2, ChunkRate(g, home0, j), false)
    requires InSequence(g, home2, j, home3, x3, {}, floor3, -ChunkRate(g, home0, j), true)
    requires NoCandidate(g, home3, x3, true)
    ensures home3.Keys == g.txs && Topological(g, home3)
    ensures NotWorse(g, home0, home3) && StrictlyBetter(g, home0, home3, ChunkRate(g, home0, j))
  {
    hide Phase, Run, LowFrame, NoCandidate, GoodSplit, Aside;
    SplitKeys(g, home0, home1, i, j, T);
    SequenceKeys(g, home1, i, home2, x2, DepsOn(g, home1, j), floor2, ChunkRate(g, home0, j), false);
    SequenceKeys(g, home2, j, home3, x3, {}, floor3, -ChunkRate(g, home0, j), true);
    var rho := ChunkRate(g, home0, j);
    BottomUntouched(g, home0, home1, home2, i, j, T);
    PhaseEnd(g, home3, {}, x3, floor3, -rho, true);
    forall theta: real
      ensures Diagram(g, home3, theta) >= Diagram(g, home0, theta)
      ensures theta == rho ==> Diagram(g, home3, theta) > Diagram(g, home0, theta)
    {
      ImproveDiagram(g, home0, home1, home2, home3, i, j, T, x2, floor2, x3, floor3, theta);
    }
  }

  /** The top set stored for the active dependency `e`. */
  ghost function TopSet(v: ForestData, e: Dep): set<Tx>
    requires e in v.depTop && v.depTop[e] < |v.setInfo|
  {
    v.setInfo[v.depTop[e]].transactions
  }

  /** The top part of the chunk of `e` depends on the rest of it, so that the parts have to merge again. */
  ghost predicate SelfMerges(g: Cluster, v: ForestData, e: Dep) {
    && e in v.depTop && v.depTop[e] < |v.setInfo| && e.par in v.home
    && exists d :: d in g.deps && d.chl in TopSet(v, e) && d.par in Chunk(v.home, v.home[e.par]) - TopSet(v, e)
  }

  lemma SelfMergesAfter(g: Cluster, v: ForestData, e: Dep, home: Homes, top: Tx, bottom: Tx)
    requires e in v.depTop && v.depTop[e] < |v.setInfo| && e.par in v.home && bottom == v.home[e.par] && top != bottom
    requires Chunk(home, top) == TopSet(v, e) && Chunk(home, bottom) == Chunk(v.home, bottom) - TopSet(v, e)
    requires forall d :: d in g.deps ==> d.par in home && d.chl in home
    ensures SelfMerges(g, v, e) <==> exists d :: d in g.deps && home[d.par] == bottom && home[d.chl] == top
  {
    forall d | d in g.deps
      ensures d.chl in TopSet(v, e) <==> home[d.chl] == top
      ensures d.par in Chunk(v.home, bottom) - TopSet(v, e) <==> home[d.par] == bottom
    {
      assert d.chl in Chunk(home, top) <==> home[d.chl] == top;
      assert d.par in Chunk(home, bottom) <==> home[d.par] == bottom;
    }
  }

  /** The two ends of a dependency are in the two parts that it is split into. */
  lemma SplitEnds(v: ForestData, e: Dep, home: Homes, T: set<Tx>, top: Tx, bottom: Tx)
    requires e.par in v.home && e.chl in v.home && v.home[e.par] == v.home[e.chl] == bottom
    requires IsTop(Chunk(v.home, bottom), v.active, e, T) && home == Moved(v.home, T, top)
    ensures home[e.par] == top && home[e.chl] == bottom
  {
  }

  lemma StoredTop(g: Cluster, v: ForestData, e: Dep)
    requires ValidForest(g, v) && e in v.active
    ensures e in g.deps && e.par in v.home && e.chl in v.home
    ensures e in v.depTop && v.depTop[e] < |v.setInfo| && v.depTop[e] !in v.home.Values
    ensures v.home[e.par] in v.home.Values && v.home[e.par] == v.home[e.chl]
    ensures IsTop(Chunk(v.home, v.home[e.par]), v.active, e, TopSet(v, e))
    ensures TopSet(v, e) != {} && TopSet(v, e) < Chunk(v.home, v.home[e.par]) && TopSet(v, e) <= g.txs
    ensures v.setInfo[v.depTop[e]].feerate.size > 0
    ensures Rate(v.setInfo[v.depTop[e]].feerate) == R(g, TopSet(v, e))
  {
    assert TopOk(g, v, e);
    assert e.chl in Chunk(v.home, v.home[e.par]);
  }

  /** The stored feerate of the top set of `e` is higher than that of its chunk. */
  predicate TopBeats(v: ForestData, e: Dep)
    requires e in v.depTop && v.depTop[e] < |v.setInfo| && e.par in v.home && v.home[e.par] < |v.setInfo|
  {
    Lower(v.setInfo[v.home[e.par]].feerate, v.setInfo[v.depTop[e]].feerate)
  }

  /** The stored top set of the dependency `e` of chunk `i`, when there is one. */
  ghost predicate HasTopSet(g: Cluster, v: ForestData, e: Dep, i: Tx) {
    && e in v.depTop && v.depTop[e] < |v.setInfo| && e.par in v.home && v.home[e.par] == i
    && v.home.Keys == g.txs && i in v.home.Values && TopSet(v, e) != {} && TopSet(v, e) <= g.txs
  }

  /** The top set of `e` has a higher feerate than chunk `i`, its own. */
  ghost predicate TopAbove(g: Cluster, v: ForestData, e: Dep, i: Tx) {
    HasTopSet(g, v, e, i) && R(g, TopSet(v, e)) > ChunkRate(g, v.home, i)
  }

  ghost predicate TopNotAbove(g: Cluster, v: ForestData, e: Dep, i: Tx) {
    HasTopSet(g, v, e, i) && R(g, TopSet(v, e)) <= ChunkRate(g, v.home, i)
  }

  lemma TopBeatsRates(g: Cluster, v: ForestData, e: Dep)
    requires ValidForest(g, v) && e in v.active
    ensures e in v.depTop && v.depTop[e] < |v.setInfo| && e.par in v.home && v.home[e.par] < |v.setInfo|
    ensures if TopBeats(v, e) then TopAbove(g, v, e, v.home[e.par]) else TopNotAbove(g, v, e, v.home[e.par])
  {
    StoredTop(g, v, e);
    StoredRates(g, v, v.home[e.par], false);
    ByRatioIsRate(v.setInfo[v.home[e.par]].feerate, v.setInfo[v.depTop[e]].feerate);
  }

  /** A chunk is unsplittable when no stored top set of its dependencies beats it. */
  lemma UnsplittableIfNone(g: Cluster, v: ForestData, i: Tx)
    requires ValidForest(g, v) && i in v.home.Values && v.home.Keys == g.txs
    requires forall e :: e in v.active && v.home[e.par] == i ==> TopNotAbove(g, v, e, i)
    ensures Unsplittable(g, v.home, v.active, i)
  {
    var C := Chunk(v.home, i);
    forall e, T | e in v.active && IsTop(C, v.active, e, T)
      ensures GainOf(g, T, ChunkRate(g, v.home, i)) <= 0.0
    {
      StoredTop(g, v, e);
      assert TopNotAbove(g, v, e, i);
      TopUnique(C, v.active, e, T, TopSet(v, e));
      GainAtRate(g, T, ChunkRate(g, v.home, i));
    }
  }

  /** All of `idxs`, in random order. */
  method Shuffled(idxs: set<Tx>) returns (q: Queue)
    ensures QueueSet(q) && q.idxs == idxs
  {
    var todo, chunks := idxs, [];
    while todo != {}
      invariant todo <= idxs
      invariant forall i :: i in chunks <==> i in idxs && i !in todo
      invariant forall m, n :: 0 <= m < n < |chunks| ==> chunks[m] != chunks[n]
    {
      var i :| i in todo;
      todo := todo - {i};
      ghost var before := chunks;
      chunks := chunks + [i];
      assert forall k :: k in chunks <==> k in before || k == i;
      var last := |chunks| - 1;
      var j :| 0 <= j <= last;
      ghost var pushed := chunks;
      chunks := chunks[last := chunks[j]][j := i];
      assert chunks[j] == pushed[last] && chunks[last] == pushed[j];
      assert forall n :: 0 <= n < |chunks| && n != j && n != last ==> chunks[n] == pushed[n];
      SwapSame(pushed, chunks, j, last);
    }
    q := Queue(chunks, idxs);
  }

  lemma SwapSame(s: seq<Tx>, s': seq<Tx>, j: int, n: int)
    requires 0 <= j < |s| && 0 <= n < |s| && |s'| == |s| && s'[j] == s[n] && s'[n] == s[j]
    requires forall k :: 0 <= k < |s| && k != j && k != n ==> s'[k] == s[k]
    ensures forall i :: i in s' <==> i in s
  {
    forall i | i in s
      ensures i in s'
    {
      var k :| 0 <= k < |s| && s[k] == i;
      assert s'[if k == j then n else if k == n then j else k] == i;
    }
    forall i | i in s'
      ensures i in s
    {
      var k :| 0 <= k < |s'| && s'[k] == i;
      assert s[if k == j then n else if k == n then j else k] == i;
    }
  }

  lemma QueueAll(g: Cluster, v: ForestData, q: Queue)
    requires v.home.Keys == g.txs && QueueSet(q) && q.idxs == v.home.Values
    ensures QueueOk(g, v, q, {})
  {
  }

  /** The place of the first member of `I`; the length if there is none. */
  ghost function FirstIn(s: seq<Tx>, I: set<Tx>): (n: nat)
    ensures n <= |s| && (n < |s| ==> s[n] in I) && forall k :: 0 <= k < n ==> s[k] !in I
  {
    if s == [] || s[0] in I then 0 else 1 + FirstIn(s[1..], I)
  }

  /** One step of the optimization: the first chunk in the queue is taken off it. If nothing of it can be split, that is
      all; otherwise it is split at some dependency that is worth it, which is not active afterwards, and the diagram is
      better, unless the parts have to merge again. */
  ghost predicate Optimized(g: Cluster, v: ForestData, q: Queue, v': ForestData, q': Queue, more: bool)
    requires v.home.Keys == g.txs
  {
    var n := FirstIn(q.chunks, v.home.Values);
    if n == |q.chunks| then v' == v && q'.chunks == [] && !more
    else
      var i := q.chunks[n];
      if Unsplittable(g, v.home, v.active, i)
      then v' == v && q'.chunks == q.chunks[n + 1..] && (more <==> q'.chunks != [])
      else more && exists e :: SplitAt(g, v, v', i, e)
  }

  ghost predicate SplitAt(g: Cluster, v: ForestData, v': ForestData, i: Tx, e: Dep)
    requires v.home.Keys == g.txs && i in v.home.Values
  {
    && e in v.active && TopAbove(g, v, e, i) && e !in v'.active
    && if SelfMerges(g, v, e) then SameDiagram(g, v.home, v'.home)
       else StrictlyBetter(g, v.home, v'.home, ChunkRate(g, v.home, i))
  }

  /** A step that changes no dependency shortens the queue. */
  lemma NoIdleStep(g: Cluster, v: ForestData, q: Queue, v': ForestData, q': Queue, more: bool)
    requires v.home.Keys == g.txs && Optimized(g, v, q, v', q', more) && v'.active == v.active
    ensures q.chunks == [] || |q'.chunks| < |q.chunks|
  {
    hide SelfMerges, TopAbove, SameDiagram, StrictlyBetter, Unsplittable;
  }

  lemma AboveIsSplittable(g: Cluster, v: ForestData, e: Dep, i: Tx)
    requires ValidForest(g, v) && e in v.active && i in v.home.Values && v.home.Keys == g.txs && TopAbove(g, v, e, i)
    ensures !Unsplittable(g, v.home, v.active, i)
  {
    StoredTop(g, v, e);
    GainAtRate(g, TopSet(v, e), ChunkRate(g, v.home, i));
  }

  lemma Dequeued(g: Cluster, v: ForestData, q: Queue, q': Queue, i: Tx)
    requires QueueOk(g, v, q, {}) && q.chunks != [] && q.chunks[0] == i
    requires q' == Queue(q.chunks[1..], q.idxs - {i})
    ensures i in v.home.Values ==> QueueOk(g, v, q', {i})
    ensures i !in v.home.Values ==> QueueOk(g, v, q', {})
  {
    assert q.chunks == [i] + q'.chunks;
    assert forall k :: k in q'.chunks ==> k != i;
  }

  lemma QueueEmpty(g: Cluster, v: ForestData, q: Queue)
    requires QueueOk(g, v, q, {}) && q.chunks == []
    ensures v.home.Keys == g.txs && AllUnsplittable(g, v.home, v.active)
  {
  }

  lemma QueueWithout(g: Cluster, v: ForestData, q: Queue, i: Tx)
    requires QueueOk(g, v, q, {i}) && i in v.home.Values && Unsplittable(g, v.home, v.active, i)
    ensures QueueOk(g, v, q, {})
  {
  }

  lemma Popped(q: Queue, q': Queue, i: Tx)
    requires QueueSet(q) && q.chunks != [] && q.chunks[0] == i && q' == Queue(q.chunks[1..], q.idxs - {i})
    ensures QueueSet(q')
  {
    assert q.chunks == [i] + q'.chunks;
    assert forall k :: k in q'.chunks ==> k != i;
  }

  lemma Pushed(q: Queue, i: Tx)
    requires QueueSet(q)
    ensures QueueSet(Enqueue(q, i)) && Enqueue(q, i).idxs == q.idxs + {i}
  {
    if i !in q.idxs {
      assert forall k :: k in Enqueue(q, i).chunks <==> k in q.chunks || k == i;
    }
  }

  lemma EmptyQueue(q: Queue)
    requires QueueSet(q) && q.chunks == []
    ensures q.idxs == {}
  {
    assert forall i :: i !in q.idxs;
  }

  /** All that is kept track of while chunk `x0` of `home0` is merged upward to have `done` loaded. */
  ghost predicate InLoad(g: Cluster, home0: Homes, x0: Tx, home: Homes, done: set<Tx>, x: Tx, floor: real, low: real) {
    && home0.Keys == g.txs
    && LoadPhase(g, home, done, x, floor, low)
    && Run(g, home0, x0, home, x, floor, low, false)
  }

  lemma InLoadStep(
    g: Cluster, home0: Homes, x0: Tx, home: Homes, home': Homes, done: set<Tx>, x: Tx, y: Tx, k: Tx, floor: real,
    low: real)
    requires InLoad(g, home0, x0, home, done, x, floor, low)
    requires Candidate(g, home, x, y, false) && IsMerge(home, home', x, y, k) && home'.Keys == g.txs
    ensures InLoad(g, home0, x0, home', done, k, Key(g, home, y, false), low)
  {
    CandidateKey(g, home, Later(g, done), x, y, floor, low, false);
    LoadStep(g, home, home', done, x, y, k, floor, low);
    MergeKeepsRun(g, home0, x0, home, home', x, y, k, floor, low, false);
  }

  /** One transaction of a valid linearization can be loaded. */
  lemma InLoadStart(g: Cluster, L: seq<Tx>, n: nat, home: Homes) returns (low: real)
    requires ValidLinearization(g, L) && n < |L| && Loaded(g, home, Elems(L[..n]))
    ensures L[n] in home && InLoad(g, home, home[L[n]], home, Elems(L[..n + 1]), home[L[n]], low, low)
    ensures Chunk(home, home[L[n]]) == {L[n]} && L[n] !in L[..n]
  {
    low := LowBound(g, home, home.Values);
    ElemsPrefix(L, n);
    assert L[n] in Elems(L);
    LoadStarts(g, home, Elems(L[..n]), L[n], low);
    RunStart(g, home, home[L[n]], low, low, false);
  }

  lemma InLoadEnd(
    g: Cluster, L: seq<Tx>, n: nat, home0: Homes, x0: Tx, home: Homes, x: Tx, floor: real, low: real)
    requires n < |L| && InLoad(g, home0, x0, home, Elems(L[..n + 1]), x, floor, low) && NoCandidate(g, home, x, false)
    requires LoadedUnder(g, L, n, home0) && Chunk(home0, x0) == {L[n]} && L[n] !in L[..n]
    ensures Loaded(g, home, Elems(L[..n + 1])) && LoadedUnder(g, L, n + 1, home)
  {
    LoadEnds(g, home, Elems(L[..n + 1]), x, floor, low);
    LoadedUnderNext(g, L, n, home0, home, x0, x, floor, low);
  }

  lemma LoadStarted(g: Cluster, L: seq<Tx>, home: Homes)
    requires home.Keys == g.txs && Elems(L) <= g.txs && AreSingles(home, g.txs)
    ensures Loaded(g, home, Elems(L[..0])) && LoadedUnder(g, L, 0, home)
  {
    assert Elems(L[..0]) == {};
    assert g.txs - {} == g.txs;
    LoadedUnderStart(g, L, home);
  }

  lemma LoadDone(g: Cluster, L: seq<Tx>, home: Homes)
    requires ValidLinearization(g, L) && Loaded(g, home, Elems(L[..|L|])) && LoadedUnder(g, L, |L|, home)
    ensures home.Keys == g.txs && Topological(g, home) && Under(g, L, home)
  {
    assert L[..|L|] == L;
    LoadedUnderAll(g, L, home);
  }

  /** The top set of `e` has the same feerate as chunk `i`, its own. */
  ghost predicate TopEqual(g: Cluster, v: ForestData, e: Dep, i: Tx) {
    HasTopSet(g, v, e, i) && R(g, TopSet(v, e)) == ChunkRate(g, v.home, i)
  }

  ghost predicate TopBelow(g: Cluster, v: ForestData, e: Dep, i: Tx) {
    HasTopSet(g, v, e, i) && R(g, TopSet(v, e)) < ChunkRate(g, v.home, i)
  }

  /** The stored feerate of the top set of `e` is lower than that of its chunk. */
  predicate TopLoses(v: ForestData, e: Dep)
    requires e in v.depTop && v.depTop[e] < |v.setInfo| && e.par in v.home && v.home[e.par] < |v.setInfo|
  {
    Lower(v.setInfo[v.depTop[e]].feerate, v.setInfo[v.home[e.par]].feerate)
  }

  /** In a state that cannot be split, a top set that is not below its chunk is equal to it. */
  lemma TopLosesRates(g: Cluster, v: ForestData, e: Dep)
    requires ValidForest(g, v) && e in v.active && v.home.Keys == g.txs && AllUnsplittable(g, v.home, v.active)
    ensures e in v.depTop && v.depTop[e] < |v.setInfo| && e.par in v.home && v.home[e.par] < |v.setInfo|
    ensures if TopLoses(v, e) then TopBelow(g, v, e, v.home[e.par]) else TopEqual(g, v, e, v.home[e.par])
  {
    var i := v.home[e.par];
    StoredTop(g, v, e);
    StoredRates(g, v, i, false);
    ByRatioIsRate(v.setInfo[v.depTop[e]].feerate, v.setInfo[i].feerate);
    assert Unsplittable(g, v.home, v.active, i);
    GainAtRate(g, TopSet(v, e), ChunkRate(g, v.home, i));
  }

  /** No dependency of chunk `i` has an equal top set with the pivot on the wanted side. */
  ghost predicate NoPivotTop(g: Cluster, v: ForestData, i: Tx, pivot: Tx, inside: bool) {
    forall e :: e in v.active && e.par in v.home && v.home[e.par] == i ==> PivotTopOther(g, v, e, i, pivot, inside)
  }

  ghost predicate PivotTopOther(g: Cluster, v: ForestData, e: Dep, i: Tx, pivot: Tx, inside: bool) {
    TopBelow(g, v, e, i) || (TopEqual(g, v, e, i) && (pivot in TopSet(v, e)) != inside)
  }

  /** `e` has an equal top set with the pivot on the wanted side. */
  ghost predicate PivotTop(g: Cluster, v: ForestData, e: Dep, i: Tx, pivot: Tx, inside: bool) {
    TopEqual(g, v, e, i) && (pivot in TopSet(v, e)) == inside
  }

  ghost predicate SomeEqualTop(g: Cluster, v: ForestData, i: Tx) {
    exists e :: e in v.active && TopEqual(g, v, e, i)
  }

  ghost predicate SomePivotTop(g: Cluster, v: ForestData, p: Pending) {
    exists e :: e in v.active && PivotTop(g, v, e, p.chunk, p.pivot, !p.down)
  }

  /** One step of the minimization takes the first entry off the queue. If its chunk has no dependency with an equal
      top, that is all. If none has the pivot on the wanted side, the entry goes on to its second stage, unless it
      is there. Otherwise the chunk is split. */
  ghost predicate Minimized(
    g: Cluster, v: ForestData, pending: seq<Pending>, v': ForestData, pending': seq<Pending>, more: bool)
  {
    if pending == [] then v' == v && pending' == [] && !more
    else
      var p, rest := pending[0], pending[1..];
      && more
      && if !SomeEqualTop(g, v, p.chunk) then v' == v && pending' == rest
         else if !SomePivotTop(g, v, p)
         then v' == v && pending' == rest + if p.second then [] else [Pending(p.chunk, p.pivot, !p.down, true)]
         else exists e :: EqualSplit(g, v, rest, p, e, v', pending')
  }

  /** The chunk of `p` has been split at `e`, which is not active anymore. If the parts have to merge again, the
      chunk is back under another index, with the same pivot, direction and stage. Otherwise both parts are pending:
      the one with the pivot goes on as before, and the other one begins anew. */
  ghost predicate EqualSplit(
    g: Cluster, v: ForestData, rest: seq<Pending>, p: Pending, e: Dep, v': ForestData, pending': seq<Pending>)
  {
    && e in v.active && PivotTop(g, v, e, p.chunk, p.pivot, !p.down) && e !in v'.active && p.pivot in v'.home
    && var b := p.(chunk := v'.home[p.pivot]);
       if SelfMerges(g, v, e) then
         && pending' == rest + [b] && |v'.home.Values| == |v.home.Values|
         && Chunk(v'.home, b.chunk) == Chunk(v.home, p.chunk)
       else
         && |v'.home.Values| == |v.home.Values| + 1
         && exists a: Pending ::
              (pending' == rest + [a, b] || pending' == rest + [b, a]) && OtherPart(v, p, e, v', a, b)
  }

  ghost predicate OtherPart(v: ForestData, p: Pending, e: Dep, v': ForestData, a: Pending, b: Pending)
    requires e in v.depTop && v.depTop[e] < |v.setInfo|
  {
    var T, rest := TopSet(v, e), Chunk(v.home, p.chunk) - TopSet(v, e);
    && !a.second && a.pivot in v'.home && v'.home[a.pivot] == a.chunk
    && Chunk(v'.home, b.chunk) == (if p.down then rest else T)
    && Chunk(v'.home, a.chunk) == (if p.down then T else rest)
  }

  lemma SelfMergeSplit(
    g: Cluster, v0: ForestData, v1: ForestData, v: ForestData, p: Pending, e: Dep, T: set<Tx>, i: Tx, j: Tx, d: Dep,
    rest: seq<Pending>)
    requires e in v0.active && PivotTop(g, v0, e, p.chunk, p.pivot, !p.down) && T == TopSet(v0, e) && j == p.chunk
    requires j in v0.home.Values && i !in v0.home.Values && T != {} && T < Chunk(v0.home, j)
    requires p.pivot in v0.home && v0.home[p.pivot] == j && e.par in T && d.par in v1.home
    requires v1.home == Moved(v0.home, T, i) && v1.active == v0.active - {e}
    requires v.home == Joined(v1.home, j, i) && v.active == v1.active + {d} && v1.home[d.par] == j
    requires SelfMerges(g, v0, e)
    ensures EqualSplit(g, v0, rest, p, e, v, rest + [p.(chunk := i)])
  {
    hide PivotTop, SelfMerges;
    MovedChunks(v0.home, T, i, j);
    JoinedChunks(v1.home, j, i);
    assert v.home.Values == v0.home.Values + {i} - {j};
    assert |v0.home.Values + {i}| == |v0.home.Values| + 1;
    assert p.pivot in v.home && v.home[p.pivot] == i;
    assert Chunk(v.home, i) == Chunk(v0.home, j);
    assert v1.home[e.par] == i && d != e;
  }

  lemma PartsSplit(
    g: Cluster, v0: ForestData, v: ForestData, p: Pending, e: Dep, T: set<Tx>, i: Tx, j: Tx, a: Pending, b: Pending,
    rest: seq<Pending>, pending': seq<Pending>)
    requires e in v0.active && PivotTop(g, v0, e, p.chunk, p.pivot, !p.down) && T == TopSet(v0, e) && j == p.chunk
    requires j in v0.home.Values && i !in v0.home.Values && T != {} && T < Chunk(v0.home, j)
    requires p.pivot in v0.home && v0.home[p.pivot] == j
    requires v.home == Moved(v0.home, T, i) && v.active == v0.active - {e} && !SelfMerges(g, v0, e)
    requires b == p.(chunk := if p.down then j else i) && a.chunk == (if p.down then i else j)
    requires !a.second && a.pivot in v.home && v.home[a.pivot] == a.chunk
    requires pending' == rest + [a, b] || pending' == rest + [b, a]
    ensures EqualSplit(g, v0, rest, p, e, v, pending')
  {
    hide SelfMerges;
    MovedChunks(v0.home, T, i, j);
    assert |v0.home.Values + {i}| == |v0.home.Values| + 1;
    assert (p.pivot in T) == !p.down;
    assert b == p.(chunk := v.home[p.pivot]);
    assert OtherPart(v0, p, e, v, a, b);
  }

  lemma PivotTopCases(g: Cluster, v: ForestData, e: Dep, pivot: Tx, inside: bool)
    requires ValidForest(g, v) && e in v.active && v.home.Keys == g.txs && AllUnsplittable(g, v.home, v.active)
    ensures e in v.depTop && v.depTop[e] < |v.setInfo| && e.par in v.home && v.home[e.par] < |v.setInfo|
    ensures if TopLoses(v, e) then TopBelow(g, v, e, v.home[e.par]) else TopEqual(g, v, e, v.home[e.par])
    ensures TopLoses(v, e) || (pivot in TopSet(v, e)) != inside ==> PivotTopOther(g, v, e, v.home[e.par], pivot, inside)
    ensures !TopLoses(v, e) && (pivot in TopSet(v, e)) == inside ==> PivotTop(g, v, e, v.home[e.par], pivot, inside)
  {
    TopLosesRates(g, v, e);
  }

  lemma AllBelowNoPivotTop(g: Cluster, v: ForestData, i: Tx, pivot: Tx, inside: bool)
    requires forall e :: e in v.active && e.par in v.home && v.home[e.par] == i ==> TopBelow(g, v, e, i)
    ensures NoPivotTop(g, v, i, pivot, inside)
  {
  }

  lemma NoPivotTopIntro(g: Cluster, v: ForestData, i: Tx, pivot: Tx, inside: bool)
    requires forall e :: e in v.active && e.par in v.home && v.home[e.par] == i ==>
      PivotTopOther(g, v, e, i, pivot, inside)
    ensures NoPivotTop(g, v, i, pivot, inside)
  {
  }

  lemma NoEqualTop(g: Cluster, v: ForestData, i: Tx)
    requires forall e :: e in v.active && e.par in v.home && v.home[e.par] == i ==> TopBelow(g, v, e, i)
    ensures !SomeEqualTop(g, v, i)
  {
  }

  lemma NoSuchTop(g: Cluster, v: ForestData, p: Pending)
    requires NoPivotTop(g, v, p.chunk, p.pivot, !p.down)
    ensures !SomePivotTop(g, v, p)
  {
  }

  lemma NoPivotTopNoPart(g: Cluster, v: ForestData, i: Tx, pivot: Tx, inside: bool)
    requires ValidForest(g, v) && v.home.Keys == g.txs && AllUnsplittable(g, v.home, v.active)
    requires pivot in v.home && v.home[pivot] == i && NoPivotTop(g, v, i, pivot, inside)
    ensures NoPartWithPivot(g, Chunk(v.home, i), pivot, inside)
  {
    var C := Chunk(v.home, i);
    ChunkIsTree(g, v.home, v.active, i);
    assert Unsplittable(g, v.home, v.active, i);
    forall e, T | e in v.active && IsTop(C, v.active, e, T) && GainOf(g, T, R(g, C)) == 0.0
      ensures (pivot in T) != inside
    {
      StoredTop(g, v, e);
      TopUnique(C, v.active, e, T, TopSet(v, e));
      GainAtRate(g, T, R(g, C));
      assert PivotTopOther(g, v, e, i, pivot, inside);
    }
    PivotCertificate(g, C, v.active, pivot, inside);
  }

  lemma PivotPlace(g: Cluster, v: ForestData, p: Pending, e: Dep, T: set<Tx>)
    requires EntryOk(g, v.home, p) && e.par in v.home && IsTop(Chunk(v.home, v.home[e.par]), v.active, e, T)
    ensures p.pivot in v.home && v.home[p.pivot] == p.chunk && e.par in T
  {
  }

  /** Nothing but equal-feerate splits is left to do, and `pending` tells where to look for them. */
  ghost predicate Minimizing(g: Cluster, v: ForestData, pending: seq<Pending>) {
    && v.home.Keys == g.txs
    && AllUnsplittable(g, v.home, v.active)
    && Linearizable(g, v.home)
    && PendingOk(g, v.home, pending)
  }

  lemma MinimizingFacts(g: Cluster, v: ForestData, pending: seq<Pending>)
    requires Minimizing(g, v, pending)
    ensures v.home.Keys == g.txs && AllUnsplittable(g, v.home, v.active) && PendingOk(g, v.home, pending)
    ensures pending != [] ==> EntryOk(g, v.home, pending[0]) && pending[0].chunk in v.home.Values
  {
  }

  /** What is known of the dependency to split at. */
  lemma PivotTopFacts(g: Cluster, v: ForestData, p: Pending, e: Dep, inside: bool)
    requires ValidForest(g, v) && e in v.active && PivotTop(g, v, e, p.chunk, p.pivot, inside)
    ensures e in v.depTop && v.depTop[e] < |v.setInfo| && v.depTop[e] !in v.home.Values
    ensures e.par in v.home && v.home[e.par] == p.chunk && p.chunk in v.home.Values
    ensures ProperPart(TopSet(v, e), Chunk(v.home, p.chunk)) && TopSet(v, e) <= g.txs
    ensures v.home.Keys == g.txs && R(g, TopSet(v, e)) == ChunkRate(g, v.home, p.chunk)
    ensures (p.pivot in TopSet(v, e)) == inside
    ensures IsTop(Chunk(v.home, v.home[e.par]), v.active, e, TopSet(v, e)) && Forest(g, v.home, v.active)
  {
    StoredTop(g, v, e);
  }

  /** The parts merge with each other again: the chunk is queued again, with its new index. */
  lemma SelfMergeMinimizing(
    g: Cluster, v0: ForestData, v1: ForestData, v2: ForestData, pending: seq<Pending>, e: Dep, T: set<Tx>, i: Tx, j: Tx,
    d: Dep)
    requires Minimizing(g, v0, pending) && pending != [] && Forest(g, v0.home, v0.active)
    requires Forest(g, v1.home, v1.active)
    requires e in v0.active && v0.home[e.par] == j == pending[0].chunk && i !in v0.home.Values
    requires IsTop(Chunk(v0.home, j), v0.active, e, T) && ProperPart(T, Chunk(v0.home, j))
    requires R(g, T) == ChunkRate(g, v0.home, j)
    requires v1.home == Moved(v0.home, T, i) && v1.active == v0.active - {e}
    requires d in g.deps && v1.home[d.par] == j && v1.home[d.chl] == i
    requires v2.home == Joined(v1.home, j, i) && v2.active == v1.active + {d}
    ensures Minimizing(g, v2, pending[1..] + [pending[0].(chunk := i)])
    ensures SameDiagram(g, v0.home, v2.home)
  {
    hide Forest, AllUnsplittable, Linearizable, PendingOk, NoPartWithPivot, IsTop, Diagram;
    MinimizingFacts(g, v0, pending);
    var p := pending[0];
    MovedChunks(v0.home, T, i, j);
    EqualSplitRates(g, Chunk(v0.home, j), T);
    EqualSplitAllUnsplittable(g, v0.home, v0.active, e, T, i);
    EqualJoinAllUnsplittable(g, v1.home, v1.active, d, i, j);
    SelfMergeChunks(v0.home, v1.home, v2.home, i, j, T);
    RenameLinearizable(g, v0.home, v2.home, i, j);
    var news := [p.(chunk := i)];
    PendingChunksOneTwo(news[0], news[0]);
    assert EntryOk(g, v0.home, p);
    PendingReplace(g, v0.home, v2.home, pending, news);
    forall theta: real
      ensures Diagram(g, v2.home, theta) == Diagram(g, v0.home, theta)
    {
      RenamedDiagram(g, v0.home, v2.home, i, j, theta);
    }
  }

  /** The chunk is split for good: both parts are queued, the one with the pivot going on as before. */
  lemma SplitMinimizing(
    g: Cluster, v0: ForestData, v1: ForestData, pending: seq<Pending>, e: Dep, T: set<Tx>, i: Tx, j: Tx, a: Pending,
    b: Pending)
    requires Minimizing(g, v0, pending) && pending != [] && Forest(g, v0.home, v0.active)
    requires e in v0.active && v0.home[e.par] == j == pending[0].chunk && i !in v0.home.Values
    requires IsTop(Chunk(v0.home, j), v0.active, e, T) && ProperPart(T, Chunk(v0.home, j))
    requires R(g, T) == ChunkRate(g, v0.home, j)
    requires v1.home == Moved(v0.home, T, i) && v1.active == v0.active - {e}
    requires forall d :: d in g.deps && v1.home[d.chl] == i ==> v1.home[d.par] != j
    requires {a.chunk, b.chunk} == {i, j} && EntryOk(g, v1.home, a) && EntryOk(g, v1.home, b)
    ensures Minimizing(g, v1, pending[1..] + [a, b])
    ensures SameDiagram(g, v0.home, v1.home)
  {
    hide Forest, AllUnsplittable, Linearizable, PendingOk, EntryOk, IsTop, Diagram;
    MovedChunks(v0.home, T, i, j);
    EqualSplitRates(g, Chunk(v0.home, j), T);
    EqualSplitAllUnsplittable(g, v0.home, v0.active, e, T, i);
    SplitLinearizable(g, v0.home, v1.home, i, j, T);
    PendingChunksOneTwo(a, b);
    assert a.chunk != b.chunk;
    PendingReplace(g, v0.home, v1.home, pending, [a, b]);
    forall theta: real
      ensures Diagram(g, v1.home, theta) == Diagram(g, v0.home, theta)
    {
      EqualSplitDiagram(g, v0.home, i, j, T, theta);
    }
  }

  /** The part with the pivot inherits what is known of the other direction. */
  lemma PivotInherits(g: Cluster, home: Homes, home': Homes, p: Pending, T: set<Tx>, i: Tx, j: Tx)
    requires home.Keys == g.txs && j in home.Values && i !in home.Values && p.chunk == j && EntryOk(g, home, p)
    requires ProperPart(T, Chunk(home, j)) && R(g, T) == ChunkRate(g, home, j) && home' == Moved(home, T, i)
    requires forall d :: d in g.deps && home'[d.chl] == i ==> home'[d.par] != j
    requires (p.pivot in T) == !p.down
    ensures EntryOk(g, home', p.(chunk := if p.down then j else i))
  {
    var C := Chunk(home, j);
    MovedChunks(home, T, i, j);
    assert p.pivot in C;
    assert EqualPart(g, C, T) by {
      forall d | d in g.deps && d.chl in T && d.par in C
        ensures d.par in T
      {
        assert home'[d.chl] == i && home'[d.par] == if d.par in T then i else j;
      }
    }
    if p.second {
      if p.down {
        BottomInherits(g, C, T, p.pivot);
      } else {
        TopInherits(g, C, T, p.pivot);
      }
    }
  }

  lemma ForestOf(g: Cluster, v: ForestData)
    requires ValidForest(g, v)
    ensures Forest(g, v.home, v.active)
  {
  }

  lemma ProperPartFacts(S: set<Tx>, C: set<Tx>)
    requires ProperPart(S, C)
    ensures S != {} && S < C
  {
  }

  lemma FreshEntry(g: Cluster, home: Homes, p: Pending)
    requires p.pivot in home && home[p.pivot] == p.chunk && !p.second
    ensures EntryOk(g, home, p)
  {
  }

  ghost predicate AllMinimal(g: Cluster, home: Homes) {
    forall i :: i in home.Values ==> MinimalChunk(g, Chunk(home, i))
  }

  lemma NonePending(g: Cluster, v: ForestData)
    requires Minimizing(g, v, [])
    ensures AllMinimal(g, v.home)
  {
    forall i | i in v.home.Values
      ensures MinimalChunk(g, Chunk(v.home, i))
    {
      assert !InPending([], i);
    }
  }

  /** A chunk without equal top sets is minimal. */
  lemma DropPending(g: Cluster, v: ForestData, pending: seq<Pending>, p: Pending)
    requires ValidForest(g, v) && Minimizing(g, v, pending) && pending != [] && pending[0] == p
    requires NoPivotTop(g, v, p.chunk, p.pivot, true) && NoPivotTop(g, v, p.chunk, p.pivot, false)
    ensures Minimizing(g, v, pending[1..])
  {
    hide ValidForest, NoPivotTop, AllUnsplittable, Linearizable;
    assert EntryOk(g, v.home, p);
    NoPivotTopNoPart(g, v, p.chunk, p.pivot, true);
    NoPivotTopNoPart(g, v, p.chunk, p.pivot, false);
    BothSidesMinimal(g, Chunk(v.home, p.chunk), p.pivot);
    PendingDrop(g, v.home, pending);
  }

  /** A chunk tried in both directions is minimal. */
  lemma DropSecond(g: Cluster, v: ForestData, pending: seq<Pending>, p: Pending)
    requires ValidForest(g, v) && Minimizing(g, v, pending) && pending != [] && pending[0] == p
    requires p.second && NoPivotTop(g, v, p.chunk, p.pivot, !p.down)
    ensures Minimizing(g, v, pending[1..])
  {
    hide ValidForest, NoPivotTop, AllUnsplittable, Linearizable;
    assert EntryOk(g, v.home, p);
    NoPivotTopNoPart(g, v, p.chunk, p.pivot, !p.down);
    BothSidesMinimal(g, Chunk(v.home, p.chunk), p.pivot);
    PendingDrop(g, v.home, pending);
  }

  /** A chunk tried in one direction is to be tried in the other. */
  lemma TurnPending(g: Cluster, v: ForestData, pending: seq<Pending>, p: Pending)
    requires ValidForest(g, v) && Minimizing(g, v, pending) && pending != [] && pending[0] == p
    requires NoPivotTop(g, v, p.chunk, p.pivot, !p.down)
    ensures Minimizing(g, v, pending[1..] + [Pending(p.chunk, p.pivot, !p.down, true)])
  {
    hide ValidForest, NoPivotTop, AllUnsplittable, Linearizable, NoPartWithPivot;
    assert EntryOk(g, v.home, p);
    NoPivotTopNoPart(g, v, p.chunk, p.pivot, !p.down);
    var news := [Pending(p.chunk, p.pivot, !p.down, true)];
    PendingChunksOneTwo(news[0], news[0]);
    PendingReplace(g, v.home, v.home, pending, news);
  }

  class SpanningForestState {
    ghost const g: Cluster
    /** All dependencies of the cluster (`parents` and `children` of all transactions). */
    const deps: set<Dep>
    var v: ForestData
    /** `m_suboptimal_chunks` and `m_suboptimal_idxs`. */
    var q: Queue
    /** `m_nonminimal_chunks`. */
    var pending: seq<Pending>

    ghost predicate Valid()
      reads this
    {
      deps == g.deps && ValidForest(g, v)
    }

    /** A forest for the given graph, with every transaction in its own chunk. */
    constructor (dg: DepGraphs.DepGraph)
      requires dg.Valid() && DepGraphs.AcyclicGraph(dg.d)
      ensures g == DepGraphs.AsCluster(dg.d)
      ensures Valid() && AreSingles(v.home, g.txs)
      ensures v.active == {} && q.chunks == [] && pending == []
    {
      hide ValidForest, AreSingles;
      var all, start := InitialForests.InitialForest(dg);
      g := DepGraphs.AsCluster(dg.d);
      deps, v, q, pending := all, start, Queue([], {}), [];
    }

    /** Make the inactive dependency from `child` to `parent`, which are in different chunks, active.
        Returns the index of the merged chunk. */
    method Activate(parent: Tx, child: Tx) returns (merged: Tx)
      requires Valid() && Dep(parent, child) in deps && v.home[parent] != v.home[child]
      modifies this`v
      ensures Valid()
      ensures v.active == old(v.active) + {Dep(parent, child)}
      ensures merged == old(v.home[child])
      ensures v.home == Joined(old(v.home), old(v.home[parent]), merged)
    {
      var e := Dep(parent, child);
      var i, j := v.home[parent], v.home[child];
      JoinTopsReady(g, v, e, i, j);
      var merge := Union(v.setInfo[j], v.setInfo[i]);
      var info := JoinTops(g, v.setInfo, v.depTop, v.active, e, i, j);
      var home := Relabel(v.home, v.setInfo[i].transactions, j);
      var up := v.reachUp[j := (v.reachUp[j] + v.reachUp[i]) - merge.transactions];
      var dn := v.reachDown[j := (v.reachDown[j] + v.reachDown[i]) - merge.transactions];
      var v' := ForestData(home, v.active + {e}, v.depTop[e := i], v.chunkIdxs - {i}, info[j := merge], up, dn);
      ActivateDone(g, v, v', e, i, j, info);
      v := v';
      merged := j;
    }

    /** Make an active dependency inactive. Returns the indexes of the two chunks that result. */
    method Deactivate(parent: Tx, child: Tx) returns (parentChunk: Tx, childChunk: Tx)
      requires Valid() && Dep(parent, child) in v.active
      modifies this`v
      ensures Valid()
      ensures v.active == old(v.active) - {Dep(parent, child)}
      ensures parentChunk == old(v.depTop[Dep(parent, child)]) && childChunk == old(v.home[parent])
      ensures old(IsTop(Chunk(v.home, v.home[parent]), v.active, Dep(parent, child),
        v.setInfo[v.depTop[Dep(parent, child)]].transactions))
      ensures v.home == Moved(old(v.home), old(v.setInfo[v.depTop[Dep(parent, child)]].transactions), parentChunk)
      ensures parentChunk !in old(v.home).Values
    {
      var e := Dep(parent, child);
      var i, j := v.depTop[e], v.home[parent];
      SplitTopsReady(g, v, e, i, j);
      var top := v.setInfo[i];
      var bottom := Without(v.setInfo[j], top);
      WithoutExact(g, v.setInfo[j], top);
      var info := SplitTops(g, v.setInfo, v.depTop, v.active - {e}, e, top, bottom);
      var home := Relabel(v.home, top.transactions, i);
      var v' := ForestData(
        home, v.active - {e}, v.depTop, v.chunkIdxs + {i}, info[j := bottom],
        v.reachUp[i := ParentsOf(deps, top.transactions)][j := ParentsOf(deps, bottom.transactions)],
        v.reachDown[i := ChildrenOf(deps, top.transactions)][j := ChildrenOf(deps, bottom.transactions)]);
      DeactivateDone(g, v, v', e, i, j, top.transactions, v.setInfo[j].transactions, bottom);
      v := v';
      parentChunk, childChunk := i, j;
    }

    /** Activate a dependency from chunk `bottom` to chunk `top`, which must exist. Returns the index of
        the merged chunk. */
    method MergeChunks(top: Tx, bottom: Tx) returns (merged: Tx, ghost e: Dep)
      requires Valid() && top in v.chunkIdxs && bottom in v.chunkIdxs && top != bottom
      requires exists d :: d in deps && v.home[d.par] == top && v.home[d.chl] == bottom
      modifies this`v
      ensures Valid() && merged == bottom
      ensures v.home == Joined(old(v.home), top, bottom)
      ensures e in deps && old(v.home)[e.par] == top && old(v.home)[e.chl] == bottom && v.active == old(v.active) + {e}
    {
      var d :| d in deps && v.home[d.par] == top && v.home[d.chl] == bottom;
      merged := Activate(d.par, d.chl);
      e := d;
    }

    /** Activate a dependency between chunk `x` and the chunk `y` it is to be merged with. */
    method MergeChunksDirected(x: Tx, y: Tx, down: bool) returns (merged: Tx, ghost e: Dep)
      requires Valid() && x in v.chunkIdxs && y in v.chunkIdxs && x != y
      requires exists d :: d in deps && v.home[Near(d, down)] == x && v.home[Far(d, down)] == y
      modifies this`v
      ensures Valid() && IsMerge(old(v.home), v.home, x, y, merged)
      ensures e in deps && Links(old(v.home), e, x, y) && v.active == old(v.active) + {e}
      ensures old(v.home)[Near(e, down)] == x && old(v.home)[Far(e, down)] == y
    {
      ghost var d :| d in deps && v.home[Near(d, down)] == x && v.home[Far(d, down)] == y;
      if down {
        assert v.home[d.par] == x && v.home[d.chl] == y;
        merged, e := MergeChunks(x, y);
      } else {
        assert v.home[d.par] == y && v.home[d.chl] == x;
        merged, e := MergeChunks(y, x);
      }
    }

    /** Which chunk to merge chunk `x` with, if any. */
    method PickMergeCandidate(x: Tx, down: bool) returns (y: Option<Tx>)
      requires Valid() && x in v.chunkIdxs
      ensures y.None? ==> NoCandidate(g, v.home, x, down)
      ensures y.Some? ==> Candidate(g, v.home, x, y.value, down)
    {
      hide ValidForest, BestOf, NoCandidate, Candidate;
      StoredRates(g, v, x, down);
      var best := v.setInfo[x].feerate;
      var bestTiebreak: nat := 0;
      y := None;
      BestOfNone(g, v, x, down);
      var reach := if down then v.reachDown[x] else v.reachUp[x];
      var todo := reach;
      assert reach - todo == {};
      while todo != {}
        invariant todo <= reach
        invariant y.None? ==> bestTiebreak == 0
        invariant BestOf(g, v.home, x, reach - todo, best, y, down)
      {
        var t :| t in todo;
        BestOfSize(g, v.home, x, reach - todo, best, y, down);
        ForestKeys(g, v);
        ReachIsFar(g, v, x, t, down);
        var k := v.home[t];
        StoredRates(g, v, k, down);
        ghost var seen, more := reach - todo, todo * v.setInfo[k].transactions;
        todo := todo - v.setInfo[k].transactions;
        assert reach - todo == seen + more;
        var best', y', tiebreak := Consider(best, y, bestTiebreak, v.setInfo[k].feerate, k, down);
        BestOfMore(g, v.home, x, seen, best, y, more, k, best', y', down);
        best, y, bestTiebreak := best', y', tiebreak;
      }
      assert reach - todo == reach;
      BestOfAll(g, v, x, reach, best, y, down);
    }

    /** Merge chunk `x` with its merge candidate, if it has one. */
    method MergeStep(x: Tx, down: bool) returns (k: Option<Tx>, ghost y: Tx)
      requires Valid() && x in v.home.Values
      modifies this`v
      ensures Valid()
      ensures k.None? ==> v == old(v) && NoCandidate(g, v.home, x, down)
      ensures k.Some? ==> Candidate(g, old(v.home), x, y, down) && IsMerge(old(v.home), v.home, x, y, k.value)
      ensures k.Some? ==> Kept(g, old(v), v, {k.value}) && MergedOnce(old(v), v, x, k.value, down)
    {
      var other := PickMergeCandidate(x, down);
      if other.None? {
        return None, x;
      }
      y := other.value;
      ghost var v0 := v;
      var merged, e := MergeChunksDirected(x, other.value, down);
      MergeKeeps(g, v0, v, x, y, merged, e);
      MergeGrows(g, v0, v, x, y, merged, e, down);
      k := Some(merged);
    }

    /** One merge of a merge sequence. */
    method SequenceMerge(
      ghost home0: Homes, ghost x0: Tx, x: Tx, down: bool, ghost E: set<Dep>, ghost floor: real, ghost low: real,
      ghost except: set<Tx>)
      returns (k: Option<Tx>, ghost floor': real)
      requires Valid() && InSequence(g, home0, x0, v.home, x, E, floor, low, down)
      requires QueueOk(g, v, q, except + {x})
      modifies this`v
      ensures Valid()
      ensures k.None? ==> v == old(v) && NoCandidate(g, v.home, x, down)
      ensures k.Some? ==> InSequence(g, home0, x0, v.home, k.value, E, floor', low, down)
      ensures k.Some? ==> QueueOk(g, v, q, except + {k.value}) && |v.home.Values| < |old(v.home).Values|
      ensures k.Some? ==> MergedOnce(old(v), v, x, k.value, down)
    {
      hide ValidForest, QueueOk, InSequence, IsMerge, Candidate, Kept, NoCandidate, MergedOnce;
      SequenceKeys(g, home0, x0, v.home, x, E, floor, low, down);
      ghost var v1 := v;
      ghost var y;
      floor' := floor;
      k, y := MergeStep(x, down);
      ForestKeys(g, v);
      if k.Some? {
        CandidateKeys(g, v1.home, x, y, down);
        SequenceStep(g, home0, x0, v1.home, v.home, x, y, k.value, E, floor, low, down);
        MergeKeepsQueue(g, v1, v, q, x, y, k.value, except);
        floor' := Key(g, v1.home, y, down);
      }
    }

    /** Merge chunk `x0` with its merge candidates until there is none left, and queue the result. */
    method MergeSequence(x0: Tx, down: bool, ghost E: set<Dep>, ghost floor0: real, ghost low: real,
        ghost except: set<Tx>)
      returns (x: Tx, ghost floor: real)
      requires Valid() && Phase(g, v.home, E, x0, floor0, low, down) && Aside(g, v.home, E, low, down)
      requires QueueOk(g, v, q, except + {x0})
      modifies this`v, this`q
      ensures Valid() && InSequence(g, old(v.home), x0, v.home, x, E, floor, low, down)
      ensures NoCandidate(g, v.home, x, down)
      ensures QueueOk(g, v, q, except) && MergedOnto(old(v), v, x0, x, down)
    {
      hide ValidForest, InSequence, QueueOk, NoCandidate, MergedOnto, MergedOnce;
      x, floor := x0, floor0;
      ghost var home0 := v.home;
      OntoStart(v, x, down);
      ForestKeys(g, v);
      SequenceStart(g, home0, x, E, floor, low, down);
      var done := false;
      while !done
        invariant Valid() && InSequence(g, home0, x0, v.home, x, E, floor, low, down)
        invariant QueueOk(g, v, q, except + {x}) && MergedOnto(old(v), v, x0, x, down)
        invariant done ==> NoCandidate(g, v.home, x, down)
        decreases |v.home.Values|, !done
      {
        ForestKeys(g, v);
        ghost var v1 := v;
        var k, floor' := SequenceMerge(home0, x0, x, down, E, floor, low, except);
        if k.None? {
          done := true;
        } else {
          OntoStep(old(v), v1, v, x0, x, k.value, down);
          x, floor := k.value, floor';
        }
      }
      EnqueueKeepsQueue(g, v, q, x, except);
      q := Enqueue(q, x);
    }

    /** Make the state topological again after a split, when the top part does not depend on the rest. */
    method MergeParts(top: Tx, bottom: Tx, ghost home0: Homes, ghost T: set<Tx>)
      requires Valid() && GoodSplit(g, home0, v.home, top, bottom, T) && QueueOk(g, v, q, {bottom} + {top})
      modifies this`v, this`q
      ensures Valid() && QueueOk(g, v, q, {}) && v.home.Keys == g.txs && Topological(g, v.home)
      ensures NotWorse(g, home0, v.home) && StrictlyBetter(g, home0, v.home, ChunkRate(g, home0, bottom))
      ensures forall e :: e in g.deps - old(v.active) && old(v.home)[e.par] == top && old(v.home)[e.chl] == bottom ==>
        e !in v.active
    {
      hide ValidForest, GoodSplit, QueueOk, InSequence, NoCandidate, Phase, Aside, Topological, NotWorse,
        StrictlyBetter, MergedOnto;
      ForestKeys(g, v);
      ghost var home1 := v.home;
      SplitKeys(g, home0, home1, top, bottom, T);
      ghost var rho := ChunkRate(g, home0, bottom);
      SplitStartsUp(g, home0, home1, top, bottom, T);
      var x2, floor2 := MergeSequence(top, false, DepsOn(g, home1, bottom), rho, rho, {bottom});
      ghost var home2, v2 := v.home, v;
      BetweenSequences(g, home0, home1, home2, top, bottom, T, x2, floor2);
      assert {bottom} == {} + {bottom};
      var x3, floor3 := MergeSequence(bottom, true, {}, -rho, -rho, {});
      AfterSequences(g, home0, home1, home2, v.home, top, bottom, T, x2, floor2, x3, floor3);
      SplitStays(g, home0, old(v), v2, v, top, bottom, T, x2, floor2, x3);
    }

    /** Split a chunk at a dependency whose top set has a higher feerate, and merge the parts to make
        the state topological again. The diagram is better afterwards, unless the top part depends on the rest:
        then the parts merge with each other again, and the diagram is the same. */
    method Improve(parent: Tx, child: Tx)
      requires Valid() && Dep(parent, child) in v.active && v.home.Keys == g.txs && Topological(g, v.home)
      requires QueueOk(g, v, q, {v.home[parent]})
      requires TopAbove(g, v, Dep(parent, child), v.home[parent])
      modifies this`v, this`q
      ensures Valid() && QueueOk(g, v, q, {}) && v.home.Keys == g.txs && Topological(g, v.home)
      ensures NotWorse(g, old(v.home), v.home)
      ensures if old(SelfMerges(g, v, Dep(parent, child))) then SameDiagram(g, old(v.home), v.home)
              else StrictlyBetter(g, old(v.home), v.home, ChunkRate(g, old(v.home), old(v.home[parent])))
      ensures Dep(parent, child) !in v.active
    {
      hide ValidForest, Topological, QueueOk, NotWorse, SameDiagram, StrictlyBetter, SelfMerges;
      ghost var v0, e := v, Dep(parent, child);
      StoredTop(g, v, e);
      ghost var T := TopSet(v, e);
      var top, bottom := Deactivate(parent, child);
      ghost var v1 := v;
      ForestKeys(g, v);
      DeactivateKeepsQueue(g, v0, v1, q, e, T, top, bottom);
      MovedChunks(v0.home, T, top, bottom);
      ReachOverlap(g, v, top, bottom);
      SelfMergesAfter(g, v0, e, v.home, top, bottom);
      SplitEnds(v0, e, v.home, T, top, bottom);
      if v.reachUp[top] * v.setInfo[bottom].transactions != {} {
        var merged, d := MergeChunks(bottom, top);
        SelfMergeKeepsQueue(g, v1, v, q, top, bottom, d);
        SelfMergeSame(g, v0.home, v1.home, v.home, top, bottom, T);
        SameIntro(g, v0.home, v.home);
        q := Enqueue(q, merged);
      } else {
        MergeParts(top, bottom, v0.home, T);
      }
    }

    /** Merge chunk `x0` upward as long as merging succeeds. */
    method MergeUpward(x0: Tx, ghost valid: bool, ghost done: set<Tx>, ghost low: real, ghost run0: seq<Homes>)
      returns (ghost x: Tx, ghost floor: real, ghost run: seq<Homes>)
      requires MergeRun(g, run0) && run0[|run0| - 1] == v.home
      requires Valid() && x0 in v.home.Values
      requires valid ==> InLoad(g, v.home, x0, v.home, done, x0, low, low)
      modifies this`v
      ensures Valid()
      ensures valid ==> InLoad(g, old(v.home), x0, v.home, done, x, floor, low)
      ensures x in v.home.Values && NoCandidate(g, v.home, x, false)
      ensures MergeRun(g, run) && run[0] == run0[0] && run[|run| - 1] == v.home
    {
      hide ValidForest, InLoad, NoCandidate, Candidate, IsMerge, Kept, MergeRun, MergedOnce;
      RunNotEmpty(g, run0);
      run := run0;
      var chunk := x0;
      ghost var home0 := v.home;
      floor := low;
      var more := true;
      while more
        invariant Valid() && chunk in v.home.Values
        invariant valid ==> InLoad(g, home0, x0, v.home, done, chunk, floor, low)
        invariant !more ==> NoCandidate(g, v.home, chunk, false)
        invariant |run| > 0 && MergeRun(g, run) && run[0] == run0[0] && run[|run| - 1] == v.home
        decreases |v.home.Values|, more
      {
        ghost var home1 := v.home;
        var k, y := MergeStep(chunk, false);
        if k.None? {
          more := false;
        } else {
          ForestKeys(g, v);
          CandidateKeys(g, home1, chunk, y, false);
          MergeFewer(home1, v.home, chunk, y, k.value);
          MergedIndex(home1, v.home, chunk, y, k.value);
          RunOn(g, run, v.home, chunk, y, k.value, false);
          run := run + [v.home];
          if valid {
            InLoadStep(g, home0, x0, home1, v.home, done, chunk, y, k.value, floor, low);
          }
          floor := Key(g, home1, y, false);
          chunk := k.value;
        }
      }
      x := chunk;
    }

    /** Load an existing linearization into a state where every transaction is its own chunk. */
    method LoadLinearization(L: seq<Tx>) returns (ghost run: seq<Homes>)
      requires Valid() && Elems(L) <= g.txs && AreSingles(v.home, g.txs)
      modifies this`v
      ensures Valid() && MergeRun(g, run) && run[0] == old(v.home) && run[|run| - 1] == v.home
      ensures ValidLinearization(g, L) ==> v.home.Keys == g.txs && Topological(g, v.home) && Under(g, L, v.home)
    {
      hide ValidForest, ValidLinearization, Loaded, LoadedUnder, InLoad, Topological, Under, NoCandidate, AreSingles,
        Chunk, MergeRun;
      run := [v.home];
      NoMerges(g, v.home);
      ForestKeys(g, v);
      LoadStarted(g, L, v.home);
      ghost var valid := ValidLinearization(g, L);
      for n := 0 to |L|
        invariant Valid()
        invariant valid ==> Loaded(g, v.home, Elems(L[..n])) && LoadedUnder(g, L, n, v.home)
        invariant |run| > 0 && MergeRun(g, run) && run[0] == old(v.home) && run[|run| - 1] == v.home
      {
        ForestKeys(g, v);
        assert L[n] in Elems(L);
        ghost var home0, low := v.home, 0.0;
        if valid {
          low := InLoadStart(g, L, n, v.home);
        }
        var chunk := v.home[L[n]];
        ghost var x, floor;
        x, floor, run := MergeUpward(chunk, valid, Elems(L[..n + 1]), low, run);
        RunNotEmpty(g, run);
        if valid {
          InLoadEnd(g, L, n, home0, chunk, v.home, x, floor, low);
        }
      }
      if valid {
        LoadDone(g, L, v.home);
      }
    }

    /** Try to merge chunk `i` once, upward, downward or in both directions in random order. */
    method MergeEither(i: Tx, dir: bool, both: bool) returns (k: Option<Tx>, ghost y: Tx)
      requires Valid() && i in v.home.Values
      modifies this`v
      ensures Valid()
      ensures k.None? ==> v == old(v) && NoCandidate(g, v.home, i, dir)
      ensures k.None? && both ==> NoCandidate(g, v.home, i, !dir)
      ensures k.Some? ==> IsMerge(old(v.home), v.home, i, y, k.value)
      ensures k.Some? ==> Candidate(g, old(v.home), i, y, true) || Candidate(g, old(v.home), i, y, false)
    {
      hide ValidForest, NoCandidate, Candidate, IsMerge, Kept;
      var firstDown: bool := *;
      k, y := None, i;
      if both || firstDown == dir {
        k, y := MergeStep(i, firstDown);
      }
      if k.None? && (both || firstDown != dir) {
        k, y := MergeStep(i, !firstDown);
      }
    }

    /** Make the state topological. A state that is topological already does not change, and otherwise chunks are merged
        only with their merge candidates. */
    method MakeTopological() returns (ghost run: seq<Homes>)
      requires Valid()
      modifies this`v, this`q
      ensures MergeRun(g, run) && run[0] == old(v.home) && run[|run| - 1] == v.home
      ensures Valid() && v.home.Keys == g.txs && Topological(g, v.home)
      ensures q.chunks == []
      ensures old(v.home).Keys == g.txs && Topological(g, old(v.home)) ==> v == old(v)
    {
      hide ValidForest, Covered, QueueSet, IsMerge, NoCandidate, Topological, Candidate, MergeRun;
      run := [v.home];
      NoMerges(g, v.home);
      var dir: bool := *;
      var merged: set<Tx> := {};
      ForestKeys(g, v);
      q := Shuffled(v.chunkIdxs);
      CoveredAll(g, v.home, dir);
      while q.chunks != []
        invariant Valid() && QueueSet(q) && Covered(g, v.home, q.idxs, merged, dir)
        invariant Topological(g, old(v.home)) ==> v == old(v)
        invariant |run| > 0 && MergeRun(g, run) && run[0] == old(v.home) && run[|run| - 1] == v.home
        decreases |v.home.Values|, |q.chunks|
      {
        var i := q.chunks[0];
        ghost var q0, home0 := q, v.home;
        q := Queue(q.chunks[1..], q.idxs - {i});
        Popped(q0, q, i);
        ForestKeys(g, v);
        if i in v.chunkIdxs {
          var k, y := MergeEither(i, dir, i in merged);
          if k.Some? {
            ForestKeys(g, v);
            if Topological(g, home0) {
              TopologicalNoCandidate(g, home0, i, y, true);
              TopologicalNoCandidate(g, home0, i, y, false);
            }
            if Candidate(g, home0, i, y, true) {
              RunOn(g, run, v.home, i, y, k.value, true);
            } else {
              RunOn(g, run, v.home, i, y, k.value, false);
            }
            run := run + [v.home];
            CoveredMerge(g, home0, v.home, q0.idxs, merged, dir, i, y, k.value);
            MergeFewer(home0, v.home, i, y, k.value);
            Pushed(q, k.value);
            q := Enqueue(q, k.value);
            merged := merged + {k.value};
          } else {
            CoveredWithout(g, v.home, q0.idxs, merged, dir, i);
          }
        } else {
          CoveredStale(g, v.home, q0.idxs, merged, dir, i);
        }
      }
      ForestKeys(g, v);
      EmptyQueue(q);
      CoveredNone(g, v.home, merged, dir);
    }

    /** The next chunk to optimize, if any. */
    method PickChunkToOptimize() returns (i: Option<Tx>)
      requires Valid() && QueueOk(g, v, q, {})
      modifies this`q
      ensures i.None? ==> QueueOk(g, v, q, {}) && q.chunks == []
      ensures i.Some? ==> i.value in v.home.Values && QueueOk(g, v, q, {i.value})
      ensures var n, all := FirstIn(old(q.chunks), v.home.Values), old(q.chunks);
        if n == |all| then i == None else i == Some(all[n]) && q.chunks == all[n + 1..]
    {
      hide ValidForest, QueueOk;
      ForestKeys(g, v);
      i := None;
      ghost var m: nat := 0;
      while q.chunks != []
        invariant QueueOk(g, v, q, {})
        invariant m <= |old(q.chunks)| && q.chunks == old(q.chunks)[m..]
        invariant FirstIn(old(q.chunks), v.home.Values) >= m
        decreases |q.chunks|
      {
        ghost var all := old(q.chunks);
        var k := q.chunks[0];
        var rest := Queue(q.chunks[1..], q.idxs - {k});
        Dequeued(g, v, q, rest, k);
        q := rest;
        if k in v.chunkIdxs {
          i := Some(k);
          return;
        }
        m := m + 1;
      }
    }

    /** A dependency of chunk `i` to split it at, if any. */
    method PickDependencyToSplit(i: Tx) returns (e: Option<Dep>)
      requires Valid() && i in v.home.Values
      ensures e.None? ==> Unsplittable(g, v.home, v.active, i)
      ensures e.Some? ==> e.value in v.active && v.home[e.value.par] == i
      ensures e.Some? ==> TopAbove(g, v, e.value, i)
    {
      hide ValidForest, Unsplittable, TopAbove, TopNotAbove;
      ForestKeys(g, v);
      StoredRates(g, v, i, false);
      e := None;
      var tiebreak: nat := 0;
      var todo := set d | d in v.active && d.par in v.setInfo[i].transactions;
      ghost var all := todo;
      while todo != {}
        invariant todo <= all
        invariant e.None? ==> tiebreak == 0
        invariant e.None? ==> forall d :: d in all - todo ==> TopNotAbove(g, v, d, i)
        invariant e.Some? ==> e.value in all && TopAbove(g, v, e.value, i)
      {
        var d :| d in todo;
        todo := todo - {d};
        TopBeatsRates(g, v, d);
        if TopBeats(v, d) {
          var random: nat :| random >= 0;
          if random >= tiebreak {
            e, tiebreak := Some(d), random;
          }
        }
      }
      if e.None? {
        UnsplittableIfNone(g, v, i);
      }
    }

    /** Initialize the queue of chunks to optimize. */
    method StartOptimizing()
      requires Valid()
      modifies this`q
      ensures QueueOk(g, v, q, {}) && QueueSet(q) && q.idxs == v.home.Values
    {
      hide ValidForest, QueueOk;
      ForestKeys(g, v);
      q := Shuffled(v.chunkIdxs);
      QueueAll(g, v, q);
    }

    /** Try to improve the forest. Returns false if it is optimal. */
    method OptimizeStep() returns (more: bool)
      requires Valid() && v.home.Keys == g.txs && Topological(g, v.home) && QueueOk(g, v, q, {})
      modifies this`v, this`q
      ensures Valid() && v.home.Keys == g.txs && Topological(g, v.home) && QueueOk(g, v, q, {})
      ensures NotWorse(g, old(v.home), v.home)
      ensures !more ==> AllUnsplittable(g, v.home, v.active)
      ensures Optimized(g, old(v), old(q), v, q, more)
    {
      hide ValidForest, Topological, QueueOk, Unsplittable, AllUnsplittable, NotWorse, SameDiagram, StrictlyBetter,
        SelfMerges, TopAbove;
      SameDiagramSelf(g, v.home);
      var i := PickChunkToOptimize();
      if i.None? {
        QueueEmpty(g, v, q);
        return false;
      }
      var e := PickDependencyToSplit(i.value);
      if e.None? {
        QueueWithout(g, v, q, i.value);
        if q.chunks == [] {
          QueueEmpty(g, v, q);
        }
        return q.chunks != [];
      }
      AboveIsSplittable(g, v, e.value, i.value);
      assert e.value == Dep(e.value.par, e.value.chl);
      Improve(e.value.par, e.value.chl);
      assert SplitAt(g, old(v), v, i.value, e.value);
      return true;
    }

    /** Queue all chunks, each with a random pivot and direction, for minimization. */
    method StartMinimizing()
      requires Valid()
      modifies this`pending
      ensures PendingOk(g, v.home, pending)
      ensures forall i :: i in v.home.Values ==> InPending(pending, i)
      ensures forall n :: 0 <= n < |pending| ==> !pending[n].second
    {
      ForestKeys(g, v);
      hide ValidForest, MinimalChunk, NoPartWithPivot;
      var all := Shuffled(v.chunkIdxs);
      var entries: seq<Pending> := [];
      for n := 0 to |all.chunks|
        invariant |entries| == n
        invariant forall m :: 0 <= m < n ==> entries[m].chunk == all.chunks[m] && !entries[m].second
        invariant forall m :: 0 <= m < n ==> entries[m].pivot in v.home && v.home[entries[m].pivot] == entries[m].chunk
      {
        var i := all.chunks[n];
        assert i in all.idxs;
        StoredRates(g, v, i, false);
        var pivot :| pivot in v.setInfo[i].transactions;
        var down: bool := *;
        entries := entries + [Pending(i, pivot, down, false)];
      }
      forall i | i in v.home.Values
        ensures InPending(entries, i)
      {
        assert i in all.chunks;
        var n :| 0 <= n < |all.chunks| && all.chunks[n] == i;
        assert entries[n].chunk == i;
      }
      pending := entries;
    }

    /** A dependency of the chunk of `p` whose top set has the chunk's feerate, with the pivot on the
        wanted side of it; and whether there is any regardless of the pivot. */
    method PickEqualDependency(p: Pending) returns (any: bool, e: Option<Dep>)
      requires Valid() && v.home.Keys == g.txs && AllUnsplittable(g, v.home, v.active) && EntryOk(g, v.home, p)
      ensures any <==> SomeEqualTop(g, v, p.chunk)
      ensures e.Some? <==> SomePivotTop(g, v, p)
      ensures !any ==> NoPivotTop(g, v, p.chunk, p.pivot, true) && NoPivotTop(g, v, p.chunk, p.pivot, false)
      ensures e.None? ==> NoPivotTop(g, v, p.chunk, p.pivot, !p.down)
      ensures e.Some? ==> any && e.value in v.active && PivotTop(g, v, e.value, p.chunk, p.pivot, !p.down)
    {
      hide ValidForest, AllUnsplittable, NoPartWithPivot, TopBelow, TopEqual, PivotTop, PivotTopOther, NoPivotTop;
      var i := p.chunk;
      ghost var inside := !p.down;
      assert i in v.home.Values;
      ForestKeys(g, v);
      StoredRates(g, v, i, false);
      any, e := false, None;
      var tiebreak: nat := 0;
      var todo := set d | d in v.active && d.par in v.setInfo[i].transactions;
      ghost var all := todo;
      while todo != {}
        invariant todo <= all
        invariant e.None? ==> tiebreak == 0
        invariant !any ==> e.None? && forall d :: d in all - todo ==> TopBelow(g, v, d, i)
        invariant any ==> exists d :: d in v.active && TopEqual(g, v, d, i)
        invariant e.None? ==> forall d :: d in all - todo ==> PivotTopOther(g, v, d, i, p.pivot, inside)
        invariant e.Some? ==> any && e.value in all && PivotTop(g, v, e.value, i, p.pivot, inside)
      {
        var d :| d in todo;
        todo := todo - {d};
        PivotTopCases(g, v, d, p.pivot, inside);
        if !TopLoses(v, d) {
          any := true;
          if p.down != (p.pivot in v.setInfo[v.depTop[d]].transactions) {
            var random: nat :| random > 0;
            if random > tiebreak {
              e, tiebreak := Some(d), random;
            }
          }
        }
      }
      if !any {
        AllBelowNoPivotTop(g, v, i, p.pivot, true);
        AllBelowNoPivotTop(g, v, i, p.pivot, false);
        NoEqualTop(g, v, i);
        NoSuchTop(g, v, p);
      } else if e.None? {
        NoPivotTopIntro(g, v, i, p.pivot, inside);
        NoSuchTop(g, v, p);
      }
    }

    /** Split the chunk of `p`, the first of the queue, at a dependency whose top set has the chunk's
        feerate. */
    method SplitEqual(p: Pending, parent: Tx, child: Tx)
      requires Valid() && Minimizing(g, v, pending) && pending != [] && p == pending[0]
      requires Dep(parent, child) in v.active && PivotTop(g, v, Dep(parent, child), p.chunk, p.pivot, !p.down)
      modifies this`v, this`pending
      ensures Valid() && Minimizing(g, v, pending) && SameDiagram(g, old(v.home), v.home)
      ensures EqualSplit(g, old(v), old(pending)[1..], p, Dep(parent, child), v, pending)
    {
      hide ValidForest, Forest, Minimizing, PivotTop, IsTop, SameDiagram, EntryOk, ProperPart, SelfMerges, EqualSplit;
      ghost var v0, e := v, Dep(parent, child);
      MinimizingFacts(g, v, pending);
      PivotTopFacts(g, v, p, e, !p.down);
      ghost var T := TopSet(v, e);
      var top, bottom := Deactivate(parent, child);
      ghost var v1 := v;
      ForestKeys(g, v);
      ForestOf(g, v);
      ProperPartFacts(T, Chunk(v0.home, bottom));
      MovedChunks(v0.home, T, top, bottom);
      ReachOverlap(g, v, top, bottom);
      StoredRates(g, v, top, false);
      StoredRates(g, v, bottom, false);
      SelfMergesAfter(g, v0, e, v.home, top, bottom);
      PivotPlace(g, v0, p, e, T);
      if v.reachUp[top] * v.setInfo[bottom].transactions != {} {
        var merged, d := MergeChunks(bottom, top);
        SelfMergeMinimizing(g, v0, v1, v, pending, e, T, top, bottom, d);
        SelfMergeSplit(g, v0, v1, v, p, e, T, top, bottom, d, pending[1..]);
        pending := pending[1..] + [p.(chunk := merged)];
      } else {
        PivotInherits(g, v0.home, v1.home, p, T, top, bottom);
        var other := if p.down then top else bottom;
        var pivot :| pivot in v.setInfo[other].transactions;
        var down: bool := *;
        var a, b := Pending(other, pivot, down, false), p.(chunk := if p.down then bottom else top);
        FreshEntry(g, v.home, a);
        ghost var rest := pending[1..];
        PartsSplit(g, v0, v, p, e, T, top, bottom, a, b, rest, rest + [a, b]);
        PartsSplit(g, v0, v, p, e, T, top, bottom, a, b, rest, rest + [b, a]);
        var swap: bool := *;
        if swap {
          a, b := b, a;
        }
        SplitMinimizing(g, v0, v1, pending, e, T, top, bottom, a, b);
        pending := pending[1..] + [a, b];
      }
    }

    /** Try to split a chunk into parts of equal feerate. Returns false if all chunks are minimal. */
    method MinimizeStep() returns (more: bool)
      requires Valid() && Minimizing(g, v, pending)
      modifies this`v, this`pending
      ensures Valid() && Minimizing(g, v, pending) && SameDiagram(g, old(v.home), v.home)
      ensures !more ==> AllMinimal(g, v.home)
      ensures Minimized(g, old(v), old(pending), v, pending, more)
    {
      hide ValidForest, Minimizing, SameDiagram, PivotTop, NoPivotTop, AllMinimal, EntryOk, AllUnsplittable,
        SomeEqualTop, SomePivotTop, EqualSplit;
      MinimizingFacts(g, v, pending);
      SameIntro(g, v.home, v.home);
      if pending == [] {
        NonePending(g, v);
        return false;
      }
      var p := pending[0];
      var any, e := PickEqualDependency(p);
      if !any {
        DropPending(g, v, pending, p);
        pending := pending[1..];
        return true;
      }
      if e.None? {
        if p.second {
          DropSecond(g, v, pending, p);
          pending := pending[1..];
        } else {
          TurnPending(g, v, pending, p);
          pending := pending[1..] + [Pending(p.chunk, p.pivot, !p.down, true)];
        }
        return true;
      }
      assert e.value == Dep(e.value.par, e.value.chl);
      SplitEqual(p, e.value.par, e.value.chl);
      return true;
    }

    /** A chunk of highest feerate among those that are ready. */
    method BestChunk(ready: set<Tx>) returns (k: Tx)
      requires Valid() && v.home.Keys == g.txs && ready <= v.home.Values && ready != {}
      ensures k in ready && forall j :: j in ready ==> ChunkRate(g, v.home, j) <= ChunkRate(g, v.home, k)
    {
      hide ValidForest;
      ForestKeys(g, v);
      k :| k in ready;
      StoredRates(g, v, k, false);
      var todo := ready - {k};
      while todo != {}
        invariant todo <= ready && k in ready && k < |v.setInfo| && v.setInfo[k].feerate.size > 0
        invariant Rate(v.setInfo[k].feerate) == ChunkRate(g, v.home, k)
        invariant forall j :: j in ready - todo ==> ChunkRate(g, v.home, j) <= ChunkRate(g, v.home, k)
      {
        var j :| j in todo;
        todo := todo - {j};
        StoredRates(g, v, j, false);
        ByRatioIsRate(v.setInfo[k].feerate, v.setInfo[j].feerate);
        if Lower(v.setInfo[k].feerate, v.setInfo[j].feerate) {
          k := j;
        }
      }
    }

    /** Write out the chunks, highest feerate first and each after those it depends on. */
    method GetLinearization() returns (L: seq<Tx>, ghost cuts: seq<nat>, ghost order: seq<Tx>)
      requires Valid() && Linearizable(g, v.home) && Acyclic(g)
      ensures ValidLinearization(g, L) && Reaches(g, L, v.home)
      ensures InBlocks(g, v.home, L, cuts, order)
    {
      hide InBlocks, ValidForest, Linearizable, Acyclic, ValidLinearization, Reaches, BetweenChunks, Partial, MetBy,
        UnmetChunk, TxCounts, ChunkCounts, ChunkRight, Elems, Chunk, Emission.ReadyChunks;
      ForestKeys(g, v);
      var txDeps, chunkDeps := CountDependencies(g, deps, v.home, v.chunkIdxs);
      var s := Progress([], txDeps, chunkDeps, {}, set k | k in v.chunkIdxs && chunkDeps[k] == 0);
      BetweenStart(g, v.home, s);
      ghost var done: set<Tx> := {};
      cuts, order := [0], [];
      NoBlocks(g, v.home);
      while s.readyChunks != {}
        invariant BetweenChunks(g, v.home, s, done)
        invariant InBlocks(g, v.home, s.out, cuts, order) && (|order| > 0 ==> order[|order| - 1] in done)
        decreases v.home.Values - done
      {
        BetweenFacts(g, v.home, s, done);
        ghost var top := ReadyIsHighest(g, v.home, s, done);
        var k := BestChunk(s.readyChunks);
        StoredRates(g, v, k, false);
        ghost var before := s;
        s := s.(readyChunks := s.readyChunks - {k});
        ReadyToEmit(g, v.home, before, s, done, k);
        s := EmitChunk(g, deps, v.home, v.setInfo[k].transactions, s, k, done);
        BetweenNext(g, v.home, before, s, done, k);
        EmittedBlock(g, v.home, before, done, cuts, order, k, s);
        cuts, order := cuts + [|s.out|], order + [k];
        done := done + {k};
      }
      AllEmitted(g, v.home, s, done);
      L := s.out;
    }
  }
}
