/** Finding or improving a linearization of a cluster. */
module Linearizing {
  import opened Clusters
  import opened Forests
  import opened Optimality
  import opened Minimality
  import opened Linearizations
  import opened Loading
  import opened Ordering
  import opened ForestStates
  import opened DepGraphs
  import opened Chunking
  import opened Blocks
  import opened SpanningForest

  /** The segment is connected, and no part of it that could come first has its feerate or more. */
  ghost predicate MinimalSegment(g: Cluster, L: seq<Tx>, a: nat, b: nat) {
    && IsList(g, L) && a < b <= |L|
    && StrictChunk(g, Segment(g, L, a, b)) && ConnectedBy(Segment(g, L, a, b), g.deps)
  }

  ghost predicate MinimalChunks(g: Cluster, L: seq<Tx>, cuts: seq<nat>) {
    ChunksOf(g, L, cuts) && forall k :: 0 <= k < |cuts| - 1 ==> MinimalSegment(g, L, cuts[k], cuts[k + 1])
  }

  /** `L`, if valid, is nowhere above the diagram of the state. */
  ghost predicate Keeps(g: Cluster, L: seq<Tx>, home: Homes) {
    ValidLinearization(g, L) ==> Under(g, L, home)
  }

  lemma KeepsEmpty(g: Cluster, home: Homes)
    requires home.Keys == g.txs
    ensures Keeps(g, [], home)
  {
    forall m: nat, theta: real | m <= 0
      ensures PrefixGain(g, [], m, theta) <= Diagram(g, home, theta)
    {
      assert Elems([][..m]) == {};
    }
  }

  lemma KeepsBetter(g: Cluster, L: seq<Tx>, home: Homes, home': Homes)
    requires Keeps(g, L, home) && NotWorse(g, home, home')
    ensures Keeps(g, L, home')
  {
    if ValidLinearization(g, L) {
      forall m: nat, theta: real | m <= |L|
        ensures PrefixGain(g, L, m, theta) <= Diagram(g, home', theta)
      {
        assert PrefixGain(g, L, m, theta) <= Diagram(g, home, theta);
        assert Diagram(g, home', theta) >= Diagram(g, home, theta);
      }
    }
  }

  lemma KeepsSame(g: Cluster, L: seq<Tx>, home: Homes, home': Homes)
    requires Keeps(g, L, home) && SameDiagram(g, home, home')
    ensures Keeps(g, L, home')
  {
    hide Keeps;
    KeepsBetter(g, L, home, home');
  }

  lemma KeptIsAsGood(g: Cluster, L: seq<Tx>, L': seq<Tx>, home: Homes)
    requires Reaches(g, L, home) && Keeps(g, L', home)
    ensures ValidLinearization(g, L') ==> AsGoodAs(g, L, L')
  {
    hide Under, Reaches, AsGoodAs, ValidLinearization;
    if ValidLinearization(g, L') {
      UnderReaches(g, L, L', home);
    }
  }

  /** Without splittable dependencies, no valid linearization is above the diagram. */
  lemma UnsplittableIsOptimal(g: Cluster, home: Homes, A: set<Dep>, L: seq<Tx>)
    requires Forest(g, home, A) && AllUnsplittable(g, home, A) && Reaches(g, L, home)
    ensures OptimalLinearization(g, L)
  {
    hide Forest, AllUnsplittable, Reaches;
    forall L' | ValidLinearization(g, L')
      ensures AsGoodAs(g, L, L')
    {
      UnderAny(g, home, A, L');
      UnderReaches(g, L, L', home);
    }
  }

  lemma UnderAny(g: Cluster, home: Homes, A: set<Dep>, L: seq<Tx>)
    requires Forest(g, home, A) && AllUnsplittable(g, home, A) && ValidLinearization(g, L)
    ensures Under(g, L, home)
  {
    hide AllUnsplittable, ValidLinearization;
    assert Elems(L) <= g.txs by {
      ElemsOfValid(g, L);
    }
    forall m: nat, theta: real | m <= |L|
      ensures PrefixGain(g, L, m, theta) <= Diagram(g, home, theta)
    {
      PrefixClosed(g, L, m);
      assert Elems(L[..m]) <= Elems(L);
      OptimalityCertificate(g, home, A, Elems(L[..m]), theta);
    }
  }

  lemma ElemsOfValid(g: Cluster, L: seq<Tx>)
    requires ValidLinearization(g, L)
    ensures Elems(L) == g.txs
  {
  }

  lemma BlocksMinimal(g: Cluster, home: Homes, A: set<Dep>, L: seq<Tx>, cuts: seq<nat>, order: seq<Tx>)
    requires Forest(g, home, A) && AllUnsplittable(g, home, A) && AllMinimal(g, home)
    requires InBlocks(g, home, L, cuts, order) && ValidLinearization(g, L)
    ensures MinimalChunks(g, L, cuts)
  {
    hide ValidLinearization, IsList, StrictChunk, ConnectedBy, MinimalChunk, Unsplittable;
    forall i | i in home.Values
      ensures StrictChunk(g, Chunk(home, i)) && ConnectedBy(Chunk(home, i), g.deps)
    {
      MinimalIsStrict(g, home, A, i);
      ChunkConnected(g, home, A, i);
    }
    BlocksAreChunks(g, home, L, cuts, order);
    forall k | 0 <= k < |cuts| - 1
      ensures MinimalSegment(g, L, cuts[k], cuts[k + 1])
    {
      assert IsBlock(g, home, L, cuts[k], cuts[k + 1], order[k]);
    }
  }

  lemma ChunkConnected(g: Cluster, home: Homes, A: set<Dep>, i: Tx)
    requires Forest(g, home, A) && i in home.Values
    ensures ConnectedBy(Chunk(home, i), g.deps)
  {
    var C := Chunk(home, i);
    forall S | ProperPart(S, C)
      ensures exists d :: d in Within(g.deps, C) && Crosses(d, S)
    {
      var d :| d in A && Crosses(d, S);
      assert home[d.par] == home[d.chl];
      assert d in Within(g.deps, C);
    }
  }

  /** The forest that improvement starts from. */
  method Start(dg: DepGraph, previous: seq<Tx>, isTopological: bool) returns (forest: SpanningForestState)
    requires dg.Valid() && AcyclicGraph(dg.d) && Elems(previous) <= AsCluster(dg.d).txs
    requires previous != [] && isTopological ==> ValidLinearization(AsCluster(dg.d), previous)
    ensures fresh(forest) && forest.g == AsCluster(dg.d) && forest.Valid()
    ensures forest.v.home.Keys == forest.g.txs && Topological(forest.g, forest.v.home)
    ensures Keeps(forest.g, previous, forest.v.home)
  {
    hide ValidGraph, AcyclicGraph, ValidForest, AreSingles, ValidLinearization, Topological, Under;
    forest := new SpanningForestState(dg);
    if previous != [] {
      ghost var run := forest.LoadLinearization(previous);
      if !isTopological {
        ForestKeys(forest.g, forest.v);
        ghost var more := forest.MakeTopological();
      }
    } else {
      ghost var run := forest.MakeTopological();
      KeepsEmpty(forest.g, forest.v.home);
    }
  }

  // ---------- runs of steps ----------

  /** What an optimization step starts from, and what it leaves. */
  datatype Optimizing = Optimizing(v: ForestData, q: Queue)

  /** What a minimization step starts from, and what it leaves. */
  datatype Reducing = Reducing(v: ForestData, pending: seq<Pending>)

  ghost predicate OptimizedAt(g: Cluster, s: Optimizing, s': Optimizing, more: bool) {
    s.v.home.Keys == g.txs && Optimized(g, s.v, s.q, s'.v, s'.q, more)
  }

  /** Optimization steps that all say that there is more to do, except for the last one if `more` is false. */
  ghost predicate OptimizeRun(g: Cluster, run: seq<Optimizing>, more: bool) {
    && |run| > 0 && (!more ==> |run| > 1)
    && forall k :: 0 <= k < |run| - 1 ==> OptimizedAt(g, run[k], run[k + 1], k < |run| - 2 || more)
  }

  ghost predicate MinimizeRun(g: Cluster, run: seq<Reducing>, more: bool) {
    && |run| > 0 && (!more ==> |run| > 1)
    && forall k :: 0 <= k < |run| - 1 ==>
         Minimized(g, run[k].v, run[k].pending, run[k + 1].v, run[k + 1].pending, k < |run| - 2 || more)
  }

  lemma OptimizeOn(g: Cluster, run: seq<Optimizing>, s: Optimizing, more: bool)
    requires OptimizeRun(g, run, true) && OptimizedAt(g, run[|run| - 1], s, more)
    ensures OptimizeRun(g, run + [s], more)
  {
    hide OptimizedAt;
    var run' := run + [s];
    forall k | 0 <= k < |run'| - 1
      ensures OptimizedAt(g, run'[k], run'[k + 1], k < |run'| - 2 || more)
    {
      assert k < |run| - 1 || k == |run| - 1;
    }
  }

  lemma MinimizeOn(g: Cluster, run: seq<Reducing>, s: Reducing, more: bool)
    requires MinimizeRun(g, run, true)
    requires Minimized(g, run[|run| - 1].v, run[|run| - 1].pending, s.v, s.pending, more)
    ensures MinimizeRun(g, run + [s], more)
  {
    hide Minimized;
    var run' := run + [s];
    forall k | 0 <= k < |run'| - 1
      ensures Minimized(g, run'[k].v, run'[k].pending, run'[k + 1].v, run'[k + 1].pending, k < |run'| - 2 || more)
    {
      assert k < |run| - 1 || k == |run| - 1;
    }
  }

  /** The cost after each step is higher than before it. */
  ghost predicate Rising(costs: nat -> nat) {
    forall k: nat :: costs(k) < costs(k + 1)
  }

  /** Steps `from` up to `to` began below the limit. */
  ghost predicate Affordable(costs: nat -> nat, from: nat, to: nat, maxCost: nat) {
    forall k: nat :: from <= k < to ==> costs(k) < maxCost
  }

  /** Optimization steps until the forest is optimal or the budget is used up. `costs` tells the cost after each
      step. */
  method OptimizeUpTo(forest: SpanningForestState, costs: nat -> nat, maxCost: nat, ghost L: seq<Tx>)
    returns (steps: nat, ghost run: seq<Optimizing>, ghost more: bool)
    requires forest.Valid() && forest.v.home.Keys == forest.g.txs && Topological(forest.g, forest.v.home)
    requires Keeps(forest.g, L, forest.v.home) && Rising(costs)
    modifies forest`v, forest`q
    ensures forest.Valid() && forest.v.home.Keys == forest.g.txs && Topological(forest.g, forest.v.home)
    ensures Keeps(forest.g, L, forest.v.home)
    ensures OptimizeRun(forest.g, run, more) && steps == |run| - 1 && Affordable(costs, 0, steps, maxCost)
    ensures run[0].v == old(forest.v) && run[steps].v == forest.v
    ensures costs(0) < maxCost ==> QueueSet(run[0].q) && run[0].q.idxs == old(forest.v.home).Values
    ensures if more then costs(steps) >= maxCost else AllUnsplittable(forest.g, forest.v.home, forest.v.active)
  {
    hide ValidForest, Topological, QueueOk, NotWorse, AllUnsplittable, Keeps, Optimized, Rising;
    more, steps := true, 0;
    if costs(0) < maxCost {
      forest.StartOptimizing();
    }
    run := [Optimizing(forest.v, forest.q)];
    if costs(0) < maxCost {
      var again := true;
      while again && costs(steps) < maxCost
        invariant forest.Valid() && forest.v.home.Keys == forest.g.txs && Topological(forest.g, forest.v.home)
        invariant QueueOk(forest.g, forest.v, forest.q, {}) && Keeps(forest.g, L, forest.v.home)
        invariant !again ==> AllUnsplittable(forest.g, forest.v.home, forest.v.active)
        invariant OptimizeRun(forest.g, run, again) && steps == |run| - 1 && Affordable(costs, 0, steps, maxCost)
        invariant run[0] == Optimizing(old(forest.v), run[0].q) && run[steps] == Optimizing(forest.v, forest.q)
        invariant QueueSet(run[0].q) && run[0].q.idxs == old(forest.v.home).Values
        decreases again, maxCost - costs(steps)
      {
        ghost var home0 := forest.v.home;
        again := forest.OptimizeStep();
        KeepsBetter(forest.g, L, home0, forest.v.home);
        OptimizeOn(forest.g, run, Optimizing(forest.v, forest.q), again);
        run := run + [Optimizing(forest.v, forest.q)];
        Rises(costs, steps);
        steps := steps + 1;
      }
      more := again;
    }
  }

  lemma Rises(costs: nat -> nat, k: nat)
    requires Rising(costs)
    ensures costs(k) < costs(k + 1)
  {
  }

  /** Minimization steps until all chunks are minimal or the budget is used up. `steps0` steps were made before. */
  method MinimizeUpTo(forest: SpanningForestState, steps0: nat, costs: nat -> nat, maxCost: nat, ghost L: seq<Tx>)
    returns (minimal: bool, steps: nat, ghost run: seq<Reducing>)
    requires forest.Valid() && costs(steps0) < maxCost && Keeps(forest.g, L, forest.v.home) && Rising(costs)
    requires forest.v.home.Keys == forest.g.txs && AllUnsplittable(forest.g, forest.v.home, forest.v.active)
    requires Linearizable(forest.g, forest.v.home)
    modifies forest`v, forest`pending
    ensures forest.Valid() && Minimizing(forest.g, forest.v, forest.pending)
    ensures Keeps(forest.g, L, forest.v.home)
    ensures MinimizeRun(forest.g, run, !minimal) && |run| > 0 && steps == steps0 + |run| - 1
    ensures Affordable(costs, steps0, steps, maxCost)
    ensures run[0].v == old(forest.v) && run[|run| - 1].v == forest.v
    ensures forall i :: i in old(forest.v.home).Values ==> InPending(run[0].pending, i)
    ensures if minimal then AllMinimal(forest.g, forest.v.home) else costs(steps) >= maxCost
  {
    hide ValidForest, PendingOk, Linearizable, Keeps, SameDiagram, AllUnsplittable, AllMinimal, Minimized, Rising,
      InPending;
    steps := steps0;
    minimal := false;
    forest.StartMinimizing();
    run := [Reducing(forest.v, forest.pending)];
    while !minimal && costs(steps) < maxCost
      invariant forest.Valid() && Minimizing(forest.g, forest.v, forest.pending)
      invariant Keeps(forest.g, L, forest.v.home)
      invariant minimal ==> AllMinimal(forest.g, forest.v.home)
      invariant MinimizeRun(forest.g, run, !minimal) && steps == steps0 + |run| - 1
      invariant Affordable(costs, steps0, steps, maxCost)
      invariant run[0].v == old(forest.v) && run[|run| - 1] == Reducing(forest.v, forest.pending)
      invariant forall i :: i in old(forest.v.home).Values ==> InPending(run[0].pending, i)
      decreases !minimal, maxCost - costs(steps)
    {
      ghost var home0 := forest.v.home;
      var more := forest.MinimizeStep();
      minimal := !more;
      KeepsSame(forest.g, L, home0, forest.v.home);
      MinimizeOn(forest.g, run, Reducing(forest.v, forest.pending), more);
      run := run + [Reducing(forest.v, forest.pending)];
      Rises(costs, steps);
      steps := steps + 1;
    }
  }

  /** The steps that were made: optimization steps, and minimization steps if the budget was not used up by then. */
  ghost predicate StepsMade(
    g: Cluster, opt: seq<Optimizing>, min: seq<Reducing>, optimal: bool, steps: nat, costs: nat -> nat, maxCost: nat)
  {
    && Affordable(costs, 0, steps, maxCost) && |opt| > 0
    && if |min| == 0 then (OptimizeRun(g, opt, true) || OptimizeRun(g, opt, false)) && steps == |opt| - 1 && !optimal
       else
         && OptimizeRun(g, opt, false) && MinimizeRun(g, min, !optimal) && steps == |opt| - 1 + |min| - 1
         && min[0].v == opt[|opt| - 1].v
  }

  /** Find or improve a linearization of a cluster. `costs` tells the cost after each step of optimization and
      minimization, and the cost when it ends is returned. It ends with an optimal linearization unless it has cost as
      much as it may. */
  method Linearize(dg: DepGraph, maxCost: nat, costs: nat -> nat, previous: seq<Tx>, isTopological: bool)
    returns (
      L: seq<Tx>, optimal: bool, cost: nat, ghost cuts: seq<nat>, ghost opt: seq<Optimizing>, ghost min: seq<Reducing>)
    requires dg.Valid() && AcyclicGraph(dg.d) && Elems(previous) <= AsCluster(dg.d).txs && Rising(costs)
    requires previous != [] && isTopological ==> ValidLinearization(AsCluster(dg.d), previous)
    ensures ValidLinearization(AsCluster(dg.d), L)
    ensures ValidLinearization(AsCluster(dg.d), previous) ==> AsGoodAs(AsCluster(dg.d), L, previous)
    ensures optimal ==> OptimalLinearization(AsCluster(dg.d), L) && MinimalChunks(AsCluster(dg.d), L, cuts)
    ensures !optimal ==> cost >= maxCost
    ensures exists steps: nat ::
      cost == costs(steps) && StepsMade(AsCluster(dg.d), opt, min, optimal, steps, costs, maxCost)
    ensures |opt| > 0 && Reaches(AsCluster(dg.d), L, (if |min| > 0 then min[|min| - 1].v else opt[|opt| - 1].v).home)
  {
    hide ValidGraph, AcyclicGraph, ValidForest, Topological, Keeps, AllUnsplittable, AllMinimal, Linearizable,
      PendingOk, OptimizeRun, MinimizeRun, Rising, InPending, QueueSet;
    hide ValidLinearization, AsGoodAs, OptimalLinearization, MinimalChunks, Reaches, InBlocks, Forest, Acyclic;
    ghost var g := AsCluster(dg.d);
    var forest := Start(dg, previous, isTopological);
    var steps;
    ghost var more;
    steps, opt, more := OptimizeUpTo(forest, costs, maxCost, previous);
    TopologicalLinearizable(g, forest.v.home);
    optimal, min := false, [];
    if costs(steps) < maxCost {
      optimal, steps, min := MinimizeUpTo(forest, steps, costs, maxCost, previous);
    }
    cost := costs(steps);
    assert StepsMade(g, opt, min, optimal, steps, costs, maxCost);
    ClusterAcyclic(dg.d);
    ghost var order;
    L, cuts, order := forest.GetLinearization();
    KeptIsAsGood(g, L, previous, forest.v.home);
    if optimal {
      ForestOf(g, forest.v);
      UnsplittableIsOptimal(g, forest.v.home, forest.v.active, L);
      BlocksMinimal(g, forest.v.home, forest.v.active, L, cuts, order);
    }
  }
}
