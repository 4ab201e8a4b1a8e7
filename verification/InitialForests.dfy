/** The state that a spanning forest starts from: every transaction of a dependency graph is a chunk
    of its own. */
module InitialForests {
  import opened FiniteSets
  import opened Clusters
  import opened Forests
  import opened ForestStates
  import opened DepGraphs
  import opened Loading

  /** The chunk at every index is the transaction at that place of `order`. */
  ghost predicate Placed(d: GraphData, order: seq<Tx>, home: Homes, info: seq<SetInfo>) {
    && InRange(d) && |info| == |order| == |home.Keys| && home.Keys <= d.used
    && (forall k :: 0 <= k < |order| ==> order[k] in home && home[order[k]] == k)
    && (forall t :: t in home ==> home[t] < |order| && order[home[t]] == t)
    && (forall k :: 0 <= k < |order| ==> IsSingle(d, order[k], info[k]))
  }

  ghost predicate IsSingle(d: GraphData, t: Tx, s: SetInfo)
    requires InRange(d)
  {
    t in d.used && s.transactions == {t} && s.feerate == d.entries[t].feerate
  }

  lemma PlaceNext(d: GraphData, order: seq<Tx>, home: Homes, info: seq<SetInfo>, t: Tx, s: SetInfo)
    requires Placed(d, order, home, info) && t in d.used && t !in home && IsSingle(d, t, s)
    ensures Placed(d, order + [t], home[t := |order|], info + [s]) && home[t := |order|].Keys == home.Keys + {t}
  {
    hide IsSingle;
    var home' := home[t := |order|];
    assert home'.Keys == home.Keys + {t};
  }

  lemma PlacedSingle(d: GraphData, order: seq<Tx>, home: Homes, info: seq<SetInfo>, k: nat)
    requires Placed(d, order, home, info) && k < |order|
    ensures Chunk(home, k) == {order[k]} && k in home.Values
  {
    assert home[order[k]] == k;
    forall t | t in home && home[t] == k
      ensures t == order[k]
    {
    }
  }

  /** The direct dependencies of the transactions in `done`. */
  ghost predicate DepsOfDone(d: GraphData, done: set<Tx>, deps: set<Dep>)
    requires ValidGraph(d) && done <= d.used
  {
    && (forall e :: e in deps ==> e.chl in done && e.par in Direct(d, e.chl, false))
    && (forall c, p :: c in done && p in Direct(d, c, false) ==> Dep(p, c) in deps)
  }

  lemma NextDeps(d: GraphData, done: set<Tx>, deps: set<Dep>, t: Tx, more: set<Dep>)
    requires ValidGraph(d) && done <= d.used && t in d.used && DepsOfDone(d, done, deps)
    requires forall e :: e in more ==> e.chl == t && e.par in Direct(d, t, false)
    requires forall p :: p in Direct(d, t, false) ==> Dep(p, t) in more
    ensures DepsOfDone(d, done + {t}, deps + more)
  {
    hide ValidGraph, Direct;
  }

  lemma AllDeps(d: GraphData, deps: set<Dep>)
    requires ValidGraph(d) && DepsOfDone(d, d.used, deps)
    ensures deps == AsCluster(d).deps
  {
    forall e | e in deps
      ensures e in AsCluster(d).deps
    {
      assert Reflexive(d, e.chl);
      assert e == Dep(e.par, e.chl);
    }
  }

  lemma SingleConnected(t: Tx, A: set<Dep>)
    ensures Connected({t}, A)
  {
    forall S: set<Tx>
      ensures !ProperPart(S, {t})
    {
    }
  }

  lemma InitialIndexes(g: Cluster, v: ForestData, n: nat)
    requires v.home.Keys == g.txs && v.active == {} && v.chunkIdxs == v.home.Values
    requires |v.setInfo| == |v.reachUp| == |v.reachDown| == |g.txs| == n
    requires forall k :: 0 <= k < n <==> k in v.home.Values
    ensures ForestStates.Indexes(g, v)
  {
  }

  lemma InitialIsForest(g: Cluster, home: Homes)
    requires home.Keys == g.txs
    requires forall k :: k in home.Values ==> Connected(Chunk(home, k), {})
    ensures Forest(g, home, {})
  {
    hide Connected;
  }

  lemma InitialValid(d: GraphData, order: seq<Tx>, v: ForestData)
    requires ValidGraph(d) && Placed(d, order, v.home, v.setInfo) && v.home.Keys == d.used
    requires v.active == {} && v.chunkIdxs == v.home.Values
    requires |v.reachUp| == |v.reachDown| == |order|
    requires forall k :: 0 <= k < |order| ==>
      v.reachUp[k] == ParentsOf(AsCluster(d).deps, {order[k]}) &&
        v.reachDown[k] == ChildrenOf(AsCluster(d).deps, {order[k]})
    ensures ValidForest(AsCluster(d), v)
    ensures AreSingles(v.home, d.used)
  {
    hide ValidGraph, ParentsOf, ChildrenOf, Placed, ChunkOk, Connected, ForestStates.Indexes, Forest, Chunk, AreSingles;
    var g := AsCluster(d);
    PlacedFacts(d, order, v.home, v.setInfo);
    forall k | 0 <= k < |order|
      ensures k in v.home.Values && ChunkOk(g, v, k) && Connected(Chunk(v.home, k), v.active)
    {
      InitialChunk(d, order, v, k);
    }
    InitialIndexes(g, v, |order|);
    InitialIsForest(g, v.home);
    InitialSingles(d, order, v);
  }

  lemma InitialSingles(d: GraphData, order: seq<Tx>, v: ForestData)
    requires Placed(d, order, v.home, v.setInfo) && v.home.Keys == d.used
    ensures AreSingles(v.home, d.used)
  {
    hide Placed, Chunk;
    PlacedFacts(d, order, v.home, v.setInfo);
    forall t | t in d.used
      ensures Chunk(v.home, v.home[t]) == {t}
    {
      PlacedSingle(d, order, v.home, v.setInfo, v.home[t]);
    }
  }

  lemma InitialChunk(d: GraphData, order: seq<Tx>, v: ForestData, k: nat)
    requires ValidGraph(d) && Placed(d, order, v.home, v.setInfo) && k < |order|
    requires v.active == {} && |v.reachUp| == |v.reachDown| == |order|
    requires v.reachUp[k] == ParentsOf(AsCluster(d).deps, {order[k]})
    requires v.reachDown[k] == ChildrenOf(AsCluster(d).deps, {order[k]})
    ensures k in v.home.Values && ChunkOk(AsCluster(d), v, k) && Connected(Chunk(v.home, k), v.active)
  {
    hide ValidGraph, ParentsOf, ChildrenOf, Placed, Exact, Connected;
    PlacedFacts(d, order, v.home, v.setInfo);
    PlacedSingle(d, order, v.home, v.setInfo, k);
    InitialExact(d, order, v.home, v.setInfo, k);
    SingleConnected(order[k], v.active);
  }

  lemma PlacedFacts(d: GraphData, order: seq<Tx>, home: Homes, info: seq<SetInfo>)
    requires Placed(d, order, home, info)
    ensures |info| == |order| == |home.Keys|
    ensures forall t :: t in home ==> home[t] < |order| && order[home[t]] == t
    ensures forall k :: k in home.Values ==> k < |order|
  {
  }

  lemma InitialExact(d: GraphData, order: seq<Tx>, home: Homes, info: seq<SetInfo>, k: nat)
    requires ValidGraph(d) && Placed(d, order, home, info) && k < |order|
    ensures info[k].transactions == {order[k]} && Exact(AsCluster(d), info[k])
  {
    hide Closed;
    assert order[k] in home;
    TotalSingleton(AsCluster(d), order[k]);
  }

  lemma NothingPlaced(d: GraphData)
    requires ValidGraph(d)
    ensures d.used - d.used == {} && Placed(d, [], map[], []) && DepsOfDone(d, {}, {})
  {
  }

  /** Put every transaction into a chunk of its own, and collect the direct dependencies. */
  method PlaceAll(dg: DepGraph) returns (deps: set<Dep>, home: Homes, info: seq<SetInfo>, ghost order: seq<Tx>)
    requires dg.Valid() && AcyclicGraph(dg.d)
    ensures DepsOfDone(dg.d, dg.d.used, deps) && Placed(dg.d, order, home, info) && home.Keys == dg.d.used
  {
    hide Closed, AcyclicGraph, Direct, Placed, DepsOfDone;
    deps, home, info, order := {}, map[], [], [];
    var todo := dg.d.used;
    NothingPlaced(dg.d);
    while todo != {}
      invariant todo <= dg.d.used && home.Keys == dg.d.used - todo
      invariant Placed(dg.d, order, home, info) && DepsOfDone(dg.d, dg.d.used - todo, deps)
    {
      var t: Tx :| t in todo;
      OneMoreDone(dg.d.used, todo, t);
      PlacedFacts(dg.d, order, home, info);
      var parents := dg.GetReducedParents(t);
      var more := set p | p in parents :: Dep(p, t);
      var s := SetInfo({t}, dg.d.entries[t].feerate);
      NextDeps(dg.d, dg.d.used - todo, deps, t, more);
      PlaceNext(dg.d, order, home, info, t, s);
      deps, home, info := deps + more, home[t := |info|], info + [s];
      order := order + [t];
      todo := todo - {t};
    }
    assert dg.d.used - todo == dg.d.used;
  }

  /** The forest in which every transaction is its own chunk. */
  method InitialForest(dg: DepGraph) returns (deps: set<Dep>, v: ForestData)
    requires dg.Valid() && AcyclicGraph(dg.d)
    ensures deps == AsCluster(dg.d).deps && ValidForest(AsCluster(dg.d), v) && AreSingles(v.home, dg.d.used)
    ensures v.active == {}
  {
    hide ValidGraph, AcyclicGraph, DepsOfDone, Placed, ValidForest, AreSingles, ParentsOf, ChildrenOf;
    var home, info;
    ghost var order;
    deps, home, info, order := PlaceAll(dg);
    AllDeps(dg.d, deps);
    PlacedFacts(dg.d, order, home, info);
    var up, dn: seq<set<Tx>> := [], [];
    for k := 0 to |info|
      invariant |up| == |dn| == k
      invariant forall n :: 0 <= n < k ==> up[n] == ParentsOf(deps, {order[n]}) && dn[n] == ChildrenOf(deps, {order[n]})
    {
      InitialExact(dg.d, order, home, info, k);
      up, dn := up + [ParentsOf(deps, info[k].transactions)], dn + [ChildrenOf(deps, info[k].transactions)];
    }
    v := ForestData(home, {}, map[], home.Values, info, up, dn);
    InitialValid(dg.d, order, v);
  }
}
