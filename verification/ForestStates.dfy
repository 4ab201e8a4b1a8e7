/** The data of the spanning-forest linearization state, and what activating and deactivating a
    dependency does to it. */
module ForestStates {
  import opened FeeRates
  import opened Clusters
  import opened Forests

  /** A set of transactions together with their aggregate feerate. */
  datatype SetInfo = SetInfo(transactions: set<Tx>, feerate: FeeFrac)

  /** `a |= b` */
  function Union(a: SetInfo, b: SetInfo): SetInfo
    requires a.transactions !! b.transactions
  {
    SetInfo(a.transactions + b.transactions, FeeFrac(a.feerate.fee + b.feerate.fee, a.feerate.size + b.feerate.size))
  }

  /** `a -= b` */
  function Without(a: SetInfo, b: SetInfo): SetInfo
    requires b.transactions <= a.transactions
  {
    SetInfo(a.transactions - b.transactions, FeeFrac(a.feerate.fee - b.feerate.fee, a.feerate.size - b.feerate.size))
  }

  ghost predicate Exact(g: Cluster, s: SetInfo) {
    && s.transactions <= g.txs
    && s.feerate.fee == Total(g, s.transactions).fee
    && s.feerate.size == Total(g, s.transactions).size
  }

  lemma UnionExact(g: Cluster, a: SetInfo, b: SetInfo)
    requires Exact(g, a) && Exact(g, b) && a.transactions !! b.transactions
    ensures Exact(g, Union(a, b))
  {
    TotalUnion(g, a.transactions, b.transactions);
  }

  lemma WithoutExact(g: Cluster, a: SetInfo, b: SetInfo)
    requires Exact(g, a) && Exact(g, b) && b.transactions <= a.transactions
    ensures Exact(g, Without(a, b))
  {
    TotalDifference(g, b.transactions, a.transactions);
  }

  /** The out-of-set parents of the members of a set. */
  function ParentsOf(deps: set<Dep>, S: set<Tx>): set<Tx> {
    (set d | d in deps && d.chl in S :: d.par) - S
  }

  /** The out-of-set children of the members of a set. */
  function ChildrenOf(deps: set<Dep>, S: set<Tx>): set<Tx> {
    (set d | d in deps && d.par in S :: d.chl) - S
  }

  /** The fields that describe the forest, as one value. */
  datatype ForestData = ForestData(
    home: Homes, active: set<Dep>, depTop: map<Dep, Tx>, chunkIdxs: set<Tx>,
    setInfo: seq<SetInfo>, reachUp: seq<set<Tx>>, reachDown: seq<set<Tx>>)

  /** Every set index is either one chunk or the top set of one active dependency. */
  ghost predicate Indexes(g: Cluster, v: ForestData) {
    && v.home.Keys == g.txs
    && v.chunkIdxs == v.home.Values
    && |v.setInfo| == |v.reachUp| == |v.reachDown| == |g.txs|
    && v.active <= v.depTop.Keys
    && (forall i :: i in v.chunkIdxs ==> i < |v.setInfo|)
    && (forall d :: d in v.active ==> v.depTop[d] < |v.setInfo| && v.depTop[d] !in v.chunkIdxs)
    && (forall d, e :: d in v.active && e in v.active && v.depTop[d] == v.depTop[e] ==> d == e)
    && (forall i :: 0 <= i < |v.setInfo| ==> i in v.chunkIdxs || IsTopIdx(v, i))
  }

  ghost predicate IsTopIdx(v: ForestData, i: Tx)
    requires v.active <= v.depTop.Keys
  {
    exists d :: d in v.active && v.depTop[d] == i
  }

  ghost predicate ChunkOk(g: Cluster, v: ForestData, i: Tx)
    requires i < |v.setInfo| && i < |v.reachUp| && i < |v.reachDown|
  {
    && v.setInfo[i].transactions == Chunk(v.home, i)
    && Exact(g, v.setInfo[i])
    && v.reachUp[i] == ParentsOf(g.deps, Chunk(v.home, i))
    && v.reachDown[i] == ChildrenOf(g.deps, Chunk(v.home, i))
  }

  ghost predicate TopOk(g: Cluster, v: ForestData, d: Dep)
    requires d in v.depTop && v.depTop[d] < |v.setInfo| && d.par in v.home
  {
    && IsTop(Chunk(v.home, v.home[d.par]), v.active, d, v.setInfo[v.depTop[d]].transactions)
    && Exact(g, v.setInfo[v.depTop[d]])
  }

  /** All chunk and top sets, feerates and reachable sets are exactly what the active dependencies
      make them. */
  ghost predicate ValidForest(g: Cluster, v: ForestData) {
    && Forest(g, v.home, v.active)
    && Indexes(g, v)
    && (forall i :: i in v.chunkIdxs ==> ChunkOk(g, v, i))
    && (forall d :: d in v.active ==> TopOk(g, v, d))
  }

  lemma ReachOfUnion(g: Cluster, P: set<Tx>, Q: set<Tx>)
    ensures ParentsOf(g.deps, P + Q) == (ParentsOf(g.deps, Q) + ParentsOf(g.deps, P)) - (P + Q)
    ensures ChildrenOf(g.deps, P + Q) == (ChildrenOf(g.deps, Q) + ChildrenOf(g.deps, P)) - (P + Q)
  {
  }

  /** `v'` is `v` with the dependency `e` activated. */
  ghost predicate Activated(g: Cluster, v: ForestData, v': ForestData, e: Dep)
    requires ValidForest(g, v) && e.par in v.home && e.chl in v.home
  {
    var i, j := v.home[e.par], v.home[e.chl];
    assert i in v.home.Values && j in v.home.Values;
    && v'.home == Joined(v.home, i, j)
    && v'.active == v.active + {e}
    && v'.depTop == v.depTop[e := i]
    && v'.chunkIdxs == v.chunkIdxs - {i}
    && |v'.setInfo| == |v.setInfo|
    && (forall k :: k in v.chunkIdxs && k != j ==> v'.setInfo[k] == v.setInfo[k])
    && v'.setInfo[j].transactions == v.setInfo[i].transactions + v.setInfo[j].transactions
    && Exact(g, v'.setInfo[j])
    && (forall d :: d in v.active ==>
          && v'.setInfo[v.depTop[d]].transactions ==
             Grown(v.setInfo[v.depTop[d]].transactions, e, v.setInfo[i].transactions, v.setInfo[j].transactions)
          && Exact(g, v'.setInfo[v.depTop[d]]))
    && v'.reachUp == v.reachUp[j := (v.reachUp[j] + v.reachUp[i]) - v'.setInfo[j].transactions]
    && v'.reachDown == v.reachDown[j := (v.reachDown[j] + v.reachDown[i]) - v'.setInfo[j].transactions]
  }

  lemma ActivatedIndexes(g: Cluster, v: ForestData, v': ForestData, e: Dep, i: Tx, j: Tx)
    requires Indexes(g, v) && i in v.home.Values && j in v.home.Values && i != j && e !in v.active
    requires v'.home == Joined(v.home, i, j)
    requires v'.active == v.active + {e} && v'.depTop == v.depTop[e := i] && v'.chunkIdxs == v.chunkIdxs - {i}
    requires |v'.setInfo| == |v'.reachUp| == |v'.reachDown| == |v.setInfo|
    ensures Indexes(g, v')
  {
    JoinedChunks(v.home, i, j);
    forall k | 0 <= k < |v'.setInfo|
      ensures k in v'.chunkIdxs || IsTopIdx(v', k)
    {
      if k == i {
        assert e in v'.active && v'.depTop[e] == k;
      } else if k !in v.chunkIdxs {
        assert IsTopIdx(v, k);
        var d :| d in v.active && v.depTop[d] == k;
        assert d in v'.active && v'.depTop[d] == k;
      }
    }
  }

  lemma ActivatedChunk(g: Cluster, v: ForestData, v': ForestData, e: Dep, k: Tx)
    requires ValidForest(g, v) && e in g.deps && v.home[e.par] != v.home[e.chl] && Activated(g, v, v', e)
    requires Indexes(g, v') && k in v'.chunkIdxs
    ensures ChunkOk(g, v', k)
  {
    var i, j := v.home[e.par], v.home[e.chl];
    JoinedChunks(v.home, i, j);
    assert ChunkOk(g, v, k);
    if k == j {
      assert ChunkOk(g, v, i);
      ReachOfUnion(g, Chunk(v.home, i), Chunk(v.home, j));
    }
  }

  lemma ActivatedTop(g: Cluster, v: ForestData, v': ForestData, e: Dep, d: Dep)
    requires ValidForest(g, v) && e in g.deps && v.home[e.par] != v.home[e.chl] && Activated(g, v, v', e)
    requires Indexes(g, v') && d in v'.active
    ensures d.par in v'.home && TopOk(g, v', d)
  {
    var i, j := v.home[e.par], v.home[e.chl];
    var P, Q := Chunk(v.home, i), Chunk(v.home, j);
    JoinedChunks(v.home, i, j);
    assert ChunkOk(g, v, i) && ChunkOk(g, v, j);
    if d == e {
      ForestActivate(g, v.home, v.active, e);
    } else {
      assert TopOk(g, v, d);
      var T := v.setInfo[v.depTop[d]].transactions;
      var k := v.home[d.par];
      if k == i || k == j {
        ActiveStayInside(g, v.home, v.active, i);
        ActiveStayInside(g, v.home, v.active, j);
        TopGrows(P, Q, v.active, e, d, T);
      } else {
        TopElsewhere(Chunk(v.home, k), v.active, e, d, T);
      }
    }
  }

  lemma ActivatedValid(g: Cluster, v: ForestData, v': ForestData, e: Dep)
    requires ValidForest(g, v) && e in g.deps && v.home[e.par] != v.home[e.chl] && Activated(g, v, v', e)
    ensures ValidForest(g, v')
  {
    ForestActivate(g, v.home, v.active, e);
    assert e !in v.active;
    ActivatedIndexes(g, v, v', e, v.home[e.par], v.home[e.chl]);
    forall k | k in v'.chunkIdxs
      ensures ChunkOk(g, v', k)
    {
      ActivatedChunk(g, v, v', e, k);
    }
    forall d | d in v'.active
      ensures TopOk(g, v', d)
    {
      ActivatedTop(g, v, v', e, d);
    }
  }

  /** `v'` is `v` with the dependency `e` deactivated. */
  ghost predicate Deactivated(g: Cluster, v: ForestData, v': ForestData, e: Dep)
    requires ValidForest(g, v) && e in v.active
  {
    var i, j := v.depTop[e], v.home[e.par];
    assert j in v.home.Values;
    var T, C := v.setInfo[i].transactions, v.setInfo[j].transactions;
    && v'.home == Moved(v.home, T, i)
    && v'.active == v.active - {e}
    && v'.depTop == v.depTop
    && v'.chunkIdxs == v.chunkIdxs + {i}
    && |v'.setInfo| == |v.setInfo|
    && v'.setInfo[i] == v.setInfo[i]
    && (forall k :: k in v.chunkIdxs && k != j ==> v'.setInfo[k] == v.setInfo[k])
    && v'.setInfo[j].transactions == C - T
    && Exact(g, v'.setInfo[j])
    && (forall d :: d in v'.active ==>
          && v'.setInfo[v.depTop[d]].transactions ==
             DeactivatedTop(v.setInfo[v.depTop[d]].transactions, e, d, T, C - T)
          && Exact(g, v'.setInfo[v.depTop[d]]))
    && v'.reachUp == v.reachUp[i := ParentsOf(g.deps, T)][j := ParentsOf(g.deps, C - T)]
    && v'.reachDown == v.reachDown[i := ChildrenOf(g.deps, T)][j := ChildrenOf(g.deps, C - T)]
  }

  /** The new top set of the dependency `d`, which was `U`, when the deactivation of `e` splits its
      chunk into `T` and `B`. */
  ghost function DeactivatedTop(U: set<Tx>, e: Dep, d: Dep, T: set<Tx>, B: set<Tx>): set<Tx> {
    if d.par in T then Shrunk(U, e.par, B)
    else if d.par in B then Shrunk(U, e.chl, T)
    else U
  }

  lemma DeactivatedIndexes(g: Cluster, v: ForestData, v': ForestData, e: Dep, T: set<Tx>, i: Tx, j: Tx)
    requires Indexes(g, v) && e in v.active && v.depTop[e] == i && j in v.home.Values
    requires T != {} && T < Chunk(v.home, j)
    requires v'.home == Moved(v.home, T, i)
    requires v'.active == v.active - {e} && v'.depTop == v.depTop && v'.chunkIdxs == v.chunkIdxs + {i}
    requires |v'.setInfo| == |v'.reachUp| == |v'.reachDown| == |v.setInfo|
    ensures Indexes(g, v')
  {
    MovedChunks(v.home, T, i, j);
    forall k | 0 <= k < |v'.setInfo|
      ensures k in v'.chunkIdxs || IsTopIdx(v', k)
    {
      if k !in v'.chunkIdxs {
        assert IsTopIdx(v, k);
        var d :| d in v.active && v.depTop[d] == k;
        assert d in v'.active && v'.depTop[d] == k;
      }
    }
  }

  lemma DeactivatedChunk(g: Cluster, v: ForestData, v': ForestData, e: Dep, k: Tx)
    requires ValidForest(g, v) && e in v.active && Deactivated(g, v, v', e)
    requires Indexes(g, v') && k in v'.chunkIdxs
    ensures ChunkOk(g, v', k)
  {
    var i, j := v.depTop[e], v.home[e.par];
    assert TopOk(g, v, e) && ChunkOk(g, v, j);
    assert e.chl in Chunk(v.home, j);
    MovedChunks(v.home, v.setInfo[i].transactions, i, j);
    if k != i {
      assert ChunkOk(g, v, k);
      if k != j {
        assert Chunk(v'.home, k) == Chunk(v.home, k);
      }
    }
  }

  lemma DeactivatedTopOk(g: Cluster, v: ForestData, v': ForestData, e: Dep, d: Dep)
    requires ValidForest(g, v) && e in v.active && Deactivated(g, v, v', e)
    requires Indexes(g, v') && d in v'.active
    ensures d.par in v'.home && TopOk(g, v', d)
  {
    var i, j := v.depTop[e], v.home[e.par];
    var C, T, U := Chunk(v.home, j), v.setInfo[i].transactions, v.setInfo[v.depTop[d]].transactions;
    assert TopOk(g, v, e) && ChunkOk(g, v, j) && TopOk(g, v, d);
    assert e.chl in C && !Crosses(d, T);
    MovedChunks(v.home, T, i, j);
    ActiveStayInside(g, v.home, v.active, j);
    if d.par in T {
      TopShrinksAbove(C, v.active, e, T, d, U);
    } else if d.par in C {
      TopShrinksBelow(C, v.active, e, T, d, U);
    }
  }

  lemma DeactivatedValid(g: Cluster, v: ForestData, v': ForestData, e: Dep)
    requires ValidForest(g, v) && e in v.active && Deactivated(g, v, v', e)
    ensures ValidForest(g, v')
  {
    var i, j := v.depTop[e], v.home[e.par];
    var T := v.setInfo[i].transactions;
    assert TopOk(g, v, e) && ChunkOk(g, v, j);
    assert e.chl in Chunk(v.home, j);
    ForestDeactivate(g, v.home, v.active, e, T, i);
    DeactivatedIndexes(g, v, v', e, T, i, j);
    forall k | k in v'.chunkIdxs
      ensures ChunkOk(g, v', k)
    {
      DeactivatedChunk(g, v, v', e, k);
    }
    forall d | d in v'.active
      ensures TopOk(g, v', d)
    {
      DeactivatedTopOk(g, v, v', e, d);
    }
  }

  ghost predicate Injective(depTop: map<Dep, Tx>, D: set<Dep>, n: nat) {
    && D <= depTop.Keys
    && (forall d :: d in D ==> depTop[d] < n)
    && (forall d, e :: d in D && e in D && depTop[d] == depTop[e] ==> d == e)
  }

  /** Add `extra` to the top set of every dependency of `D` whose top set holds `end`. */
  method ExtendTops(info0: seq<SetInfo>, depTop: map<Dep, Tx>, D: set<Dep>, end: Tx, extra: SetInfo)
    returns (info: seq<SetInfo>)
    requires Injective(depTop, D, |info0|)
    requires forall d :: d in D && end in info0[depTop[d]].transactions ==>
               info0[depTop[d]].transactions !! extra.transactions
    ensures |info| == |info0|
    ensures forall i :: 0 <= i < |info| && (forall d :: d in D ==> depTop[d] != i) ==> info[i] == info0[i]
    ensures forall d :: d in D ==>
              info[depTop[d]] == if end in info0[depTop[d]].transactions
                                 then Union(info0[depTop[d]], extra)
                                 else info0[depTop[d]]
  {
    var todo := D;
    info := info0;
    while todo != {}
      invariant todo <= D
      invariant |info| == |info0|
      invariant forall i :: 0 <= i < |info| && (forall d :: d in D ==> depTop[d] != i) ==> info[i] == info0[i]
      invariant forall d :: d in D ==>
              info[depTop[d]] == if d !in todo && end in info0[depTop[d]].transactions
                                 then Union(info0[depTop[d]], extra)
                                 else info0[depTop[d]]
    {
      var d :| d in todo;
      todo := todo - {d};
      var k := depTop[d];
      if end in info[k].transactions {
        info := info[k := Union(info[k], extra)];
      }
    }
  }

  /** Remove `part` from the top set of every dependency of `D` whose top set holds `end`. */
  method ShrinkTops(info0: seq<SetInfo>, depTop: map<Dep, Tx>, D: set<Dep>, end: Tx, part: SetInfo)
    returns (info: seq<SetInfo>)
    requires Injective(depTop, D, |info0|)
    requires forall d :: d in D && end in info0[depTop[d]].transactions ==>
               part.transactions <= info0[depTop[d]].transactions
    ensures |info| == |info0|
    ensures forall i :: 0 <= i < |info| && (forall d :: d in D ==> depTop[d] != i) ==> info[i] == info0[i]
    ensures forall d :: d in D ==>
              info[depTop[d]] == if end in info0[depTop[d]].transactions
                                 then Without(info0[depTop[d]], part)
                                 else info0[depTop[d]]
  {
    var todo := D;
    info := info0;
    while todo != {}
      invariant todo <= D
      invariant |info| == |info0|
      invariant forall i :: 0 <= i < |info| && (forall d :: d in D ==> depTop[d] != i) ==> info[i] == info0[i]
      invariant forall d :: d in D ==>
              info[depTop[d]] == if d !in todo && end in info0[depTop[d]].transactions
                                 then Without(info0[depTop[d]], part)
                                 else info0[depTop[d]]
    {
      var d :| d in todo;
      todo := todo - {d};
      var k := depTop[d];
      if end in info[k].transactions {
        info := info[k := Without(info[k], part)];
      }
    }
  }

  /** Make chunk `i` the chunk of all transactions of `S`. */
  method Relabel(home0: Homes, S: set<Tx>, i: Tx) returns (home: Homes)
    requires S <= home0.Keys
    ensures home == Moved(home0, S, i)
  {
    var todo := S;
    home := home0;
    while todo != {}
      invariant todo <= S
      invariant home == Moved(home0, S - todo, i)
    {
      var t :| t in todo;
      todo := todo - {t};
      home := home[t := i];
    }
  }

  /** Which of the chunks `P` and `Q` the top set of `d` is in, and that its feerate is right. */
  ghost predicate TopPlace(g: Cluster, u: SetInfo, d: Dep, e: Dep, P: set<Tx>, Q: set<Tx>) {
    && Exact(g, u)
    && (d.par in P ==> u.transactions <= P)
    && (d.par in Q ==> u.transactions <= Q)
    && (d.par !in P && d.par !in Q ==> e.par !in u.transactions && e.chl !in u.transactions)
  }

  /** The set infos after the top sets in the chunks of `e`'s two ends have been updated for the
      activation of `e`: those holding one end gain the chunk of the other. */
  method JoinTops(ghost g: Cluster, info0: seq<SetInfo>, depTop: map<Dep, Tx>, active: set<Dep>, e: Dep, i: Tx, j: Tx)
    returns (info: seq<SetInfo>)
    requires Injective(depTop, active, |info0|)
    requires i < |info0| && j < |info0| && Exact(g, info0[i]) && Exact(g, info0[j])
    requires e.par in info0[i].transactions && e.chl in info0[j].transactions
    requires info0[i].transactions !! info0[j].transactions
    requires forall d :: d in active ==>
               TopPlace(g, info0[depTop[d]], d, e, info0[i].transactions, info0[j].transactions)
    ensures |info| == |info0|
    ensures forall k :: 0 <= k < |info| && (forall d :: d in active ==> depTop[d] != k) ==> info[k] == info0[k]
    ensures forall d :: d in active ==>
              && info[depTop[d]].transactions ==
                 Grown(info0[depTop[d]].transactions, e, info0[i].transactions, info0[j].transactions)
              && Exact(g, info[depTop[d]])
  {
    var top, bottom := info0[i], info0[j];
    var above := set d | d in active && d.par in top.transactions;
    var below := set d | d in active && d.par in bottom.transactions;
    var info1 := ExtendTops(info0, depTop, above, e.par, bottom);
    forall d | d in active && d !in above
      ensures info1[depTop[d]] == info0[depTop[d]]
    {
    }
    info := ExtendTops(info1, depTop, below, e.chl, top);
    forall d | d in active
      ensures info[depTop[d]].transactions ==
              Grown(info0[depTop[d]].transactions, e, top.transactions, bottom.transactions)
      ensures Exact(g, info[depTop[d]])
    {
      var u := info0[depTop[d]];
      if d in above {
        assert d !in below;
        assert info[depTop[d]] == info1[depTop[d]];
        if e.par in u.transactions {
          UnionExact(g, u, bottom);
        }
      } else if d in below {
        if e.chl in u.transactions {
          UnionExact(g, u, top);
        }
      }
    }
  }

  /** What `JoinTops` needs, from the invariant. */
  lemma JoinTopsReady(g: Cluster, v: ForestData, e: Dep, i: Tx, j: Tx)
    requires ValidForest(g, v) && e in g.deps && v.home[e.par] == i && v.home[e.chl] == j && i != j
    ensures Injective(v.depTop, v.active, |v.setInfo|) && |v.setInfo| == |v.reachUp| == |v.reachDown|
    ensures i < |v.setInfo| && j < |v.setInfo| && Exact(g, v.setInfo[i]) && Exact(g, v.setInfo[j])
    ensures v.setInfo[i].transactions <= v.home.Keys
    ensures e.par in v.setInfo[i].transactions && e.chl in v.setInfo[j].transactions
    ensures v.setInfo[i].transactions !! v.setInfo[j].transactions
    ensures forall d :: d in v.active ==>
              TopPlace(g, v.setInfo[v.depTop[d]], d, e, v.setInfo[i].transactions, v.setInfo[j].transactions)
  {
    assert i in v.home.Values && j in v.home.Values;
    assert ChunkOk(g, v, i) && ChunkOk(g, v, j);
    forall d | d in v.active
      ensures TopPlace(g, v.setInfo[v.depTop[d]], d, e, v.setInfo[i].transactions, v.setInfo[j].transactions)
    {
      assert TopOk(g, v, d);
    }
  }

  lemma ActivateDone(g: Cluster, v: ForestData, v': ForestData, e: Dep, i: Tx, j: Tx, info: seq<SetInfo>)
    requires ValidForest(g, v) && e in g.deps && v.home[e.par] == i && v.home[e.chl] == j && i != j
    requires i < |v.setInfo| && j < |v.setInfo| && v.setInfo[i].transactions !! v.setInfo[j].transactions
    requires |info| == |v.setInfo| == |v.reachUp| == |v.reachDown| && v.active <= v.depTop.Keys
    requires forall d :: d in v.active ==> v.depTop[d] < |info|
    requires forall k :: 0 <= k < |info| && (forall d :: d in v.active ==> v.depTop[d] != k) ==> info[k] == v.setInfo[k]
    requires forall d :: d in v.active ==>
               && info[v.depTop[d]].transactions ==
                  Grown(v.setInfo[v.depTop[d]].transactions, e, v.setInfo[i].transactions, v.setInfo[j].transactions)
               && Exact(g, info[v.depTop[d]])
    requires v' == ForestData(Moved(v.home, v.setInfo[i].transactions, j), v.active + {e}, v.depTop[e := i],
                        v.chunkIdxs - {i}, info[j := Union(v.setInfo[j], v.setInfo[i])],
                        v.reachUp[j := (v.reachUp[j] + v.reachUp[i])
                                       - (v.setInfo[j].transactions + v.setInfo[i].transactions)],
                        v.reachDown[j := (v.reachDown[j] + v.reachDown[i])
                                       - (v.setInfo[j].transactions + v.setInfo[i].transactions)])
    ensures ValidForest(g, v')
    ensures v'.home == Joined(v.home, i, j)
  {
    assert i in v.home.Values && j in v.home.Values;
    assert ChunkOk(g, v, i) && ChunkOk(g, v, j);
    assert v'.home == Joined(v.home, i, j);
    UnionExact(g, v.setInfo[j], v.setInfo[i]);
    assert v.setInfo[j].transactions + v.setInfo[i].transactions ==
      v.setInfo[i].transactions + v.setInfo[j].transactions;
    assert Activated(g, v, v', e);
    ActivatedValid(g, v, v', e);
  }

  /** What the top set of `d` has in common with the two sides `T` and `B` of the cut of `e`. */
  ghost predicate TopSides(g: Cluster, u: SetInfo, d: Dep, e: Dep, T: set<Tx>, B: set<Tx>) {
    && Exact(g, u)
    && (d.par in T && e.par in u.transactions ==> B <= u.transactions)
    && (d.par in B && e.chl in u.transactions ==> T <= u.transactions)
  }

  /** The set infos after the top sets on both sides of the cut of `e` have been updated for its
      deactivation: those holding one end lose the side of the other. */
  method SplitTops(ghost g: Cluster, info0: seq<SetInfo>, depTop: map<Dep, Tx>, active: set<Dep>, e: Dep,
                   top: SetInfo, bottom: SetInfo)
    returns (info: seq<SetInfo>)
    requires Injective(depTop, active, |info0|) && Exact(g, top) && Exact(g, bottom)
    requires top.transactions !! bottom.transactions
    requires forall d :: d in active ==> TopSides(g, info0[depTop[d]], d, e, top.transactions, bottom.transactions)
    ensures |info| == |info0|
    ensures forall k :: 0 <= k < |info| && (forall d :: d in active ==> depTop[d] != k) ==> info[k] == info0[k]
    ensures forall d :: d in active ==>
              && info[depTop[d]].transactions ==
                 DeactivatedTop(info0[depTop[d]].transactions, e, d, top.transactions, bottom.transactions)
              && Exact(g, info[depTop[d]])
  {
    var above := set d | d in active && d.par in top.transactions;
    var below := set d | d in active && d.par in bottom.transactions;
    var info1 := ShrinkTops(info0, depTop, above, e.par, bottom);
    forall d | d in active && d !in above
      ensures info1[depTop[d]] == info0[depTop[d]]
    {
    }
    info := ShrinkTops(info1, depTop, below, e.chl, top);
    forall d | d in active
      ensures info[depTop[d]].transactions ==
              DeactivatedTop(info0[depTop[d]].transactions, e, d, top.transactions, bottom.transactions)
      ensures Exact(g, info[depTop[d]])
    {
      var u := info0[depTop[d]];
      if d in above {
        assert d !in below;
        assert info[depTop[d]] == info1[depTop[d]];
        if e.par in u.transactions {
          WithoutExact(g, u, bottom);
        }
      } else if d in below {
        if e.chl in u.transactions {
          WithoutExact(g, u, top);
        }
      }
    }
  }

  /** What `SplitTops` needs, from the invariant. */
  lemma SplitTopsReady(g: Cluster, v: ForestData, e: Dep, i: Tx, j: Tx)
    requires ValidForest(g, v) && e in v.active && v.depTop[e] == i && v.home[e.par] == j
    ensures Injective(v.depTop, v.active - {e}, |v.setInfo|) && |v.setInfo| == |v.reachUp| == |v.reachDown|
    ensures i < |v.setInfo| && j < |v.setInfo| && Exact(g, v.setInfo[i]) && Exact(g, v.setInfo[j])
    ensures v.setInfo[i].transactions < v.setInfo[j].transactions == Chunk(v.home, j)
    ensures v.setInfo[i].transactions <= v.home.Keys && i !in v.home.Values
    ensures IsTop(Chunk(v.home, j), v.active, e, v.setInfo[i].transactions)
    ensures forall d :: d in v.active - {e} ==>
              TopSides(g, v.setInfo[v.depTop[d]], d, e, v.setInfo[i].transactions,
                       v.setInfo[j].transactions - v.setInfo[i].transactions)
  {
    assert j in v.home.Values;
    assert ChunkOk(g, v, j) && TopOk(g, v, e);
    var C, T := Chunk(v.home, j), v.setInfo[i].transactions;
    assert e.chl in C;
    ActiveStayInside(g, v.home, v.active, j);
    forall d | d in v.active - {e}
      ensures TopSides(g, v.setInfo[v.depTop[d]], d, e, T, C - T)
    {
      assert TopOk(g, v, d);
      var U := v.setInfo[v.depTop[d]].transactions;
      if d.par in T {
        TopShrinksAbove(C, v.active, e, T, d, U);
      } else if d.par in C {
        TopShrinksBelow(C, v.active, e, T, d, U);
      }
    }
  }

  lemma DeactivateDone(g: Cluster, v: ForestData, v': ForestData, e: Dep, i: Tx, j: Tx, T: set<Tx>, C: set<Tx>,
      bottom: SetInfo)
    requires ValidForest(g, v) && e in v.active && v.depTop[e] == i && v.home[e.par] == j
    requires i < |v.setInfo| && j < |v.setInfo| && v.setInfo[i].transactions == T && v.setInfo[j].transactions == C
    requires |v'.setInfo| == |v.setInfo| == |v.reachUp| == |v.reachDown| && v.active <= v.depTop.Keys
    requires forall d :: d in v.active ==> v.depTop[d] < |v.setInfo|
    requires Exact(g, bottom) && bottom.transactions == C - T && v'.setInfo[j] == bottom
    requires forall k :: 0 <= k < |v'.setInfo| && k != j && (forall d :: d in v.active - {e} ==> v.depTop[d] != k) ==>
               v'.setInfo[k] == v.setInfo[k]
    requires forall d :: d in v.active - {e} ==>
               && v'.setInfo[v.depTop[d]].transactions ==
                  DeactivatedTop(v.setInfo[v.depTop[d]].transactions, e, d, T, C - T)
               && Exact(g, v'.setInfo[v.depTop[d]])
    requires v'.home == Moved(v.home, T, i) && v'.active == v.active - {e} && v'.depTop == v.depTop
    requires v'.chunkIdxs == v.chunkIdxs + {i}
    requires v'.reachUp == v.reachUp[i := ParentsOf(g.deps, T)][j := ParentsOf(g.deps, C - T)]
    requires v'.reachDown == v.reachDown[i := ChildrenOf(g.deps, T)][j := ChildrenOf(g.deps, C - T)]
    ensures ValidForest(g, v')
  {
    assert Deactivated(g, v, v', e);
    DeactivatedValid(g, v, v', e);
  }
}
