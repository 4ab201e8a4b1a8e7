/** Splitting a chunk and merging again never makes the diagram worse. */
module Improvement {
  import opened FiniteSets
  import opened Clusters
  import opened Merging

  /** Chunk `j` of the topological partition `home0` was split: `home` has its top part in chunk `i`,
      with a higher feerate than the whole, and the rest in chunk `j`; the top does not depend on the
      rest. */
  ghost predicate GoodSplit(g: Cluster, home0: Homes, home: Homes, i: Tx, j: Tx, T: set<Tx>) {
    && home0.Keys == g.txs && home.Keys == g.txs
    && j in home0.Values && i !in home0.Values
    && Topological(g, home0)
    && T != {} && T < Chunk(home0, j)
    && home == Moved(home0, T, i)
    && R(g, T) > ChunkRate(g, home0, j)
    && (forall d :: d in g.deps && home[d.chl] == i ==> home[d.par] != j)
  }

  /** The dependencies on the bottom part of the split. */
  ghost function DepsOn(g: Cluster, home: Homes, j: Tx): set<Dep>
    requires home.Keys == g.txs
  {
    set d | d in g.deps && home[d.par] == j
  }

  lemma SplitKeys(g: Cluster, home0: Homes, home: Homes, i: Tx, j: Tx, T: set<Tx>)
    requires GoodSplit(g, home0, home, i, j, T)
    ensures home0.Keys == g.txs && home.Keys == g.txs && j in home0.Values
  {
  }

  lemma SplitRates(g: Cluster, home0: Homes, home: Homes, i: Tx, j: Tx, T: set<Tx>)
    requires GoodSplit(g, home0, home, i, j, T)
    ensures home.Values == home0.Values + {i} && i in home.Values && j in home.Values && i != j
    ensures ChunkRate(g, home, i) > ChunkRate(g, home0, j) > ChunkRate(g, home, j)
    ensures forall k :: k in home0.Values && k != j ==> ChunkRate(g, home, k) == ChunkRate(g, home0, k)
    ensures Chunk(home, i) == T && Chunk(home, j) == Chunk(home0, j) - T
  {
    MovedChunks(home0, T, i, j);
    var B := Chunk(home0, j) - T;
    assert T + B == Chunk(home0, j);
    if R(g, T) <= R(g, B) {
      RateOfUnion(g, T, B);
    } else {
      RateOfUnion(g, B, T);
      assert B + T == T + B;
    }
  }

  /** In the split state only the top part as a child, and the bottom part as a parent, can violate
      the topology; and their neighbours are on the right side of the old feerate. */
  lemma SplitDep(g: Cluster, home0: Homes, home: Homes, i: Tx, j: Tx, T: set<Tx>, d: Dep)
    requires GoodSplit(g, home0, home, i, j, T) && d in g.deps && home[d.par] != home[d.chl]
    ensures var rho, p, c := ChunkRate(g, home0, j), home[d.par], home[d.chl];
            && (c == i ==> ChunkRate(g, home, p) > rho)
            && (c == j ==> ChunkRate(g, home, p) > rho)
            && (p == i ==> ChunkRate(g, home, c) < rho)
            && (p == j ==> ChunkRate(g, home, c) < rho)
            && (c != i && p != j ==> ChunkRate(g, home, c) < ChunkRate(g, home, p))
  {
    SplitRates(g, home0, home, i, j, T);
    assert home0[d.chl] != home0[d.par] ==> ChunkRate(g, home0, home0[d.chl]) < ChunkRate(g, home0, home0[d.par]);
  }

  /** The upward merge sequence of the top part can start. */
  lemma SplitStartsUp(g: Cluster, home0: Homes, home: Homes, i: Tx, j: Tx, T: set<Tx>)
    requires GoodSplit(g, home0, home, i, j, T)
    ensures var rho := ChunkRate(g, home0, j);
            && Phase(g, home, DepsOn(g, home, j), i, rho, rho, false)
            && Aside(g, home, DepsOn(g, home, j), rho, false)
  {
    var rho := ChunkRate(g, home0, j);
    var E := DepsOn(g, home, j);
    SplitRates(g, home0, home, i, j, T);
    forall d | d in g.deps && d !in E
      ensures Placed(g, home, d, i, rho, rho, false)
    {
      if home[d.par] != home[d.chl] {
        SplitDep(g, home0, home, i, j, T, d);
      }
    }
    forall d | d in E
      ensures home[d.chl] != i && Key(g, home, home[d.chl], false) < rho
    {
      if home[d.par] != home[d.chl] {
        SplitDep(g, home0, home, i, j, T, d);
      }
    }
  }

  lemma BottomUntouched(g: Cluster, home0: Homes, home: Homes, home2: Homes, i: Tx, j: Tx, T: set<Tx>)
    requires GoodSplit(g, home0, home, i, j, T) && home2.Keys == g.txs
    requires LowFrame(g, home, home2, ChunkRate(g, home0, j), false)
    ensures j in home2.Values && Chunk(home2, j) == Chunk(home, j)
    ensures ChunkRate(g, home2, j) < ChunkRate(g, home0, j)
  {
    SplitRates(g, home0, home, i, j, T);
    var b := Any(Chunk(home, j));
    assert LowFrameAt(g, home, home2, b, ChunkRate(g, home0, j), false);
  }

  lemma UpStartsDownAt(g: Cluster, home0: Homes, home: Homes, home2: Homes, i: Tx, j: Tx, T: set<Tx>, d: Dep)
    requires GoodSplit(g, home0, home, i, j, T) && home2.Keys == g.txs
    requires LowFrame(g, home, home2, ChunkRate(g, home0, j), false)
    requires j in home2.Values && Chunk(home2, j) == Chunk(home, j)
    requires d in g.deps && home2[d.chl] != home2[d.par]
    requires d !in DepsOn(g, home, j) ==> ChunkRate(g, home2, home2[d.chl]) < ChunkRate(g, home2, home2[d.par])
    ensures Placed(g, home2, d, j, -ChunkRate(g, home0, j), -ChunkRate(g, home0, j), true)
  {
    var rho := ChunkRate(g, home0, j);
    SplitRates(g, home0, home, i, j, T);
    assert LowFrameAt(g, home, home2, d.par, rho, false);
    assert LowFrameAt(g, home, home2, d.chl, rho, false);
    assert d.par in Chunk(home2, j) <==> d.par in Chunk(home, j);
    assert d.chl in Chunk(home2, j) <==> d.chl in Chunk(home, j);
    if home[d.par] != home[d.chl] {
      SplitDep(g, home0, home, i, j, T, d);
    }
  }

  /** After it, the downward merge sequence of the bottom part can start. */
  lemma UpStartsDown(g: Cluster, home0: Homes, home: Homes, home2: Homes, i: Tx, j: Tx, T: set<Tx>)
    requires GoodSplit(g, home0, home, i, j, T) && home2.Keys == g.txs
    requires LowFrame(g, home, home2, ChunkRate(g, home0, j), false)
    requires forall d :: d in g.deps && d !in DepsOn(g, home, j) && home2[d.chl] != home2[d.par] ==>
               ChunkRate(g, home2, home2[d.chl]) < ChunkRate(g, home2, home2[d.par])
    ensures j in home2.Values && Chunk(home2, j) == Chunk(home, j)
    ensures Key(g, home2, j, true) > -ChunkRate(g, home0, j)
    ensures forall d :: d in g.deps ==>
              Placed(g, home2, d, j, -ChunkRate(g, home0, j), -ChunkRate(g, home0, j), true)
  {
    var rho := ChunkRate(g, home0, j);
    BottomUntouched(g, home0, home, home2, i, j, T);
    forall d | d in g.deps
      ensures Placed(g, home2, d, j, -rho, -rho, true)
    {
      if home2[d.par] != home2[d.chl] {
        UpStartsDownAt(g, home0, home, home2, i, j, T, d);
      }
    }
  }

  /** Split, upward sequence, downward sequence: the diagram is nowhere lower, and it is higher at the
      feerate of the chunk that was split. */
  lemma ImproveDiagram(
    g: Cluster, home0: Homes, home1: Homes, home2: Homes, home3: Homes, i: Tx, j: Tx, T: set<Tx>,
    x2: Tx, floor2: real, x3: Tx, floor3: real, theta: real)
    requires GoodSplit(g, home0, home1, i, j, T) && home2.Keys == g.txs && home3.Keys == g.txs
    requires Chunk(home2, j) == Chunk(home1, j)
    requires var rho := ChunkRate(g, home0, j);
             && Run(g, home1, i, home2, x2, floor2, rho, false)
             && Run(g, home2, j, home3, x3, floor3, -rho, true)
    ensures Diagram(g, home3, theta) >= Diagram(g, home0, theta)
    ensures theta == ChunkRate(g, home0, j) ==> Diagram(g, home3, theta) > Diagram(g, home0, theta)
  {
    var rho := ChunkRate(g, home0, j);
    SplitRates(g, home0, home1, i, j, T);
    MovedChunks(home0, T, i, j);
    assert Chunk(home0, j) == Chunk(home1, i) + Chunk(home1, j);
    DiagramOneTwo(g, home0, home1, i, j, theta);
    GainAtRate(g, Chunk(home0, j), theta);
    GainAtRate(g, Chunk(home1, i), theta);
    GainAtRate(g, Chunk(home1, j), theta);
    assert RunAt(g, home1, i, home2, x2, floor2, rho, false, theta);
    assert RunAt(g, home2, j, home3, x3, floor3, -rho, true, theta);
  }

  /** Splitting a chunk and joining the two parts again only changes its index. */
  lemma SelfMergeChunks(home0: Homes, home1: Homes, home2: Homes, i: Tx, j: Tx, T: set<Tx>)
    requires j in home0.Values && i !in home0.Values && T != {} && T < Chunk(home0, j)
    requires home1 == Moved(home0, T, i) && home2 == Joined(home1, j, i)
    ensures home2.Keys == home0.Keys && home2.Values == home0.Values - {j} + {i}
    ensures forall t :: t in home0 ==> home2[t] == if home0[t] == j then i else home0[t]
    ensures Chunk(home2, i) == Chunk(home0, j)
    ensures forall k :: k != i && k != j ==> Chunk(home2, k) == Chunk(home0, k)
  {
    MovedChunks(home0, T, i, j);
    JoinedChunks(home1, j, i);
    assert T + (Chunk(home0, j) - T) == Chunk(home0, j);
    assert Chunk(home2, i) == (Chunk(home0, j) - T) + T;
    assert home2.Values == home0.Values + {i} - {j};
    forall t | t in home0
      ensures home2[t] == if home0[t] == j then i else home0[t]
    {
      assert t in Chunk(home0, home0[t]);
    }
  }

  lemma RenamedDiagram(g: Cluster, home: Homes, home': Homes, i: Tx, j: Tx, theta: real)
    requires home.Keys == g.txs == home'.Keys && j in home.Values && i !in home.Values
    requires home'.Values == home.Values - {j} + {i}
    requires Chunk(home', i) == Chunk(home, j)
    requires forall k :: k != i && k != j ==> Chunk(home', k) == Chunk(home, k)
    ensures Diagram(g, home', theta) == Diagram(g, home, theta)
  {
    DiagramPick(g, home, home.Values, j, theta);
    DiagramPick(g, home', home'.Values, i, theta);
    assert home'.Values - {i} == home.Values - {j};
    DiagramSame(g, home, home', home.Values - {j}, theta);
  }

  lemma SelfMergeSame(g: Cluster, home0: Homes, home1: Homes, home2: Homes, i: Tx, j: Tx, T: set<Tx>)
    requires home0.Keys == g.txs && j in home0.Values && i !in home0.Values && T != {} && T < Chunk(home0, j)
    requires home1 == Moved(home0, T, i) && home2 == Joined(home1, j, i)
    requires Topological(g, home0)
    ensures home2.Keys == g.txs && Topological(g, home2)
    ensures forall theta: real :: Diagram(g, home2, theta) == Diagram(g, home0, theta)
  {
    SelfMergeChunks(home0, home1, home2, i, j, T);
    forall d | d in g.deps && home2[d.chl] != home2[d.par]
      ensures ChunkRate(g, home2, home2[d.chl]) < ChunkRate(g, home2, home2[d.par])
    {
      assert home0[d.chl] != home0[d.par];
    }
    forall theta: real
      ensures Diagram(g, home2, theta) == Diagram(g, home0, theta)
    {
      RenamedDiagram(g, home0, home2, i, j, theta);
    }
  }
}
