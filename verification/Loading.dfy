/** Loading an existing linearization: merging its transactions upward one by one gives a topological
    state whose diagram is at least that of the linearization. */
module Loading {
  import opened FiniteSets
  import opened FeeRates
  import opened Clusters
  import opened Merging
  import opened Linearizations

  // ---------- diagrams of unions of chunks ----------

  /** What the transactions of `U` add to the diagram when each is a chunk of its own. */
  ghost function Singles(g: Cluster, U: set<Tx>, theta: real): real
    requires U <= g.txs
  {
    if U == {} then 0.0
    else
      var t := Any(U);
      Positive(GainOf(g, {t}, theta)) + Singles(g, U - {t}, theta)
  }

  lemma {:induction false} SinglesPick(g: Cluster, U: set<Tx>, t: Tx, theta: real)
    requires U <= g.txs && t in U
    ensures Singles(g, U, theta) == Positive(GainOf(g, {t}, theta)) + Singles(g, U - {t}, theta)
  {
    var u := Any(U);
    if u != t {
      SinglesPick(g, U - {u}, t, theta);
      SinglesPick(g, U - {t}, u, theta);
      assert U - {u} - {t} == U - {t} - {u};
    }
  }

  ghost predicate AreSingles(home: Homes, U: set<Tx>) {
    forall t :: t in U ==> t in home && Chunk(home, home[t]) == {t}
  }

  ghost function Indexes(home: Homes, U: set<Tx>): set<Tx> {
    set t | t in U && t in home :: home[t]
  }

  lemma {:induction false} DiagramOfSingles(g: Cluster, home: Homes, U: set<Tx>, theta: real)
    requires home.Keys == g.txs && U <= g.txs && AreSingles(home, U)
    ensures DiagramOn(g, home, Indexes(home, U), theta) == Singles(g, U, theta)
  {
    if U != {} {
      var t := Any(U);
      SinglesPick(g, U, t, theta);
      DiagramPick(g, home, Indexes(home, U), home[t], theta);
      assert Indexes(home, U) - {home[t]} == Indexes(home, U - {t}) by {
        forall u | u in U && home[u] == home[t]
          ensures u == t
        {
          assert u in Chunk(home, home[t]);
        }
      }
      DiagramOfSingles(g, home, U - {t}, theta);
    }
  }

  lemma {:induction false} DiagramUnion(g: Cluster, home: Homes, I: set<Tx>, J: set<Tx>, theta: real)
    requires home.Keys == g.txs && I !! J
    ensures DiagramOn(g, home, I + J, theta) == DiagramOn(g, home, I, theta) + DiagramOn(g, home, J, theta)
  {
    if I == {} {
      assert I + J == J;
    } else {
      var i := Any(I);
      DiagramPick(g, home, I, i, theta);
      DiagramPick(g, home, I + J, i, theta);
      assert I + J - {i} == (I - {i}) + J;
      DiagramUnion(g, home, I - {i}, J, theta);
    }
  }

  lemma {:induction false} UnionUnderDiagram(g: Cluster, home: Homes, I: set<Tx>, theta: real)
    requires home.Keys == g.txs
    ensures GainOf(g, Members(home, I), theta) <= DiagramOn(g, home, I, theta)
  {
    if I == {} {
      assert Members(home, I) == {};
    } else {
      var i := Any(I);
      DiagramPick(g, home, I, i, theta);
      UnionUnderDiagram(g, home, I - {i}, theta);
      GainUnion(g, Members(home, I - {i}), Chunk(home, i), theta);
      assert Members(home, I - {i}) + Chunk(home, i) == Members(home, I);
    }
  }

  /** Loaded transactions, and the others as chunks of their own, are under the diagram. */
  lemma LoadedUnderDiagram(g: Cluster, home: Homes, done: set<Tx>, theta: real)
    requires home.Keys == g.txs && done <= g.txs && AreSingles(home, g.txs - done)
    ensures GainOf(g, done, theta) + Singles(g, g.txs - done, theta) <= Diagram(g, home, theta)
  {
    var U := g.txs - done;
    var J := Indexes(home, U);
    var I := home.Values - J;
    DiagramOfSingles(g, home, U, theta);
    DiagramUnion(g, home, I, J, theta);
    assert I + J == home.Values;
    UnionUnderDiagram(g, home, I, theta);
    assert Members(home, I) == done by {
      forall t | t in g.txs
        ensures home[t] in J <==> t in U
      {
        if home[t] in J {
          var u :| u in U && home[u] == home[t];
          assert t in Chunk(home, home[u]);
        }
      }
    }
  }

  // ---------- loading one transaction ----------

  ghost predicate OrderedIn(g: Cluster, home: Homes, done: set<Tx>) {
    && home.Keys == g.txs
    && forall d :: d in g.deps && d.chl in done && home[d.chl] != home[d.par] ==>
         ChunkRate(g, home, home[d.chl]) < ChunkRate(g, home, home[d.par])
  }

  /** The transactions `done` are loaded, the others are untouched. */
  ghost predicate Loaded(g: Cluster, home: Homes, done: set<Tx>) {
    && done <= g.txs && AncestorClosed(g, done)
    && OrderedIn(g, home, done)
    && AreSingles(home, g.txs - done)
  }

  /** Dependencies of transactions that are not loaded yet. */
  ghost function Later(g: Cluster, done: set<Tx>): set<Dep> {
    set d | d in g.deps && d.chl !in done
  }

  /** Chunk `x` is being merged upward, to have `done` loaded. */
  ghost predicate LoadPhase(g: Cluster, home: Homes, done: set<Tx>, x: Tx, floor: real, low: real) {
    && done <= g.txs && AncestorClosed(g, done)
    && Phase(g, home, Later(g, done), x, floor, low, false)
    && AreSingles(home, g.txs - done)
  }

  lemma {:induction false} LowBound(g: Cluster, home: Homes, I: set<Tx>) returns (low: real)
    requires home.Keys == g.txs && I <= home.Values
    ensures forall i :: i in I ==> low < ChunkRate(g, home, i)
  {
    if I == {} {
      low := 0.0;
    } else {
      var i := Any(I);
      var below := LowBound(g, home, I - {i});
      low := if below < ChunkRate(g, home, i) then below else ChunkRate(g, home, i) - 1.0;
    }
  }

  lemma LoadStarts(g: Cluster, home: Homes, done: set<Tx>, t: Tx, low: real)
    requires Loaded(g, home, done) && t in g.txs - done
    requires forall d :: d in g.deps && d.chl == t ==> d.par in done
    requires forall i :: i in home.Values ==> low < ChunkRate(g, home, i)
    ensures LoadPhase(g, home, done + {t}, home[t], low, low)
  {
    var x, done' := home[t], done + {t};
    assert Chunk(home, x) == {t};
    assert forall u :: u in home && home[u] == x ==> u in Chunk(home, x);
    forall d | d in g.deps && d !in Later(g, done')
      ensures Placed(g, home, d, x, low, low, false)
    {
    }
  }

  /** A merge while loading does not touch the transactions not loaded yet. */
  lemma LoadStep(
    g: Cluster, home: Homes, home': Homes, done: set<Tx>, x: Tx, y: Tx, k: Tx, floor: real, low: real)
    requires LoadPhase(g, home, done, x, floor, low) && Candidate(g, home, x, y, false)
    requires IsMerge(home, home', x, y, k)
    ensures LoadPhase(g, home', done, k, Key(g, home, y, false), low)
  {
    MergeChunks(home, home', x, y, k);
    var e :| e in g.deps && home[e.chl] == x && home[e.par] == y;
    forall u | u in g.txs - done
      ensures home[u] != x && home[u] != y
    {
      assert e !in Later(g, done);
      assert Chunk(home, home[u]) == {u};
      assert e.chl in Chunk(home, x) && e.par in Chunk(home, y);
    }
    MergeKeepsPhase(g, home, home', Later(g, done), x, y, k, floor, low, false);
  }

  lemma LoadEnds(g: Cluster, home: Homes, done: set<Tx>, x: Tx, floor: real, low: real)
    requires LoadPhase(g, home, done, x, floor, low) && NoCandidate(g, home, x, false)
    ensures Loaded(g, home, done)
  {
    PhaseEnd(g, home, Later(g, done), x, floor, low, false);
  }

  // ---------- the diagram of the linearization ----------

  /** The prefixes of `L` up to `n`, and the transactions after `n` as chunks of their own, are under
      the diagram. */
  ghost predicate LoadedUnder(g: Cluster, L: seq<Tx>, n: nat, home: Homes) {
    && home.Keys == g.txs && Elems(L) <= g.txs && n <= |L|
    && forall m: nat, theta: real :: m <= n ==>
         PrefixGain(g, L, m, theta) + Singles(g, g.txs - Elems(L[..n]), theta) <= Diagram(g, home, theta)
  }

  lemma LoadedUnderStart(g: Cluster, L: seq<Tx>, home: Homes)
    requires home.Keys == g.txs && Elems(L) <= g.txs && AreSingles(home, g.txs)
    ensures LoadedUnder(g, L, 0, home)
  {
    forall m: nat, theta: real | m <= 0
      ensures PrefixGain(g, L, m, theta) + Singles(g, g.txs - Elems(L[..0]), theta) <= Diagram(g, home, theta)
    {
      assert Elems(L[..0]) == {};
      LoadedUnderDiagram(g, home, {}, theta);
    }
  }

  lemma LoadedUnderNext(g: Cluster, L: seq<Tx>, n: nat, home0: Homes, home: Homes, x0: Tx, x: Tx, floor: real,
      low: real)
    requires LoadedUnder(g, L, n, home0) && n < |L| && L[n] !in L[..n]
    requires Chunk(home0, x0) == {L[n]} && home.Keys == g.txs
    requires Run(g, home0, x0, home, x, floor, low, false)
    requires AreSingles(home, g.txs - Elems(L[..n + 1]))
    ensures LoadedUnder(g, L, n + 1, home)
  {
    var t, U, U' := L[n], g.txs - Elems(L[..n]), g.txs - Elems(L[..n + 1]);
    ElemsPrefix(L, n);
    assert U' == U - {t};
    forall m: nat, theta: real | m <= n + 1
      ensures PrefixGain(g, L, m, theta) + Singles(g, U', theta) <= Diagram(g, home, theta)
    {
      if m <= n {
        SinglesPick(g, U, t, theta);
        assert RunAt(g, home0, x0, home, x, floor, low, false, theta);
        assert PrefixGain(g, L, m, theta) + Singles(g, U, theta) <= Diagram(g, home0, theta);
      } else {
        LoadedUnderDiagram(g, home, Elems(L[..n + 1]), theta);
      }
    }
  }

  lemma LoadedUnderAll(g: Cluster, L: seq<Tx>, home: Homes)
    requires LoadedUnder(g, L, |L|, home) && Elems(L) == g.txs
    ensures Under(g, L, home)
  {
    assert L[..|L|] == L;
    forall m: nat, theta: real | m <= |L|
      ensures PrefixGain(g, L, m, theta) <= Diagram(g, home, theta)
    {
      assert PrefixGain(g, L, m, theta) + Singles(g, g.txs - Elems(L[..|L|]), theta) <= Diagram(g, home, theta);
      assert g.txs - Elems(L) == {};
    }
  }
}
