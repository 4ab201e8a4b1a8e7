/** Dependency graphs, kept as the ancestor and descendant sets of every transaction. */
module DepGraphs {
  import opened FiniteSets
  import opened FeeRates
  import opened Clusters

  datatype Entry = Entry(feerate: FeeFrac, ancestors: set<Tx>, descendants: set<Tx>)

  /** `used` are the positions in use; entries at other positions are stale. */
  datatype GraphData = GraphData(entries: seq<Entry>, used: set<Tx>)

  function Anc(d: GraphData, i: Tx): set<Tx>
    requires i < |d.entries|
  {
    d.entries[i].ancestors
  }

  function Desc(d: GraphData, i: Tx): set<Tx>
    requires i < |d.entries|
  {
    d.entries[i].descendants
  }

  ghost predicate InRange(d: GraphData) {
    && (forall i :: i in d.used ==> i < |d.entries| && d.entries[i].feerate.size > 0)
    && (|d.entries| > 0 ==> |d.entries| - 1 in d.used)
  }

  /** Position `i` is among its own ancestors, all of which are used. */
  ghost predicate Reflexive(d: GraphData, i: Tx)
    requires i < |d.entries|
  {
    i in Anc(d, i) && Anc(d, i) <= d.used && Desc(d, i) <= d.used
  }

  ghost predicate Inverse(d: GraphData, i: Tx, j: Tx)
    requires i < |d.entries| && j < |d.entries|
  {
    j in Anc(d, i) <==> i in Desc(d, j)
  }

  ghost predicate Transitive(d: GraphData, i: Tx, j: Tx)
    requires i < |d.entries| && j < |d.entries|
  {
    j in Anc(d, i) ==> Anc(d, j) <= Anc(d, i)
  }

  /** Ancestors and descendants, on used positions, are reflexive, mutually inverse and transitive. */
  ghost predicate Closed(d: GraphData)
    requires InRange(d)
  {
    && (forall i :: i in d.used ==> Reflexive(d, i))
    && (forall i, j :: i in d.used && j in d.used ==> Inverse(d, i, j))
    && (forall i, j :: i in d.used && j in d.used ==> Transitive(d, i, j))
  }

  ghost predicate ValidGraph(d: GraphData) {
    InRange(d) && Closed(d)
  }

  /** No two transactions are ancestors of each other. */
  ghost predicate AcyclicGraph(d: GraphData)
    requires InRange(d)
  {
    forall i, j :: i in d.used && j in d.used && i in Anc(d, j) && j in Anc(d, i) ==> i == j
  }

  // ---------- adding dependencies ----------

  /** The ancestors of the parents. */
  ghost function AncOf(d: GraphData, parents: set<Tx>): set<Tx>
    requires InRange(d) && parents <= d.used
  {
    set p, a | p in parents && a in Anc(d, p) :: a
  }

  /** `d'` is `d` with `parents` added as parents of `child`: whatever depended on the child, itself
      included, now also has the ancestors of the parents. */
  ghost predicate WithParents(d: GraphData, d': GraphData, parents: set<Tx>, child: Tx)
    requires ValidGraph(d) && parents <= d.used && child in d.used
  {
    && |d'.entries| == |d.entries| && d'.used == d.used
    && (forall i :: i in d.used ==> d'.entries[i].feerate == d.entries[i].feerate)
    && (forall i :: i in d.used ==>
          Anc(d', i) == if child in Anc(d, i) then Anc(d, i) + AncOf(d, parents) else Anc(d, i))
    && (forall i :: i in d.used ==>
          Desc(d', i) == if i in AncOf(d, parents) then Desc(d, i) + Desc(d, child) else Desc(d, i))
  }

  lemma AncOfClosed(d: GraphData, parents: set<Tx>)
    requires ValidGraph(d) && parents <= d.used
    ensures AncOf(d, parents) <= d.used
    ensures forall j :: j in AncOf(d, parents) ==> Anc(d, j) <= AncOf(d, parents)
  {
    forall j | j in AncOf(d, parents)
      ensures j in d.used && Anc(d, j) <= AncOf(d, parents)
    {
      var p :| p in parents && j in Anc(d, p);
      assert Reflexive(d, p);
      assert Transitive(d, p, j);
    }
  }

  lemma WithParentsAt(d: GraphData, d': GraphData, parents: set<Tx>, child: Tx, i: Tx, j: Tx)
    requires ValidGraph(d) && parents <= d.used && child in d.used && WithParents(d, d', parents, child)
    requires i in d.used && j in d.used
    ensures Reflexive(d', i) && Inverse(d', i, j) && Transitive(d', i, j)
  {
    AncOfClosed(d, parents);
    assert Reflexive(d, i) && Reflexive(d, child);
    assert Inverse(d, i, child) && Inverse(d, i, j);
    assert Transitive(d, i, j);
  }

  lemma WithParentsValid(d: GraphData, d': GraphData, parents: set<Tx>, child: Tx)
    requires ValidGraph(d) && parents <= d.used && child in d.used && WithParents(d, d', parents, child)
    ensures ValidGraph(d')
  {
    WithParentsRange(d, d', parents, child);
    hide Closed, WithParents, Reflexive, Inverse, Transitive;
    assert Closed(d') by {
      WithParentsClosed(d, d', parents, child);
    }
  }

  lemma WithParentsRange(d: GraphData, d': GraphData, parents: set<Tx>, child: Tx)
    requires ValidGraph(d) && parents <= d.used && child in d.used && WithParents(d, d', parents, child)
    ensures InRange(d') && d'.used == d.used
  {
    hide Closed, AncOf;
  }

  lemma WithParentsClosed(d: GraphData, d': GraphData, parents: set<Tx>, child: Tx)
    requires ValidGraph(d) && parents <= d.used && child in d.used && WithParents(d, d', parents, child)
    requires InRange(d') && d'.used == d.used
    ensures Closed(d')
  {
    hide ValidGraph, WithParents, Reflexive, Inverse, Transitive;
    forall i, j | i in d'.used && j in d'.used
      ensures Reflexive(d', i) && Inverse(d', i, j) && Transitive(d', i, j)
    {
      WithParentsAt(d, d', parents, child, i, j);
    }
    forall i | i in d'.used
      ensures Reflexive(d', i)
    {
      WithParentsAt(d, d', parents, child, i, i);
    }
  }

  /** It is the least such graph: every valid graph with the old ancestors and the new parents has all
      of its ancestors. */
  lemma WithParentsLeast(d: GraphData, d': GraphData, parents: set<Tx>, child: Tx, e: GraphData, i: Tx)
    requires ValidGraph(d) && parents <= d.used && child in d.used && WithParents(d, d', parents, child)
    requires ValidGraph(e) && e.used == d.used && parents <= Anc(e, child)
    requires forall k :: k in d.used ==> Anc(d, k) <= Anc(e, k)
    requires i in d.used
    ensures Anc(d', i) <= Anc(e, i)
  {
    if child in Anc(d, i) {
      assert Transitive(e, i, child);
      forall a | a in AncOf(d, parents)
        ensures a in Anc(e, i)
      {
        var p :| p in parents && a in Anc(d, p);
        assert Reflexive(e, child);
        assert Transitive(e, child, p);
      }
    }
  }

  // ---------- adding and removing transactions ----------

  ghost predicate WithTx(d: GraphData, d': GraphData, i: Tx, feerate: FeeFrac) {
    && i !in d.used && d'.used == d.used + {i} && i < |d'.entries|
    && |d'.entries| == (if i == |d.entries| then i + 1 else |d.entries|)
    && (forall k :: k in d.used ==> k < |d.entries| && k < |d'.entries| && d'.entries[k] == d.entries[k])
    && d'.entries[i] == Entry(feerate, {i}, {i})
  }

  lemma WithTxValid(d: GraphData, d': GraphData, i: Tx, feerate: FeeFrac)
    requires ValidGraph(d) && WithTx(d, d', i, feerate) && feerate.size > 0
    ensures ValidGraph(d')
  {
    forall k | k in d.used
      ensures Anc(d', k) == Anc(d, k) && Desc(d', k) == Desc(d, k) && i !in Anc(d, k) && i !in Desc(d, k)
    {
      assert Reflexive(d, k);
    }
    forall k, l | k in d'.used && l in d'.used
      ensures Inverse(d', k, l) && Transitive(d', k, l) && Reflexive(d', k)
    {
      if k in d.used {
        assert Reflexive(d, k);
        if l in d.used {
          assert Inverse(d, k, l) && Transitive(d, k, l);
        }
      }
    }
    assert forall k :: k in d'.used ==> Inverse(d', k, k) && Reflexive(d', k);
  }

  /** `d'` is `d` without the transactions `del`: what remains keeps its ancestors and descendants among
      what remains, even where a transaction in between was removed. */
  ghost predicate WithoutTxs(d: GraphData, d': GraphData, del: set<Tx>) {
    && d'.used == d.used - del && |d'.entries| <= |d.entries|
    && (forall i :: i in d'.used ==> i < |d'.entries| && EntryWithout(d, d', i))
    && (|d'.entries| > 0 ==> |d'.entries| - 1 in d'.used)
  }

  ghost predicate EntryWithout(d: GraphData, d': GraphData, i: Tx)
    requires i < |d.entries| && i < |d'.entries|
  {
    && d'.entries[i].feerate.fee == d.entries[i].feerate.fee && d'.entries[i].feerate.size == d.entries[i].feerate.size
    && Anc(d', i) == Anc(d, i) * d'.used
    && Desc(d', i) == Desc(d, i) * d'.used
  }

  lemma WithoutTxsValid(d: GraphData, d': GraphData, del: set<Tx>)
    requires ValidGraph(d) && WithoutTxs(d, d', del)
    ensures ValidGraph(d')
  {
    forall i, j | i in d'.used && j in d'.used
      ensures Reflexive(d', i) && Inverse(d', i, j) && Transitive(d', i, j)
    {
      assert EntryWithout(d, d', i) && EntryWithout(d, d', j);
      assert Reflexive(d, i) && Inverse(d, i, j) && Transitive(d, i, j);
    }
    assert forall i :: i in d'.used ==> Inverse(d', i, i) && Reflexive(d', i);
  }

  // ---------- reduced parents and children ----------

  /** The ancestors of `i`, or its descendants. */
  function Related(d: GraphData, i: Tx, down: bool): set<Tx>
    requires i < |d.entries|
  {
    if down then Desc(d, i) else Anc(d, i)
  }

  /** Direct parents (or children): proper ancestors that are not proper ancestors of another one. */
  ghost function Direct(d: GraphData, i: Tx, down: bool): set<Tx>
    requires ValidGraph(d) && i in d.used
  {
    set p | p in Related(d, i, down) && p != i && NothingBetween(d, i, p, down)
  }

  ghost predicate NothingBetween(d: GraphData, i: Tx, p: Tx, down: bool)
    requires ValidGraph(d) && i in d.used
  {
    forall q :: q in Related(d, i, down) && q in d.used && q != i && q != p ==> p !in Related(d, q, down)
  }

  /** The ancestors (or descendants) of used positions are used, and closed. */
  lemma RelatedClosed(d: GraphData, i: Tx, j: Tx, down: bool)
    requires ValidGraph(d) && i in d.used && j in Related(d, i, down)
    ensures j in d.used && Related(d, j, down) <= Related(d, i, down)
  {
    assert Reflexive(d, i);
    if down {
      forall k | k in Desc(d, j)
        ensures k in Desc(d, i)
      {
        assert Reflexive(d, j);
        assert Inverse(d, k, j) && Inverse(d, j, i) && Transitive(d, k, j) && Inverse(d, k, i);
      }
    } else {
      assert Transitive(d, i, j);
    }
  }

  lemma RelatedAcyclic(d: GraphData, i: Tx, j: Tx, down: bool)
    requires ValidGraph(d) && AcyclicGraph(d) && i in d.used && j in d.used
    requires j in Related(d, i, down) && i in Related(d, j, down)
    ensures i == j
  {
    assert Inverse(d, i, j) && Inverse(d, j, i);
  }

  /** What the removal loop keeps: `all` are the proper ancestors of `i`, those of `todo` are still to
      be looked at, and `kept` are those not found to be ancestors of another one. */
  ghost predicate Reducing(d: GraphData, i: Tx, all: set<Tx>, todo: set<Tx>, kept: set<Tx>, down: bool)
    requires ValidGraph(d) && i in d.used
  {
    && all == Related(d, i, down) - {i} && todo <= all && kept <= all && all <= d.used
    && (forall p, q :: p in kept && q in all && q !in todo && q != p ==> p !in Related(d, q, down))
    && (forall p :: p in all && p !in kept ==> Removed(d, all, todo, p, down))
  }

  ghost predicate Removed(d: GraphData, all: set<Tx>, todo: set<Tx>, p: Tx, down: bool)
    requires ValidGraph(d) && all <= d.used
  {
    exists r :: r in all && r !in todo && r != p && p in Related(d, r, down)
  }

  lemma ReducingKeep(d: GraphData, i: Tx, all: set<Tx>, todo: set<Tx>, kept: set<Tx>, q: Tx, down: bool)
    requires ValidGraph(d) && AcyclicGraph(d) && i in d.used && Reducing(d, i, all, todo, kept, down)
    requires q in todo && q in kept
    ensures Reducing(d, i, all, todo - {q}, kept - Related(d, q, down) + {q}, down)
  {
    var kept' := kept - Related(d, q, down) + {q};
    forall p | p in all && p !in kept'
      ensures Removed(d, all, todo - {q}, p, down)
    {
      if p !in kept {
        assert Removed(d, all, todo, p, down);
      } else {
        assert q in all && q !in todo - {q} && q != p && p in Related(d, q, down);
      }
    }
  }

  lemma ReducingSkip(d: GraphData, i: Tx, all: set<Tx>, todo: set<Tx>, kept: set<Tx>, q: Tx, down: bool)
    requires ValidGraph(d) && AcyclicGraph(d) && i in d.used && Reducing(d, i, all, todo, kept, down)
    requires q in todo && q !in kept
    ensures Reducing(d, i, all, todo - {q}, kept, down)
  {
    assert Removed(d, all, todo, q, down);
    var r :| r in all && r !in todo && r != q && q in Related(d, r, down);
    RelatedClosed(d, r, q, down);
    forall p | p in kept && p != q
      ensures p !in Related(d, q, down)
    {
      if p == r {
        if r in Related(d, q, down) {
          RelatedAcyclic(d, q, r, down);
        }
      } else {
        assert p !in Related(d, r, down);
      }
    }
    forall p | p in all && p !in kept
      ensures Removed(d, all, todo - {q}, p, down)
    {
      assert Removed(d, all, todo, p, down);
    }
  }

  lemma ReducingDone(d: GraphData, i: Tx, all: set<Tx>, kept: set<Tx>, down: bool)
    requires ValidGraph(d) && i in d.used && Reducing(d, i, all, {}, kept, down)
    ensures kept == Direct(d, i, down)
  {
    forall p | p in all
      ensures p in kept <==> p in Direct(d, i, down)
    {
      if p !in kept {
        assert Removed(d, all, {}, p, down);
      }
    }
  }

  // ---------- reduction in the presence of cycles ----------

  ghost predicate IsLeast(m: Tx, S: set<Tx>) {
    m in S && forall x :: x in S ==> m <= x
  }

  lemma {:induction false} SomeLeast(S: set<Tx>) returns (m: Tx)
    requires S != {}
    ensures IsLeast(m, S)
    decreases |S|
  {
    var t := Any(S);
    if S == {t} {
      m := t;
    } else {
      assert S - {t} != {};
      var n := SomeLeast(S - {t});
      m := if t < n then t else n;
      forall x | x in S
        ensures m <= x
      {
        assert x == t || x in S - {t};
      }
    }
  }

  /** The first of the positions in the order in which they are looked at. */
  method Lowest(S: set<Tx>) returns (m: Tx)
    requires S != {}
    ensures IsLeast(m, S)
  {
    ghost var n := SomeLeast(S);
    m :| m in S && forall x :: x in S ==> m <= x;
  }

  /** The others that are on a cycle with `i`. */
  ghost function Mates(d: GraphData, i: Tx, down: bool): set<Tx>
    requires ValidGraph(d) && i in d.used
  {
    set x | x in Related(d, i, down) && x in d.used && x != i && i in Related(d, x, down)
  }

  ghost predicate CoveredBy(d: GraphData, kept: set<Tx>, x: Tx, down: bool)
    requires ValidGraph(d) && kept <= d.used
  {
    exists r :: r in kept && x in Related(d, r, down)
  }

  /** All of these are ancestors of those that are kept. */
  ghost predicate Covers(d: GraphData, all: set<Tx>, kept: set<Tx>, down: bool)
    requires ValidGraph(d) && kept <= d.used
  {
    forall x :: x in all ==> CoveredBy(d, kept, x, down)
  }

  /** The least one on a cycle with `i` is kept, and from its turn on it alone. */
  ghost predicate MateKept(d: GraphData, i: Tx, todo: set<Tx>, kept: set<Tx>, down: bool)
    requires ValidGraph(d) && i in d.used
  {
    forall m: Tx :: IsLeast(m, Mates(d, i, down)) ==> if m in todo then m in kept else kept == {m}
  }

  /** What the reduction leaves: proper ancestors of which all the others are ancestors, and of those on a cycle
      with `i` nothing but the least. */
  ghost predicate ReducedTo(d: GraphData, i: Tx, kept: set<Tx>, down: bool)
    requires ValidGraph(d) && i in d.used
  {
    && kept <= Related(d, i, down) - {i} && kept <= d.used
    && Covers(d, Related(d, i, down) - {i}, kept, down) && MateKept(d, i, {}, kept, down)
  }

  lemma ReducedStart(d: GraphData, i: Tx, all: set<Tx>, down: bool)
    requires ValidGraph(d) && i in d.used && all == Related(d, i, down) - {i}
    ensures all <= d.used && Covers(d, all, all, down) && MateKept(d, i, all, all, down)
  {
    assert Reflexive(d, i);
    forall x | x in all
      ensures CoveredBy(d, all, x, down)
    {
      RelatedClosed(d, i, x, down);
      assert Reflexive(d, x);
    }
  }

  lemma CoversStep(d: GraphData, all: set<Tx>, kept: set<Tx>, q: Tx, down: bool)
    requires ValidGraph(d) && kept <= d.used && q in kept && Covers(d, all, kept, down)
    ensures Covers(d, all, kept - Related(d, q, down) + {q}, down)
  {
    var kept' := kept - Related(d, q, down) + {q};
    forall x | x in all
      ensures CoveredBy(d, kept', x, down)
    {
      assert CoveredBy(d, kept, x, down);
      var r :| r in kept && x in Related(d, r, down);
      if r !in kept' {
        RelatedClosed(d, q, r, down);
        assert q in kept' && x in Related(d, q, down);
      }
    }
  }

  lemma MateStep(d: GraphData, i: Tx, all: set<Tx>, todo: set<Tx>, kept: set<Tx>, q: Tx, down: bool)
    requires ValidGraph(d) && i in d.used && all == Related(d, i, down) - {i} && all <= d.used
    requires todo <= all && kept <= all && MateKept(d, i, todo, kept, down) && IsLeast(q, todo)
    ensures MateKept(d, i, todo - {q}, if q in kept then kept - Related(d, q, down) + {q} else kept, down)
  {
    var kept' := if q in kept then kept - Related(d, q, down) + {q} else kept;
    forall m: Tx | IsLeast(m, Mates(d, i, down))
      ensures if m in todo - {q} then m in kept' else kept' == {m}
    {
      if q == m {
        RelatedClosed(d, m, i, down);
        assert kept' == {m};
      } else if m in todo {
        assert q !in Mates(d, i, down);
        if m in Related(d, q, down) {
          RelatedClosed(d, q, m, down);
        }
      }
    }
  }

  /** Remove, from the proper ancestors of `i`, the proper ancestors of those that are left, from the lowest
      position to the highest. */
  method Reduce(d: GraphData, i: Tx, down: bool) returns (kept: set<Tx>)
    requires ValidGraph(d) && i in d.used
    ensures ReducedTo(d, i, kept, down)
    ensures AcyclicGraph(d) ==> kept == Direct(d, i, down)
  {
    hide ValidGraph, AcyclicGraph, Reducing, Covers, MateKept, Direct;
    UsedInRange(d, i);
    ghost var acyclic := AcyclicGraph(d);
    kept := Related(d, i, down) - {i};
    var todo := kept;
    ghost var all := kept;
    ReducingStart(d, i, all, down);
    ReducedStart(d, i, all, down);
    while todo != {}
      invariant todo <= all && kept <= all && Covers(d, all, kept, down) && MateKept(d, i, todo, kept, down)
      invariant acyclic ==> Reducing(d, i, all, todo, kept, down)
    {
      var q := Lowest(todo);
      UsedInRange(d, q);
      ReducedStep(d, i, all, todo, kept, q, down);
      if acyclic {
        ReducingStep(d, i, all, todo, kept, q, down);
      }
      if q in kept {
        kept := kept - Related(d, q, down) + {q};
      }
      todo := todo - {q};
    }
    if acyclic {
      ReducingDone(d, i, all, kept, down);
    }
  }

  lemma ReducedStep(d: GraphData, i: Tx, all: set<Tx>, todo: set<Tx>, kept: set<Tx>, q: Tx, down: bool)
    requires ValidGraph(d) && i in d.used && all == Related(d, i, down) - {i} && all <= d.used
    requires todo <= all && kept <= all && Covers(d, all, kept, down) && MateKept(d, i, todo, kept, down)
    requires IsLeast(q, todo)
    ensures
      var kept' := if q in kept then kept - Related(d, q, down) + {q} else kept;
      Covers(d, all, kept', down) && MateKept(d, i, todo - {q}, kept', down)
  {
    hide ValidGraph, Covers, MateKept;
    MateStep(d, i, all, todo, kept, q, down);
    if q in kept {
      CoversStep(d, all, kept, q, down);
    }
  }

  lemma ReducingStep(d: GraphData, i: Tx, all: set<Tx>, todo: set<Tx>, kept: set<Tx>, q: Tx, down: bool)
    requires ValidGraph(d) && AcyclicGraph(d) && i in d.used && Reducing(d, i, all, todo, kept, down)
    requires q in todo && q < |d.entries|
    ensures Reducing(d, i, all, todo - {q}, if q in kept then kept - Related(d, q, down) + {q} else kept, down)
  {
    hide ValidGraph, AcyclicGraph, Reducing;
    if q in kept {
      ReducingKeep(d, i, all, todo, kept, q, down);
    } else {
      ReducingSkip(d, i, all, todo, kept, q, down);
    }
  }

  lemma ReducingStart(d: GraphData, i: Tx, all: set<Tx>, down: bool)
    requires ValidGraph(d) && i in d.used && all == Related(d, i, down) - {i}
    ensures Reducing(d, i, all, all, all, down)
  {
    assert Reflexive(d, i);
  }

  lemma UsedInRange(d: GraphData, q: Tx)
    requires ValidGraph(d) && q in d.used
    ensures InRange(d) && q < |d.entries|
  {
  }

  /** Every proper ancestor is an ancestor of a direct parent. */
  lemma {:induction false} DirectAbove(d: GraphData, i: Tx, a: Tx) returns (p: Tx)
    requires ValidGraph(d) && AcyclicGraph(d) && i in d.used && a in Anc(d, i) && a != i
    ensures p in Direct(d, i, false) && p in d.used && a in Anc(d, p)
    decreases |Anc(d, i)| - |if a < |d.entries| then Anc(d, a) else {}|
  {
    RelatedClosed(d, i, a, false);
    assert Reflexive(d, a);
    FewerOrEqual(Anc(d, a), Anc(d, i));
    if NothingBetween(d, i, a, false) {
      p := a;
    } else {
      var r :| r in Anc(d, i) && r in d.used && r != i && r != a && a in Anc(d, r);
      assert Reflexive(d, r) && Transitive(d, r, a) && Transitive(d, i, r);
      assert r !in Anc(d, a);
      FewerElements(Anc(d, a), Anc(d, r));
      FewerOrEqual(Anc(d, r), Anc(d, i));
      p := DirectAbove(d, i, r);
      assert Transitive(d, p, r);
    }
  }

  /** The direct parents of a transaction generate its ancestors. */
  lemma DirectGenerates(d: GraphData, i: Tx)
    requires ValidGraph(d) && AcyclicGraph(d) && i in d.used
    ensures Direct(d, i, false) <= d.used
    ensures Anc(d, i) == {i} + AncOf(d, Direct(d, i, false))
  {
    assert Reflexive(d, i);
    forall a | a in Anc(d, i) && a != i
      ensures a in AncOf(d, Direct(d, i, false))
    {
      var p := DirectAbove(d, i, a);
    }
    forall p, a | p in Direct(d, i, false) && a in Anc(d, p)
      ensures a in Anc(d, i)
    {
      assert Transitive(d, i, p);
    }
  }

  /** No set of parents that generates the ancestors lacks any of the direct parents. */
  lemma DirectLeast(d: GraphData, i: Tx, Q: set<Tx>)
    requires ValidGraph(d) && i in d.used && Q <= d.used && i !in Q
    requires Anc(d, i) == {i} + AncOf(d, Q)
    ensures Direct(d, i, false) <= Q
  {
    forall p | p in Direct(d, i, false)
      ensures p in Q
    {
      var q :| q in Q && p in Anc(d, q);
      assert Reflexive(d, q);
      assert q in AncOf(d, Q);
    }
  }

  /** Direct parents and direct children are two views of the same dependencies. */
  lemma DirectMutual(d: GraphData, p: Tx, c: Tx)
    requires ValidGraph(d) && p in d.used && c in d.used
    ensures p in Direct(d, c, false) <==> c in Direct(d, p, true)
  {
    assert Inverse(d, c, p) && Reflexive(d, c) && Reflexive(d, p);
    forall q | q in d.used
      ensures q in Anc(d, c) && p in Anc(d, q) <==> q in Desc(d, p) && c in Desc(d, q)
    {
      assert Inverse(d, c, q) && Inverse(d, q, p);
    }
  }

  /** The ancestors of the parents that are not ancestors of the child already. */
  method NewAncestors(d: GraphData, parents: set<Tx>, child: Tx) returns (above: set<Tx>)
    requires ValidGraph(d) && parents <= d.used && child in d.used
    ensures above == AncOf(d, parents) - Anc(d, child)
  {
    above := {};
    var todo := parents - Anc(d, child);
    ghost var seen: set<Tx> := {};
    while todo != {}
      invariant todo <= parents && seen <= parents && parents - Anc(d, child) == todo + seen
      invariant above == AncOf(d, seen)
      decreases todo
    {
      var p :| p in todo;
      todo, seen := todo - {p}, seen + {p};
      above := above + Anc(d, p);
    }
    above := above - Anc(d, child);
    forall a | a in AncOf(d, parents) && a !in Anc(d, child)
      ensures a in AncOf(d, seen)
    {
      var p :| p in parents && a in Anc(d, p);
      assert Transitive(d, child, p);
    }
  }

  method AddDescendants(entries0: seq<Entry>, S: set<Tx>, more: set<Tx>) returns (entries: seq<Entry>)
    requires forall i :: i in S ==> i < |entries0|
    ensures |entries| == |entries0|
    ensures forall i :: 0 <= i < |entries| ==>
      entries[i].feerate == entries0[i].feerate && entries[i].ancestors == entries0[i].ancestors
    ensures forall i :: 0 <= i < |entries| ==>
              entries[i].descendants == if i in S then entries0[i].descendants + more else entries0[i].descendants
  {
    entries := entries0;
    var todo := S;
    while todo != {}
      invariant todo <= S && |entries| == |entries0|
      invariant forall i :: 0 <= i < |entries| ==>
        entries[i].feerate == entries0[i].feerate && entries[i].ancestors == entries0[i].ancestors
      invariant forall i :: 0 <= i < |entries| ==>
                  entries[i].descendants ==
                    if i in S && i !in todo then entries0[i].descendants + more else entries0[i].descendants
    {
      var i :| i in todo;
      todo := todo - {i};
      entries := entries[i := entries[i].(descendants := entries[i].descendants + more)];
    }
  }

  method AddAncestors(entries0: seq<Entry>, S: set<Tx>, more: set<Tx>) returns (entries: seq<Entry>)
    requires forall i :: i in S ==> i < |entries0|
    ensures |entries| == |entries0|
    ensures forall i :: 0 <= i < |entries| ==>
      entries[i].feerate == entries0[i].feerate && entries[i].descendants == entries0[i].descendants
    ensures forall i :: 0 <= i < |entries| ==>
              entries[i].ancestors == if i in S then entries0[i].ancestors + more else entries0[i].ancestors
  {
    entries := entries0;
    var todo := S;
    while todo != {}
      invariant todo <= S && |entries| == |entries0|
      invariant forall i :: 0 <= i < |entries| ==>
        entries[i].feerate == entries0[i].feerate && entries[i].descendants == entries0[i].descendants
      invariant forall i :: 0 <= i < |entries| ==>
                  entries[i].ancestors ==
                    if i in S && i !in todo then entries0[i].ancestors + more else entries0[i].ancestors
    {
      var i :| i in todo;
      todo := todo - {i};
      entries := entries[i := entries[i].(ancestors := entries[i].ancestors + more)];
    }
  }

  /** Adding just the new ancestors is enough. */
  lemma NewAncestorsEnough(d: GraphData, d': GraphData, parents: set<Tx>, child: Tx, above: set<Tx>)
    requires ValidGraph(d) && parents <= d.used && child in d.used && above == AncOf(d, parents) - Anc(d, child)
    requires |d'.entries| == |d.entries| && d'.used == d.used
    requires forall i :: i in d.used ==> d'.entries[i].feerate == d.entries[i].feerate
    requires forall i :: i in d.used ==> Anc(d', i) == if i in Desc(d, child) then Anc(d, i) + above else Anc(d, i)
    requires forall i :: i in d.used ==> Desc(d', i) == if i in above then Desc(d, i) + Desc(d, child) else Desc(d, i)
    ensures WithParents(d, d', parents, child)
  {
    forall i | i in d.used
      ensures Anc(d', i) == if child in Anc(d, i) then Anc(d, i) + AncOf(d, parents) else Anc(d, i)
      ensures Desc(d', i) == if i in AncOf(d, parents) then Desc(d, i) + Desc(d, child) else Desc(d, i)
    {
      assert Inverse(d, i, child) && Transitive(d, i, child) && Inverse(d, child, i);
      if i in Anc(d, child) {
        assert child in Desc(d, i);
        RelatedClosed(d, i, child, true);
      }
    }
  }

  // ---------- the cluster of a graph ----------

  /** The transactions of a graph with their direct dependencies. */
  ghost function AsCluster(d: GraphData): Cluster
    requires ValidGraph(d)
  {
    ClusterData(
      d.used,
      set c, p | c in d.used && p in d.used && p in Direct(d, c, false) :: Dep(p, c),
      map i | i in d.used :: d.entries[i].feerate.fee,
      map i | i in d.used :: d.entries[i].feerate.size)
  }

  lemma ParentSmaller(d: GraphData, p: Tx, c: Tx)
    requires ValidGraph(d) && AcyclicGraph(d) && Dep(p, c) in AsCluster(d).deps
    ensures Anc(d, p) < Anc(d, c) && |Anc(d, p)| < |Anc(d, c)|
  {
    assert Transitive(d, c, p) && Reflexive(d, c) && Reflexive(d, p);
    assert c !in Anc(d, p);
    FewerElements(Anc(d, p), Anc(d, c));
  }

  /** A member with fewest ancestors. */
  lemma {:induction false} FewestAncestors(d: GraphData, S: set<Tx>) returns (t: Tx)
    requires ValidGraph(d) && S <= d.used && S != {}
    ensures t in S && forall u :: u in S ==> |Anc(d, t)| <= |Anc(d, u)|
  {
    var a := Any(S);
    t := a;
    if S - {a} != {} {
      var b := FewestAncestors(d, S - {a});
      if |Anc(d, b)| < |Anc(d, a)| {
        t := b;
      }
      forall u | u in S
        ensures |Anc(d, t)| <= |Anc(d, u)|
      {
        assert u == a || u in S - {a};
      }
    } else {
      forall u | u in S
        ensures u == a
      {
        assert u !in S - {a};
      }
    }
  }

  /** The direct dependencies of an acyclic graph hold no cycle. */
  lemma ClusterAcyclic(d: GraphData)
    requires ValidGraph(d) && AcyclicGraph(d)
    ensures Acyclic(AsCluster(d))
  {
    var g := AsCluster(d);
    forall S: set<Tx> | S <= g.txs && S != {}
      ensures HasRoot(g, S)
    {
      var t := FewestAncestors(d, S);
      forall e | e in g.deps && e.chl == t
        ensures e.par !in S
      {
        assert e == Dep(e.par, e.chl);
        ParentSmaller(d, e.par, e.chl);
      }
      assert NoParentIn(g, t, S);
    }
  }

  /** A set closed under direct parents is closed under ancestors. */
  lemma {:induction false} ClosedUnderAncestors(d: GraphData, S: set<Tx>, c: Tx, a: Tx)
    requires ValidGraph(d) && AcyclicGraph(d) && AncestorClosed(AsCluster(d), S)
    requires c in S && c in d.used && a in Anc(d, c)
    ensures a in S
    decreases |if c < |d.entries| then Anc(d, c) else {}|
  {
    if a != c {
      var p := DirectAbove(d, c, a);
      assert Dep(p, c) in AsCluster(d).deps;
      ParentSmaller(d, p, c);
      ClosedUnderAncestors(d, S, p, a);
    }
  }

  // ---------- moving transactions to other positions ----------

  function Image(mapping: seq<Tx>, S: set<Tx>): set<Tx>
    requires forall i :: i in S ==> i < |mapping|
  {
    set i | i in S :: mapping[i]
  }

  /** The mapping gives every used position its own new one, of which `range - 1` is the last. */
  ghost predicate GoodMapping(o: GraphData, mapping: seq<Tx>, range: nat) {
    && (forall i :: i in o.used ==> i < |mapping| && mapping[i] < range)
    && (forall i, j :: i in o.used && j in o.used && mapping[i] == mapping[j] ==> i == j)
    && (range > 0 ==> range - 1 in Image(mapping, o.used))
  }

  /** Every used position has been given to `d`, with dependencies of the original only. */
  ghost predicate Mapped(o: GraphData, mapping: seq<Tx>, d: GraphData) {
    && ValidGraph(o) && ValidGraph(d) && (forall i :: i in o.used ==> i < |mapping|)
    && (forall i, j :: i in o.used && j in o.used && mapping[i] == mapping[j] ==> i == j)
    && d.used == Image(mapping, o.used)
    && (forall i :: i in o.used ==> MappedAt(o, mapping, d, i))
  }

  ghost predicate MappedAt(o: GraphData, mapping: seq<Tx>, d: GraphData, i: Tx)
    requires ValidGraph(o) && (forall k :: k in o.used ==> k < |mapping|) && i in o.used
  {
    && mapping[i] < |d.entries| && d.entries[mapping[i]].feerate == o.entries[i].feerate
    && Reflexive(o, i) && Anc(d, mapping[i]) <= Image(mapping, Anc(o, i))
  }

  /** Some proper ancestor of `c` was added as an ancestor, and `x` is among its ancestors. */
  ghost predicate Bridged(o: GraphData, mapping: seq<Tx>, d: GraphData, c: Tx, x: Tx)
    requires Mapped(o, mapping, d) && c in o.used
  {
    assert Reflexive(o, c) && MappedAt(o, mapping, d, c);
    exists r :: r in Anc(o, c) && r != c && x in Anc(o, r) && mapping[r] in Anc(d, mapping[c])
  }

  /** The reduced parents of `done` have been added. */
  ghost predicate HasParents(o: GraphData, mapping: seq<Tx>, d: GraphData, done: set<Tx>)
    requires Mapped(o, mapping, d)
  {
    forall c, x :: c in done && c in o.used && x in Anc(o, c) && x != c ==> Bridged(o, mapping, d, c, x)
  }

  lemma MappedStep(o: GraphData, mapping: seq<Tx>, d: GraphData, d': GraphData, done: set<Tx>, c: Tx, parents: set<Tx>)
    requires Mapped(o, mapping, d) && HasParents(o, mapping, d, done) && c in o.used
    requires ReducedTo(o, c, parents, false)
    requires mapping[c] in d.used && Image(mapping, parents) <= d.used
    requires WithParents(d, d', Image(mapping, parents), mapping[c]) && ValidGraph(d')
    ensures Mapped(o, mapping, d') && HasParents(o, mapping, d', done + {c})
  {
    MappedStepAll(o, mapping, d, d', c, parents);
    hide ValidGraph, Mapped, WithParents, ReducedTo, Bridged;
    forall e, x | e in done + {c} && e in o.used && x in Anc(o, e) && x != e
      ensures Bridged(o, mapping, d', e, x)
    {
      BridgedStep(o, mapping, d, d', done, c, parents, e, x);
    }
  }

  lemma MappedStepAll(o: GraphData, mapping: seq<Tx>, d: GraphData, d': GraphData, c: Tx, parents: set<Tx>)
    requires Mapped(o, mapping, d) && c in o.used && ReducedTo(o, c, parents, false)
    requires mapping[c] in d.used && Image(mapping, parents) <= d.used
    requires WithParents(d, d', Image(mapping, parents), mapping[c]) && ValidGraph(d')
    ensures Mapped(o, mapping, d')
  {
    hide Closed, MateKept, Covers;
    forall i | i in o.used
      ensures MappedAt(o, mapping, d', i)
    {
      MappedStepAt(o, mapping, d, d', c, parents, i);
    }
  }

  lemma BridgedStep(
    o: GraphData, mapping: seq<Tx>, d: GraphData, d': GraphData, done: set<Tx>, c: Tx, parents: set<Tx>, e: Tx, x: Tx)
    requires Mapped(o, mapping, d) && HasParents(o, mapping, d, done) && c in o.used && Mapped(o, mapping, d')
    requires ReducedTo(o, c, parents, false)
    requires mapping[c] in d.used && Image(mapping, parents) <= d.used
    requires WithParents(d, d', Image(mapping, parents), mapping[c])
    requires e in done + {c} && e in o.used && x in Anc(o, e) && x != e
    ensures Bridged(o, mapping, d', e, x)
  {
    hide ValidGraph, Mapped, WithParents, ReducedTo, Bridged;
    MappedFacts(o, mapping, d, e);
    MappedFacts(o, mapping, d', e);
    ReducedFacts(o, c, parents);
    if e == c {
      var r := CoverOf(o, c, parents, x);
      ParentsAdded(d, d', Image(mapping, parents), mapping[c], mapping[r]);
      BridgedBy(o, mapping, d', c, x, r);
    } else {
      assert Bridged(o, mapping, d, e, x);
      var r := BridgeOf(o, mapping, d, e, x);
      AncestorsKept(d, d', Image(mapping, parents), mapping[c], mapping[e]);
      BridgedBy(o, mapping, d', e, x, r);
    }
  }

  lemma CoverOf(o: GraphData, c: Tx, parents: set<Tx>, x: Tx) returns (r: Tx)
    requires ValidGraph(o) && c in o.used && c < |o.entries| && ReducedTo(o, c, parents, false) && x in Anc(o, c)
    requires x != c
    ensures r in parents && r in o.used && r < |o.entries| && x in Anc(o, r) && r in Anc(o, c) && r != c
  {
    hide MateKept;
    assert CoveredBy(o, parents, x, false);
    r :| r in parents && x in Related(o, r, false);
  }

  lemma BridgedBy(o: GraphData, mapping: seq<Tx>, d: GraphData, c: Tx, x: Tx, r: Tx)
    requires Mapped(o, mapping, d) && c in o.used && c < |o.entries| && c < |mapping| && mapping[c] < |d.entries|
    requires r in Anc(o, c) && r != c && r < |o.entries| && x in Anc(o, r) && r < |mapping|
    requires mapping[r] in Anc(d, mapping[c])
    ensures Bridged(o, mapping, d, c, x)
  {
  }

  lemma BridgeOf(o: GraphData, mapping: seq<Tx>, d: GraphData, c: Tx, x: Tx) returns (r: Tx)
    requires Mapped(o, mapping, d) && c in o.used && Bridged(o, mapping, d, c, x)
    ensures c < |o.entries| && c < |mapping| && mapping[c] < |d.entries| && mapping[c] in d.used
    ensures r in Anc(o, c) && r != c && r in o.used && r < |o.entries| && x in Anc(o, r) && r < |mapping|
    ensures mapping[r] in Anc(d, mapping[c])
  {
    hide WithParents;
    assert Reflexive(o, c) && MappedAt(o, mapping, d, c);
    r :| r in Anc(o, c) && r != c && x in Anc(o, r) && mapping[r] in Anc(d, mapping[c]);
  }

  lemma ParentsAdded(d: GraphData, d': GraphData, parents: set<Tx>, child: Tx, p: Tx)
    requires ValidGraph(d) && parents <= d.used && child in d.used && WithParents(d, d', parents, child) && p in parents
    ensures child < |d'.entries| && p in Anc(d', child)
  {
    assert Reflexive(d, child) && Reflexive(d, p);
    assert p in AncOf(d, parents);
  }

  lemma AncestorsKept(d: GraphData, d': GraphData, parents: set<Tx>, child: Tx, i: Tx)
    requires ValidGraph(d) && parents <= d.used && child in d.used && WithParents(d, d', parents, child) && i in d.used
    ensures i < |d.entries| == |d'.entries| && Anc(d, i) <= Anc(d', i)
  {
  }

  lemma MappedStepAt(o: GraphData, mapping: seq<Tx>, d: GraphData, d': GraphData, c: Tx, parents: set<Tx>, i: Tx)
    requires Mapped(o, mapping, d) && c in o.used && i in o.used
    requires parents <= Anc(o, c) && parents <= o.used
    requires mapping[c] in d.used && Image(mapping, parents) <= d.used
    requires WithParents(d, d', Image(mapping, parents), mapping[c])
    ensures MappedAt(o, mapping, d', i)
  {
    assert MappedAt(o, mapping, d, i) && MappedAt(o, mapping, d, c);
    assert mapping[i] in d.used;
    if mapping[c] in Anc(d, mapping[i]) {
      assert c in Anc(o, i) by {
        assert mapping[c] in Image(mapping, Anc(o, i));
        var k :| k in Anc(o, i) && mapping[k] == mapping[c];
      }
      forall a | a in AncOf(d, Image(mapping, parents))
        ensures a in Image(mapping, Anc(o, i))
      {
        var q :| q in Image(mapping, parents) && a in Anc(d, q);
        var p :| p in parents && mapping[p] == q;
        assert MappedAt(o, mapping, d, p);
        assert Transitive(o, c, p) && Transitive(o, i, c);
      }
    }
  }

  /** Whoever is on a cycle has one other ancestor and no more. */
  ghost predicate OnlyLonePairs(o: GraphData)
    requires ValidGraph(o)
  {
    forall i :: i in o.used && Mates(o, i, false) != {} ==> |Related(o, i, false)| == 2
  }

  /** In the end every ancestor has been regenerated. */
  lemma {:induction false} MappedAncestor(o: GraphData, mapping: seq<Tx>, d: GraphData, i: Tx, a: Tx)
    requires Mapped(o, mapping, d) && HasParents(o, mapping, d, o.used) && OnlyLonePairs(o)
    requires i in o.used && i < |o.entries| && a in Anc(o, i)
    ensures a < |mapping| && i < |mapping| && mapping[i] < |d.entries| && mapping[a] in Anc(d, mapping[i])
    decreases |Anc(o, i)|
  {
    if a == i {
      MappedSelf(o, mapping, d, i);
    } else {
      var r := BridgeTo(o, mapping, d, i, a);
      hide ValidGraph, Mapped, HasParents, OnlyLonePairs;
      if r != a {
        FewerElements(Anc(o, r), Anc(o, i));
        MappedAncestor(o, mapping, d, r, a);
      }
    }
  }

  lemma MappedSelf(o: GraphData, mapping: seq<Tx>, d: GraphData, i: Tx)
    requires Mapped(o, mapping, d) && i in o.used
    ensures i < |mapping| && mapping[i] in d.used && mapping[i] < |d.entries| && mapping[i] in Anc(d, mapping[i])
  {
    assert Reflexive(o, i) && MappedAt(o, mapping, d, i);
    assert mapping[i] in d.used && Reflexive(d, mapping[i]);
  }

  /** The ancestor that was added, of which the other one is an ancestor. */
  lemma BridgeTo(o: GraphData, mapping: seq<Tx>, d: GraphData, i: Tx, a: Tx) returns (r: Tx)
    requires Mapped(o, mapping, d) && HasParents(o, mapping, d, o.used) && OnlyLonePairs(o)
    requires i in o.used && i < |o.entries| && a in Anc(o, i) && a != i
    ensures i < |mapping| && mapping[i] < |d.entries| && r in o.used && r < |o.entries| && r < |mapping|
    ensures mapping[r] < |d.entries| && mapping[r] in Anc(d, mapping[i]) && a in Anc(o, r)
    ensures Anc(d, mapping[r]) <= Anc(d, mapping[i])
    ensures r != a ==> Anc(o, r) < Anc(o, i)
  {
    hide ValidGraph, Mapped, Bridged, OnlyLonePairs;
    MappedFacts(o, mapping, d, i);
    assert Bridged(o, mapping, d, i, a);
    r := BridgeOf(o, mapping, d, i, a);
    MappedSelf(o, mapping, d, r);
    AncestorsOf(d, mapping[i], mapping[r]);
    AncestorsOf(o, i, r);
    if r != a && i in Anc(o, r) {
      LonePair(o, i, r, a);
    }
  }

  lemma AncestorsOf(d: GraphData, i: Tx, r: Tx)
    requires ValidGraph(d) && i in d.used && i < |d.entries| && r in Anc(d, i) && r in d.used && r < |d.entries|
    ensures Anc(d, r) <= Anc(d, i) && r in Anc(d, r) && i in Anc(d, i)
  {
    assert Reflexive(d, i) && Reflexive(d, r) && Transitive(d, i, r);
  }

  lemma LonePair(o: GraphData, i: Tx, r: Tx, a: Tx)
    requires ValidGraph(o) && OnlyLonePairs(o) && i in o.used && i < |o.entries| && r in o.used && r < |o.entries|
    requires r in Anc(o, i) && r != i && i in Anc(o, r) && a in Anc(o, i) && a != i && i in Anc(o, i)
    ensures a == r
  {
    hide ValidGraph;
    assert r in Mates(o, i, false);
    if a != r {
      FewerOrEqual({i, r, a}, Related(o, i, false));
    }
  }

  /** `d` has the transactions of `o`, at their new positions, with the same ancestors and feerates. */
  ghost predicate Isomorphic(o: GraphData, mapping: seq<Tx>, d: GraphData) {
    && ValidGraph(o) && ValidGraph(d) && (forall i :: i in o.used ==> i < |mapping|)
    && d.used == Image(mapping, o.used)
    && (forall i :: i in o.used ==>
          && mapping[i] < |d.entries| && d.entries[mapping[i]].feerate == o.entries[i].feerate
          && Reflexive(o, i) && Anc(d, mapping[i]) == Image(mapping, Anc(o, i)))
  }

  lemma MappedIsomorphic(o: GraphData, mapping: seq<Tx>, d: GraphData)
    requires Mapped(o, mapping, d) && HasParents(o, mapping, d, o.used) && OnlyLonePairs(o)
    ensures Isomorphic(o, mapping, d)
  {
    forall i | i in o.used
      ensures mapping[i] < |d.entries| && d.entries[mapping[i]].feerate == o.entries[i].feerate
      ensures Reflexive(o, i) && Anc(d, mapping[i]) == Image(mapping, Anc(o, i))
    {
      assert MappedAt(o, mapping, d, i);
      forall b | b in Image(mapping, Anc(o, i))
        ensures b in Anc(d, mapping[i])
      {
        var a :| a in Anc(o, i) && mapping[a] == b;
        MappedAncestor(o, mapping, d, i, a);
      }
    }
  }

  // ---------- cycles that the remapping does not regenerate ----------

  /** The two lowest on a cycle. */
  ghost predicate LeastPair(o: GraphData, s: Tx, t: Tx)
    requires ValidGraph(o)
  {
    s in o.used && t in o.used && IsLeast(t, Mates(o, s, false)) && IsLeast(s, Mates(o, t, false))
  }

  /** These two have no ancestors but each other. */
  ghost predicate Alone(mapping: seq<Tx>, d: GraphData, s: Tx, t: Tx) {
    && s < |mapping| && t < |mapping| && mapping[s] < |d.entries| && mapping[t] < |d.entries|
    && Anc(d, mapping[s]) <= {mapping[s], mapping[t]} && Anc(d, mapping[t]) <= {mapping[s], mapping[t]}
  }

  ghost predicate PairsAlone(o: GraphData, mapping: seq<Tx>, d: GraphData)
    requires ValidGraph(o)
  {
    forall s: Tx, t: Tx :: LeastPair(o, s, t) ==> Alone(mapping, d, s, t)
  }

  /** The parent that one of the two lowest on a cycle gets is the other. */
  lemma OneGetsOther(o: GraphData, c: Tx, parents: set<Tx>, s: Tx, t: Tx)
    requires ValidGraph(o) && LeastPair(o, s, t) && (c == s || c == t) && ReducedTo(o, c, parents, false)
    ensures parents == {if c == s then t else s}
  {
    hide ValidGraph, Covers;
  }

  lemma AloneStep(
    o: GraphData, mapping: seq<Tx>, d: GraphData, d': GraphData, c: Tx, parents: set<Tx>, s: Tx, t: Tx, i: Tx)
    requires Mapped(o, mapping, d) && c in o.used && ReducedTo(o, c, parents, false) && LeastPair(o, s, t)
    requires mapping[c] in d.used && Image(mapping, parents) <= d.used
    requires WithParents(d, d', Image(mapping, parents), mapping[c])
    requires Alone(mapping, d, s, t) && (i == s || i == t) && i in o.used
    ensures mapping[i] < |d'.entries| && Anc(d', mapping[i]) <= {mapping[s], mapping[t]}
  {
    hide ValidGraph, Mapped, WithParents, ReducedTo, LeastPair;
    MappedFacts(o, mapping, d, i);
    ReducedFacts(o, c, parents);
    PairUsed(o, s, t);
    AncestorsAfter(d, d', Image(mapping, parents), mapping[c], mapping[i]);
    if mapping[c] in Anc(d, mapping[i]) {
      MappedOnce(o, mapping, d, c, s);
      MappedOnce(o, mapping, d, c, t);
      OneGetsOther(o, c, parents, s, t);
    }
  }

  lemma MappedOnce(o: GraphData, mapping: seq<Tx>, d: GraphData, i: Tx, j: Tx)
    requires Mapped(o, mapping, d) && i in o.used && j in o.used
    ensures mapping[i] == mapping[j] ==> i == j
  {
  }

  /** No ancestors but those that were there, and those of the parents. */
  lemma AncestorsAfter(d: GraphData, d': GraphData, parents: set<Tx>, child: Tx, x: Tx)
    requires ValidGraph(d) && parents <= d.used && child in d.used && WithParents(d, d', parents, child) && x in d.used
    ensures x < |d.entries| && x < |d'.entries|
    ensures child !in Anc(d, x) ==> Anc(d', x) == Anc(d, x)
    ensures forall a :: a in Anc(d', x) ==>
      a in Anc(d, x) || exists p :: p in parents && p < |d.entries| && a in Anc(d, p)
  {
  }

  lemma PairUsed(o: GraphData, s: Tx, t: Tx)
    requires ValidGraph(o) && LeastPair(o, s, t)
    ensures s in o.used && t in o.used
  {
  }

  lemma PairsAloneStep(o: GraphData, mapping: seq<Tx>, d: GraphData, d': GraphData, c: Tx, parents: set<Tx>)
    requires Mapped(o, mapping, d) && PairsAlone(o, mapping, d) && c in o.used && ReducedTo(o, c, parents, false)
    requires mapping[c] in d.used && Image(mapping, parents) <= d.used
    requires WithParents(d, d', Image(mapping, parents), mapping[c])
    ensures PairsAlone(o, mapping, d')
  {
    hide ValidGraph, Mapped, WithParents, ReducedTo, LeastPair;
    MappedFacts(o, mapping, d, c);
    forall s: Tx, t: Tx | LeastPair(o, s, t)
      ensures Alone(mapping, d', s, t)
    {
      PairUsed(o, s, t);
      AloneStep(o, mapping, d, d', c, parents, s, t, s);
      AloneStep(o, mapping, d, d', c, parents, s, t, t);
    }
  }

  /** Those on a cycle have the same ancestors, and the same others on it. */
  lemma CycleShared(o: GraphData, i: Tx, x: Tx)
    requires ValidGraph(o) && i in o.used && x in Mates(o, i, false)
    ensures x in o.used && Related(o, x, false) == Related(o, i, false)
    ensures Mates(o, x, false) == Mates(o, i, false) + {i} - {x}
  {
    RelatedClosed(o, i, x, false);
    RelatedClosed(o, x, i, false);
    assert Reflexive(o, i) && Reflexive(o, x);
    forall y | y in o.used
      ensures y in Mates(o, x, false) <==> y in Mates(o, i, false) + {i} - {x}
    {
      assert Reflexive(o, y);
      if y in Related(o, i, false) {
        RelatedClosed(o, i, y, false);
        if i in Related(o, y, false) {
          RelatedClosed(o, y, i, false);
        }
        if x in Related(o, y, false) {
          RelatedClosed(o, y, x, false);
        }
      }
    }
  }

  lemma LeastPairOn(o: GraphData, i: Tx) returns (s: Tx, t: Tx)
    requires ValidGraph(o) && i in o.used && Mates(o, i, false) != {}
    ensures LeastPair(o, s, t) && s in o.used && t in o.used && s != t
    ensures Related(o, s, false) == Related(o, i, false) && s in Related(o, i, false) && t in Related(o, i, false)
  {
    hide ValidGraph;
    var all := Mates(o, i, false) + {i};
    s := SomeLeast(all);
    assert all - {s} != {} by {
      var m := Any(Mates(o, i, false));
      assert m in Mates(o, i, false) && m != i;
      assert m in all - {s} || i in all - {s};
    }
    t := SomeLeast(all - {s});
    CycleOf(o, i, s);
    CycleOf(o, i, t);
  }

  lemma CycleOf(o: GraphData, i: Tx, x: Tx)
    requires ValidGraph(o) && i in o.used && x in Mates(o, i, false) + {i}
    ensures x in o.used && Related(o, x, false) == Related(o, i, false) && x in Related(o, i, false)
    ensures Mates(o, x, false) == Mates(o, i, false) + {i} - {x}
  {
    if x == i {
      assert Reflexive(o, i);
      assert i !in Mates(o, i, false);
    } else {
      CycleShared(o, i, x);
    }
  }

  /** A cycle of more than two, or one with other ancestors, is not regenerated. */
  lemma NotIsomorphic(o: GraphData, mapping: seq<Tx>, d: GraphData)
    requires Mapped(o, mapping, d) && PairsAlone(o, mapping, d) && !OnlyLonePairs(o)
    ensures !Isomorphic(o, mapping, d)
  {
    var i :| i in o.used && Mates(o, i, false) != {} && |Related(o, i, false)| != 2;
    var s, t := LeastPairOn(o, i);
    assert Alone(mapping, d, s, t);
    if Isomorphic(o, mapping, d) {
      OnlyTheTwo(o, mapping, d, s, t);
    }
  }

  lemma OnlyTheTwo(o: GraphData, mapping: seq<Tx>, d: GraphData, s: Tx, t: Tx)
    requires Mapped(o, mapping, d) && Isomorphic(o, mapping, d) && s in o.used && t in o.used && s != t
    requires Alone(mapping, d, s, t) && s in Related(o, s, false) && t in Related(o, s, false)
    ensures |Related(o, s, false)| == 2
  {
    var S := Related(o, s, false);
    assert Reflexive(o, s);
    forall x | x in S
      ensures x == s || x == t
    {
      assert mapping[x] in Image(mapping, Anc(o, s));
    }
    assert S == {s, t};
  }

  /** What the first loop of the remapping has placed. */
  ghost predicate PlacedSingles(o: GraphData, mapping: seq<Tx>, d: GraphData, done: set<Tx>, range: nat)
    requires forall i :: i in o.used ==> i < |mapping| && i < |o.entries|
  {
    && |d.entries| == range && done <= o.used && d.used == Image(mapping, done)
    && (forall i :: i in done ==>
      mapping[i] < range && d.entries[mapping[i]] == Entry(o.entries[i].feerate, {mapping[i]}, {mapping[i]}))
  }

  lemma PlacedMapped(o: GraphData, mapping: seq<Tx>, d: GraphData, range: nat)
    requires ValidGraph(o) && GoodMapping(o, mapping, range) && PlacedSingles(o, mapping, d, o.used, range)
    ensures Mapped(o, mapping, d) && HasParents(o, mapping, d, {}) && PairsAlone(o, mapping, d)
  {
    forall x | x in d.used
      ensures x < |d.entries| && d.entries[x].feerate.size > 0 && Anc(d, x) == {x} && Desc(d, x) == {x}
    {
      var i :| i in o.used && mapping[i] == x;
      assert d.entries[mapping[i]] == Entry(o.entries[i].feerate, {mapping[i]}, {mapping[i]});
    }
    assert InRange(d);
    forall x, y | x in d.used && y in d.used
      ensures Inverse(d, x, y) && Transitive(d, x, y)
    {
    }
    assert ValidGraph(d);
    forall i | i in o.used
      ensures MappedAt(o, mapping, d, i)
    {
      assert Reflexive(o, i);
    }
  }

  /** Place all transactions, without dependencies, at their new positions. */
  method PlaceSingles(o: GraphData, mapping: seq<Tx>, range: nat) returns (d: GraphData)
    requires ValidGraph(o) && GoodMapping(o, mapping, range)
    ensures Mapped(o, mapping, d) && HasParents(o, mapping, d, {}) && PairsAlone(o, mapping, d)
  {
    hide Closed, Mapped, HasParents, PairsAlone;
    d := GraphData(seq(range, i => Entry(FeeFrac(0, 0), {}, {})), {});
    var todo := o.used;
    assert o.used - todo == {};
    while todo != {}
      invariant todo <= o.used && PlacedSingles(o, mapping, d, o.used - todo, range)
    {
      var i :| i in todo;
      ghost var done := o.used - todo;
      todo := todo - {i};
      var n := mapping[i];
      d := GraphData(d.entries[n := Entry(o.entries[i].feerate, {n}, {n})], d.used + {n});
      assert o.used - todo == done + {i};
    }
    assert o.used - todo == o.used;
    PlacedMapped(o, mapping, d, range);
  }

  lemma MappedFacts(o: GraphData, mapping: seq<Tx>, d: GraphData, c: Tx)
    requires Mapped(o, mapping, d) && c in o.used
    ensures ValidGraph(o) && ValidGraph(d) && c < |mapping| && mapping[c] in d.used && c < |o.entries|
    ensures forall i :: i in o.used ==> i < |mapping| && mapping[i] in d.used
    ensures Anc(o, c) <= o.used
  {
    assert Reflexive(o, c);
  }

  lemma MappedValid(o: GraphData, mapping: seq<Tx>, d: GraphData)
    requires Mapped(o, mapping, d)
    ensures ValidGraph(d)
  {
  }

  class DepGraph {
    var d: GraphData

    ghost predicate Valid()
      reads this
    {
      ValidGraph(d)
    }

    /** An empty graph. */
    constructor ()
      ensures Valid() && d == GraphData([], {})
    {
      d := GraphData([], {});
    }

    /** Add an unconnected transaction in the first unused position. */
    method AddTransaction(feerate: FeeFrac) returns (i: Tx)
      requires Valid() && feerate.size > 0
      modifies this
      ensures Valid() && WithTx(old(d), d, i, feerate)
      ensures forall k :: 0 <= k < i ==> k in old(d).used
    {
      hide Closed;
      i := 0;
      while i in d.used
        invariant i <= |d.entries| && forall k :: 0 <= k < i ==> k in d.used
        decreases |d.entries| - i
      {
        i := i + 1;
      }
      var entry := Entry(feerate, {i}, {i});
      var entries := if i == |d.entries| then d.entries + [entry] else d.entries[i := entry];
      var d' := GraphData(entries, d.used + {i});
      WithTxValid(d, d', i, feerate);
      d := d';
    }

    /** Remove the given positions, and the dependencies with them. */
    method RemoveTransactions(del: set<Tx>)
      requires Valid()
      modifies this
      ensures Valid() && WithoutTxs(old(d), d, del)
    {
      var used, entries := d.used - del, d.entries;
      while |entries| > 0 && |entries| - 1 !in used
        invariant entries <= d.entries && forall i :: i in used ==> i < |entries|
      {
        entries := entries[..|entries| - 1];
      }
      ghost var trimmed := entries;
      for n := 0 to |entries|
        invariant |entries| == |trimmed|
        invariant forall k :: n <= k < |entries| ==> entries[k] == trimmed[k]
        invariant forall k :: 0 <= k < n ==>
                    entries[k] == Entry(trimmed[k].feerate, trimmed[k].ancestors * used, trimmed[k].descendants * used)
      {
        entries := entries[n := Entry(entries[n].feerate, entries[n].ancestors * used, entries[n].descendants * used)];
      }
      var d' := GraphData(entries, used);
      WithoutTxsValid(d, d', del);
      d := d';
    }

    /** The direct parents of `i`. */
    method GetReducedParents(i: Tx) returns (parents: set<Tx>)
      requires Valid() && i in d.used
      ensures ReducedTo(d, i, parents, false)
      ensures AcyclicGraph(d) ==> parents == Direct(d, i, false)
    {
      parents := Reduce(d, i, false);
    }

    /** The direct children of `i`. */
    method GetReducedChildren(i: Tx) returns (children: set<Tx>)
      requires Valid() && i in d.used
      ensures ReducedTo(d, i, children, true)
      ensures AcyclicGraph(d) ==> children == Direct(d, i, true)
    {
      children := Reduce(d, i, true);
    }

    /** Add parents to a child. This also works when it makes dependencies cyclic. */
    method AddDependencies(parents: set<Tx>, child: Tx)
      requires Valid() && parents <= d.used && child in d.used
      modifies this
      ensures Valid() && WithParents(old(d), d, parents, child)
    {
      var above := NewAncestors(d, parents, child);
      var d' := d;
      if above != {} {
        var entries := AddDescendants(d.entries, above, Desc(d, child));
        entries := AddAncestors(entries, Desc(d, child), above);
        d' := GraphData(entries, d.used);
      }
      NewAncestorsEnough(d, d', parents, child, above);
      WithParentsValid(d, d', parents, child);
      d := d';
    }

    /** Give `mapping[c]` the reduced parents that `c` has in `o`. */
    method MapParents(o: GraphData, mapping: seq<Tx>, c: Tx, ghost done: set<Tx>)
      requires Valid() && c in o.used && Mapped(o, mapping, d) && HasParents(o, mapping, d, done)
      requires PairsAlone(o, mapping, d)
      modifies this
      ensures Valid() && Mapped(o, mapping, d) && HasParents(o, mapping, d, done + {c}) && PairsAlone(o, mapping, d)
    {
      hide ValidGraph, AcyclicGraph, Mapped, HasParents, Direct, WithParents, ReducedTo, PairsAlone;
      ghost var before := d;
      MappedFacts(o, mapping, d, c);
      var parents := Reduce(o, c, false);
      ReducedFacts(o, c, parents);
      AddDependencies(Image(mapping, parents), mapping[c]);
      PairsAloneStep(o, mapping, before, d, c, parents);
      MappedStep(o, mapping, before, d, done, c, parents);
    }

    /** The graph `o` with every position `i` moved to `mapping[i]`. It is the same graph exactly if whoever is on
        a cycle of dependencies has one other ancestor and no more; in particular if there is no cycle. */
    constructor Remapped(o: GraphData, mapping: seq<Tx>, range: nat)
      requires ValidGraph(o) && GoodMapping(o, mapping, range)
      ensures Valid() && Mapped(o, mapping, d)
      ensures Isomorphic(o, mapping, d) <==> OnlyLonePairs(o)
      ensures AcyclicGraph(o) ==> OnlyLonePairs(o)
    {
      hide ValidGraph, AcyclicGraph, GoodMapping, Mapped, HasParents, Isomorphic, PairsAlone, OnlyLonePairs;
      var placed := PlaceSingles(o, mapping, range);
      MappedValid(o, mapping, placed);
      d := placed;
      new;
      var todo := o.used;
      assert o.used - todo == {};
      while todo != {}
        invariant todo <= o.used && Valid() && PairsAlone(o, mapping, d)
        invariant Mapped(o, mapping, d) && HasParents(o, mapping, d, o.used - todo)
      {
        var c :| c in todo;
        assert o.used - (todo - {c}) == o.used - todo + {c};
        MapParents(o, mapping, c, o.used - todo);
        todo := todo - {c};
      }
      assert o.used - todo == o.used;
      if OnlyLonePairs(o) {
        MappedIsomorphic(o, mapping, d);
      } else {
        NotIsomorphic(o, mapping, d);
      }
      AcyclicHasNoPairs(o);
    }

    /** Three transactions that depend on each other in a circle do so no longer when each stays where it is. */
    static method RemapCircle(feerate: FeeFrac) returns (o: GraphData, copy: DepGraph)
      requires feerate.size > 0
      ensures ValidGraph(o) && o.used == {0, 1, 2} && !Isomorphic(o, [0, 1, 2], copy.d)
    {
      hide Mapped, Isomorphic, OnlyLonePairs;
      var all: set<Tx> := {0, 1, 2};
      var entry := Entry(feerate, all, all);
      o := GraphData([entry, entry, entry], all);
      CircleFails(o, all);
      copy := new DepGraph.Remapped(o, [0, 1, 2], 3);
    }
  }

  lemma CircleFails(o: GraphData, all: set<Tx>)
    requires ValidGraph(o) && all == {0, 1, 2} == o.used && Related(o, 0, false) == Related(o, 1, false) == all
    ensures GoodMapping(o, [0, 1, 2], 3) && !OnlyLonePairs(o)
  {
    var mapping: seq<Tx> := [0, 1, 2];
    assert mapping[2] in Image(mapping, o.used);
    assert 1 in Mates(o, 0, false);
    assert |all| == 3;
  }

  lemma ReducedFacts(o: GraphData, c: Tx, parents: set<Tx>)
    requires ValidGraph(o) && c in o.used && ReducedTo(o, c, parents, false)
    ensures parents <= o.used
  {
  }

  lemma AcyclicHasNoPairs(o: GraphData)
    requires ValidGraph(o)
    ensures AcyclicGraph(o) ==> OnlyLonePairs(o)
  {
    if AcyclicGraph(o) {
      forall i | i in o.used
        ensures Mates(o, i, false) == {}
      {
      }
    }
  }
}
