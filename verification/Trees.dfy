/** What the cut conditions of a forest mean in terms of paths and counts: chunks are connected by
    paths, a chunk of n transactions has n - 1 active dependencies, and a dependency's top set is
    what remains linked to its parent without it. */
module Trees {
  import opened FiniteSets
  import opened Clusters
  import opened Forests
  import opened Optimality
  import opened ForestStates

  // ---------- paths ----------

  ghost predicate Adjacent(A: set<Dep>, s: Tx, t: Tx) {
    Dep(s, t) in A || Dep(t, s) in A
  }

  ghost predicate IsPath(A: set<Dep>, p: seq<Tx>, s: Tx, t: Tx) {
    && |p| > 0 && p[0] == s && p[|p| - 1] == t
    && forall n :: 0 <= n < |p| - 1 ==> Adjacent(A, p[n], p[n + 1])
  }

  /** Some path along dependencies of `A`, up and down, leads from `s` to `t`. */
  ghost predicate Linked(A: set<Dep>, s: Tx, t: Tx) {
    exists p :: IsPath(A, p, s, t)
  }

  /** A path does not leave a set that no dependency leaves. */
  lemma {:induction false} PathStays(A: set<Dep>, S: set<Tx>, p: seq<Tx>, s: Tx, t: Tx)
    requires IsPath(A, p, s, t) && NoneLeaves(A, S) && s in S
    ensures t in S
    decreases |p|
  {
    if |p| > 1 {
      var q := p[..|p| - 1];
      var u := q[|q| - 1];
      forall n | 0 <= n < |q| - 1
        ensures Adjacent(A, q[n], q[n + 1])
      {
        assert Adjacent(A, p[n], p[n + 1]);
      }
      PathStays(A, S, q, s, u);
      assert Adjacent(A, p[|p| - 2], p[|p| - 1]);
      assert !Crosses(Dep(u, t), S) || !Crosses(Dep(t, u), S);
    }
  }

  lemma LinkedStays(A: set<Dep>, S: set<Tx>, s: Tx, t: Tx)
    requires Linked(A, s, t) && NoneLeaves(A, S) && s in S
    ensures t in S
  {
    var p :| IsPath(A, p, s, t);
    PathStays(A, S, p, s, t);
  }

  lemma LinkedSelf(A: set<Dep>, s: Tx)
    ensures Linked(A, s, s)
  {
    assert IsPath(A, [s], s, s);
  }

  lemma LinkedFurther(A: set<Dep>, s: Tx, t: Tx, u: Tx)
    requires Linked(A, s, t) && Adjacent(A, t, u)
    ensures Linked(A, s, u)
  {
    var p :| IsPath(A, p, s, t);
    var q := p + [u];
    forall n | 0 <= n < |q| - 1
      ensures Adjacent(A, q[n], q[n + 1])
    {
      if n < |p| - 1 {
        assert Adjacent(A, p[n], p[n + 1]);
      }
    }
    assert IsPath(A, q, s, u);
  }

  /** In a connected set every two members are linked. */
  lemma ConnectedLinks(C: set<Tx>, A: set<Dep>, s: Tx)
    requires Connected(C, A) && NoneLeaves(A, C) && s in C
    ensures forall t :: t in C ==> Linked(A, s, t)
  {
    var S := set t | t in C && Linked(A, s, t);
    LinkedSelf(A, s);
    assert s in S;
    forall d | d in A
      ensures !Crosses(d, S)
    {
      assert !Crosses(d, C);
      assert d == Dep(d.par, d.chl);
      if d.par in S {
        LinkedFurther(A, s, d.par, d.chl);
      }
      if d.chl in S {
        LinkedFurther(A, s, d.chl, d.par);
      }
    }
    assert !ProperPart(S, C);
    assert S == C;
    assert forall t :: t in C ==> t in S;
  }

  /** Connectedness by cuts is connectedness by paths. */
  lemma ConnectedIffLinked(C: set<Tx>, A: set<Dep>)
    requires NoneLeaves(A, C)
    ensures Connected(C, A) <==> forall s, t :: s in C && t in C ==> Linked(A, s, t)
  {
    if Connected(C, A) {
      forall s | s in C
        ensures forall t :: t in C ==> Linked(A, s, t)
      {
        ConnectedLinks(C, A, s);
      }
    }
    if forall s, t :: s in C && t in C ==> Linked(A, s, t) {
      forall S: set<Tx> | ProperPart(S, C)
        ensures exists d :: d in A && Crosses(d, S)
      {
        var s := Any(S);
        var t :| t in C && t !in S;
        assert Linked(A, s, t);
        if NoneLeaves(A, S) {
          LinkedStays(A, S, s, t);
        }
      }
    }
  }

  /** The top set of an active dependency is what is linked to its parent without it. */
  lemma TopIsComponent(C: set<Tx>, A: set<Dep>, e: Dep, T: set<Tx>, t: Tx)
    requires Connected(C, A) && NoneLeaves(A, C) && e in A && e.chl in C && IsTop(C, A, e, T)
    ensures t in T <==> Linked(A - {e}, e.par, t)
  {
    ConnectedSplit(C, A, e, T);
    assert NoneLeaves(A - {e}, T);
    if t in T {
      ConnectedLinks(T, A - {e}, e.par);
    }
    if Linked(A - {e}, e.par, t) {
      LinkedStays(A - {e}, T, e.par, t);
    }
  }

  // ---------- the number of active dependencies ----------

  ghost function Inside(A: set<Dep>, C: set<Tx>): set<Dep> {
    set d | d in A && d.par in C
  }

  /** Cutting a tree gives two trees. */
  lemma TreeSplit(C: set<Tx>, A: set<Dep>, e: Dep, T: set<Tx>)
    requires Tree(C, A) && e in Inside(A, C) && IsTop(C, A, e, T)
    ensures Tree(T, A - {e}) && Tree(C - T, A - {e}) && ProperPart(T, C)
  {
    var A', B := A - {e}, C - T;
    assert !Crosses(e, C);
    assert e.chl in B;
    ConnectedSplit(C, A, e, T);
    forall d | d in A'
      ensures !Crosses(d, T) && !Crosses(d, B)
    {
      assert !Crosses(d, C);
    }
    forall d | d in A' && d.par in T
      ensures HasTop(T, A', d)
    {
      var U :| IsTop(C, A, d, U);
      TopShrinksAbove(C, A, e, T, d, U);
    }
    forall d | d in A' && d.par in B
      ensures HasTop(B, A', d)
    {
      var U :| IsTop(C, A, d, U);
      TopShrinksBelow(C, A, e, T, d, U);
    }
  }

  lemma CountsSplit(C: set<Tx>, A: set<Dep>, e: Dep, T: set<Tx>)
    requires T <= C && e in Inside(A, C)
    ensures |C| == |T| + |C - T|
    ensures |Inside(A, C)| == |Inside(A - {e}, T)| + |Inside(A - {e}, C - T)| + 1
  {
    assert T + (C - T) == C;
    var E1, E2 := Inside(A - {e}, T), Inside(A - {e}, C - T);
    assert Inside(A, C) == E1 + E2 + {e};
    assert |E1 + E2| == |E1| + |E2|;
  }

  lemma {:induction false} TreeCount(C: set<Tx>, A: set<Dep>)
    requires Tree(C, A)
    ensures |Inside(A, C)| == |C| - 1
    decreases |C|
  {
    var E := Inside(A, C);
    if E == {} {
      var t := Any(C);
      forall d | d in A
        ensures !Crosses(d, {t})
      {
        assert !Crosses(d, C);
        assert d !in E;
      }
      assert !ProperPart({t}, C);
      assert C == {t};
    } else {
      var e := Any(E);
      var T :| IsTop(C, A, e, T);
      TreeSplit(C, A, e, T);
      CountsSplit(C, A, e, T);
      TreeCount(T, A - {e});
      TreeCount(C - T, A - {e});
    }
  }

  /** What the forest data says of each chunk: it is connected by its active dependencies, of which
      there is one fewer than transactions. */
  lemma ChunkShape(g: Cluster, v: ForestData, i: Tx)
    requires ValidForest(g, v) && i in v.chunkIdxs
    ensures i < |v.setInfo| && |Inside(v.active, v.setInfo[i].transactions)| == |v.setInfo[i].transactions| - 1
    ensures forall s, t :: s in v.setInfo[i].transactions && t in v.setInfo[i].transactions ==> Linked(v.active, s, t)
  {
    assert ChunkOk(g, v, i);
    var C := Chunk(v.home, i);
    ChunkIsTree(g, v.home, v.active, i);
    TreeCount(C, v.active);
    ConnectedIffLinked(C, v.active);
  }

  /** The stored top set of an active dependency is its parent's component without the dependency. */
  lemma TopShape(g: Cluster, v: ForestData, e: Dep, t: Tx)
    requires ValidForest(g, v) && e in v.active
    ensures v.depTop[e] < |v.setInfo|
    ensures t in v.setInfo[v.depTop[e]].transactions <==> Linked(v.active - {e}, e.par, t)
  {
    assert TopOk(g, v, e);
    var i := v.home[e.par];
    ActiveStayInside(g, v.home, v.active, i);
    TopIsComponent(Chunk(v.home, i), v.active, e, v.setInfo[v.depTop[e]].transactions, t);
  }
}
