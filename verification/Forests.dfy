/** Spanning forests of active dependencies over a partition into chunks.

    Connectedness is stated through cuts: a set is connected when every proper part of it is left
    by some active dependency. A dependency's top set is then the one side of the only cut it
    alone crosses, and the existence of such a cut for every active dependency says that the
    active dependencies hold no cycle. */
module Forests {
  import opened Clusters

  ghost predicate Crosses(d: Dep, S: set<Tx>) {
    (d.par in S) != (d.chl in S)
  }

  ghost predicate ProperPart(S: set<Tx>, C: set<Tx>) {
    S != {} && S < C
  }

  ghost predicate Connected(C: set<Tx>, A: set<Dep>) {
    forall S | ProperPart(S, C) :: exists d :: d in A && Crosses(d, S)
  }

  /** No dependency of `A` other than `e` leaves `T`. */
  ghost predicate OnlyCrossing(A: set<Dep>, e: Dep, T: set<Tx>) {
    forall d :: d in A && d != e ==> !Crosses(d, T)
  }

  /** `T` is the top set of the active dependency `e` in chunk `C`: the parent's side of the cut
      that only `e` crosses. */
  ghost predicate IsTop(C: set<Tx>, A: set<Dep>, e: Dep, T: set<Tx>) {
    T <= C && e.par in T && e.chl !in T && OnlyCrossing(A, e, T)
  }

  ghost predicate HasTop(C: set<Tx>, A: set<Dep>, e: Dep) {
    exists T :: IsTop(C, A, e, T)
  }

  /** The state is acyclic: the active dependencies form a spanning tree of each chunk. */
  ghost predicate Forest(g: Cluster, home: Homes, A: set<Dep>) {
    && home.Keys == g.txs
    && A <= g.deps
    && (forall d :: d in A ==> home[d.par] == home[d.chl])
    && (forall i :: i in home.Values ==> Connected(Chunk(home, i), A))
    && (forall d :: d in A ==> HasTop(Chunk(home, home[d.par]), A, d))
  }

  /** In a connected set, a dependency has only one top set. */
  lemma TopUnique(C: set<Tx>, A: set<Dep>, e: Dep, T: set<Tx>, U: set<Tx>)
    requires Connected(C, A) && e.chl in C
    requires IsTop(C, A, e, T) && IsTop(C, A, e, U)
    ensures T == U
  {
    var S := (T - U) + (U - T);
    assert forall d :: d in A ==> !Crosses(d, S) by {
      forall d | d in A
        ensures !Crosses(d, S)
      {
        if d != e {
          assert !Crosses(d, T) && !Crosses(d, U);
        }
      }
    }
    assert e.par in C && e.par !in S;
    assert !ProperPart(S, C);
    assert S == {};
    assert forall t :: t in T <==> t in U;
  }

  /** No dependency of `A` leaves `C`. */
  ghost predicate NoneLeaves(A: set<Dep>, C: set<Tx>) {
    forall d :: d in A ==> !Crosses(d, C)
  }

  lemma ActiveStayInside(g: Cluster, home: Homes, A: set<Dep>, i: Tx)
    requires Forest(g, home, A)
    ensures NoneLeaves(A, Chunk(home, i))
  {
  }

  // ---------- activating a dependency ----------

  lemma ConnectedJoin(P: set<Tx>, Q: set<Tx>, A: set<Dep>, e: Dep)
    requires Connected(P, A) && Connected(Q, A)
    requires NoneLeaves(A, P) && NoneLeaves(A, Q)
    requires e.par in P && e.chl in Q && P !! Q
    ensures Connected(P + Q, A + {e})
  {
    forall S | ProperPart(S, P + Q)
      ensures exists d :: d in A + {e} && Crosses(d, S)
    {
      if ProperPart(S * P, P) {
        var d :| d in A && Crosses(d, S * P);
        assert !Crosses(d, P);
        assert Crosses(d, S) && d in A + {e};
      } else if ProperPart(S * Q, Q) {
        var d :| d in A && Crosses(d, S * Q);
        assert !Crosses(d, Q);
        assert Crosses(d, S) && d in A + {e};
      } else {
        assert S * P == {} || S * P == P;
        assert S * Q == {} || S * Q == Q;
        assert S == S * P + S * Q;
        assert Crosses(e, S) && e in A + {e};
      }
    }
  }

  /** What becomes of a top set when the dependency `e` from chunk `Q` to chunk `P` is activated. */
  ghost function Grown(T: set<Tx>, e: Dep, P: set<Tx>, Q: set<Tx>): set<Tx> {
    if e.par in T then T + Q else if e.chl in T then T + P else T
  }

  /** Top sets grow by the other chunk when they hold the end of the new dependency. */
  lemma TopGrows(P: set<Tx>, Q: set<Tx>, A: set<Dep>, e: Dep, f: Dep, T: set<Tx>)
    requires NoneLeaves(A, P) && NoneLeaves(A, Q) && f in A
    requires e.par in P && e.chl in Q && P !! Q
    requires IsTop(P, A, f, T) || IsTop(Q, A, f, T)
    ensures IsTop(P + Q, A + {e}, f, Grown(T, e, P, Q))
  {
    var T' := Grown(T, e, P, Q);
    forall d | d in A + {e} && d != f
      ensures !Crosses(d, T')
    {
      if d != e {
        assert !Crosses(d, T) && !Crosses(d, P) && !Crosses(d, Q);
      }
    }
    assert !Crosses(f, P) && !Crosses(f, Q);
  }

  lemma TopElsewhere(C: set<Tx>, A: set<Dep>, e: Dep, f: Dep, T: set<Tx>)
    requires IsTop(C, A, f, T) && e.par !in C && e.chl !in C
    ensures IsTop(C, A + {e}, f, T)
  {
  }

  lemma ConnectedMore(C: set<Tx>, A: set<Dep>, e: Dep)
    requires Connected(C, A)
    ensures Connected(C, A + {e})
  {
    forall S | ProperPart(S, C)
      ensures exists d :: d in A + {e} && Crosses(d, S)
    {
      var d :| d in A && Crosses(d, S);
      assert d in A + {e};
    }
  }

  /** Activating an inactive dependency between two chunks joins them, and the forest stays one. */
  lemma ForestActivate(g: Cluster, home: Homes, A: set<Dep>, e: Dep)
    requires Forest(g, home, A) && e in g.deps && home[e.par] != home[e.chl]
    ensures Forest(g, Joined(home, home[e.par], home[e.chl]), A + {e})
    ensures IsTop(Chunk(Joined(home, home[e.par], home[e.chl]), home[e.chl]), A + {e}, e, Chunk(home, home[e.par]))
  {
    var i, j := home[e.par], home[e.chl];
    var home', A' := Joined(home, i, j), A + {e};
    var P, Q := Chunk(home, i), Chunk(home, j);
    JoinedChunks(home, i, j);
    ActiveStayInside(g, home, A, i);
    ActiveStayInside(g, home, A, j);
    forall k | k in home'.Values
      ensures Connected(Chunk(home', k), A')
    {
      if k == j {
        ConnectedJoin(P, Q, A, e);
      } else {
        ConnectedMore(Chunk(home, k), A, e);
      }
    }
    assert IsTop(P + Q, A', e, P);
    forall d | d in A'
      ensures HasTop(Chunk(home', home'[d.par]), A', d)
    {
      if d != e {
        var k := home[d.par];
        var T :| IsTop(Chunk(home, k), A, d, T);
        if k == i || k == j {
          TopGrows(P, Q, A, e, d, T);
          assert IsTop(Chunk(home', home'[d.par]), A', d, Grown(T, e, P, Q));
        } else {
          TopElsewhere(Chunk(home, k), A, e, d, T);
          assert IsTop(Chunk(home', home'[d.par]), A', d, T);
        }
      }
    }
  }

  // ---------- deactivating a dependency ----------

  /** Both sides of the cut of a deactivated dependency are connected. */
  lemma ConnectedSplit(C: set<Tx>, A: set<Dep>, e: Dep, T: set<Tx>)
    requires Connected(C, A) && NoneLeaves(A, C) && e.chl in C && IsTop(C, A, e, T)
    ensures Connected(T, A - {e}) && Connected(C - T, A - {e})
  {
    forall S | ProperPart(S, T)
      ensures exists d :: d in A - {e} && Crosses(d, S)
    {
      var S' := if e.par in S then T - S else S;
      assert ProperPart(S', C) && e.par !in S' && e.chl !in S';
      var d :| d in A && Crosses(d, S');
      assert !Crosses(d, T);
      assert d in A - {e} && Crosses(d, S);
    }
    var B := C - T;
    forall S | ProperPart(S, B)
      ensures exists d :: d in A - {e} && Crosses(d, S)
    {
      var S' := if e.chl in S then B - S else S;
      assert ProperPart(S', C) && e.par !in S' && e.chl !in S';
      var d :| d in A && Crosses(d, S');
      assert !Crosses(d, T) && !Crosses(d, C);
      assert d in A - {e} && Crosses(d, S);
    }
  }

  /** What becomes of the top set of a dependency on the side `own` when `e`, the end of which on
      that side is `end`, stops linking it to the side `other`. */
  ghost function Shrunk(U: set<Tx>, end: Tx, other: set<Tx>): set<Tx> {
    if end in U then U - other else U
  }

  /** Top sets on the parent's side lose the whole other side when they hold the parent, and hold
      nothing of it otherwise. */
  lemma TopShrinksAbove(C: set<Tx>, A: set<Dep>, e: Dep, T: set<Tx>, f: Dep, U: set<Tx>)
    requires Connected(C, A) && NoneLeaves(A, C) && e in A && e.chl in C && IsTop(C, A, e, T)
    requires f in A && f != e && f.par in T && IsTop(C, A, f, U)
    ensures IsTop(T, A - {e}, f, Shrunk(U, e.par, C - T))
    ensures if e.par in U then C - T <= U else (C - T) !! U
  {
    var B := C - T;
    ConnectedSplit(C, A, e, T);
    assert !Crosses(e, U) && !Crosses(f, T);
    var S := U * B;
    forall d | d in A - {e}
      ensures !Crosses(d, S)
    {
      assert !Crosses(d, T) && !Crosses(d, C);
    }
    assert !ProperPart(S, B);
    assert e.chl in B && (e.chl in S <==> e.par in U);
    if e.par in U {
      assert S == B;
      assert forall t :: t in B ==> t in S;
    } else {
      assert S != B;
      assert S == {};
      assert forall t :: t in U && t in B ==> t in S;
    }
    forall d | d in A - {e} && d != f
      ensures !Crosses(d, Shrunk(U, e.par, B))
    {
      assert !Crosses(d, T) && !Crosses(d, C) && !Crosses(d, U);
    }
  }

  lemma TopShrinksBelow(C: set<Tx>, A: set<Dep>, e: Dep, T: set<Tx>, f: Dep, U: set<Tx>)
    requires Connected(C, A) && NoneLeaves(A, C) && e in A && e.chl in C && IsTop(C, A, e, T)
    requires f in A && f != e && f.par in C - T && IsTop(C, A, f, U)
    ensures IsTop(C - T, A - {e}, f, Shrunk(U, e.chl, T))
    ensures if e.chl in U then T <= U else T !! U
  {
    ConnectedSplit(C, A, e, T);
    assert !Crosses(e, U) && !Crosses(f, T) && !Crosses(f, C);
    var S := U * T;
    forall d | d in A - {e}
      ensures !Crosses(d, S)
    {
      assert !Crosses(d, T) && !Crosses(d, C);
    }
    assert !ProperPart(S, T);
    assert e.par in T && (e.par in S <==> e.chl in U);
    if e.chl in U {
      assert S == T;
      assert forall t :: t in T ==> t in S;
    } else {
      assert S != T;
      assert S == {};
      assert forall t :: t in U && t in T ==> t in S;
    }
    forall d | d in A - {e} && d != f
      ensures !Crosses(d, Shrunk(U, e.chl, T))
    {
      assert !Crosses(d, T) && !Crosses(d, C) && !Crosses(d, U);
    }
  }

  lemma ConnectedElsewhere(C: set<Tx>, A: set<Dep>, e: Dep)
    requires Connected(C, A) && e.par !in C && e.chl !in C
    ensures Connected(C, A - {e})
  {
    forall S | ProperPart(S, C)
      ensures exists d :: d in A - {e} && Crosses(d, S)
    {
      var d :| d in A && Crosses(d, S);
      assert d in A - {e};
    }
  }

  /** Deactivating a dependency splits its chunk in exactly two, and the forest stays one. */
  lemma ForestDeactivate(g: Cluster, home: Homes, A: set<Dep>, e: Dep, T: set<Tx>, i: Tx)
    requires Forest(g, home, A) && e in A && IsTop(Chunk(home, home[e.par]), A, e, T) && i !in home.Values
    ensures Forest(g, Moved(home, T, i), A - {e})
  {
    var j := home[e.par];
    var home', A' := Moved(home, T, i), A - {e};
    var C := Chunk(home, j);
    assert e.chl in C;
    MovedChunks(home, T, i, j);
    ActiveStayInside(g, home, A, j);
    forall k | k in home'.Values
      ensures Connected(Chunk(home', k), A')
    {
      if k == i || k == j {
        ConnectedSplit(C, A, e, T);
      } else {
        ConnectedElsewhere(Chunk(home, k), A, e);
      }
    }
    forall d | d in A'
      ensures home'[d.par] == home'[d.chl]
      ensures HasTop(Chunk(home', home'[d.par]), A', d)
    {
      assert !Crosses(d, T);
      var U :| IsTop(Chunk(home, home[d.par]), A, d, U);
      if d.par in T {
        TopShrinksAbove(C, A, e, T, d, U);
        assert IsTop(Chunk(home', i), A', d, Shrunk(U, e.par, C - T));
      } else if d.par in C {
        TopShrinksBelow(C, A, e, T, d, U);
        assert IsTop(Chunk(home', j), A', d, Shrunk(U, e.chl, T));
      } else {
        assert IsTop(Chunk(home', home[d.par]), A', d, U);
      }
    }
  }

  // ---------- sets connected by the dependencies inside them ----------

  ghost function Within(A: set<Dep>, C: set<Tx>): set<Dep> {
    set d | d in A && d.par in C && d.chl in C
  }

  /** `C` is connected by those dependencies of `A` that have both ends in it. */
  ghost predicate ConnectedBy(C: set<Tx>, A: set<Dep>) {
    Connected(C, Within(A, C))
  }

  lemma ConnectedByMore(C: set<Tx>, A: set<Dep>, A': set<Dep>)
    requires Connected(C, A) && A <= A'
    ensures Connected(C, A')
  {
    forall S | ProperPart(S, C)
      ensures exists d :: d in A' && Crosses(d, S)
    {
      var d :| d in A && Crosses(d, S);
      assert d in A';
    }
  }

  /** Two connected sets with a dependency between them make one. */
  lemma ConnectedUnion(P: set<Tx>, Q: set<Tx>, A: set<Dep>, e: Dep)
    requires ConnectedBy(P, A) && ConnectedBy(Q, A) && P !! Q && e in A && e.par in P && e.chl in Q
    ensures ConnectedBy(P + Q, A)
  {
    var A0 := Within(A, P) + Within(A, Q);
    ConnectedByMore(P, Within(A, P), A0);
    ConnectedByMore(Q, Within(A, Q), A0);
    ConnectedJoin(P, Q, A0, e);
    ConnectedByMore(P + Q, A0 + {e}, Within(A, P + Q));
  }
}
