/** Splitting chunks into parts of equal feerate until none can be split. */
module Minimality {
  import opened Clusters
  import opened Forests
  import opened Optimality

  /** `S` contains the parents, within `C`, of its members. */
  ghost predicate ClosedIn(g: Cluster, C: set<Tx>, S: set<Tx>) {
    forall d :: d in g.deps && d.chl in S && d.par in C ==> d.par in S
  }

  /** A proper part of chunk `C` that could come before the rest of it, with the same feerate. */
  ghost predicate EqualPart(g: Cluster, C: set<Tx>, S: set<Tx>) {
    && C <= g.txs && ProperPart(S, C) && ClosedIn(g, C, S)
    && R(g, S) == R(g, C)
  }

  ghost predicate MinimalChunk(g: Cluster, C: set<Tx>) {
    forall S :: !EqualPart(g, C, S)
  }

  /** No such part contains the pivot (or, if not `inside`, lacks it). */
  ghost predicate NoPartWithPivot(g: Cluster, C: set<Tx>, pivot: Tx, inside: bool) {
    forall S | EqualPart(g, C, S) :: (pivot in S) != inside
  }

  lemma BothSidesMinimal(g: Cluster, C: set<Tx>, pivot: Tx)
    requires NoPartWithPivot(g, C, pivot, true) && NoPartWithPivot(g, C, pivot, false)
    ensures MinimalChunk(g, C)
  {
    forall S
      ensures !EqualPart(g, C, S)
    {
      assert EqualPart(g, C, S) ==> (pivot in S) != true && (pivot in S) != false;
    }
  }

  /** `t` is on the other side of the pivot's, for all dependencies leaving `S`. */
  ghost predicate BeyondAll(C: set<Tx>, A: set<Dep>, S: set<Tx>, t: Tx, inside: bool) {
    forall f, U | f in Leaving(A, C, S) && IsTop(C, A, f, U) :: (t in U) != inside
  }

  /** Some dependency leaving `S` has the pivot on the side on which `S` has it. */
  lemma PivotSide(C: set<Tx>, A: set<Dep>, S: set<Tx>, pivot: Tx) returns (e: Dep, T: set<Tx>)
    requires Tree(C, A) && ProperPart(S, C) && pivot in C && ClosedUnder(A, S)
    ensures e in Leaving(A, C, S) && IsTop(C, A, e, T) && (pivot in T <==> pivot in S)
  {
    var inside := pivot in S;
    var Z := set t | t in C && (t in S) == inside && BeyondAll(C, A, S, t, inside);
    forall d | d in A
      ensures !Crosses(d, Z)
    {
      assert !Crosses(d, C);
      if d.par in C {
        if Crosses(d, S) {
          assert d in Leaving(A, C, S);
          var U :| IsTop(C, A, d, U);
          assert (d.par in U) != (d.chl in U);
        } else {
          BeyondStep(C, A, S, d, inside);
        }
      }
    }
    assert !ProperPart(Z, C);
    var u :| u in C && (u in S) != inside;
    assert u !in Z;
    assert Z == {};
    assert pivot !in Z;
    assert !BeyondAll(C, A, S, pivot, inside);
    e, T :| e in Leaving(A, C, S) && IsTop(C, A, e, T) && (pivot in T) == inside;
  }

  lemma BeyondStep(C: set<Tx>, A: set<Dep>, S: set<Tx>, d: Dep, inside: bool)
    requires d in A && !Crosses(d, S)
    ensures BeyondAll(C, A, S, d.par, inside) <==> BeyondAll(C, A, S, d.chl, inside)
  {
    forall f, U | f in Leaving(A, C, S) && IsTop(C, A, f, U)
      ensures d.par in U <==> d.chl in U
    {
      assert !Crosses(d, U);
    }
  }

  /** When no top set with the chunk's feerate has the pivot on the wanted side, no equal part of the
      chunk has. */
  lemma PivotCertificate(g: Cluster, C: set<Tx>, A: set<Dep>, pivot: Tx, inside: bool)
    requires C <= g.txs && Tree(C, A) && A <= g.deps && NoTopBeats(g, C, A, R(g, C)) && pivot in C
    requires forall e, T | e in A && IsTop(C, A, e, T) && GainOf(g, T, R(g, C)) == 0.0 :: (pivot in T) != inside
    ensures NoPartWithPivot(g, C, pivot, inside)
  {
    forall S | EqualPart(g, C, S)
      ensures (pivot in S) != inside
    {
      GainAtRate(g, C, R(g, C));
      GainAtRate(g, S, R(g, C));
      forall d | d in A && d.chl in S
        ensures d.par in S
      {
        assert !Crosses(d, C);
      }
      var e, T := PivotSide(C, A, S, pivot);
      ClosedPartPays(g, C, A, S, R(g, C));
    }
  }

  // ---------- splitting a chunk into parts of its own feerate ----------


  lemma EqualSplitRates(g: Cluster, C: set<Tx>, T: set<Tx>)
    requires C <= g.txs && ProperPart(T, C) && R(g, T) == R(g, C)
    ensures C - T != {} && R(g, C - T) == R(g, C)
    ensures GainOf(g, T, R(g, C)) == 0.0 && GainOf(g, C - T, R(g, C)) == 0.0 && GainOf(g, C, R(g, C)) == 0.0
  {
    var B := C - T;
    assert T + B == C;
    GainAtRate(g, C, R(g, C));
    GainAtRate(g, T, R(g, C));
    GainUnion(g, T, B, R(g, C));
    GainAtRate(g, B, R(g, C));
  }

  /** An equal part of the bottom, together with the top, is one of the whole. */
  lemma BottomInherits(g: Cluster, C: set<Tx>, T: set<Tx>, pivot: Tx)
    requires EqualPart(g, C, T) && pivot in C - T && NoPartWithPivot(g, C, pivot, true)
    ensures NoPartWithPivot(g, C - T, pivot, true)
  {
    var B := C - T;
    EqualSplitRates(g, C, T);
    forall S | EqualPart(g, B, S)
      ensures pivot !in S
    {
      var W := S + T;
      assert ProperPart(W, C);
      forall d | d in g.deps && d.chl in W && d.par in C
        ensures d.par in W
      {
      }
      GainAtRate(g, S, R(g, C));
      GainUnion(g, S, T, R(g, C));
      GainAtRate(g, W, R(g, C));
      assert EqualPart(g, C, W);
    }
  }

  /** An equal part of the top is one of the whole. */
  lemma TopInherits(g: Cluster, C: set<Tx>, T: set<Tx>, pivot: Tx)
    requires EqualPart(g, C, T) && pivot in T && NoPartWithPivot(g, C, pivot, false)
    ensures NoPartWithPivot(g, T, pivot, false)
  {
    forall S | EqualPart(g, T, S)
      ensures pivot in S
    {
      assert ProperPart(S, C);
      forall d | d in g.deps && d.chl in S && d.par in C
        ensures d.par in S
      {
      }
      assert EqualPart(g, C, S);
    }
  }

  /** Cutting off a side that pays exactly `theta` leaves top sets paying at most `theta`. */
  lemma SplitKeepsTops(g: Cluster, C: set<Tx>, A: set<Dep>, e: Dep, T: set<Tx>, theta: real)
    requires C <= g.txs && Tree(C, A) && NoTopBeats(g, C, A, theta) && e in A && IsTop(C, A, e, T)
    requires GainOf(g, T, theta) == 0.0 && GainOf(g, C - T, theta) == 0.0
    ensures NoTopBeats(g, T, A - {e}, theta) && NoTopBeats(g, C - T, A - {e}, theta)
  {
    var B := C - T;
    assert !Crosses(e, C) && e.chl in C;
    ConnectedSplit(C, A, e, T);
    forall f, W | f in A - {e} && (IsTop(T, A - {e}, f, W) || IsTop(B, A - {e}, f, W))
      ensures GainOf(g, W, theta) <= 0.0
    {
      assert f.par in C && !Crosses(f, C) && !Crosses(f, T);
      var U :| IsTop(C, A, f, U);
      if IsTop(T, A - {e}, f, W) {
        TopShrinksAbove(C, A, e, T, f, U);
        TopUnique(T, A - {e}, f, W, Shrunk(U, e.par, B));
        if e.par in U {
          GainUnion(g, U - B, B, theta);
          assert (U - B) + B == U;
        }
      } else {
        TopShrinksBelow(C, A, e, T, f, U);
        TopUnique(B, A - {e}, f, W, Shrunk(U, e.chl, T));
        if e.chl in U {
          GainUnion(g, U - T, T, theta);
          assert (U - T) + T == U;
        }
      }
    }
  }

  /** Joining two sides that pay exactly `theta` leaves top sets paying at most `theta`. */
  lemma JoinKeepsTops(g: Cluster, P: set<Tx>, Q: set<Tx>, A: set<Dep>, e: Dep, theta: real)
    requires P <= g.txs && Q <= g.txs && P !! Q && Tree(P, A) && Tree(Q, A)
    requires NoTopBeats(g, P, A, theta) && NoTopBeats(g, Q, A, theta)
    requires GainOf(g, P, theta) == 0.0 && GainOf(g, Q, theta) == 0.0
    requires e.par in P && e.chl in Q
    ensures NoTopBeats(g, P + Q, A + {e}, theta)
  {
    ConnectedJoin(P, Q, A, e);
    forall f, W | f in A + {e} && IsTop(P + Q, A + {e}, f, W)
      ensures GainOf(g, W, theta) <= 0.0
    {
      if f == e {
        assert IsTop(P + Q, A + {e}, e, P);
        TopUnique(P + Q, A + {e}, e, W, P);
      } else {
        assert f.par in P + Q;
        assert !Crosses(f, P) && !Crosses(f, Q);
        var U :| if f.par in P then IsTop(P, A, f, U) else IsTop(Q, A, f, U);
        TopGrows(P, Q, A, e, f, U);
        TopUnique(P + Q, A + {e}, f, W, Grown(U, e, P, Q));
        if e.par in U {
          GainUnion(g, U, Q, theta);
        } else if e.chl in U {
          GainUnion(g, U, P, theta);
        }
      }
    }
  }

  lemma EqualSplitUnsplittable(g: Cluster, home: Homes, A: set<Dep>, e: Dep, T: set<Tx>, i: Tx, k: Tx)
    requires Forest(g, home, A) && AllUnsplittable(g, home, A) && e in A && i !in home.Values
    requires IsTop(Chunk(home, home[e.par]), A, e, T) && R(g, T) == ChunkRate(g, home, home[e.par])
    requires k in Moved(home, T, i).Values
    ensures Unsplittable(g, Moved(home, T, i), A - {e}, k)
  {
    var j, home' := home[e.par], Moved(home, T, i);
    var C := Chunk(home, j);
    assert e.chl in C;
    assert ProperPart(T, C);
    MovedChunks(home, T, i, j);
    if k == i || k == j {
      EqualSplitRates(g, C, T);
      ChunkIsTree(g, home, A, j);
      assert Unsplittable(g, home, A, j);
      SplitKeepsTops(g, C, A, e, T, R(g, C));
    } else {
      UnsplittableElsewhere(g, home, A, home', A - {e}, k);
    }
  }

  lemma EqualSplitAllUnsplittable(g: Cluster, home: Homes, A: set<Dep>, e: Dep, T: set<Tx>, i: Tx)
    requires Forest(g, home, A) && AllUnsplittable(g, home, A) && e in A && i !in home.Values
    requires IsTop(Chunk(home, home[e.par]), A, e, T) && R(g, T) == ChunkRate(g, home, home[e.par])
    ensures AllUnsplittable(g, Moved(home, T, i), A - {e})
  {
    forall k | k in Moved(home, T, i).Values
      ensures Unsplittable(g, Moved(home, T, i), A - {e}, k)
    {
      EqualSplitUnsplittable(g, home, A, e, T, i, k);
    }
  }

  lemma EqualJoinUnsplittable(g: Cluster, home: Homes, A: set<Dep>, e: Dep, i: Tx, j: Tx, k: Tx)
    requires Forest(g, home, A) && AllUnsplittable(g, home, A) && e in g.deps
    requires home[e.par] == j && home[e.chl] == i && i != j
    requires ChunkRate(g, home, i) == ChunkRate(g, home, j)
    requires k in Joined(home, j, i).Values
    ensures Unsplittable(g, Joined(home, j, i), A + {e}, k)
  {
    var home' := Joined(home, j, i);
    JoinedChunks(home, j, i);
    if k == i {
      var P, Q, rho := Chunk(home, j), Chunk(home, i), ChunkRate(g, home, i);
      ChunkIsTree(g, home, A, i);
      ChunkIsTree(g, home, A, j);
      assert Unsplittable(g, home, A, i) && Unsplittable(g, home, A, j);
      GainAtRate(g, P, rho);
      GainAtRate(g, Q, rho);
      RateOfUnion(g, P, Q);
      JoinKeepsTops(g, P, Q, A, e, rho);
    } else {
      UnsplittableElsewhere(g, home, A, home', A + {e}, k);
    }
  }

  lemma EqualJoinAllUnsplittable(g: Cluster, home: Homes, A: set<Dep>, e: Dep, i: Tx, j: Tx)
    requires Forest(g, home, A) && AllUnsplittable(g, home, A) && e in g.deps
    requires home[e.par] == j && home[e.chl] == i && i != j
    requires ChunkRate(g, home, i) == ChunkRate(g, home, j)
    ensures AllUnsplittable(g, Joined(home, j, i), A + {e})
  {
    forall k | k in Joined(home, j, i).Values
      ensures Unsplittable(g, Joined(home, j, i), A + {e}, k)
    {
      EqualJoinUnsplittable(g, home, A, e, i, j, k);
    }
  }

  /** Splitting into equal-feerate parts does not change the diagram. */
  lemma EqualSplitDiagram(g: Cluster, home: Homes, i: Tx, j: Tx, T: set<Tx>, theta: real)
    requires home.Keys == g.txs && j in home.Values && i !in home.Values && ProperPart(T, Chunk(home, j))
    requires R(g, T) == ChunkRate(g, home, j)
    ensures Diagram(g, Moved(home, T, i), theta) == Diagram(g, home, theta)
  {
    var home', C := Moved(home, T, i), Chunk(home, j);
    MovedChunks(home, T, i, j);
    EqualSplitRates(g, C, T);
    assert T + (C - T) == C;
    DiagramOneTwo(g, home, home', i, j, theta);
    GainAtRate(g, C, theta);
    GainAtRate(g, T, theta);
    GainAtRate(g, C - T, theta);
  }

  // ---------- the queue of chunks that may not be minimal ----------

  /** A chunk to be split further, with a pivot in it: whether to look for parts with the pivot below
      rather than above, and whether the other direction has been tried already. */
  datatype Pending = Pending(chunk: Tx, pivot: Tx, down: bool, second: bool)

  ghost predicate EntryOk(g: Cluster, home: Homes, p: Pending) {
    && p.pivot in home && home[p.pivot] == p.chunk
    && (p.second ==> NoPartWithPivot(g, Chunk(home, p.chunk), p.pivot, p.down))
  }

  ghost predicate InPending(pending: seq<Pending>, i: Tx) {
    exists n :: 0 <= n < |pending| && pending[n].chunk == i
  }

  /** Every chunk is minimal or in the queue, once. */
  ghost predicate PendingOk(g: Cluster, home: Homes, pending: seq<Pending>) {
    && home.Keys == g.txs
    && (forall n :: 0 <= n < |pending| ==> EntryOk(g, home, pending[n]))
    && (forall m, n :: 0 <= m < n < |pending| ==> pending[m].chunk != pending[n].chunk)
    && (forall i :: i in home.Values ==> InPending(pending, i) || MinimalChunk(g, Chunk(home, i)))
  }

  ghost function PendingChunks(pending: seq<Pending>): set<Tx> {
    set n | 0 <= n < |pending| :: pending[n].chunk
  }

  lemma PendingChunksOneTwo(a: Pending, b: Pending)
    ensures PendingChunks([a]) == {a.chunk} && PendingChunks([a, b]) == {a.chunk, b.chunk}
  {
    assert [a][0] == a && [a, b][0] == a && [a, b][1] == b;
  }

  /** The first chunk of the queue was replaced by the chunks of `news`. */
  lemma PendingReplace(g: Cluster, home: Homes, home': Homes, pending: seq<Pending>, news: seq<Pending>)
    requires PendingOk(g, home, pending) && pending != [] && home'.Keys == g.txs
    requires var j := pending[0].chunk;
             && home'.Values == home.Values - {j} + PendingChunks(news)
             && PendingChunks(news) !! (home.Values - {j})
             && (forall k :: k in home.Values && k != j ==> Chunk(home', k) == Chunk(home, k))
    requires forall n :: 0 <= n < |news| ==> EntryOk(g, home', news[n])
    requires forall m, n :: 0 <= m < n < |news| ==> news[m].chunk != news[n].chunk
    ensures PendingOk(g, home', pending[1..] + news)
  {
    var j, pending' := pending[0].chunk, pending[1..] + news;
    forall n | 0 <= n < |pending'|
      ensures EntryOk(g, home', pending'[n])
      ensures n < |pending| - 1 ==> pending'[n].chunk in home.Values - {j}
      ensures n >= |pending| - 1 ==> pending'[n].chunk in PendingChunks(news)
    {
      if n < |pending| - 1 {
        var p := pending[n + 1];
        assert EntryOk(g, home, p) && p == pending'[n];
        assert p.pivot in Chunk(home, p.chunk);
      } else {
        assert pending'[n] == news[n - (|pending| - 1)];
      }
    }
    forall i | i in home'.Values
      ensures InPending(pending', i) || MinimalChunk(g, Chunk(home', i))
    {
      if i in PendingChunks(news) {
        var n :| 0 <= n < |news| && news[n].chunk == i;
        assert pending'[|pending| - 1 + n].chunk == i;
      } else if InPending(pending, i) {
        var n :| 0 <= n < |pending| && pending[n].chunk == i;
        assert pending'[n - 1].chunk == i;
      }
    }
  }

  /** The first chunk of the queue is minimal. */
  lemma PendingDrop(g: Cluster, home: Homes, pending: seq<Pending>)
    requires PendingOk(g, home, pending) && pending != [] && MinimalChunk(g, Chunk(home, pending[0].chunk))
    ensures PendingOk(g, home, pending[1..])
  {
    forall i | i in home.Values
      ensures InPending(pending[1..], i) || MinimalChunk(g, Chunk(home, i))
    {
      if InPending(pending, i) && i != pending[0].chunk {
        var n :| 0 <= n < |pending| && pending[n].chunk == i;
        assert pending[1..][n - 1].chunk == i;
      }
    }
  }
}
