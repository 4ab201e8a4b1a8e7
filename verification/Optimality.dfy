/** Why a state without splittable dependencies is optimal. */
module Optimality {
  import opened FiniteSets
  import opened FeeRates
  import opened Clusters
  import opened Forests

  /** `S` holds the parents of its members, along the dependencies of `A`. */
  ghost predicate ClosedUnder(A: set<Dep>, S: set<Tx>) {
    forall d :: d in A && d.chl in S ==> d.par in S
  }

  /** No active dependency of chunk `C` has a top set paying more than `theta`. */
  ghost predicate NoTopBeats(g: Cluster, C: set<Tx>, A: set<Dep>, theta: real)
    requires C <= g.txs
  {
    forall e, T | e in A && IsTop(C, A, e, T) :: GainOf(g, T, theta) <= 0.0
  }

  ghost function Leaving(A: set<Dep>, C: set<Tx>, S: set<Tx>): set<Dep> {
    set d | d in A && d.par in C && Crosses(d, S)
  }

  ghost predicate Tree(C: set<Tx>, A: set<Dep>) {
    && C != {}
    && Connected(C, A)
    && NoneLeaves(A, C)
    && (forall d :: d in A && d.par in C ==> HasTop(C, A, d))
  }

  /** The flow argument. In a tree whose chunk pays exactly `theta` and none of whose top sets pays
      more, a part closed under the active dependencies pays at most `theta`, and at most as much as
      the top set of any dependency leaving it. */
  lemma {:induction false} ClosedPartPays(g: Cluster, C: set<Tx>, A: set<Dep>, S: set<Tx>, theta: real)
    requires C <= g.txs && Tree(C, A) && NoTopBeats(g, C, A, theta) && GainOf(g, C, theta) == 0.0
    requires S <= C && ClosedUnder(A, S)
    ensures GainOf(g, S, theta) <= 0.0
    ensures forall e, T | e in Leaving(A, C, S) && IsTop(C, A, e, T) :: GainOf(g, S, theta) <= GainOf(g, T, theta)
    decreases |Leaving(A, C, S)|
  {
    if S == {} || S == C {
      assert GainOf(g, {}, theta) == 0.0;
    } else {
      assert ProperPart(S, C);
      var d :| d in A && Crosses(d, S);
      assert !Crosses(d, C);
      assert d in Leaving(A, C, S);
      var U :| IsTop(C, A, d, U);
    }
    forall e, T | e in Leaving(A, C, S) && IsTop(C, A, e, T)
      ensures GainOf(g, S, theta) <= GainOf(g, T, theta) <= 0.0
    {
      ClosedPartStep(g, C, A, S, theta, e, T);
    }
  }

  /** Cut the tree at a dependency `e` leaving `S`: what `S` keeps below, and what it keeps above
      together with everything below, are closed and have fewer dependencies leaving them. */
  lemma {:induction false} ClosedPartStep(g: Cluster, C: set<Tx>, A: set<Dep>, S: set<Tx>, theta: real, e: Dep,
      T: set<Tx>)
    requires C <= g.txs && Tree(C, A) && NoTopBeats(g, C, A, theta) && GainOf(g, C, theta) == 0.0
    requires S <= C && ClosedUnder(A, S) && e in Leaving(A, C, S) && IsTop(C, A, e, T)
    ensures GainOf(g, S, theta) <= GainOf(g, T, theta) <= 0.0
    decreases |Leaving(A, C, S)|, 0
  {
    var B := C - T;
    assert e.par in S && e.chl !in S;
    var above, below := S * T + B, S * B;
    assert !Crosses(e, C) && e.chl in B;
    forall d | d in A
      ensures d.chl in above ==> d.par in above
      ensures d.chl in below ==> d.par in below
      ensures Crosses(d, above) ==> d != e && Crosses(d, S)
      ensures Crosses(d, below) ==> d != e && Crosses(d, S)
    {
      assert !Crosses(d, C);
      if d != e {
        assert !Crosses(d, T);
      }
    }
    assert Leaving(A, C, above) < Leaving(A, C, S) by {
      assert e !in Leaving(A, C, above);
    }
    assert Leaving(A, C, below) < Leaving(A, C, S) by {
      assert e !in Leaving(A, C, below);
    }
    FewerElements(Leaving(A, C, above), Leaving(A, C, S));
    FewerElements(Leaving(A, C, below), Leaving(A, C, S));
    ClosedPartPays(g, C, A, above, theta);
    ClosedPartPays(g, C, A, below, theta);
    GainUnion(g, S * T, B, theta);
    GainUnion(g, S * T, below, theta);
    GainUnion(g, T, B, theta);
    assert S * T + below == S;
    assert T + B == C;
  }

  /** A part paying at most the chunk's own feerate pays, beyond any other threshold, at most what
      the diagram grants the chunk. */
  lemma PartUnderChunk(g: Cluster, C: set<Tx>, S: set<Tx>, theta: real)
    requires S <= C <= g.txs && C != {}
    requires GainOf(g, S, R(g, C)) <= 0.0
    ensures GainOf(g, S, theta) <= Positive(GainOf(g, C, theta))
  {
    TotalDifference(g, S, C);
    var rho, s, c := R(g, C), Total(g, S).size as real, Total(g, C).size as real;
    assert 0.0 <= s <= c by {
      assert Total(g, C - S).size >= 0;
    }
    GainAtRate(g, C, rho);
    assert GainOf(g, C, theta) == GainOf(g, C, rho) + (rho - theta) * c;
    assert GainOf(g, S, theta) == GainOf(g, S, rho) + (rho - theta) * s;
    if rho > theta {
      assert (rho - theta) * s <= (rho - theta) * c;
    } else {
      assert (rho - theta) * s <= 0.0;
    }
  }

  /** No active dependency of chunk `i` has a top set with a higher feerate than the chunk. */
  ghost predicate Unsplittable(g: Cluster, home: Homes, A: set<Dep>, i: Tx)
    requires home.Keys == g.txs && i in home.Values
  {
    NoTopBeats(g, Chunk(home, i), A, ChunkRate(g, home, i))
  }

  ghost predicate AllUnsplittable(g: Cluster, home: Homes, A: set<Dep>)
    requires home.Keys == g.txs
  {
    forall i :: i in home.Values ==> Unsplittable(g, home, A, i)
  }

  lemma ChunkIsTree(g: Cluster, home: Homes, A: set<Dep>, i: Tx)
    requires Forest(g, home, A) && i in home.Values
    ensures Tree(Chunk(home, i), A)
  {
    ActiveStayInside(g, home, A, i);
  }

  lemma {:induction false} ClosedSetUnderChunks(g: Cluster, home: Homes, A: set<Dep>, S: set<Tx>, I: set<Tx>,
      theta: real)
    requires Forest(g, home, A) && AllUnsplittable(g, home, A)
    requires S <= g.txs && AncestorClosed(g, S) && I <= home.Values
    ensures GainOf(g, S * Members(home, I), theta) <= DiagramOn(g, home, I, theta)
  {
    if I == {} {
      assert S * Members(home, I) == {};
    } else {
      var i := Any(I);
      var C := Chunk(home, i);
      ClosedSetUnderChunks(g, home, A, S, I - {i}, theta);
      DiagramPick(g, home, I, i, theta);
      ChunkIsTree(g, home, A, i);
      GainAtRate(g, C, R(g, C));
      assert ClosedUnder(A, S * C) by {
        forall d | d in A
          ensures !Crosses(d, C)
        {
        }
      }
      assert Unsplittable(g, home, A, i);
      ClosedPartPays(g, C, A, S * C, R(g, C));
      PartUnderChunk(g, C, S * C, theta);
      GainUnion(g, S * Members(home, I - {i}), S * C, theta);
      assert S * Members(home, I - {i}) + S * C == S * Members(home, I);
    }
  }

  /** The optimality certificate: beyond no threshold does an ancestor-closed set, and so a prefix of
      a valid linearization, pay more than the diagram of a state none of whose chunks can be split. */
  lemma OptimalityCertificate(g: Cluster, home: Homes, A: set<Dep>, S: set<Tx>, theta: real)
    requires Forest(g, home, A) && AllUnsplittable(g, home, A)
    requires S <= g.txs && AncestorClosed(g, S)
    ensures GainOf(g, S, theta) <= Diagram(g, home, theta)
  {
    ClosedSetUnderChunks(g, home, A, S, home.Values, theta);
    assert S * Members(home, home.Values) == S;
  }

  /** Whether a chunk can be split depends only on the active dependencies in it. */
  lemma UnsplittableElsewhere(g: Cluster, home: Homes, A: set<Dep>, home': Homes, A': set<Dep>, i: Tx)
    requires home.Keys == g.txs && home'.Keys == g.txs && i in home.Values && i in home'.Values
    requires Chunk(home, i) == Chunk(home', i)
    requires forall d: Dep :: d.par in Chunk(home, i) || d.chl in Chunk(home, i) ==> (d in A <==> d in A')
    requires Unsplittable(g, home, A, i)
    ensures Unsplittable(g, home', A', i)
  {
    var C := Chunk(home, i);
    forall e, T | e in A' && IsTop(C, A', e, T)
      ensures GainOf(g, T, ChunkRate(g, home, i)) <= 0.0
    {
      assert e in A;
      assert IsTop(C, A, e, T);
    }
  }
}
