/** Postlinearization is optimal for graphs that have the shape of a tree, in either direction. */
module TreeShapes {
  import opened FiniteSets
  import opened Clusters
  import opened Linearizations
  import opened DepGraphs
  import opened Chunking
  import opened GroupLists
  import opened Mirrors
  import opened PostLinearization

  // ---------- the shape ----------

  /** Every transaction has at most one direct child (or parent). */
  ghost predicate AtMostOne(d: GraphData, down: bool)
    requires ValidGraph(d)
  {
    forall p, a, b :: p in d.used && a in Direct(d, p, down) && b in Direct(d, p, down) ==> a == b
  }

  /** A tree shape, as seen from the front. */
  ghost predicate ForwardTree(d: GraphData) {
    ValidGraph(d) && AcyclicGraph(d) && AtMostOne(d, true)
  }

  lemma MirroredAcyclic(d: GraphData)
    requires ValidGraph(d) && ValidGraph(Mirrored(d)) && AcyclicGraph(d)
    ensures AcyclicGraph(Mirrored(d))
  {
    var r := Mirrored(d);
    forall i, j | i in r.used && j in r.used && i in Anc(r, j) && j in Anc(r, i)
      ensures i == j
    {
      assert Inverse(d, i, j) && Inverse(d, j, i);
    }
  }

  /** Upside down, direct children are direct parents. */
  lemma MirroredDirect(d: GraphData, i: Tx, down: bool)
    requires ValidGraph(d) && ValidGraph(Mirrored(d)) && i in d.used
    ensures Direct(Mirrored(d), i, down) == Direct(d, i, !down)
  {
    hide Closed;
    var r := Mirrored(d);
    forall q | q in d.used
      ensures Related(r, q, down) == Related(d, q, !down)
    {
      assert r.entries[q] == MirroredEntry(d.entries[q]);
    }
    forall p
      ensures NothingBetween(r, i, p, down) <==> NothingBetween(d, i, p, !down)
    {
    }
  }

  lemma MirroredShape(d: GraphData, down: bool)
    requires ValidGraph(d) && ValidGraph(Mirrored(d)) && AtMostOne(d, down)
    ensures AtMostOne(Mirrored(d), !down)
  {
    hide ValidGraph, Direct;
    forall p | p in d.used
      ensures Direct(Mirrored(d), p, !down) == Direct(d, p, down)
    {
      MirroredDirect(d, p, !down);
    }
  }

  /** Every proper descendant is a descendant of a direct child. */
  lemma DirectBelow(d: GraphData, p: Tx, a: Tx) returns (c: Tx)
    requires ValidGraph(d) && AcyclicGraph(d) && a in d.used && p in Anc(d, a) && p != a
    ensures p in d.used && c in Direct(d, p, true) && c in d.used && c in Anc(d, a)
  {
    MirroredValid(d);
    MirroredAcyclic(d);
    RelatedClosed(d, a, p, false);
    assert Inverse(d, a, p);
    c := DirectAbove(Mirrored(d), p, a);
    MirroredDirect(d, p, false);
    assert Inverse(d, a, c);
  }

  /** With at most one child each, the descendants of a transaction come one below the other. */
  lemma {:induction false} Lineage(d: GraphData, x: Tx, a: Tx, b: Tx)
    requires ValidGraph(d) && AcyclicGraph(d) && AtMostOne(d, true)
    requires a in d.used && b in d.used && x in Anc(d, a) && x in Anc(d, b)
    ensures a in Anc(d, b) || b in Anc(d, a)
    decreases |Anc(d, a)| - |if x < |d.entries| then Anc(d, x) else {}|
  {
    hide Direct, AtMostOne;
    if x != a && x != b {
      var y := DirectBelow(d, x, a);
      var z := DirectBelow(d, x, b);
      OnlyChild(d, x, y, z);
      RelatedClosed(d, a, y, false);
      FewerOrEqual(Anc(d, y), Anc(d, a));
      Lineage(d, y, a, b);
    }
  }

  lemma OnlyChild(d: GraphData, x: Tx, y: Tx, z: Tx)
    requires ValidGraph(d) && AcyclicGraph(d) && AtMostOne(d, true) && x in d.used && y in d.used
    requires y in Direct(d, x, true) && z in Direct(d, x, true)
    ensures y == z && |Anc(d, x)| < |Anc(d, y)|
  {
    DirectMutual(d, x, y);
    ParentSmaller(d, x, y);
  }

  // ---------- what holds of every group ----------

  ghost function Last(c: Group): Tx {
    c[|c| - 1]
  }

  /** All members of the group are ancestors of its last one. */
  ghost predicate Rooted(d: GraphData, c: Group) {
    && ValidGraph(d) && Elems(c) <= d.used && Last(c) in Elems(c)
    && Elems(c) <= Anc(d, Last(c))
  }

  /** A part that contains the ancestors of its members, as far as the whole does. */
  ghost predicate ClosedPart(d: GraphData, C: set<Tx>, T: set<Tx>) {
    && ValidGraph(d) && T <= C <= d.used
    && forall a, c :: c in T && a in C && a in Anc(d, c) ==> a in T
  }

  /** No closed part without the last member pays beyond the threshold. */
  ghost predicate Light(d: GraphData, c: Group, theta: real) {
    && ValidGraph(d) && Elems(c) <= d.used
    && forall T: set<Tx> :: ClosedPart(d, Elems(c), T) && Last(c) !in T ==> GainOf(AsCluster(d), T, theta) <= 0.0
  }

  ghost predicate Tight(d: GraphData, c: Group) {
    Rooted(d, c) && Light(d, c, GroupRate(AsCluster(d), c))
  }

  lemma GainFalls(g: Cluster, S: set<Tx>, rho: real, theta: real)
    requires S <= g.txs && rho <= theta
    ensures GainOf(g, S, theta) <= GainOf(g, S, rho)
  {
    var t := Total(g, S);
    assert (theta - rho) * t.size as real >= 0.0;
    assert theta * t.size as real - rho * t.size as real == (theta - rho) * t.size as real;
  }

  lemma LightHigher(d: GraphData, c: Group, rho: real, theta: real)
    requires Light(d, c, rho) && rho <= theta
    ensures Light(d, c, theta)
  {
    hide ValidGraph, GainOf, Elems;
    forall T: set<Tx> | ClosedPart(d, Elems(c), T) && Last(c) !in T
      ensures GainOf(AsCluster(d), T, theta) <= 0.0
    {
      GainFalls(AsCluster(d), T, rho, theta);
    }
  }

  lemma SingleTight(d: GraphData, t: Tx, theta: real)
    requires ValidGraph(d) && t in d.used
    ensures Tight(d, [t]) && Light(d, [t], theta)
  {
    hide GainOf;
    assert Reflexive(d, t);
    assert Elems([t]) == {t};
    hide Closed;
    forall x: real
      ensures Light(d, [t], x)
    {
      forall T: set<Tx> | ClosedPart(d, Elems([t]), T) && Last([t]) !in T
        ensures GainOf(AsCluster(d), T, x) <= 0.0
      {
        assert T == {};
        NothingPaid(AsCluster(d), x);
      }
    }
  }

  lemma NothingPaid(g: Cluster, theta: real)
    ensures GainOf(g, {}, theta) == 0.0
  {
  }

  // ---------- what merging keeps ----------

  /** The last member of a group that is needed is an ancestor of the last member of the one that needs it. */
  lemma MergedRooted(d: GraphData, A: seq<Tx>, p: Group, c: Group, B: seq<Tx>)
    requires ValidGraph(d) && AcyclicGraph(d) && AtMostOne(d, true)
    requires IsList(AsCluster(d), A + p + c + B) && InOrder(d, A + p + c + B)
    requires Rooted(d, p) && Rooted(d, c) && Needs(d, c, p)
    ensures Rooted(d, p + c)
  {
    hide AcyclicGraph, AtMostOne, Closed;
    var m, n :| 0 <= m < |c| && 0 <= n < |p| && c[m] < |d.entries| && p[n] in Anc(d, c[m]);
    assert c[m] in Elems(c) && p[n] in Elems(p);
    Lineage(d, p[n], c[m], Last(p));
    var L := A + p + c + B;
    assert L[|A| + |p| - 1] == Last(p) && L[|A| + |p| + m] == c[m];
    assert Last(p) in Anc(d, c[m]);
    RelatedClosed(d, Last(c), c[m], false);
    RelatedClosed(d, Last(c), Last(p), false);
    assert Last(p + c) == Last(c);
    assert Elems(p + c) == Elems(p) + Elems(c);
  }

  lemma MergedLight(d: GraphData, p: Group, c: Group, theta: real)
    requires Tight(d, p) && IsList(AsCluster(d), p + c) && Light(d, c, theta)
    requires GroupRate(AsCluster(d), p) <= theta
    ensures Light(d, p + c, theta)
  {
    hide ValidGraph, IsList, Light, Tight, GainOf, GroupRate;
    TightFacts(d, p);
    LightFacts(d, c, theta);
    assert Elems(p + c) == Elems(p) + Elems(c);
    forall T: set<Tx> | ClosedPart(d, Elems(p + c), T) && Last(p + c) !in T
      ensures GainOf(AsCluster(d), T, theta) <= 0.0
    {
      MergedLightAt(d, p, c, theta, T);
    }
    LightIntro(d, p + c, theta);
  }

  lemma TightFacts(d: GraphData, c: Group)
    requires Tight(d, c)
    ensures ValidGraph(d) && Elems(c) <= d.used
  {
  }

  lemma LightFacts(d: GraphData, c: Group, theta: real)
    requires Light(d, c, theta)
    ensures ValidGraph(d) && Elems(c) <= d.used
  {
  }

  lemma LightIntro(d: GraphData, c: Group, theta: real)
    requires ValidGraph(d) && Elems(c) <= d.used
    requires forall T: set<Tx> :: ClosedPart(d, Elems(c), T) && Last(c) !in T ==> GainOf(AsCluster(d), T, theta) <= 0.0
    ensures Light(d, c, theta)
  {
  }

  lemma LightAt(d: GraphData, c: Group, theta: real, T: set<Tx>)
    requires Light(d, c, theta) && ClosedPart(d, Elems(c), T) && Last(c) !in T
    ensures GainOf(AsCluster(d), T, theta) <= 0.0
  {
  }

  lemma MergedLightAt(d: GraphData, p: Group, c: Group, theta: real, T: set<Tx>)
    requires Tight(d, p) && IsList(AsCluster(d), p + c) && Light(d, c, theta)
    requires GroupRate(AsCluster(d), p) <= theta
    requires ClosedPart(d, Elems(p + c), T) && Last(p + c) !in T
    ensures GainOf(AsCluster(d), T, theta) <= 0.0
  {
    hide ValidGraph, Light, GainOf, GroupRate, IsList;
    var g := AsCluster(d);
    assert p + c + [] == p + c;
    PartsApart(g, p, c, []);
    assert [] + p + c == p + c;
    assert Elems(p + c) == Elems(p) + Elems(c);
    var P, C := T * Elems(p), T * Elems(c);
    assert T == P + C;
    assert Last(p + c) == Last(c);
    assert ClosedPart(d, Elems(p), P) && ClosedPart(d, Elems(c), C);
    LightAt(d, c, theta, C);
    TightPart(d, p, P, theta);
    GainUnion(g, P, C, theta);
  }

  /** No closed part of a tight group pays more than the whole, or nothing. */
  lemma TightPart(d: GraphData, c: Group, T: set<Tx>, theta: real)
    requires Tight(d, c) && ClosedPart(d, Elems(c), T)
    ensures GroupRate(AsCluster(d), c) <= theta ==> GainOf(AsCluster(d), T, theta) <= 0.0
    ensures GroupRate(AsCluster(d), c) >= theta ==>
      GainOf(AsCluster(d), T, theta) <= GainOf(AsCluster(d), Elems(c), theta)
  {
    hide ValidGraph, GainOf, Light;
    var g, C, rho := AsCluster(d), Elems(c), GroupRate(AsCluster(d), c);
    assert c[0] in C;
    GainAtRate(g, C, theta);
    GainAtRate(g, C, rho);
    if Last(c) in T {
      assert T == C;
    } else {
      LightAt(d, c, rho, T);
      GainUnion(g, T, C - T, rho);
      GainUnion(g, T, C - T, theta);
      assert T + (C - T) == C;
      if rho <= theta {
        GainFalls(g, T, rho, theta);
      }
      if theta <= rho {
        GainFalls(g, C - T, theta, rho);
      }
    }
  }

  // ---------- a whole pass ----------

  ghost predicate AllTight(d: GraphData, gs: seq<Group>) {
    forall i :: 0 <= i < |gs| ==> Tight(d, gs[i])
  }

  /** The moving group has merged with none of a higher feerate than those before it. */
  ghost predicate LightBefore(d: GraphData, gs: seq<Group>, k: nat) {
    && ValidGraph(d) && k < |gs|
    && forall i :: 0 <= i < k ==> LightUnder(d, gs[k], gs[i])
  }

  ghost predicate LightUnder(d: GraphData, c: Group, p: Group) {
    ValidGraph(d) && Elems(p) <= d.used && Light(d, c, GroupRate(AsCluster(d), p))
  }

  lemma MergedTight(d: GraphData, gs: seq<Group>, k: nat)
    requires ForwardTree(d) && GoodGroups(d, gs) && 0 < k < |gs| && AllFine(d, gs) && AllTight(d, gs)
    requires LightBefore(d, gs, k) && Needs(d, gs[k], gs[k - 1]) && Above(AsCluster(d), gs[k], gs[k - 1])
    requires FallingBut(AsCluster(d), gs, k)
    ensures Tight(d, gs[k - 1] + gs[k])
    ensures forall i :: 0 <= i < k - 1 ==> LightUnder(d, gs[k - 1] + gs[k], gs[i])
  {
    hide ValidGraph, ForwardTree, Fine, Tight, Flatten, InOrder, IsList, Needs, Light, GroupRate, Elems;
    var g, p, c := AsCluster(d), gs[k - 1], gs[k];
    FlattenAround(gs, k);
    var A, B := Flatten(gs[..k - 1]), Flatten(gs[k + 1..]);
    assert A + p + c + B == A + (p + c) + B;
    PartsApart(g, A, p + c, B);
    assert LightUnder(d, c, p);
    MergedTightPair(d, A, p, c, B);
    forall i | 0 <= i < k - 1
      ensures LightUnder(d, p + c, gs[i])
    {
      assert NotBelow(g, gs[i], p);
      LightHigher(d, p + c, GroupRate(g, p), GroupRate(g, gs[i]));
    }
  }

  lemma MergedTightPair(d: GraphData, A: seq<Tx>, p: Group, c: Group, B: seq<Tx>)
    requires ForwardTree(d) && IsList(AsCluster(d), A + p + c + B) && InOrder(d, A + p + c + B)
    requires IsList(AsCluster(d), p + c)
    requires Fine(d, p) && Fine(d, c) && Tight(d, p) && Tight(d, c) && Needs(d, c, p)
    requires Above(AsCluster(d), c, p) && LightUnder(d, c, p)
    ensures Elems(p) <= AsCluster(d).txs && Light(d, p + c, GroupRate(AsCluster(d), p)) && Tight(d, p + c)
  {
    hide ValidGraph, AcyclicGraph, AtMostOne, Fine, InOrder, IsList, Needs, Light, GroupRate, Elems;
    var g := AsCluster(d);
    MergedRooted(d, A, p, c, B);
    MergedFine(d, p, c);
    MergedLight(d, p, c, GroupRate(g, p));
    LightHigher(d, p + c, GroupRate(g, p), GroupRate(g, p + c));
  }

  lemma SteppedTight(d: GraphData, gs: seq<Group>, k: nat)
    requires ForwardTree(d) && GoodGroups(d, gs) && 0 < k < |gs| && AllFine(d, gs) && AllTight(d, gs)
    requires LightBefore(d, gs, k) && FallingBut(AsCluster(d), gs, k) && Beats(AsCluster(d), gs[k], gs[k - 1])
    ensures AllTight(d, Stepped(d, gs, k)) && LightBefore(d, Stepped(d, gs, k), k - 1)
  {
    hide ValidGraph, ForwardTree, GoodGroups, FallingBut, Fine, Tight, LightUnder, Needs, Beats, Above, Flatten;
    FineElems(d, gs[k]);
    FineElems(d, gs[k - 1]);
    BeatsIsAbove(AsCluster(d), gs[k], gs[k - 1]);
    var hs := Stepped(d, gs, k);
    if Needs(d, gs[k], gs[k - 1]) {
      MergedTight(d, gs, k);
      assert forall i :: 0 <= i < |hs| && i != k - 1 ==> hs[i] == gs[if i < k then i else i + 1];
    } else {
      assert forall i :: 0 <= i < |gs| ==> hs[i] == gs[if i == k then k - 1 else if i == k - 1 then k else i];
    }
  }

  lemma {:induction false} SettledTight(d: GraphData, gs: seq<Group>, k: nat)
    requires ForwardTree(d) && GoodGroups(d, gs) && k < |gs| && AllFine(d, gs) && AllTight(d, gs)
    requires LightBefore(d, gs, k) && FallingBut(AsCluster(d), gs, k)
    ensures AllTight(d, Settled(d, gs, k))
    decreases k
  {
    hide ValidGraph, ForwardTree, GoodGroups, FallingBut, AllFine, AllTight, LightBefore, Beats, Flatten, Stepped;
    GraphOf(d, gs);
    if k > 0 && Beats(AsCluster(d), gs[k], gs[k - 1]) {
      SteppedGood(d, gs, k);
      SteppedShape(d, gs, k);
      SteppedTight(d, gs, k);
      SettledTight(d, Stepped(d, gs, k), k - 1);
    }
  }

  lemma AppendedTight(d: GraphData, gs: seq<Group>, t: Tx)
    requires ValidGraph(d) && AllTight(d, gs) && t in d.used
    ensures AllTight(d, gs + [[t]]) && LightBefore(d, gs + [[t]], |gs|)
  {
    hide ValidGraph, Light;
    var hs := gs + [[t]];
    SingleTight(d, t, 0.0);
    forall i | 0 <= i < |gs|
      ensures LightUnder(d, hs[|gs|], hs[i])
    {
      assert Tight(d, gs[i]);
      SingleTight(d, t, GroupRate(AsCluster(d), gs[i]));
    }
  }

  lemma {:induction false} PassTight(d: GraphData, L: seq<Tx>, n: nat)
    requires ForwardTree(d) && IsList(AsCluster(d), L) && InOrder(d, L) && n <= |L|
    ensures AllTight(d, Pass(d, L, n))
  {
    hide ForwardTree, ValidGraph, GoodGroups, FallingBut, Falling, AllFine, AllTight, LightBefore, Settled, InOrder,
      IsList, Flatten;
    TreeValid(d);
    if n > 0 {
      var gs := Pass(d, L, n - 1);
      PassTight(d, L, n - 1);
      PassShape(d, L, n - 1);
      Appended(d, L, n - 1, gs);
      ListMember(d, L, n - 1);
      AppendedTight(d, gs, L[n - 1]);
      SettledTight(d, gs + [[L[n - 1]]], |gs|);
    } else {
      NoneTight(d);
    }
  }

  lemma ListMember(d: GraphData, L: seq<Tx>, n: nat)
    requires ValidGraph(d) && IsList(AsCluster(d), L) && n < |L|
    ensures L[n] in d.used
  {
    assert L[n] in Elems(L);
  }

  lemma TreeValid(d: GraphData)
    requires ForwardTree(d)
    ensures ValidGraph(d)
  {
  }

  lemma NoneTight(d: GraphData)
    ensures AllTight(d, [])
  {
  }

  // ---------- optimality ----------

  /** The set contains the ancestors of its members. */
  ghost predicate AncClosed(d: GraphData, S: set<Tx>) {
    ValidGraph(d) && S <= d.used && forall c :: c in S ==> Anc(d, c) <= S
  }

  /** The feerate of the group is above the threshold. */
  ghost predicate AboveRate(g: Cluster, c: Group, theta: real) {
    Elems(c) <= g.txs && GroupRate(g, c) > theta
  }

  /** What a closed set pays beyond the threshold within the first groups, a number of whole groups pays. */
  lemma {:induction false} ClosedPaid(d: GraphData, gs: seq<Group>, S: set<Tx>, n: nat, theta: real) returns (b: nat)
    requires GoodGroups(d, gs) && Falling(AsCluster(d), gs) && AllTight(d, gs) && AncClosed(d, S) && n <= |gs|
    ensures b <= n && Elems(Flatten(gs[..n])) <= d.used
    ensures GroupsGain(AsCluster(d), gs, b, theta) >=
      GainOf(AsCluster(d), S * Elems(Flatten(gs[..n])), theta)
    ensures n > 0 && AboveRate(AsCluster(d), gs[n - 1], theta) ==> b == n
  {
    hide ValidGraph, InOrder, IsList, Tight, Flatten, GroupsGain, NotBelow;
    var g := AsCluster(d);
    StartOfFlat(gs, n);
    GroupsIn(d, gs);
    if n == 0 {
      b := 0;
      assert gs[..0] == [];
      EmptyFlat();
      assert S * Elems([]) == {};
      NothingPaid(g, theta);
      NoGroups(g, gs, theta);
    } else {
      b := ClosedPaid(d, gs, S, n - 1, theta);
      NextPart(d, gs, S, n - 1, theta);
      if AboveRate(g, gs[n - 1], theta) {
        if n > 1 {
          assert NotBelow(g, gs[n - 2], gs[n - 1]);
          StillAbove(g, gs[n - 2], gs[n - 1], theta);
        }
        b := n;
      }
    }
  }

  lemma StillAbove(g: Cluster, a: Group, b: Group, theta: real)
    requires NotBelow(g, a, b) && AboveRate(g, b, theta)
    ensures AboveRate(g, a, theta)
  {
  }

  lemma GroupsIn(d: GraphData, gs: seq<Group>)
    requires GoodGroups(d, gs)
    ensures ValidGraph(d) && IsList(AsCluster(d), Flatten(gs)) && Elems(Flatten(gs)) <= d.used == AsCluster(d).txs
  {
  }

  lemma NoGroups(g: Cluster, gs: seq<Group>, theta: real)
    requires IsList(g, Flatten(gs))
    ensures GroupsGain(g, gs, 0, theta) == 0.0
  {
    assert gs[..0] == [];
    NothingPaid(g, theta);
  }

  lemma NextPart(d: GraphData, gs: seq<Group>, S: set<Tx>, n: nat, theta: real)
    requires GoodGroups(d, gs) && n < |gs| && Tight(d, gs[n]) && AncClosed(d, S)
    ensures Elems(Flatten(gs[..n])) <= d.used && Elems(Flatten(gs[..n + 1])) <= d.used && Elems(gs[n]) <= d.used
    ensures var rise := GainOf(AsCluster(d), S * Elems(Flatten(gs[..n + 1])), theta)
                        - GainOf(AsCluster(d), S * Elems(Flatten(gs[..n])), theta);
      if AboveRate(AsCluster(d), gs[n], theta)
      then rise <= GroupsGain(AsCluster(d), gs, n + 1, theta) - GroupsGain(AsCluster(d), gs, n, theta)
      else rise <= 0.0
  {
    hide ValidGraph, InOrder, Tight, Flatten, GroupsGain, GainOf, Distinct, GroupRate;
    var g := AsCluster(d);
    FlattenUpTo(gs, n);
    FlattenAt(gs, n);
    var F, c := Flatten(gs[..n]), gs[n];
    PartsApart(g, F, c, Flatten(gs[n + 1..]));
    GroupsGainNext(g, gs, n, theta);
    assert S * Elems(F + c) == S * Elems(F) + S * Elems(c);
    GainUnion(g, S * Elems(F), S * Elems(c), theta);
    assert ClosedPart(d, Elems(c), S * Elems(c));
    TightPart(d, c, S * Elems(c), theta);
  }

  /** The first transactions of an order contain their ancestors. */
  lemma FirstClosed(d: GraphData, L: seq<Tx>, m: nat)
    requires ValidGraph(d) && Elems(L) == d.used && InOrder(d, L) && m <= |L|
    ensures AncClosed(d, Elems(L[..m]))
  {
    assert Elems(L[..m]) <= Elems(L);
    forall c, a | c in Elems(L[..m]) && a in Anc(d, c)
      ensures a in Elems(L[..m])
    {
      var i :| 0 <= i < m && L[..m][i] == c;
      assert L[i] == c && c in Elems(L);
      RelatedClosed(d, c, a, false);
      assert a in Elems(L);
      var j :| 0 <= j < |L| && L[j] == a;
      assert j <= i || a == c;
      if j <= i {
        assert L[..m][j] == a;
      }
    }
  }

  /** No order that respects dependencies has a diagram that is anywhere above that of `L`. */
  ghost predicate BestOrder(d: GraphData, L: seq<Tx>) {
    && ValidGraph(d)
    && forall K: seq<Tx> :: IsList(AsCluster(d), K) && Elems(K) == d.used && InOrder(d, K) ==>
         AsGoodAs(AsCluster(d), L, K)
  }

  /** A pass from front to back is optimal if no transaction has two children. */
  lemma PassBest(d: GraphData, L: seq<Tx>)
    requires ForwardTree(d) && IsList(AsCluster(d), L) && InOrder(d, L) && Elems(L) == d.used
    ensures BestOrder(d, PassResult(d, L))
  {
    hide AcyclicGraph, AtMostOne, ValidGraph, InOrder, IsList, AsGoodAs, Pass, Falling, AllFine, AllTight;
    PassShape(d, L, |L|);
    PassTight(d, L, |L|);
    assert L[..|L|] == L;
    forall K: seq<Tx> | IsList(AsCluster(d), K) && Elems(K) == d.used && InOrder(d, K)
      ensures AsGoodAs(AsCluster(d), PassResult(d, L), K)
    {
      GroupsBest(d, Pass(d, L, |L|), K);
    }
  }

  lemma GroupsBest(d: GraphData, gs: seq<Group>, K: seq<Tx>)
    requires GoodGroups(d, gs) && Falling(AsCluster(d), gs) && AllTight(d, gs) && Elems(Flatten(gs)) == d.used
    requires IsList(AsCluster(d), K) && Elems(K) == d.used && InOrder(d, K)
    ensures AsGoodAs(AsCluster(d), Flatten(gs), K)
  {
    hide ValidGraph, InOrder, Falling, AllTight, Flatten, Distinct, GainOf;
    var g := AsCluster(d);
    forall m: nat, theta: real | m <= |K|
      ensures ReachesAt(g, Flatten(gs), PrefixGain(g, K, m, theta), theta)
    {
      FirstClosed(d, K, m);
      var S := Elems(K[..m]);
      var b := ClosedPaid(d, gs, S, |gs|, theta);
      assert gs[..|gs|] == gs;
      assert S * Elems(Flatten(gs)) == S;
      StartOfFlat(gs, b);
      var n := |Flatten(gs[..b])|;
      assert Flatten(gs)[..n] == Flatten(gs[..b]);
      assert PrefixGain(g, Flatten(gs), n, theta) >= PrefixGain(g, K, m, theta);
    }
  }

  /** A pass from back to front is optimal if no transaction has two parents. */
  lemma BackwardBest(d: GraphData, L: seq<Tx>)
    requires ValidGraph(d) && AcyclicGraph(d) && AtMostOne(d, false)
    requires IsList(AsCluster(d), L) && InOrder(d, L) && Elems(L) == d.used
    ensures BestOrder(d, BackwardResult(d, L))
  {
    hide ValidGraph, AcyclicGraph, AtMostOne, InOrder, AsGoodAs, PassResult, Distinct;
    MirroredValid(d);
    MirroredAcyclic(d);
    MirroredShape(d, false);
    var r := Mirrored(d);
    ReversedElems(L);
    ReversedInOrder(d, L);
    PassBest(r, Reversed(L));
    PassAsGood(r, Reversed(L));
    var best := PassResult(r, Reversed(L));
    ReversedElems(best);
    ReversedTwice(best);
    forall K: seq<Tx> | IsList(AsCluster(d), K) && Elems(K) == d.used && InOrder(d, K)
      ensures AsGoodAs(AsCluster(d), Reversed(best), K)
    {
      ReversedElems(K);
      ReversedInOrder(d, K);
      assert AsGoodAs(AsCluster(r), best, Reversed(K));
      MirroredAsGood(d, Reversed(best), K);
    }
  }

  /** Postlinearization gives an optimal linearization if no transaction has two children, or none has two
      parents. */
  lemma TreesOptimal(d: GraphData, L: seq<Tx>)
    requires ValidGraph(d) && AcyclicGraph(d) && ValidLinearization(AsCluster(d), L)
    requires AtMostOne(d, true) || AtMostOne(d, false)
    ensures OptimalLinearization(AsCluster(d), PostLinearized(d, L))
  {
    hide ValidGraph, AcyclicGraph, AtMostOne, InOrder, AsGoodAs, PassResult, BackwardResult, Distinct;
    var g, K := AsCluster(d), BackwardResult(d, L);
    ValidInOrder(d, L);
    BackwardAsGood(d, L);
    PassAsGood(d, K);
    if AtMostOne(d, true) {
      PassBest(d, K);
    } else {
      BackwardBest(d, L);
    }
    forall L' | ValidLinearization(g, L')
      ensures AsGoodAs(g, PostLinearized(d, L), L')
    {
      ValidInOrder(d, L');
      if !AtMostOne(d, true) {
        AsGoodTrans(g, PassResult(d, K), K, L');
      }
    }
  }
}
