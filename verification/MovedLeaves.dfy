/** Moving a leaf to the end of a linearization, with the same fee or a higher one, and postlinearizing gives
    nothing worse than what was there before. */
module MovedLeaves {
  import opened FeeRates
  import opened Sums
  import opened Clusters
  import opened Linearizations
  import opened DepGraphs
  import opened Chunking
  import opened GroupLists
  import opened Mirrors
  import opened PostLinearization

  // ---------- a transaction that nothing needs ----------

  /** Nobody but `t` has `t` as an ancestor. */
  ghost predicate NotNeeded(d: GraphData, L: seq<Tx>, t: Tx) {
    forall m :: 0 <= m < |L| && L[m] < |d.entries| && L[m] != t ==> t !in Anc(d, L[m])
  }

  /** Group `b` is `t` alone. */
  ghost predicate AloneAt(gs: seq<Group>, t: Tx, b: nat) {
    b < |gs| && gs[b] == [t]
  }

  lemma GroupMember(gs: seq<Group>, k: nat, m: nat) returns (n: nat)
    requires k < |gs| && m < |gs[k]|
    ensures n < |Flatten(gs)| && Flatten(gs)[n] == gs[k][m] && n == |Flatten(gs[..k])| + m
  {
    hide Flatten;
    FlattenAt(gs, k);
    n := |Flatten(gs[..k])| + m;
  }

  /** A moving group does not need a transaction that stands alone. */
  lemma DoesNotNeed(d: GraphData, gs: seq<Group>, k: nat, b: nat, t: Tx)
    requires Distinct(Flatten(gs)) && NotNeeded(d, Flatten(gs), t) && AloneAt(gs, t, b) && k < |gs| && k != b
    ensures !Needs(d, gs[k], gs[b])
  {
    hide Flatten;
    if Needs(d, gs[k], gs[b]) {
      var m, n :| 0 <= m < |gs[k]| && 0 <= n < |gs[b]| && gs[k][m] < |d.entries| && gs[b][n] in Anc(d, gs[k][m]);
      var i := GroupMember(gs, k, m);
      assert Flatten(gs)[i] == t;
      var j := GroupMember(gs, b, 0);
      PlacesDiffer(gs, k, b, m);
    }
  }

  lemma PlacesDiffer(gs: seq<Group>, k: nat, b: nat, m: nat)
    requires k < |gs| && b < |gs| && k != b && m < |gs[k]| && |gs[b]| == 1
    ensures |Flatten(gs[..k])| + m != |Flatten(gs[..b])|
  {
    hide Flatten;
    if k < b {
      FlattenUpTo(gs, k);
      assert gs[..b][..k + 1] == gs[..k + 1];
      StartOfFlat(gs[..b], k + 1);
    } else {
      FlattenUpTo(gs, b);
      assert gs[..k][..b + 1] == gs[..b + 1];
      StartOfFlat(gs[..k], b + 1);
    }
  }

  lemma StepsAlone(d: GraphData, gs: seq<Group>, k: nat, b: nat, t: Tx) returns (b': nat)
    requires 0 < k < |gs| && AloneAt(gs, t, b) && b != k && !Needs(d, gs[k], gs[b])
    ensures AloneAt(Stepped(d, gs, k), t, b') && b' != k - 1
  {
    hide Needs;
    if b == k - 1 {
      b' := k;
    } else if b > k && Needs(d, gs[k], gs[k - 1]) {
      b' := b - 1;
    } else {
      b' := b;
    }
  }

  lemma SameMembers(d: GraphData, K: seq<Tx>, L: seq<Tx>, t: Tx)
    requires Elems(K) <= Elems(L) && NotNeeded(d, L, t)
    ensures NotNeeded(d, K, t)
  {
    forall m | 0 <= m < |K| && K[m] < |d.entries| && K[m] != t
      ensures t !in Anc(d, K[m])
    {
      assert K[m] in Elems(L);
      var n :| 0 <= n < |L| && L[n] == K[m];
    }
  }

  lemma {:induction false} SettlesAlone(d: GraphData, gs: seq<Group>, k: nat, b: nat, t: Tx) returns (b': nat)
    requires GoodGroups(d, gs) && NotNeeded(d, Flatten(gs), t) && AloneAt(gs, t, b) && k < |gs| && b != k
    ensures AloneAt(Settled(d, gs, k), t, b')
    decreases k
  {
    hide ValidGraph, InOrder, NotNeeded, AloneAt, Flatten, Beats, Stepped, Needs;
    b' := b;
    if k > 0 && Beats(AsCluster(d), gs[k], gs[k - 1]) {
      DoesNotNeed(d, gs, k, b, t);
      var b0 := StepsAlone(d, gs, k, b, t);
      SteppedGood(d, gs, k);
      SameMembers(d, Flatten(Stepped(d, gs, k)), Flatten(gs), t);
      b' := SettlesAlone(d, Stepped(d, gs, k), k - 1, b0, t);
    }
  }

  /** A transaction that comes first and that nothing needs stays a group of its own. */
  lemma {:induction false} PassAlone(d: GraphData, L: seq<Tx>, n: nat) returns (b: nat)
    requires ValidGraph(d) && IsList(AsCluster(d), L) && InOrder(d, L) && 0 < n <= |L|
    requires NotNeeded(d, L[..n], L[0])
    ensures AloneAt(Pass(d, L, n), L[0], b)
  {
    hide ValidGraph, InOrder, IsList, NotNeeded, AloneAt, GoodGroups, Falling, FallingBut, AllFine;
    if n == 1 {
      b := 0;
      FirstAlone(d, L);
    } else {
      SameMembers(d, L[..n - 1], L[..n], L[0]);
      b := PassAlone(d, L, n - 1);
      PassShape(d, L, n - 1);
      var gs := Pass(d, L, n - 1);
      Appended(d, L, n - 1, gs);
      var hs := gs + [[L[n - 1]]];
      StillAlone(gs, [L[n - 1]], L[0], b);
      SameMembers(d, Flatten(hs), L[..n], L[0]);
      b := SettlesAlone(d, hs, |gs|, b, L[0]);
    }
  }

  lemma FirstAlone(d: GraphData, L: seq<Tx>)
    requires ValidGraph(d) && |L| > 0
    ensures AloneAt(Pass(d, L, 1), L[0], 0)
  {
    assert Pass(d, L, 0) == [];
  }

  lemma StillAlone(gs: seq<Group>, c: Group, t: Tx, b: nat)
    requires AloneAt(gs, t, b)
    ensures AloneAt(gs + [c], t, b) && b != |gs|
  {
  }

  // ---------- nothing is lost without it ----------

  ghost predicate AtMostRate(g: Cluster, c: Group, theta: real) {
    Elems(c) <= g.txs && GroupRate(g, c) <= theta
  }

  /** Groups that do not beat the threshold add nothing. */
  lemma {:induction false} RestPaysNothing(g: Cluster, gs: seq<Group>, b: nat, n: nat, theta: real)
    requires IsList(g, Flatten(gs)) && b <= n <= |gs|
    requires forall i :: b <= i < n ==> AtMostRate(g, gs[i], theta)
    ensures GroupsGain(g, gs, n, theta) <= GroupsGain(g, gs, b, theta)
    decreases n
  {
    hide IsList, Flatten, GroupsGain, GainOf;
    if b < n {
      RestPaysNothing(g, gs, b, n - 1, theta);
      GroupsGainNext(g, gs, n - 1, theta);
      assert AtMostRate(g, gs[n - 1], theta);
      assert gs[n - 1][0] in Elems(gs[n - 1]);
      GainAtRate(g, Elems(gs[n - 1]), theta);
    }
  }

  /** What all transactions but the one that stands alone pay, a number of groups pays. */
  lemma PaidWithout(d: GraphData, gs: seq<Group>, t: Tx, b: nat, theta: real) returns (b': nat)
    requires GoodGroups(d, gs) && Falling(AsCluster(d), gs) && AloneAt(gs, t, b)
    ensures b' <= |gs| && Elems(Flatten(gs)) <= d.used
    ensures GroupsGain(AsCluster(d), gs, b', theta) >= GainOf(AsCluster(d), Elems(Flatten(gs)) - {t}, theta)
  {
    hide ValidGraph, InOrder, Flatten, GroupRate, GainOf, Distinct;
    var g := AsCluster(d);
    var n := GroupMember(gs, b, 0);
    var all := Elems(Flatten(gs));
    assert t in all && Elems([t]) == {t};
    GainUnion(g, all - {t}, {t}, theta);
    assert all - {t} + {t} == all;
    assert gs[..|gs|] == gs;
    if GainOf(g, {t}, theta) >= 0.0 {
      b' := |gs|;
    } else {
      b' := b;
      GroupsGainNext(g, gs, b, theta);
      GainAtRate(g, {t}, theta);
      RateAlone(g, t);
      forall i | b + 1 <= i < |gs|
        ensures AtMostRate(g, gs[i], theta)
      {
        assert NotBelow(g, gs[b], gs[i]);
      }
      RestPaysNothing(g, gs, b + 1, |gs|, theta);
    }
  }

  lemma RateAlone(g: Cluster, t: Tx)
    requires t in g.txs
    ensures Elems([t]) == {t} && GroupRate(g, [t]) == R(g, {t})
  {
    assert Elems([t]) == {t};
  }

  /** What some of the groups pay at one point of a pass, some pay at its end. */
  lemma {:induction false} LaterGain(d: GraphData, L: seq<Tx>, m: nat, n: nat, b: nat, theta: real) returns (b': nat)
    requires ValidGraph(d) && IsList(AsCluster(d), L) && InOrder(d, L) && m <= n <= |L|
    requires GoodGroups(d, Pass(d, L, m)) && GoodGroups(d, Pass(d, L, n)) && b <= |Pass(d, L, m)|
    ensures b' <= |Pass(d, L, n)|
    ensures GroupsGain(AsCluster(d), Pass(d, L, n), b', theta) >= GroupsGain(AsCluster(d), Pass(d, L, m), b, theta)
    decreases n
  {
    hide ValidGraph, InOrder, IsList, Falling, FallingBut, AllFine, Flatten, Settled;
    b' := b;
    if m < n {
      PassShape(d, L, n - 1);
      var b0 := LaterGain(d, L, m, n - 1, b, theta);
      var gs := Pass(d, L, n - 1);
      Appended(d, L, n - 1, gs);
      var hs := gs + [[L[n - 1]]];
      assert hs[..b0] == gs[..b0];
      b' := SettledGain(d, hs, |gs|, b0, theta);
    }
  }

  // ---------- a pass over the order with the transaction moved to the front ----------

  lemma MovedPrefix(A: seq<Tx>, t: Tx, B: seq<Tx>, m: nat)
    requires m <= |A + [t] + B|
    ensures m <= |A| ==>
      Elems((A + [t] + B)[..m]) == Elems(A[..m]) && Elems(([t] + A + B)[..m + 1]) == Elems(A[..m]) + {t}
    ensures m > |A| ==> Elems((A + [t] + B)[..m]) == Elems(([t] + A + B)[..m])
  {
    var L, K := A + [t] + B, [t] + A + B;
    if m <= |A| {
      assert L[..m] == A[..m];
      assert K[..m + 1] == [t] + A[..m];
    } else {
      var n := m - |A| - 1;
      assert L[..m] == A + [t] + B[..n];
      assert K[..m] == [t] + A + B[..n];
    }
  }

  /** The pass reaches every point of the order in which the transaction comes where it was. */
  lemma ReachesMoved(d: GraphData, A: seq<Tx>, t: Tx, B: seq<Tx>, m: nat, theta: real) returns (b: nat)
    requires ValidGraph(d) && IsList(AsCluster(d), A + [t] + B) && IsList(AsCluster(d), [t] + A + B)
    requires InOrder(d, [t] + A + B) && NotNeeded(d, A, t) && m <= |A + [t] + B|
    requires GoodGroups(d, Pass(d, [t] + A + B, |[t] + A + B|))
    ensures b <= |Pass(d, [t] + A + B, |[t] + A + B|)|
    ensures GroupsGain(AsCluster(d), Pass(d, [t] + A + B, |[t] + A + B|), b, theta) >=
      PrefixGain(AsCluster(d), A + [t] + B, m, theta)
  {
    hide ValidGraph, InOrder, Falling, AllFine, Flatten, Pass, GroupsGain, GainOf, AloneAt, GoodGroups;
    var g, L, K := AsCluster(d), A + [t] + B, [t] + A + B;
    MovedPrefix(A, t, B, m);
    if m <= |A| {
      PassShape(d, K, m + 1);
      var gs := Pass(d, K, m + 1);
      NotNeededFirst(d, A, t, B, m);
      var b0 := PassAlone(d, K, m + 1);
      var b1 := PaidWithout(d, gs, t, b0, theta);
      NotIn(A, t, B, m);
      assert Elems(A[..m]) + {t} - {t} == Elems(A[..m]);
      b := LaterGain(d, K, m + 1, |K|, b1, theta);
    } else {
      b := PassGain(d, K, |K|, m, theta);
    }
  }

  lemma NotIn(A: seq<Tx>, t: Tx, B: seq<Tx>, m: nat)
    requires Distinct(A + [t] + B) && m <= |A|
    ensures t !in Elems(A[..m])
  {
    var L := A + [t] + B;
    assert L[|A|] == t;
    forall i | 0 <= i < m
      ensures A[i] != t
    {
      assert L[i] == A[i];
    }
  }

  lemma NotNeededFirst(d: GraphData, A: seq<Tx>, t: Tx, B: seq<Tx>, m: nat)
    requires NotNeeded(d, A, t) && m <= |A|
    ensures NotNeeded(d, ([t] + A + B)[..m + 1], t) && ([t] + A + B)[0] == t
  {
    var K := ([t] + A + B)[..m + 1];
    forall i | 0 <= i < |K| && K[i] < |d.entries| && K[i] != t
      ensures t !in Anc(d, K[i])
    {
      assert K[i] == A[i - 1];
    }
  }

  lemma PassOfMoved(d: GraphData, A: seq<Tx>, t: Tx, B: seq<Tx>)
    requires ValidGraph(d) && IsList(AsCluster(d), A + [t] + B) && IsList(AsCluster(d), [t] + A + B)
    requires InOrder(d, [t] + A + B) && NotNeeded(d, A, t)
    ensures AsGoodAs(AsCluster(d), PassResult(d, [t] + A + B), A + [t] + B)
  {
    hide ValidGraph, InOrder, Falling, AllFine, Flatten, Pass, Distinct, GainOf, NotNeeded;
    var g, L, K := AsCluster(d), A + [t] + B, [t] + A + B;
    var gs := Pass(d, K, |K|);
    PassShape(d, K, |K|);
    assert K[..|K|] == K;
    forall m: nat, theta: real | m <= |L|
      ensures ReachesAt(g, Flatten(gs), PrefixGain(g, L, m, theta), theta)
    {
      var b := ReachesMoved(d, A, t, B, m, theta);
      StartOfFlat(gs, b);
      var n := |Flatten(gs[..b])|;
      assert Flatten(gs)[..n] == Flatten(gs[..b]);
      assert PrefixGain(g, Flatten(gs), n, theta) >= PrefixGain(g, L, m, theta);
    }
  }

  // ---------- a leaf that is moved to the end ----------

  /** The leaf can be moved to the end. */
  lemma MovedInOrder(d: GraphData, A: seq<Tx>, t: Tx, B: seq<Tx>)
    requires ValidGraph(d) && t in d.used && Desc(d, t) == {t}
    requires IsList(AsCluster(d), A + [t] + B) && InOrder(d, A + [t] + B)
    ensures IsList(AsCluster(d), A + B + [t]) && InOrder(d, A + B + [t])
    ensures Elems(A + B + [t]) == Elems(A + [t] + B)
  {
    hide ValidGraph;
    assert A + [t] + B == A + [t] + B + [] && A + B + [t] == A + B + [t] + [];
    SwapElems(A, [t], B, []);
    SwapDistinct(A, [t], B, []);
    if B != [] {
      LeafNotNeeded(d, A, t, B);
      SwapInOrder(d, A, [t], B, []);
    } else {
      assert A + B + [t] == A + [t] + B;
    }
  }

  lemma LeafNotNeeded(d: GraphData, A: seq<Tx>, t: Tx, B: Group)
    requires ValidGraph(d) && t in d.used && Desc(d, t) == {t} && IsList(AsCluster(d), A + [t] + B)
    ensures !Needs(d, B, [t])
  {
    var L := A + [t] + B;
    forall m | 0 <= m < |B|
      ensures B[m] in d.used && t !in Anc(d, B[m])
    {
      assert L[|A| + 1 + m] == B[m] && L[|A|] == t && B[m] in Elems(L);
      assert Inverse(d, B[m], t);
    }
  }

  lemma ReversedMoved(A: seq<Tx>, t: Tx, B: seq<Tx>)
    ensures Reversed(A + [t] + B) == Reversed(B) + [t] + Reversed(A)
    ensures Reversed(A + B + [t]) == [t] + Reversed(B) + Reversed(A)
  {
  }

  /** Upside down, the leaf has no ancestors but itself, and what comes before it does not need it. */
  lemma NotNeededBelow(d: GraphData, A: seq<Tx>, t: Tx, B: seq<Tx>)
    requires ValidGraph(d) && IsList(AsCluster(d), A + [t] + B) && InOrder(d, A + [t] + B)
    ensures NotNeeded(Mirrored(d), Reversed(B), t)
  {
    hide Closed;
    var r, K := Mirrored(d), Reversed(B);
    forall m | 0 <= m < |K| && K[m] < |r.entries| && K[m] != t
      ensures t !in Anc(r, K[m])
    {
      ComesAfter(d, A, t, B, |B| - 1 - m);
      assert K[m] == B[|B| - 1 - m];
    }
  }

  lemma ComesAfter(d: GraphData, A: seq<Tx>, t: Tx, B: seq<Tx>, m: nat)
    requires ValidGraph(d) && IsList(AsCluster(d), A + [t] + B) && InOrder(d, A + [t] + B) && m < |B|
    ensures B[m] in d.used && t !in Desc(d, B[m])
  {
    var L := A + [t] + B;
    assert L[|A| + 1 + m] == B[m] && L[|A|] == t && B[m] in Elems(L) && t in Elems(L);
    assert Inverse(d, t, B[m]);
  }

  lemma BackwardOfMoved(d: GraphData, A: seq<Tx>, t: Tx, B: seq<Tx>)
    requires ValidGraph(d) && t in d.used && Desc(d, t) == {t}
    requires IsList(AsCluster(d), A + [t] + B) && InOrder(d, A + [t] + B)
    requires IsList(AsCluster(d), A + B + [t]) && InOrder(d, A + B + [t])
    requires Elems(A + B + [t]) == Elems(A + [t] + B)
    ensures AsGoodAs(AsCluster(d), BackwardResult(d, A + B + [t]), A + [t] + B)
  {
    hide ValidGraph, InOrder, AsGoodAs, Distinct, PassResult, NotNeeded;
    MirroredValid(d);
    var r, L1, L2 := Mirrored(d), A + [t] + B, A + B + [t];
    ReversedMoved(A, t, B);
    ReversedElems(L1);
    ReversedElems(L2);
    ReversedInOrder(d, L2);
    NotNeededBelow(d, A, t, B);
    PassOfMoved(r, Reversed(B), t, Reversed(A));
    PassAsGood(r, Reversed(L2));
    var K := PassResult(r, Reversed(L2));
    ReversedElems(K);
    ReversedTwice(K);
    MirroredAsGood(d, Reversed(K), L1);
  }

  // ---------- a higher fee ----------

  /** The graph with another fee for `t`. */
  ghost function WithFee(d: GraphData, t: Tx, fee: int): (r: GraphData)
    requires t < |d.entries|
  {
    d.(entries := d.entries[t := d.entries[t].(feerate := FeeFrac(fee, d.entries[t].feerate.size))])
  }

  lemma WithFeeValid(d: GraphData, t: Tx, fee: int)
    requires ValidGraph(d) && t in d.used
    ensures ValidGraph(WithFee(d, t, fee)) && WithFee(d, t, fee).used == d.used
    ensures forall i :: i in d.used ==>
      Anc(WithFee(d, t, fee), i) == Anc(d, i) && Desc(WithFee(d, t, fee), i) == Desc(d, i)
    ensures AcyclicGraph(d) ==> AcyclicGraph(WithFee(d, t, fee))
  {
    var r := WithFee(d, t, fee);
    forall i, j | i in d.used && j in d.used
      ensures Reflexive(r, i) && Inverse(r, i, j) && Transitive(r, i, j)
    {
      assert Reflexive(d, i) && Inverse(d, i, j) && Transitive(d, i, j);
    }
    assert Reflexive(r, t);
  }

  lemma HigherSum(f: map<Tx, int>, f': map<Tx, int>, S: set<Tx>, t: Tx)
    requires S <= f.Keys && S <= f'.Keys && forall i :: i in S && i != t ==> f'[i] == f[i]
    requires t in S ==> f'[t] >= f[t]
    ensures Sum(f', S) >= Sum(f, S)
  {
    if t in S {
      SumPick(f, S, t);
      SumPick(f', S, t);
    }
    SameSum(f, f', S - {t});
    if t !in S {
      assert S - {t} == S;
    }
  }

  lemma HigherGain(d: GraphData, t: Tx, fee: int, S: set<Tx>, theta: real)
    requires ValidGraph(d) && t in d.used && d.entries[t].feerate.fee <= fee && S <= d.used
    requires ValidGraph(WithFee(d, t, fee))
    ensures GainOf(AsCluster(WithFee(d, t, fee)), S, theta) >= GainOf(AsCluster(d), S, theta)
  {
    hide Closed, Direct, Gain, Sum;
    var g, g' := AsCluster(d), AsCluster(WithFee(d, t, fee));
    HigherSum(g.fee, g'.fee, S, t);
    SameSum(g.size, g'.size, S);
    MoreGain(Total(g, S), Total(g', S), theta);
  }

  lemma MoreGain(a: FeeFrac, b: FeeFrac, theta: real)
    requires a.size == b.size && a.fee <= b.fee
    ensures Gain(a, theta) <= Gain(b, theta)
  {
    var cost := theta * a.size as real;
    assert Gain(a, theta) == a.fee as real - cost && Gain(b, theta) == b.fee as real - cost;
  }

  /** The diagram of `L` for the fees of `g` is nowhere below that of `L'` for those of `g'`. */
  ghost predicate AsGoodFor(g: Cluster, L: seq<Tx>, g': Cluster, L': seq<Tx>) {
    && Elems(L) <= g.txs && Elems(L') <= g'.txs
    && forall m: nat, theta: real :: m <= |L'| ==> ReachesAt(g, L, PrefixGain(g', L', m, theta), theta)
  }

  lemma HigherFeeAsGood(d: GraphData, t: Tx, fee: int, L: seq<Tx>, L': seq<Tx>)
    requires ValidGraph(d) && t in d.used && d.entries[t].feerate.fee <= fee && ValidGraph(WithFee(d, t, fee))
    requires Elems(L') <= d.used && AsGoodAs(AsCluster(WithFee(d, t, fee)), L, L')
    ensures AsGoodFor(AsCluster(WithFee(d, t, fee)), L, AsCluster(d), L')
  {
    hide ValidGraph, GainOf;
    UsedInRange(d, t);
    var g, g' := AsCluster(WithFee(d, t, fee)), AsCluster(d);
    forall m: nat, theta: real | m <= |L'|
      ensures ReachesAt(g, L, PrefixGain(g', L', m, theta), theta)
    {
      assert Elems(L'[..m]) <= Elems(L');
      HigherGain(d, t, fee, Elems(L'[..m]), theta);
      assert ReachesAt(g, L, PrefixGain(g, L', m, theta), theta);
      var n: nat :| n <= |L| && PrefixGain(g, L, n, theta) >= PrefixGain(g, L', m, theta);
      assert PrefixGain(g, L, n, theta) >= PrefixGain(g', L', m, theta);
    }
  }

  lemma SameOrder(d: GraphData, t: Tx, fee: int, L: seq<Tx>)
    requires ValidGraph(d) && t in d.used && ValidGraph(WithFee(d, t, fee)) && Elems(L) <= d.used && InOrder(d, L)
    ensures InOrder(WithFee(d, t, fee), L)
  {
    hide Closed;
    var r := WithFee(d, t, fee);
    forall m | 0 <= m < |L|
      ensures L[m] < |d.entries| && L[m] < |r.entries| && Anc(r, L[m]) == Anc(d, L[m])
    {
      assert L[m] in Elems(L);
    }
  }

  /** A leaf that is moved to the end of a linearization, and whose fee may be raised, leaves a valid linearization;
      and postlinearizing it gives one whose diagram is nowhere below the one that was there before. */
  lemma MovedLeafGuarantee(d: GraphData, A: seq<Tx>, t: Tx, B: seq<Tx>, fee: int)
    requires ValidGraph(d) && AcyclicGraph(d) && ValidLinearization(AsCluster(d), A + [t] + B)
    requires t in d.used && Desc(d, t) == {t} && d.entries[t].feerate.fee <= fee
    ensures ValidGraph(WithFee(d, t, fee)) && AcyclicGraph(WithFee(d, t, fee))
    ensures ValidLinearization(AsCluster(WithFee(d, t, fee)), A + B + [t])
    ensures AsGoodFor(
              AsCluster(WithFee(d, t, fee)), PostLinearized(WithFee(d, t, fee), A + B + [t]),
              AsCluster(d), A + [t] + B)
  {
    hide ValidGraph, AcyclicGraph, InOrder, AsGoodAs, AsGoodFor, Distinct, PassResult, BackwardResult, WithFee;
    UsedInRange(d, t);
    WithFeeValid(d, t, fee);
    ValidInOrder(d, A + [t] + B);
    var r, L1, L2 := WithFee(d, t, fee), A + [t] + B, A + B + [t];
    SameOrder(d, t, fee, L1);
    MovedInOrder(r, A, t, B);
    InOrderValid(r, L2);
    BackwardAsGood(r, L2);
    BackwardOfMoved(r, A, t, B);
    PassAsGood(r, BackwardResult(r, L2));
    AsGoodTrans(AsCluster(r), PostLinearized(r, L2), BackwardResult(r, L2), L1);
    HigherFeeAsGood(d, t, fee, PostLinearized(r, L2), L1);
  }
}
