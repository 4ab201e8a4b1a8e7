/** Sums over finite sets. */
module Sums {
  import opened FiniteSets

  ghost function Sum(f: map<nat, int>, S: set<nat>): int
    requires S <= f.Keys
  {
    if S == {} then 0
    else
      var t := Any(S);
      f[t] + Sum(f, S - {t})
  }

  lemma {:induction false} SumPick(f: map<nat, int>, S: set<nat>, t: nat)
    requires S <= f.Keys && t in S
    ensures Sum(f, S) == f[t] + Sum(f, S - {t})
  {
    var u :| u in S && Sum(f, S) == f[u] + Sum(f, S - {u});
    if u != t {
      SumPick(f, S - {u}, t);
      SumPick(f, S - {t}, u);
      assert S - {u} - {t} == S - {t} - {u};
    }
  }

  lemma {:induction false} SumUnion(f: map<nat, int>, A: set<nat>, B: set<nat>)
    requires A <= f.Keys && B <= f.Keys && A !! B
    ensures Sum(f, A + B) == Sum(f, A) + Sum(f, B)
  {
    if A == {} {
      assert A + B == B;
    } else {
      var t := Any(A);
      SumPick(f, A, t);
      SumPick(f, A + B, t);
      assert A + B - {t} == (A - {t}) + B;
      SumUnion(f, A - {t}, B);
    }
  }

  lemma {:induction false} SumPositive(f: map<nat, int>, S: set<nat>)
    requires S <= f.Keys && forall t :: t in S ==> f[t] > 0
    ensures Sum(f, S) >= 0
    ensures S != {} ==> Sum(f, S) > 0
  {
    if S != {} {
      var t := Any(S);
      SumPick(f, S, t);
      SumPositive(f, S - {t});
    }
  }

  lemma {:induction false} SameSum(f: map<nat, int>, f': map<nat, int>, S: set<nat>)
    requires S <= f.Keys && S <= f'.Keys && forall t :: t in S ==> f'[t] == f[t]
    ensures Sum(f', S) == Sum(f, S)
  {
    if S != {} {
      var t := Any(S);
      SumPick(f, S, t);
      SumPick(f', S, t);
      SameSum(f, f', S - {t});
    }
  }
}
