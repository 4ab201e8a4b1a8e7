/** Choosing from finite sets, and counting them. */
module FiniteSets {

  /** Some member of a non-empty set. */
  ghost function Any<T>(S: set<T>): (t: T)
    requires S != {}
    ensures t in S
  {
    var t :| t in S;
    t
  }

  lemma {:induction false} FewerElements<T>(A: set<T>, B: set<T>)
    requires A < B
    ensures |A| < |B|
  {
    assert |B| == |A| + |B - A| by {
      assert A + (B - A) == B;
    }
    var t :| t in B && t !in A;
    assert t in B - A;
  }

  lemma FewerOrEqual<T>(A: set<T>, B: set<T>)
    requires A <= B
    ensures |A| <= |B|
  {
    assert A + (B - A) == B;
  }

  /** Taking `t` off the elements that are left adds it to those that are done. */
  lemma OneMoreDone<T>(all: set<T>, todo: set<T>, t: T)
    requires todo <= all && t in todo
    ensures all - (todo - {t}) == all - todo + {t}
  {
  }
}
