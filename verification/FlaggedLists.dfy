/** The circular doubly linked list of flagged cache entries, as `m_prev` and `m_next` pointers through a
    sentinel. */
module FlaggedLists {

  type OutPoint = nat

  datatype Node = Sentinel | Pair(outpoint: OutPoint)

  /** The pointers of the sentinel and of all flagged entries; other entries have none. */
  datatype Links = Links(next: map<Node, Node>, prev: map<Node, Node>)

  /** The sentinel pointing to itself. */
  const EMPTY := Links(map[Sentinel := Sentinel], map[Sentinel := Sentinel])

  // ---------- the list that the pointers make ----------

  ghost predicate Distinct(order: seq<OutPoint>) {
    forall m, n :: 0 <= m < n < |order| ==> order[m] != order[n]
  }

  /** The nodes of the circle: the sentinel at place 0 and again at the end. */
  ghost function NodeAt(order: seq<OutPoint>, k: nat): Node
    requires k <= |order| + 1
  {
    if k == 0 || k == |order| + 1 then Sentinel else Pair(order[k - 1])
  }

  ghost predicate LinkedAt(l: Links, order: seq<OutPoint>, k: nat)
    requires k <= |order|
  {
    && NodeAt(order, k) in l.next && l.next[NodeAt(order, k)] == NodeAt(order, k + 1)
    && NodeAt(order, k + 1) in l.prev && l.prev[NodeAt(order, k + 1)] == NodeAt(order, k)
  }

  /** The pointers link exactly the entries of `order`, each once, into a circle. */
  ghost predicate Linked(l: Links, order: seq<OutPoint>) {
    && Distinct(order)
    && (forall k :: 0 <= k <= |order| ==> LinkedAt(l, order, k))
    && (forall o :: Pair(o) in l.next ==> o in order)
    && (forall o :: Pair(o) in l.prev ==> o in order)
  }

  lemma EmptyLinked()
    ensures Linked(EMPTY, [])
  {
    assert LinkedAt(EMPTY, [], 0);
  }

  lemma MemberLinked(l: Links, order: seq<OutPoint>, o: OutPoint)
    requires Linked(l, order)
    ensures o in order <==> Pair(o) in l.next
    ensures o in order <==> Pair(o) in l.prev
    ensures Sentinel in l.next && Sentinel in l.prev
  {
    assert LinkedAt(l, order, 0) && LinkedAt(l, order, |order|);
    if o in order {
      var k :| 0 <= k < |order| && order[k] == o;
      assert LinkedAt(l, order, k) && LinkedAt(l, order, k + 1);
      assert NodeAt(order, k + 1) == Pair(o);
    }
  }

  // ---------- adding at the back ----------

  /** `AddFlags` for an entry without flags. */
  function Append(l: Links, o: OutPoint): Links
    requires Sentinel in l.prev
  {
    var last := l.prev[Sentinel];
    var prev := l.prev[Pair(o) := last][Sentinel := Pair(o)];
    var next := l.next[Pair(o) := Sentinel][last := Pair(o)];
    Links(next, prev)
  }

  lemma AppendLinked(l: Links, order: seq<OutPoint>, o: OutPoint)
    requires Linked(l, order) && o !in order
    ensures Sentinel in l.prev && Linked(Append(l, o), order + [o])
  {
    MemberLinked(l, order, o);
    var n, order' := |order|, order + [o];
    assert LinkedAt(l, order, n);
    var l' := Append(l, o);
    forall k | 0 <= k <= n + 1
      ensures LinkedAt(l', order', k)
    {
      if k < n {
        AppendAt(l, order, o, k);
      } else {
        assert LinkedAt(l, order, n);
      }
    }
  }

  lemma NodesApart(order: seq<OutPoint>, j: nat, k: nat)
    requires Distinct(order) && j < k <= |order|
    ensures NodeAt(order, j) != NodeAt(order, k)
  {
  }

  lemma AppendAt(l: Links, order: seq<OutPoint>, o: OutPoint, k: nat)
    requires Linked(l, order) && o !in order && k < |order| && Sentinel in l.prev
    ensures LinkedAt(Append(l, o), order + [o], k)
  {
    var order' := order + [o];
    assert LinkedAt(l, order, k) && LinkedAt(l, order, |order|);
    assert NodeAt(order', k) == NodeAt(order, k) && NodeAt(order', k + 1) == NodeAt(order, k + 1);
    NodesApart(order, k, |order|);
  }

  // ---------- removing ----------

  /** `SetClean` for an entry with flags. */
  function Unlink(l: Links, o: OutPoint): Links
    requires Pair(o) in l.next && Pair(o) in l.prev
  {
    var p, n := l.prev[Pair(o)], l.next[Pair(o)];
    Links(l.next[p := n] - {Pair(o)}, l.prev[n := p] - {Pair(o)})
  }

  ghost function Without(order: seq<OutPoint>, j: nat): seq<OutPoint>
    requires j < |order|
  {
    order[..j] + order[j + 1..]
  }

  lemma WithoutNode(order: seq<OutPoint>, j: nat, k: nat)
    requires j < |order| && k <= |order|
    ensures NodeAt(Without(order, j), k) == NodeAt(order, if k <= j then k else k + 1)
  {
  }

  lemma WithoutElems(order: seq<OutPoint>, j: nat, o: OutPoint)
    requires Distinct(order) && j < |order|
    ensures o in Without(order, j) <==> o in order && o != order[j]
    ensures Distinct(Without(order, j))
  {
    var r := Without(order, j);
    if o in order && o != order[j] {
      var k :| 0 <= k < |order| && order[k] == o;
      assert o == r[if k < j then k else k - 1];
    }
    if o in r {
      var k :| 0 <= k < |r| && r[k] == o;
      assert o == order[if k < j then k else k + 1];
    }
  }

  lemma UnlinkAt(l: Links, order: seq<OutPoint>, j: nat, k: nat)
    requires Linked(l, order) && j < |order| && k <= |order| - 1
    requires Pair(order[j]) in l.next && Pair(order[j]) in l.prev
    ensures LinkedAt(Unlink(l, order[j]), Without(order, j), k)
  {
    var r := Without(order, j);
    assert LinkedAt(l, order, j) && LinkedAt(l, order, j + 1);
    assert NodeAt(order, j + 1) == Pair(order[j]);
    WithoutNode(order, j, k);
    WithoutNode(order, j, k + 1);
    var i := if k <= j then k else k + 1;
    assert LinkedAt(l, order, i);
    if i < j {
      NodesApart(order, i, j);
      NodesApart(order, i, j + 1);
      NodesApart(order, i + 1, j + 1);
    } else if i > j {
      NodesApart(order, j, i);
      NodesApart(order, j + 1, i);
    }
  }

  lemma UnlinkLinked(l: Links, order: seq<OutPoint>, j: nat)
    requires Linked(l, order) && j < |order|
    ensures Pair(order[j]) in l.next && Pair(order[j]) in l.prev
    ensures Linked(Unlink(l, order[j]), Without(order, j))
  {
    MemberLinked(l, order, order[j]);
    var l', r := Unlink(l, order[j]), Without(order, j);
    forall k | 0 <= k <= |r|
      ensures LinkedAt(l', r, k)
    {
      UnlinkAt(l, order, j, k);
    }
    forall o
      ensures o in r <==> o in order && o != order[j]
    {
      WithoutElems(order, j, o);
    }
    WithoutElems(order, j, order[j]);
    UnlinkKeys(l, order, j);
  }

  lemma UnlinkKeys(l: Links, order: seq<OutPoint>, j: nat)
    requires Linked(l, order) && j < |order|
    requires Pair(order[j]) in l.next && Pair(order[j]) in l.prev
    ensures forall o :: Pair(o) in Unlink(l, order[j]).next ==> o in order && o != order[j]
    ensures forall o :: Pair(o) in Unlink(l, order[j]).prev ==> o in order && o != order[j]
  {
    assert LinkedAt(l, order, j) && LinkedAt(l, order, j + 1);
    assert NodeAt(order, j + 1) == Pair(order[j]);
  }
}
