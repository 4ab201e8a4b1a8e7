/** A cache with eight possible places for every element, which drops at most one element that it should
    keep for every one that is inserted. */
module CuckooCaches {

  type Element = nat

  // ---------- flags packed into bytes ----------

  /** One flag per slot, eight to a byte. A set flag marks the slot as one that may be overwritten. */
  datatype Flags = Flags(mem: seq<bv8>)

  function Bit(k: nat): bv8
    requires k < 8
  {
    if k == 0 then 1 else if k == 1 then 2 else if k == 2 then 4 else if k == 3 then 8
    else if k == 4 then 16 else if k == 5 then 32 else if k == 6 then 64 else 128
  }

  predicate HasBit(b: bv8, k: nat)
    requires k < 8
  {
    b & Bit(k) != 0
  }

  function WithBit(b: bv8, k: nat): bv8
    requires k < 8
  {
    b | Bit(k)
  }

  function WithoutBit(b: bv8, k: nat): bv8
    requires k < 8
  {
    b & !Bit(k)
  }

  predicate IsSet(f: Flags, s: nat)
    requires s / 8 < |f.mem|
  {
    HasBit(f.mem[s / 8], s % 8)
  }

  function SetBit(f: Flags, s: nat): Flags
    requires s / 8 < |f.mem|
  {
    Flags(f.mem[s / 8 := WithBit(f.mem[s / 8], s % 8)])
  }

  function UnsetBit(f: Flags, s: nat): Flags
    requires s / 8 < |f.mem|
  {
    Flags(f.mem[s / 8 := WithoutBit(f.mem[s / 8], s % 8)])
  }

  /** All flags for `n` slots, set. */
  function AllSet(n: nat): Flags {
    Flags(seq((n + 7) / 8, _ => 0xff))
  }

  lemma ByteSet(b: bv8, j: nat, k: nat)
    requires j < 8 && k < 8
    ensures HasBit(WithBit(b, k), j) <==> j == k || HasBit(b, j)
  {
  }

  lemma ByteUnset(b: bv8, j: nat, k: nat)
    requires j < 8 && k < 8
    ensures HasBit(WithoutBit(b, k), j) <==> j != k && HasBit(b, j)
  {
  }

  lemma ByteAll(j: nat)
    requires j < 8
    ensures HasBit(0xff, j)
  {
  }

  /** Setting a flag sets that flag only. */
  lemma SetBitOnly(f: Flags, s: nat, t: nat)
    requires s / 8 < |f.mem| && t / 8 < |f.mem|
    ensures IsSet(SetBit(f, s), t) <==> t == s || IsSet(f, t)
  {
    hide Bit, HasBit, WithBit, WithoutBit;
    if s / 8 == t / 8 {
      ByteSet(f.mem[s / 8], t % 8, s % 8);
    }
  }

  lemma UnsetBitOnly(f: Flags, s: nat, t: nat)
    requires s / 8 < |f.mem| && t / 8 < |f.mem|
    ensures IsSet(UnsetBit(f, s), t) <==> t != s && IsSet(f, t)
  {
    hide Bit, HasBit, WithBit, WithoutBit;
    if s / 8 == t / 8 {
      ByteUnset(f.mem[s / 8], t % 8, s % 8);
    }
  }

  lemma AllAreSet(n: nat, t: nat)
    requires t < n
    ensures t / 8 < |AllSet(n).mem| && IsSet(AllSet(n), t)
  {
    hide Bit, HasBit, WithBit, WithoutBit;
    ByteAll(t % 8);
  }

  // ---------- the cache ----------

  /** The table, which slots may be overwritten, which hold recent elements, and when to look at that again. */
  datatype Contents = Contents(table: seq<Element>, flags: Flags, recent: seq<bool>, counter: nat)

  ghost predicate Sized(c: Contents, size: nat) {
    |c.table| == size == |c.recent| && |c.flags.mem| == (size + 7) / 8
  }

  /** The slot holds an element that should be kept. */
  ghost predicate LiveSlot(c: Contents, i: nat) {
    i < |c.table| && i / 8 < |c.flags.mem| && !IsSet(c.flags, i)
  }

  /** The elements that should be kept. */
  ghost function Live(c: Contents): set<Element> {
    set i | 0 <= i < |c.table| && LiveSlot(c, i) :: c.table[i]
  }

  ghost predicate GoodHashes(hashes: Element -> seq<nat>, size: nat) {
    forall e :: |hashes(e)| == 8 && forall k :: 0 <= k < 8 ==> hashes(e)[k] < size
  }

  /** Every element that should be kept is in one of its own places. */
  ghost predicate AtHome(c: Contents, hashes: Element -> seq<nat>) {
    forall i: nat :: i < |c.table| && LiveSlot(c, i) ==> i in hashes(c.table[i])
  }

  ghost predicate CacheOk(c: Contents, hashes: Element -> seq<nat>, size: nat) {
    Sized(c, size) && GoodHashes(hashes, size) && AtHome(c, hashes)
  }

  // ---------- changes to one slot ----------

  function Erased(c: Contents, i: nat): Contents
    requires i / 8 < |c.flags.mem|
  {
    c.(flags := SetBit(c.flags, i))
  }

  /** The slot gets an element, and is to be kept. */
  function Placed(c: Contents, i: nat, e: Element, recent: bool): Contents
    requires i < |c.table| && i < |c.recent| && i / 8 < |c.flags.mem|
  {
    Contents(c.table[i := e], UnsetBit(c.flags, i), c.recent[i := recent], c.counter)
  }

  /** The slot gets an element, and otherwise stays as it is. */
  function Swapped(c: Contents, i: nat, e: Element, recent: bool): Contents
    requires i < |c.table| && i < |c.recent|
  {
    c.(table := c.table[i := e], recent := c.recent[i := recent])
  }

  lemma SlotByte(c: Contents, size: nat, i: nat)
    requires Sized(c, size) && i < size
    ensures i / 8 < |c.flags.mem|
  {
  }

  lemma ErasedSlots(c: Contents, size: nat, i: nat, j: nat)
    requires Sized(c, size) && i < size && j < size
    ensures i / 8 < |c.flags.mem| && (LiveSlot(Erased(c, i), j) <==> j != i && LiveSlot(c, j))
  {
    hide IsSet, SetBit;
    SlotByte(c, size, j);
    SetSize(c.flags, i);
    SetBitOnly(c.flags, i, j);
  }

  lemma SetSize(f: Flags, i: nat)
    requires i / 8 < |f.mem|
    ensures |SetBit(f, i).mem| == |f.mem| == |UnsetBit(f, i).mem|
  {
  }

  lemma PlacedSlots(c: Contents, size: nat, i: nat, e: Element, recent: bool, j: nat)
    requires Sized(c, size) && i < size && j < size
    ensures i / 8 < |c.flags.mem| && (LiveSlot(Placed(c, i, e, recent), j) <==> j == i || LiveSlot(c, j))
  {
    hide IsSet, UnsetBit;
    SlotByte(c, size, j);
    SetSize(c.flags, i);
    UnsetBitOnly(c.flags, i, j);
  }

  lemma ErasedOk(c: Contents, hashes: Element -> seq<nat>, size: nat, i: nat)
    requires CacheOk(c, hashes, size) && i < size
    ensures i / 8 < |c.flags.mem| && CacheOk(Erased(c, i), hashes, size)
    ensures Live(Erased(c, i)) <= Live(c)
  {
    hide LiveSlot, GoodHashes, SetBit;
    SlotByte(c, size, i);
    SetSize(c.flags, i);
    forall j | 0 <= j < size
      ensures LiveSlot(Erased(c, i), j) <==> j != i && LiveSlot(c, j)
    {
      ErasedSlots(c, size, i, j);
    }
  }

  /** Putting an element into a slot that is free adds it to the ones that are kept. */
  lemma PlacedOk(c: Contents, hashes: Element -> seq<nat>, size: nat, i: nat, e: Element, recent: bool)
    requires CacheOk(c, hashes, size) && i < size && i in hashes(e)
    requires !LiveSlot(c, i) || c.table[i] == e
    ensures i / 8 < |c.flags.mem| && CacheOk(Placed(c, i, e, recent), hashes, size)
    ensures Live(Placed(c, i, e, recent)) == Live(c) + {e}
  {
    hide LiveSlot, GoodHashes, UnsetBit;
    SlotByte(c, size, i);
    SetSize(c.flags, i);
    var p := Placed(c, i, e, recent);
    forall j | 0 <= j < size
      ensures LiveSlot(p, j) <==> j == i || LiveSlot(c, j)
    {
      PlacedSlots(c, size, i, e, recent, j);
    }
    forall x | x in Live(c)
      ensures x in Live(p)
    {
      var j :| 0 <= j < |c.table| && LiveSlot(c, j) && c.table[j] == x;
      assert LiveSlot(p, j) && p.table[j] == x;
    }
    assert LiveSlot(p, i) && p.table[i] == e;
  }

  /** Swapping an element with the one in a slot that is in use: together with the one in hand, the same
      elements are there. */
  lemma SwappedOk(c: Contents, hashes: Element -> seq<nat>, size: nat, i: nat, e: Element, recent: bool)
    requires CacheOk(c, hashes, size) && i < size && i in hashes(e) && LiveSlot(c, i)
    ensures CacheOk(Swapped(c, i, e, recent), hashes, size)
    ensures Live(Swapped(c, i, e, recent)) + {c.table[i]} == Live(c) + {e}
  {
    hide IsSet, GoodHashes;
    var p := Swapped(c, i, e, recent);
    assert forall j: nat :: LiveSlot(p, j) <==> LiveSlot(c, j);
    forall x | x in Live(c)
      ensures x in Live(p) || x == c.table[i]
    {
      var j :| 0 <= j < |c.table| && LiveSlot(c, j) && c.table[j] == x;
      if j != i {
        assert LiveSlot(p, j) && p.table[j] == x;
      }
    }
    forall x | x in Live(p)
      ensures x in Live(c) || x == e
    {
      var j :| 0 <= j < |p.table| && LiveSlot(p, j) && p.table[j] == x;
      if j != i {
        assert LiveSlot(c, j) && c.table[j] == x;
      }
    }
    assert LiveSlot(p, i) && p.table[i] == e;
    assert c.table[i] in Live(c);
  }

  lemma PlaceInRange(hashes: Element -> seq<nat>, size: nat, e: Element)
    requires GoodHashes(hashes, size)
    ensures |hashes(e)| == 8 && forall k :: 0 <= k < 8 ==> hashes(e)[k] < size
  {
  }

  function Max(a: int, b: int): int {
    if a < b then b else a
  }

  /** The slots that hold recent elements which should be kept, up to slot `n`. */
  ghost function RecentSlots(c: Contents, n: nat): set<nat> {
    set i: nat | i < n && i < |c.recent| && c.recent[i] && LiveSlot(c, i)
  }

  lemma RecentNext(c: Contents, n: nat)
    requires n < |c.recent|
    ensures |RecentSlots(c, n + 1)| == |RecentSlots(c, n)| + (if c.recent[n] && LiveSlot(c, n) then 1 else 0)
  {
    hide LiveSlot;
    if c.recent[n] && LiveSlot(c, n) {
      assert RecentSlots(c, n + 1) == RecentSlots(c, n) + {n};
    } else {
      assert RecentSlots(c, n + 1) == RecentSlots(c, n);
    }
  }

  /** Exactly the recent elements are still to be kept, and they are not recent anymore. */
  ghost predicate Aged(c: Contents, c': Contents) {
    && c'.table == c.table && |c'.recent| == |c.recent| && Live(c') <= Live(c)
    && (forall i: nat :: i < |c.recent| ==> !c'.recent[i])
    && (forall i: nat :: i < |c.table| && i < |c.recent| ==> (LiveSlot(c', i) <==> LiveSlot(c, i) && c.recent[i]))
  }

  /** The elements in the slots that hold recent elements which should be kept. */
  ghost function RecentElements(c: Contents, size: nat): set<Element> {
    set i: nat | i in RecentSlots(c, size) && i < |c.table| :: c.table[i]
  }

  /** What an epoch check leaves to be kept: only the recent elements if an epoch ends, and everything if not. */
  ghost function KeptByCheck(c: Contents, size: nat, epochSize: nat): set<Element> {
    if EpochEnds(c, size, epochSize) then RecentElements(c, size) else Live(c)
  }

  ghost predicate EpochEnds(c: Contents, size: nat, epochSize: nat) {
    c.counter == 0 && |RecentSlots(c, size)| >= epochSize
  }

  /** The recent elements that an epoch check leaves. */
  ghost function RecentByCheck(c: Contents, size: nat, epochSize: nat): set<Element> {
    if EpochEnds(c, size, epochSize) then {} else RecentElements(c, size)
  }

  /** How many inserts an epoch check leaves until the recent elements are counted. */
  ghost function CounterByCheck(c: Contents, size: nat, epochSize: nat): nat {
    if c.counter != 0 then c.counter - 1
    else if EpochEnds(c, size, epochSize) then epochSize
    else Max(1, Max(epochSize / 16, epochSize - |RecentSlots(c, size)|))
  }

  /** The slot is one that an epoch check leaves to be kept. */
  ghost predicate SlotKeptByCheck(c: Contents, size: nat, epochSize: nat, i: nat) {
    if EpochEnds(c, size, epochSize) then i in RecentSlots(c, size) else LiveSlot(c, i)
  }

  /** What an epoch check does: it counts down, or ends an epoch, or finds that it is too early for that. */
  ghost predicate Checked(c: Contents, c': Contents, size: nat, epochSize: nat) {
    && c'.counter == CounterByCheck(c, size, epochSize) && c'.table == c.table
    && Live(c') == KeptByCheck(c, size, epochSize) && RecentElements(c', size) == RecentByCheck(c, size, epochSize)
    && (forall i: nat :: i < size ==> (LiveSlot(c', i) <==> SlotKeptByCheck(c, size, epochSize, i)))
    && (if EpochEnds(c, size, epochSize)
        then |c'.recent| == |c.recent| && forall i :: 0 <= i < |c.recent| ==> !c'.recent[i]
        else c'.recent == c.recent && c'.flags == c.flags)
  }

  /** All places of an element are taken by elements that an epoch check leaves. */
  ghost predicate Crowded(c: Contents, size: nat, epochSize: nat, places: seq<nat>) {
    forall i :: i in places ==> SlotKeptByCheck(c, size, epochSize, i)
  }

  lemma AgedLive(c: Contents, c': Contents, size: nat)
    requires Aged(c, c') && |c.table| == size == |c.recent|
    ensures Live(c') == RecentElements(c, size)
  {
    hide LiveSlot;
    forall x | x in RecentElements(c, size)
      ensures x in Live(c')
    {
      var i: nat :| i in RecentSlots(c, size) && i < |c.table| && c.table[i] == x;
      assert LiveSlot(c', i);
    }
    forall x | x in Live(c')
      ensures x in RecentElements(c, size)
    {
      var i: nat :| i < |c'.table| && LiveSlot(c', i) && c'.table[i] == x;
      assert i in RecentSlots(c, size);
    }
  }

  lemma AgedSlots(c: Contents, c': Contents, size: nat)
    requires Aged(c, c') && |c.table| == size == |c.recent|
    ensures forall i: nat :: i < size ==> (LiveSlot(c', i) <==> i in RecentSlots(c, size))
  {
    hide LiveSlot, Live;
  }

  // ---------- which elements are recent ----------

  /** The element in hand, if it is recent. */
  ghost function InHand(b: bool, e: Element): set<Element> {
    if b then {e} else {}
  }

  lemma RecentAt(c: Contents, size: nat, i: nat)
    requires Sized(c, size) && i < size && c.recent[i] && LiveSlot(c, i)
    ensures c.table[i] in RecentElements(c, size)
  {
    hide LiveSlot;
    assert i in RecentSlots(c, size);
  }

  lemma RecentFrom(c: Contents, size: nat, x: Element) returns (i: nat)
    requires Sized(c, size) && x in RecentElements(c, size)
    ensures i < size && c.recent[i] && LiveSlot(c, i) && c.table[i] == x
  {
    hide LiveSlot;
    i :| i in RecentSlots(c, size) && i < |c.table| && c.table[i] == x;
  }

  lemma RecentIsLive(c: Contents, size: nat)
    requires Sized(c, size)
    ensures RecentElements(c, size) <= Live(c)
  {
    hide LiveSlot;
    forall x | x in RecentElements(c, size)
      ensures x in Live(c)
    {
      var i := RecentFrom(c, size, x);
    }
  }

  lemma PlacedRecent(c: Contents, size: nat, i: nat, e: Element, recent: bool)
    requires Sized(c, size) && i < size && (!LiveSlot(c, i) || (recent && c.table[i] == e))
    ensures i / 8 < |c.flags.mem|
    ensures RecentElements(Placed(c, i, e, recent), size) == RecentElements(c, size) + InHand(recent, e)
  {
    hide LiveSlot, UnsetBit, RecentElements;
    SlotByte(c, size, i);
    SetSize(c.flags, i);
    var p := Placed(c, i, e, recent);
    PlacedSlots(c, size, i, e, recent, i);
    forall x | x in RecentElements(c, size)
      ensures x in RecentElements(p, size)
    {
      var j := RecentFrom(c, size, x);
      PlacedSlots(c, size, i, e, recent, j);
      RecentAt(p, size, j);
    }
    if recent {
      RecentAt(p, size, i);
    }
    forall x | x in RecentElements(p, size)
      ensures x in RecentElements(c, size) + InHand(recent, e)
    {
      var j := RecentFrom(p, size, x);
      PlacedSlots(c, size, i, e, recent, j);
      if j != i {
        RecentAt(c, size, j);
      }
    }
  }

  /** Together with the one in hand, the same elements are recent. */
  lemma SwappedRecent(c: Contents, size: nat, i: nat, e: Element, recent: bool)
    requires Sized(c, size) && i < size && LiveSlot(c, i)
    ensures RecentElements(Swapped(c, i, e, recent), size) + InHand(c.recent[i], c.table[i]) ==
            RecentElements(c, size) + InHand(recent, e)
  {
    hide IsSet, RecentElements;
    var p := Swapped(c, i, e, recent);
    assert forall j: nat :: LiveSlot(p, j) <==> LiveSlot(c, j);
    forall x | x in RecentElements(c, size)
      ensures x in RecentElements(p, size) + InHand(c.recent[i], c.table[i])
    {
      var j := RecentFrom(c, size, x);
      if j != i {
        RecentAt(p, size, j);
      }
    }
    forall x | x in RecentElements(p, size)
      ensures x in RecentElements(c, size) + InHand(recent, e)
    {
      var j := RecentFrom(p, size, x);
      if j != i {
        RecentAt(c, size, j);
      }
    }
    if recent {
      RecentAt(p, size, i);
    }
    if c.recent[i] {
      RecentAt(c, size, i);
    }
  }

  lemma SameRecent(c: Contents, c': Contents, size: nat)
    requires c'.table == c.table && c'.flags == c.flags && c'.recent == c.recent
    ensures RecentElements(c', size) == RecentElements(c, size)
  {
    assert RecentSlots(c', size) == RecentSlots(c, size);
  }

  lemma AgedRecent(c: Contents, c': Contents, size: nat)
    requires Aged(c, c') && |c.table| == size == |c.recent|
    ensures RecentElements(c', size) == {}
  {
    hide LiveSlot, Live;
    assert RecentSlots(c', size) == {};
  }

  ghost predicate Firstly(locs: seq<nat>, last: nat, k: nat) {
    k < |locs| && locs[k] == last && forall j :: 0 <= j < k ==> locs[j] != last
  }

  /** The place of an element that has not been anywhere. */
  const INVALID: nat := 0xffff_ffff

  /** The first of the places that holds `e`. */
  ghost predicate FirstWith(c: Contents, locs: seq<nat>, e: Element, k: nat) {
    && k < |locs| && InTable(c, locs[k]) && c.table[locs[k]] == e
    && forall j :: 0 <= j < k ==> InTable(c, locs[j]) && c.table[locs[j]] != e
  }

  /** The first of the places that is free. */
  ghost predicate FirstFree(c: Contents, locs: seq<nat>, k: nat) {
    && k < |locs| && InTable(c, locs[k]) && !LiveSlot(c, locs[k])
    && forall j :: 0 <= j < k ==> LiveSlot(c, locs[j])
  }

  // ---------- the walk of displacements ----------

  /** The place after the first one that is `last`, going around; the second one if none is. */
  ghost function NextOf(locs: seq<nat>, last: nat): (place: nat)
    requires |locs| == 8
    ensures place in locs
  {
    if exists k: nat :: Firstly(locs, last, k) then
      var k: nat :| Firstly(locs, last, k);
      locs[(k + 1) % 8]
    else locs[1]
  }

  lemma NextIs(locs: seq<nat>, last: nat, k: nat)
    requires |locs| == 8 && k <= 8 && (forall j :: 0 <= j < k ==> locs[j] != last) && (k < 8 ==> locs[k] == last)
    ensures NextOf(locs, last) == locs[(1 + k) % 8]
  {
    if k < 8 {
      assert Firstly(locs, last, k);
      var j: nat :| Firstly(locs, last, j) && NextOf(locs, last) == locs[(j + 1) % 8];
      OneFirst(locs, last, j, k);
    }
  }

  lemma OneFirst(locs: seq<nat>, last: nat, j: nat, k: nat)
    requires Firstly(locs, last, j) && Firstly(locs, last, k)
    ensures j == k
  {
  }

  /** The contents after element `x`, in hand, goes to the first of its places that is free, or else takes the place of
      another that goes on in the same way, `depth` times at most. */
  ghost function Walked(
    c: Contents, hashes: Element -> seq<nat>, size: nat, x: Element, last: nat, recent: bool, depth: nat): Contents
    requires Sized(c, size) && GoodHashes(hashes, size)
    decreases depth
  {
    PlaceInRange(hashes, size, x);
    if depth == 0 then c
    else if exists k: nat :: FirstFree(c, hashes(x), k) then
      var k: nat :| FirstFree(c, hashes(x), k);
      Placed(c, hashes(x)[k], x, recent)
    else
      var i := NextOf(hashes(x), last);
      Walked(Swapped(c, i, x, recent), hashes, size, c.table[i], i, c.recent[i], depth - 1)
  }

  /** The walk comes to an element that has a free place. */
  ghost predicate FindsPlace(
    c: Contents, hashes: Element -> seq<nat>, size: nat, x: Element, last: nat, recent: bool, depth: nat)
    requires Sized(c, size) && GoodHashes(hashes, size)
    decreases depth
  {
    PlaceInRange(hashes, size, x);
    && depth > 0
    && ((exists k: nat :: FirstFree(c, hashes(x), k))
        || var i := NextOf(hashes(x), last);
           FindsPlace(Swapped(c, i, x, recent), hashes, size, c.table[i], i, c.recent[i], depth - 1))
  }

  /** Both the same walk, further on. */
  ghost predicate SameWalk(
    c: Contents, hashes: Element -> seq<nat>, size: nat, x: Element, last: nat, recent: bool, depth: nat,
    c': Contents, x': Element, last': nat, recent': bool, depth': nat)
  {
    && Sized(c, size) && Sized(c', size) && GoodHashes(hashes, size)
    && Walked(c', hashes, size, x', last', recent', depth') == Walked(c, hashes, size, x, last, recent, depth)
    && FindsPlace(c', hashes, size, x', last', recent', depth') == FindsPlace(c, hashes, size, x, last, recent, depth)
  }

  lemma WalkPlaces(
    c: Contents, hashes: Element -> seq<nat>, size: nat, x: Element, last: nat, recent: bool, depth: nat, k: nat)
    requires Sized(c, size) && GoodHashes(hashes, size) && depth > 0 && FirstFree(c, hashes(x), k)
    ensures Walked(c, hashes, size, x, last, recent, depth) == Placed(c, hashes(x)[k], x, recent)
    ensures FindsPlace(c, hashes, size, x, last, recent, depth)
  {
    hide LiveSlot, GoodHashes, Placed;
    var j: nat :| FirstFree(c, hashes(x), j)
                  && Walked(c, hashes, size, x, last, recent, depth) == Placed(c, hashes(x)[j], x, recent);
    OneFirstFree(c, hashes(x), j, k);
  }

  lemma OneFirstFree(c: Contents, locs: seq<nat>, j: nat, k: nat)
    requires FirstFree(c, locs, j) && FirstFree(c, locs, k)
    ensures j == k
  {
    hide LiveSlot;
    assert j >= k && k >= j;
  }

  lemma FirstFreeOf(c: Contents, size: nat, locs: seq<nat>, i: nat)
    requires Sized(c, size) && (forall k :: 0 <= k < |locs| ==> locs[k] < size) && i < |locs| && !LiveSlot(c, locs[i])
    ensures exists k: nat :: FirstFree(c, locs, k)
  {
    hide LiveSlot;
    var k: nat := 0;
    while LiveSlot(c, locs[k])
      invariant k <= i && forall j :: 0 <= j < k ==> LiveSlot(c, locs[j])
      decreases i - k
    {
      k := k + 1;
    }
    SlotByte(c, size, locs[k]);
    assert FirstFree(c, locs, k);
  }

  lemma WalkSwaps(
    c: Contents, hashes: Element -> seq<nat>, size: nat, x: Element, last: nat, recent: bool, depth: nat, i: nat)
    requires Sized(c, size) && GoodHashes(hashes, size) && depth > 0 && |hashes(x)| == 8 && i == NextOf(hashes(x), last)
    requires forall j :: j in hashes(x) ==> LiveSlot(c, j)
    ensures i < |c.table| && i < |c.recent|
    ensures SameWalk(c, hashes, size, x, last, recent, depth,
                     Swapped(c, i, x, recent), c.table[i], i, c.recent[i], depth - 1)
  {
    hide LiveSlot, GoodHashes, NextOf;
    PlaceInRange(hashes, size, x);
    forall k: nat
      ensures !FirstFree(c, hashes(x), k)
    {
      if k < |hashes(x)| {
        assert hashes(x)[k] in hashes(x);
      }
    }
  }

  ghost predicate InTable(c: Contents, i: nat) {
    i < |c.table| && i < |c.recent| && i / 8 < |c.flags.mem|
  }

  class Cache {
    const hashes: Element -> seq<nat>
    const size: nat
    const epochSize: nat
    const depthLimit: nat
    var c: Contents

    ghost predicate Valid()
      reads this
    {
      CacheOk(c, hashes, size)
    }

    /** A cache for `newSize` elements, all of its slots free. `depth` is the logarithm of the size. */
    constructor (newSize: nat, depth: nat, hashes: Element -> seq<nat>)
      requires GoodHashes(hashes, if newSize < 2 then 2 else newSize)
      ensures Valid() && Live(c) == {} && size == (if newSize < 2 then 2 else newSize)
      ensures this.hashes == hashes && depthLimit == depth
      ensures epochSize == Max(1, 45 * size % 0x1_0000_0000 / 100) && c.counter == epochSize
    {
      var n := if newSize < 2 then 2 else newSize;
      var epoch := 45 * n % 0x1_0000_0000 / 100;
      this.hashes, size, depthLimit := hashes, n, depth;
      epochSize := if epoch < 1 then 1 else epoch;
      c := Contents(seq(n, _ => 0), AllSet(n), seq(n, _ => false), if epoch < 1 then 1 else epoch);
      new;
      forall i: nat | i < n
        ensures !LiveSlot(c, i)
      {
        AllAreSet(n, i);
      }
    }

    /** Count the recent elements that are to be kept. */
    method CountRecent() returns (count: nat)
      requires Valid()
      ensures count == |RecentSlots(c, size)|
    {
      hide AtHome, GoodHashes, IsSet;
      count := 0;
      for i := 0 to size
        invariant count == |RecentSlots(c, i)|
      {
        SlotByte(c, size, i);
        RecentNext(c, i);
        if c.recent[i] && !IsSet(c.flags, i) {
          count := count + 1;
        }
      }
    }

    /** Give up the elements that are not recent, and let the others grow old. */
    method AgeEpoch()
      requires Valid()
      modifies this
      ensures Valid() && Aged(old(c), c) && c.counter == old(c.counter)
    {
      hide IsSet, GoodHashes, AtHome, Live;
      ghost var c0 := c;
      for i := 0 to size
        invariant Valid() && c.table == c0.table && Live(c) <= Live(c0) && c.counter == c0.counter
        invariant forall j: nat :: j < size ==> (LiveSlot(c, j) <==> LiveSlot(c0, j) && (j >= i || c0.recent[j]))
        invariant forall j: nat :: j < size ==> c.recent[j] == (j >= i && c0.recent[j])
      {
        ghost var was := c;
        SlotByte(c, size, i);
        if c.recent[i] {
          c := c.(recent := c.recent[i := false]);
          SameLive(was, c, hashes, size);
        } else {
          ErasedOk(c, hashes, size, i);
          forall j: nat | j < size
            ensures LiveSlot(Erased(c, i), j) <==> j != i && LiveSlot(c, j)
          {
            ErasedSlots(c, size, i, j);
          }
          c := Erased(c, i);
        }
      }
    }

    /** Start a new epoch when enough elements have been inserted since the last. */
    method EpochCheck()
      requires Valid()
      modifies this
      ensures Valid() && Live(c) <= old(Live(c)) && Checked(old(c), c, size, epochSize)
    {
      hide GoodHashes, AtHome, LiveSlot, Live, RecentSlots, RecentElements;
      ghost var c0 := c;
      if c.counter != 0 {
        c := c.(counter := c.counter - 1);
        SameLive(c0, c, hashes, size);
        SameRecent(c0, c, size);
        return;
      }
      var count := CountRecent();
      if count >= epochSize {
        AgeEpoch();
        ghost var c1 := c;
        AgedLive(c0, c1, size);
        AgedSlots(c0, c1, size);
        AgedRecent(c0, c1, size);
        c := c.(counter := epochSize);
        SameLive(c1, c, hashes, size);
        SameRecent(c1, c, size);
      } else {
        c := c.(counter := Max(1, Max(epochSize / 16, epochSize - count)));
        SameLive(c0, c, hashes, size);
        SameRecent(c0, c, size);
      }
    }

    /** Whether `e` is in one of its places, if only as an element that may be overwritten. With `erase`, it
        may be overwritten from now on. */
    method Contains(e: Element, erase: bool) returns (found: bool)
      requires Valid()
      modifies this
      ensures Valid() && c.table == old(c.table) && Live(c) <= old(Live(c))
      ensures found <==> exists i :: i in hashes(e) && i < size && c.table[i] == e
      ensures e in old(Live(c)) ==> found
      ensures !(erase && found) ==> c == old(c)
      ensures erase && found ==>
        exists k: nat :: FirstWith(old(c), hashes(e), e, k) && c == Erased(old(c), hashes(e)[k])
    {
      hide IsSet, Live, LiveSlot, SetBit;
      PlaceInRange(hashes, size, e);
      LiveIsFound(c, hashes, size, e);
      var locs := hashes(e);
      for k := 0 to 8
        invariant forall j :: 0 <= j < k ==> InTable(c, locs[j]) && c.table[locs[j]] != e
        invariant c == old(c)
      {
        SlotByte(c, size, locs[k]);
        if c.table[locs[k]] == e {
          assert locs[k] in hashes(e);
          assert FirstWith(c, hashes(e), e, k);
          if erase {
            ErasedOk(c, hashes, size, locs[k]);
            c := Erased(c, locs[k]);
          }
          return true;
        }
      }
      return false;
    }

    /** Put `e` into the first of its places that already holds it. */
    method Refresh(e: Element) returns (done: bool)
      requires Valid()
      modifies this
      ensures Valid() && (done ==> Live(c) == old(Live(c)) + {e})
      ensures done ==> RecentElements(c, size) == old(RecentElements(c, size)) + {e} && c.counter == old(c.counter)
      ensures done ==> exists k: nat ::
        FirstWith(old(c), hashes(e), e, k) && c == Placed(old(c), hashes(e)[k], e, true)
      ensures !done ==> c == old(c) && forall i :: i in hashes(e) && i < |c.table| ==> c.table[i] != e
    {
      hide IsSet, Live, LiveSlot, UnsetBit, AtHome, RecentElements;
      PlaceInRange(hashes, size, e);
      var locs := hashes(e);
      for k := 0 to 8
        invariant c == old(c) && forall j :: 0 <= j < k ==> InTable(c, locs[j]) && c.table[locs[j]] != e
      {
        SlotByte(c, size, locs[k]);
        if c.table[locs[k]] == e {
          assert locs[k] in hashes(e);
          PlacedOk(c, hashes, size, locs[k], e, true);
          PlacedRecent(c, size, locs[k], e, true);
          assert FirstWith(c, hashes(e), e, k);
          c := Placed(c, locs[k], e, true);
          return true;
        }
      }
      return false;
    }

    /** Put `e` into the first of its places that is free. */
    method PlaceFree(e: Element, recent: bool) returns (done: bool)
      requires Valid()
      modifies this
      ensures Valid() && (done ==> Live(c) == old(Live(c)) + {e})
      ensures done ==> RecentElements(c, size) == old(RecentElements(c, size)) + InHand(recent, e)
      ensures c.counter == old(c.counter)
      ensures done ==> exists k: nat :: FirstFree(old(c), hashes(e), k) && c == Placed(old(c), hashes(e)[k], e, recent)
      ensures !done ==> c == old(c) && forall i :: i in hashes(e) ==> LiveSlot(c, i)
    {
      hide IsSet, Live, UnsetBit, AtHome, RecentElements;
      PlaceInRange(hashes, size, e);
      var locs := hashes(e);
      for k := 0 to 8
        invariant c == old(c)
        invariant forall j :: 0 <= j < k ==> LiveSlot(c, locs[j])
      {
        SlotByte(c, size, locs[k]);
        if IsSet(c.flags, locs[k]) {
          assert locs[k] in hashes(e);
          PlacedOk(c, hashes, size, locs[k], e, recent);
          PlacedRecent(c, size, locs[k], e, recent);
          assert FirstFree(c, hashes(e), k);
          c := Placed(c, locs[k], e, recent);
          return true;
        }
      }
      return false;
    }

    /** The place after the one that was swapped last; the second one if there is none. */
    method NextPlace(e: Element, last: nat) returns (place: nat)
      requires Valid()
      ensures place in hashes(e) && place < size
      ensures |hashes(e)| == 8 && place == NextOf(hashes(e), last)
      ensures if last in hashes(e) then exists k :: Firstly(hashes(e), last, k) && place == hashes(e)[(k + 1) % 8]
              else place == hashes(e)[1]
    {
      PlaceInRange(hashes, size, e);
      var locs := hashes(e);
      var k := 0;
      while k < 8 && locs[k] != last
        invariant k <= 8 && forall j :: 0 <= j < k ==> locs[j] != last
      {
        k := k + 1;
      }
      place := locs[(1 + k) % 8];
      assert k < 8 ==> Firstly(locs, last, k);
      NextIs(locs, last, k);
    }

    /** Insert an element, moving others to other places of theirs. Of the elements that the epoch check leaves
        and the new one, at most one is lost, and none if the new one is there already or the walk of displacements
        finds a place free; and nothing else comes to be kept. The new one is recent, and the others are if they
        were. `checked` are the contents after the epoch check. */
    method Insert(e: Element) returns (ghost checked: Contents)
      requires Valid()
      modifies this
      ensures Valid() && CacheOk(checked, hashes, size) && Checked(old(c), checked, size, epochSize)
      ensures exists x :: Inserted(old(c), c, size, epochSize, e, x)
      ensures (exists k: nat :: FirstWith(checked, hashes(e), e, k) && c == Placed(checked, hashes(e)[k], e, true))
           || (&& (forall i :: i in hashes(e) && i < size ==> checked.table[i] != e)
               && c == Walked(checked, hashes, size, e, INVALID, true, depthLimit))
      ensures (exists i :: i in hashes(e) && i < size && checked.table[i] == e)
              || FindsPlace(checked, hashes, size, e, INVALID, true, depthLimit)
        ==> NothingLost(old(c), c, size, epochSize, e)
      ensures e in old(KeptByCheck(c, size, epochSize)) ==> NothingLost(old(c), c, size, epochSize, e)
      ensures depthLimit > 0 && !old(Crowded(c, size, epochSize, hashes(e))) ==>
        NothingLost(old(c), c, size, epochSize, e)
    {
      hide CacheOk, Live, LiveSlot, KeptByCheck, SlotKeptByCheck, RecentElements, RecentByCheck, CounterByCheck,
        EpochEnds, Walked, FindsPlace, SameWalk, Placed, Swapped, FirstWith, FirstFree, NextOf;
      EpochCheck();
      checked := c;
      SizeFacts(c, hashes, size);
      LiveIsFound(c, hashes, size, e);
      UncrowdedFinds(old(c), c, hashes, size, epochSize, e, depthLimit);
      var done := Refresh(e);
      if done {
        assert Inserted(old(c), c, size, epochSize, e, e);
        return;
      }
      var x, recent := e, true;
      var last: nat := INVALID;
      SameWalkSelf(c, hashes, size, x, last, recent, depthLimit);
      for depth := 0 to depthLimit
        invariant Valid() && Live(c) + {x} == Live(checked) + {e} && c.counter == checked.counter
        invariant RecentElements(c, size) + InHand(recent, x) == RecentElements(checked, size) + {e}
        invariant SameWalk(checked, hashes, size, e, INVALID, true, depthLimit, c, x, last, recent, depthLimit - depth)
      {
        SizeFacts(c, hashes, size);
        ghost var before := c;
        done := PlaceFree(x, recent);
        if done {
          WalkEnds(checked, hashes, size, e, depthLimit, before, c, x, last, recent, depthLimit - depth);
          assert Inserted(old(c), c, size, epochSize, e, x);
          return;
        }
        var place := NextPlace(x, last);
        WalkSwaps(c, hashes, size, x, last, recent, depthLimit - depth, place);
        SwappedOk(c, hashes, size, place, x, recent);
        SwappedRecent(c, size, place, x, recent);
        SwappedCounter(c, place, x, recent);
        var evicted, wasRecent := c.table[place], c.recent[place];
        c := Swapped(c, place, x, recent);
        SameWalkOn(checked, hashes, size, e, depthLimit, before, x, last, recent, depthLimit - depth,
                   c, evicted, place, wasRecent);
        x, last, recent := evicted, place, wasRecent;
      }
      WalkStops(checked, hashes, size, e, depthLimit, c, x, last, recent);
      assert Inserted(old(c), c, size, epochSize, e, x);
    }

    /** Insert and erase elements. `states` are the contents between the operations, and `lost` what each lost. */
    method Run(ops: seq<Op>) returns (ghost states: seq<Contents>, ghost lost: seq<Element>)
      requires Valid()
      modifies this
      ensures Valid() && IsRun(states, ops, lost, size, epochSize) && states[0] == old(c) && states[|ops|] == c
    {
      hide CacheOk, Live, LiveSlot, Follows;
      states, lost := [c], [];
      SizeFacts(c, hashes, size);
      for n := 0 to |ops|
        invariant Valid() && |states| == n + 1 && |lost| == n && states[0] == old(c) && states[n] == c
        invariant forall k :: 0 <= k < n ==> Follows(states[k], states[k + 1], size, epochSize, ops[k], lost[k])
        invariant forall k :: 0 <= k <= n ==> Sized(states[k], size)
      {
        ghost var x := Perform(ops[n]);
        SizeFacts(c, hashes, size);
        states, lost := states + [c], lost + [x];
      }
    }

    method Perform(op: Op) returns (ghost lost: Element)
      requires Valid()
      modifies this
      ensures Valid() && Follows(old(c), c, size, epochSize, op, lost)
    {
      hide CacheOk, Live, LiveSlot, RecentElements, Inserted;
      SizeFacts(c, hashes, size);
      PlacesOf(hashes, size, op.e);
      match op
      case Insert(e) =>
        ghost var checked := Insert(e);
        lost :| Inserted(old(c), c, size, epochSize, e, lost);
      case Erase(e) =>
        lost := e;
        var found := Contains(e, true);
        if found {
          ghost var k: nat :| FirstWith(old(c), hashes(e), e, k) && c == Erased(old(c), hashes(e)[k]);
          ErasedOthers(old(c), hashes, size, hashes(e)[k]);
        }
    }
  }

  lemma PlacesOf(hashes: Element -> seq<nat>, size: nat, e: Element)
    requires GoodHashes(hashes, size)
    ensures forall k :: 0 <= k < |hashes(e)| ==> hashes(e)[k] < size
  {
    PlaceInRange(hashes, size, e);
  }

  lemma SameWalkSelf(
    c: Contents, hashes: Element -> seq<nat>, size: nat, x: Element, last: nat, recent: bool, depth: nat)
    requires Sized(c, size) && GoodHashes(hashes, size)
    ensures SameWalk(c, hashes, size, x, last, recent, depth, c, x, last, recent, depth)
  {
  }

  lemma SameWalkOn(
    c0: Contents, hashes: Element -> seq<nat>, size: nat, e: Element, depth0: nat,
    c: Contents, x: Element, last: nat, recent: bool, depth: nat,
    c': Contents, x': Element, last': nat, recent': bool)
    requires depth > 0
    requires SameWalk(c0, hashes, size, e, INVALID, true, depth0, c, x, last, recent, depth)
    requires SameWalk(c, hashes, size, x, last, recent, depth, c', x', last', recent', depth - 1)
    ensures SameWalk(c0, hashes, size, e, INVALID, true, depth0, c', x', last', recent', depth - 1)
  {
    hide Walked, FindsPlace;
  }

  lemma WalkEnds(
    c0: Contents, hashes: Element -> seq<nat>, size: nat, e: Element, depth0: nat,
    c: Contents, c': Contents, x: Element, last: nat, recent: bool, depth: nat)
    requires SameWalk(c0, hashes, size, e, INVALID, true, depth0, c, x, last, recent, depth) && depth > 0
    requires exists k: nat :: FirstFree(c, hashes(x), k) && c' == Placed(c, hashes(x)[k], x, recent)
    ensures c' == Walked(c0, hashes, size, e, INVALID, true, depth0)
    ensures FindsPlace(c0, hashes, size, e, INVALID, true, depth0)
  {
    hide Walked, FindsPlace, LiveSlot, GoodHashes;
    var k: nat :| FirstFree(c, hashes(x), k) && c' == Placed(c, hashes(x)[k], x, recent);
    WalkPlaces(c, hashes, size, x, last, recent, depth, k);
  }

  lemma WalkStops(
    c0: Contents, hashes: Element -> seq<nat>, size: nat, e: Element, depth0: nat,
    c: Contents, x: Element, last: nat, recent: bool)
    requires SameWalk(c0, hashes, size, e, INVALID, true, depth0, c, x, last, recent, 0)
    ensures c == Walked(c0, hashes, size, e, INVALID, true, depth0)
    ensures !FindsPlace(c0, hashes, size, e, INVALID, true, depth0)
  {
    assert Walked(c, hashes, size, x, last, recent, 0) == c;
  }

  lemma UncrowdedFinds(
    c: Contents, c': Contents, hashes: Element -> seq<nat>, size: nat, epochSize: nat, e: Element, depth: nat)
    requires Checked(c, c', size, epochSize) && Sized(c', size) && GoodHashes(hashes, size)
    ensures depth > 0 && !Crowded(c, size, epochSize, hashes(e)) ==>
      FindsPlace(c', hashes, size, e, INVALID, true, depth)
  {
    hide LiveSlot, SlotKeptByCheck, EpochEnds, Live, RecentElements, CounterByCheck, KeptByCheck, RecentByCheck;
    if depth > 0 && !Crowded(c, size, epochSize, hashes(e)) {
      PlaceInRange(hashes, size, e);
      var i :| i in hashes(e) && !SlotKeptByCheck(c, size, epochSize, i);
      var k :| 0 <= k < |hashes(e)| && hashes(e)[k] == i;
      FirstFreeOf(c', size, hashes(e), k);
    }
  }

  lemma SwappedCounter(c: Contents, i: nat, e: Element, recent: bool)
    requires i < |c.table| && i < |c.recent|
    ensures Swapped(c, i, e, recent).counter == c.counter
  {
  }

  // ---------- runs ----------

  datatype Op = Insert(e: Element) | Erase(e: Element)

  /** Inserting `e` loses at most `x`: of the elements that the epoch check leaves and the new one, all others are kept,
      and all others of those that are recent are recent; and nothing else is. */
  ghost predicate Inserted(c: Contents, c': Contents, size: nat, epochSize: nat, e: Element, x: Element) {
    && c'.counter == CounterByCheck(c, size, epochSize)
    && Live(c') <= KeptByCheck(c, size, epochSize) + {e} <= Live(c') + {x}
    && RecentElements(c', size) <= RecentByCheck(c, size, epochSize) + {e} <= RecentElements(c', size) + {x}
  }

  ghost predicate NothingLost(c: Contents, c': Contents, size: nat, epochSize: nat, e: Element) {
    && Live(c') == KeptByCheck(c, size, epochSize) + {e}
    && RecentElements(c', size) == RecentByCheck(c, size, epochSize) + {e}
  }

  ghost predicate Follows(c: Contents, c': Contents, size: nat, epochSize: nat, op: Op, lost: Element) {
    match op
    case Insert(e) => Inserted(c, c', size, epochSize, e, lost)
    case Erase(e) =>
      && c'.counter == c.counter && Live(c') <= Live(c) <= Live(c') + {e}
      && RecentElements(c', size) <= RecentElements(c, size) <= RecentElements(c', size) + {e}
  }

  /** Erasing a slot touches only what it holds. */
  lemma ErasedOthers(c: Contents, hashes: Element -> seq<nat>, size: nat, i: nat)
    requires CacheOk(c, hashes, size) && i < size
    ensures i / 8 < |c.flags.mem|
    ensures Live(Erased(c, i)) <= Live(c) <= Live(Erased(c, i)) + {c.table[i]}
    ensures RecentElements(Erased(c, i), size) <= RecentElements(c, size)
    ensures RecentElements(c, size) <= RecentElements(Erased(c, i), size) + {c.table[i]}
  {
    hide LiveSlot, GoodHashes, SetBit, RecentElements;
    SlotByte(c, size, i);
    SetSize(c.flags, i);
    var p := Erased(c, i);
    ErasedOk(c, hashes, size, i);
    forall x | x in Live(c) && x != c.table[i]
      ensures x in Live(p)
    {
      var j :| 0 <= j < |c.table| && LiveSlot(c, j) && c.table[j] == x;
      ErasedSlots(c, size, i, j);
      assert LiveSlot(p, j);
    }
    forall x | x in RecentElements(c, size) && x != c.table[i]
      ensures x in RecentElements(p, size)
    {
      var j := RecentFrom(c, size, x);
      ErasedSlots(c, size, i, j);
      RecentAt(p, size, j);
    }
    forall x | x in RecentElements(p, size)
      ensures x in RecentElements(c, size)
    {
      var j := RecentFrom(p, size, x);
      ErasedSlots(c, size, i, j);
      RecentAt(c, size, j);
    }
  }

  ghost predicate IsRun(states: seq<Contents>, ops: seq<Op>, lost: seq<Element>, size: nat, epochSize: nat) {
    && |states| == |ops| + 1 && |lost| == |ops| && (forall k :: 0 <= k < |states| ==> Sized(states[k], size))
    && forall k :: 0 <= k < |ops| ==> Follows(states[k], states[k + 1], size, epochSize, ops[k], lost[k])
  }

  /** The element is not lost and not erased by operation `k`. */
  ghost predicate Spared(ops: seq<Op>, lost: seq<Element>, k: nat, e: Element) {
    k < |ops| && k < |lost| && ops[k] != Erase(e) && (ops[k].Insert? ==> lost[k] != e)
  }

  /** How many epochs end between `i` and `n`. */
  ghost function Epochs(states: seq<Contents>, ops: seq<Op>, size: nat, epochSize: nat, i: nat, n: nat): nat
    requires i <= n <= |ops| && n <= |states|
    decreases n
  {
    if n == i then 0
    else
      Epochs(states, ops, size, epochSize, i, n - 1)
      + if ops[n - 1].Insert? && EpochEnds(states[n - 1], size, epochSize) then 1 else 0
  }

  /** An element that is inserted stays recent until an epoch ends, and is kept until a second one does, unless it is
      erased or lost. */
  lemma {:induction false} KeptForAnEpoch(
    states: seq<Contents>, ops: seq<Op>, lost: seq<Element>, size: nat, epochSize: nat, i: nat, n: nat)
    requires IsRun(states, ops, lost, size, epochSize) && i < n <= |ops| && ops[i].Insert?
    requires forall k :: i <= k < n ==> Spared(ops, lost, k, ops[i].e)
    ensures Epochs(states, ops, size, epochSize, i + 1, n) == 0 ==> ops[i].e in RecentElements(states[n], size)
    ensures Epochs(states, ops, size, epochSize, i + 1, n) <= 1 ==> ops[i].e in Live(states[n])
    decreases n
  {
    hide Follows, Live, RecentElements, EpochEnds, Spared;
    assert Spared(ops, lost, n - 1, ops[i].e);
    assert Follows(states[n - 1], states[n], size, epochSize, ops[n - 1], lost[n - 1]);
    StaysKept(states[n - 1], states[n], size, epochSize, ops, lost, n - 1, ops[i].e);
    if n > i + 1 {
      KeptForAnEpoch(states, ops, lost, size, epochSize, i, n - 1);
    }
  }

  lemma StaysKept(
    c: Contents, c': Contents, size: nat, epochSize: nat, ops: seq<Op>, lost: seq<Element>, k: nat, e: Element)
    requires Spared(ops, lost, k, e) && Follows(c, c', size, epochSize, ops[k], lost[k])
    requires Sized(c, size) && Sized(c', size)
    ensures RecentElements(c', size) <= Live(c')
    ensures ops[k] == Insert(e) ==> e in RecentElements(c', size)
    ensures e in RecentElements(c, size) ==> e in Live(c')
    ensures !(ops[k].Insert? && EpochEnds(c, size, epochSize)) ==>
      && (e in RecentElements(c, size) ==> e in RecentElements(c', size))
      && (e in Live(c) ==> e in Live(c'))
  {
    hide Live, RecentElements, EpochEnds;
    RecentIsLive(c, size);
    RecentIsLive(c', size);
  }

  /** The elements of the first `n` operations. */
  ghost function FirstOf(ops: seq<Op>, n: nat): set<Element>
    requires n <= |ops|
  {
    set k | 0 <= k < n :: ops[k].e
  }

  lemma {:induction false} CountFirst(ops: seq<Op>, n: nat)
    requires n <= |ops| && forall i, j :: 0 <= i < j < n ==> ops[i].e != ops[j].e
    ensures |FirstOf(ops, n)| == n
  {
    hide FirstOf;
    if n > 0 {
      CountFirst(ops, n - 1);
      FirstNext(ops, n - 1);
      NotAmongFirst(ops, n - 1, ops[n - 1].e);
    } else {
      NoneFirst(ops);
    }
  }

  lemma NoneFirst(ops: seq<Op>)
    ensures FirstOf(ops, 0) == {}
  {
  }

  lemma FirstNext(ops: seq<Op>, n: nat)
    requires n < |ops|
    ensures FirstOf(ops, n + 1) == FirstOf(ops, n) + {ops[n].e}
  {
    forall x | x in FirstOf(ops, n + 1)
      ensures x in FirstOf(ops, n) + {ops[n].e}
    {
      var k :| 0 <= k < n + 1 && ops[k].e == x;
      assert k < n || k == n;
    }
  }

  lemma NotAmongFirst(ops: seq<Op>, n: nat, x: Element)
    requires n <= |ops| && forall i :: 0 <= i < n ==> ops[i].e != x
    ensures x !in FirstOf(ops, n)
  {
  }

  lemma {:induction false} AtLeastAsManySlots(c: Contents, size: nat, I: set<nat>)
    requires Sized(c, size) && forall i :: i in I ==> i < size
    ensures |set i | i in I :: c.table[i]| <= |I|
  {
    if I != {} {
      var i :| i in I;
      var J := I - {i};
      AtLeastAsManySlots(c, size, J);
      var S, T := set j | j in I :: c.table[j], set j | j in J :: c.table[j];
      assert S == T + {c.table[i]} by {
        assert forall j :: j in I <==> j == i || j in J;
      }
    }
  }

  /** Inserting as many different elements as an epoch has into a new cache, none of which is lost, makes the epoch end
      with the next insert. */
  lemma {:induction false} FirstEpoch(
    states: seq<Contents>, ops: seq<Op>, lost: seq<Element>, size: nat, epochSize: nat, n: nat)
    requires IsRun(states, ops, lost, size, epochSize) && n <= epochSize <= |ops|
    requires states[0].counter == epochSize
    requires forall k :: 0 <= k < epochSize ==> ops[k].Insert?
    requires forall i, j :: 0 <= i < j < epochSize ==> ops[i].e != ops[j].e
    requires forall i, k :: 0 <= i <= k < epochSize ==> lost[k] != ops[i].e
    ensures states[n].counter == epochSize - n && FirstOf(ops, n) <= RecentElements(states[n], size)
    ensures n == epochSize ==> EpochEnds(states[n], size, epochSize)
  {
    hide Live, RecentElements, RecentSlots, KeptByCheck, FirstOf;
    if n > 0 {
      FirstEpoch(states, ops, lost, size, epochSize, n - 1);
      assert Follows(states[n - 1], states[n], size, epochSize, ops[n - 1], lost[n - 1]);
      FirstNext(ops, n - 1);
      NotAmongFirst(ops, n, lost[n - 1]);
    } else {
      NoneFirst(ops);
    }
    if n == epochSize {
      CountFirst(ops, n);
      ManyRecent(states[n], size, FirstOf(ops, n));
    }
  }

  lemma ManyRecent(c: Contents, size: nat, S: set<Element>)
    requires Sized(c, size) && S <= RecentElements(c, size)
    ensures |S| <= |RecentSlots(c, size)|
  {
    hide LiveSlot;
    AtLeastAsManySlots(c, size, RecentSlots(c, size));
    var T := set i: nat | i in RecentSlots(c, size) && i < |c.table| :: c.table[i];
    assert T == set i | i in RecentSlots(c, size) :: c.table[i];
    assert T == RecentElements(c, size);
    assert S + (T - S) == T;
  }

  lemma SizeFacts(c: Contents, hashes: Element -> seq<nat>, size: nat)
    requires CacheOk(c, hashes, size)
    ensures Sized(c, size) && GoodHashes(hashes, size)
  {
  }

  lemma SameLive(c: Contents, c': Contents, hashes: Element -> seq<nat>, size: nat)
    requires CacheOk(c, hashes, size) && c'.table == c.table && c'.flags == c.flags && |c'.recent| == |c.recent|
    ensures CacheOk(c', hashes, size) && Live(c') == Live(c) && forall i: nat :: LiveSlot(c', i) <==> LiveSlot(c, i)
  {
    hide IsSet, GoodHashes;
    assert forall i: nat :: LiveSlot(c', i) <==> LiveSlot(c, i);
    assert Live(c') == Live(c);
  }

  /** An element that is to be kept is found. */
  lemma LiveIsFound(c: Contents, hashes: Element -> seq<nat>, size: nat, e: Element)
    requires CacheOk(c, hashes, size)
    ensures e in Live(c) ==> exists i :: i in hashes(e) && i < size && c.table[i] == e
  {
    hide IsSet, GoodHashes;
    if e in Live(c) {
      var i :| 0 <= i < |c.table| && LiveSlot(c, i) && c.table[i] == e;
      assert i in hashes(e);
    }
  }
}
