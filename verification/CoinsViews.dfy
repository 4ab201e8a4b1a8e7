/** A stack of coins caches over a database: whatever is read, added, spent, written back or dropped, each
    level behaves as a plain map of unspent coins. */
module CoinsViews {
  import opened Options
  import opened Sums
  import opened FlaggedLists
  import opened CoinLayers

  /** The database, and the caches over it from the lowest to the highest. */
  datatype Store = Store(db: View, layers: seq<Layer>)

  /** The plain map that each level stands for, the database first, and the order of the flagged entries of
      each layer. */
  datatype Model = Model(views: seq<View>, orders: seq<seq<OutPoint>>)

  ghost predicate LevelOk(s: Store, m: Model, n: nat)
    requires n < |s.layers| && n < |m.orders| && n + 1 < |m.views|
  {
    LayerOk(s.layers[n], m.orders[n], m.views[n], m.views[n + 1])
  }

  ghost predicate StackOk(s: Store, m: Model) {
    && |m.views| == |s.layers| + 1 && |m.orders| == |s.layers|
    && m.views[0] == s.db
    && forall n :: 0 <= n < |s.layers| ==> LevelOk(s, m, n)
  }

  /** There are plain maps that the levels could stand for. */
  ghost predicate InOrder(s: Store) {
    exists m: Model :: StackOk(s, m)
  }

  // ---------- changes to one level ----------

  /** One layer has changed, under and above the same views. */
  lemma ReplaceLayer(s: Store, m: Model, n: nat, l: Layer, order: seq<OutPoint>)
    requires StackOk(s, m) && n < |s.layers| && LayerOk(l, order, m.views[n], m.views[n + 1])
    ensures StackOk(s.(layers := s.layers[n := l]), m.(orders := m.orders[n := order]))
  {
    hide LayerOk;
    var s', m' := s.(layers := s.layers[n := l]), m.(orders := m.orders[n := order]);
    forall i | 0 <= i < |s'.layers|
      ensures LevelOk(s', m', i)
    {
      if i != n {
        assert LevelOk(s, m, i);
      }
    }
  }

  /** The highest layer has changed, and what is seen through it. */
  lemma ReplaceTop(s: Store, m: Model, l: Layer, order: seq<OutPoint>, v: View)
    requires StackOk(s, m) && |s.layers| > 0 && LayerOk(l, order, m.views[|s.layers| - 1], v)
    ensures StackOk(s.(layers := s.layers[|s.layers| - 1 := l]),
                    Model(m.views[|s.layers| := v], m.orders[|s.layers| - 1 := order]))
  {
    hide LayerOk;
    var n := |s.layers| - 1;
    var s', m' := s.(layers := s.layers[n := l]), Model(m.views[n + 1 := v], m.orders[n := order]);
    forall i | 0 <= i < |s'.layers|
      ensures LevelOk(s', m', i)
    {
      if i != n {
        assert LevelOk(s, m, i);
      }
    }
  }

  lemma LevelFacts(s: Store, m: Model, n: nat)
    requires StackOk(s, m) && n < |s.layers|
    ensures |m.views| == |s.layers| + 1 && |m.orders| == |s.layers|
    ensures LayerOk(s.layers[n], m.orders[n], m.views[n], m.views[n + 1])
  {
    assert LevelOk(s, m, n);
  }

  // ---------- filling ----------

  /** The coin at `o`, looked up through the lowest `k` layers, fills those that miss it, from the highest down to one
      that has an entry or, at an overlay, no further. */
  ghost function Filled(layers: seq<Layer>, k: nat, o: OutPoint, c: Coin): (r: seq<Layer>)
    requires k <= |layers|
    ensures |r| == |layers| && r[k..] == layers[k..]
  {
    if k == 0 || o in layers[k - 1].entries then layers
    else
      var below := if layers[k - 1].overlay then layers else Filled(layers, k - 1, o, c);
      below[k - 1 := Fill(layers[k - 1], o, c)]
  }

  /** The caches after such a lookup: nothing is filled where there is no coin. */
  ghost function LookedUp(s: Store, k: nat, o: OutPoint, c: Option<Coin>): (r: Store)
    requires k <= |s.layers|
    ensures |r.layers| == |s.layers| && r.db == s.db
  {
    if c.Some? then s.(layers := Filled(s.layers, k, o, c.value)) else s
  }

  lemma FilledHere(s: Store, k: nat, o: OutPoint, c: Coin)
    requires 0 < k <= |s.layers| && o !in s.layers[k - 1].entries
    ensures
      var below := if s.layers[k - 1].overlay then s else LookedUp(s, k - 1, o, Some(c));
      && below.layers[k - 1] == s.layers[k - 1]
      && LookedUp(s, k, o, Some(c)) == below.(layers := below.layers[k - 1 := Fill(s.layers[k - 1], o, c)])
  {
    var below := Filled(s.layers, k - 1, o, c);
    assert below[k - 1] == below[k - 1..][0] == s.layers[k - 1..][0];
  }

  lemma LookedUpHere(s: Store, k: nat, o: OutPoint, c: Coin)
    requires 0 < k <= |s.layers| && o in s.layers[k - 1].entries
    ensures LookedUp(s, k, o, Some(c)) == s
  {
  }

  lemma FilledTop(s: Store, k: nat, o: OutPoint, c: Option<Coin>)
    requires 0 < k <= |s.layers|
    ensures LookedUp(s, k, o, c).layers[k - 1].entries ==
      if o !in s.layers[k - 1].entries && c.Some? then s.layers[k - 1].entries[o := Entry(c.value, false, false)]
      else s.layers[k - 1].entries
  {
  }

  // ---------- writing back ----------

  ghost function EntryAt(l: Layer, o: OutPoint): Option<Entry> {
    if o in l.entries then Some(l.entries[o]) else None
  }

  ghost predicate DirtyEntry(l: Layer, o: OutPoint) {
    o in l.entries && l.entries[o].isDirty
  }

  /** What becomes of the entry below when `e` is written to it: a coin that was created and is spent above what is
      below that level leaves nothing, and FRESH is taken over only where there was no entry. */
  ghost function Overwritten(below: Option<Entry>, e: Entry): Option<Entry> {
    var isFresh := if below.Some? then below.value.isFresh else e.isFresh;
    if isFresh && e.coin.Spent? then None else Some(Entry(e.coin, true, isFresh))
  }

  /** What becomes of an entry that has been written. */
  ghost function Rested(e: Entry): Option<Entry> {
    if e.coin.Spent? then None else Some(Entry(e.coin, false, false))
  }

  /** Nothing but the layer `n` and the level below it has changed. */
  ghost predicate OnlyAround(before: Store, now: Store, n: nat) {
    && |now.layers| == |before.layers| && (n > 0 ==> now.db == before.db)
    && forall i :: 0 <= i < |before.layers| && i != n && i + 1 != n ==> now.layers[i] == before.layers[i]
  }

  /** The dirty entries of layer `n`, except for those still to do, have been written to the layer below. */
  ghost predicate BelowWritten(before: Store, now: Store, n: nat, todo: seq<OutPoint>)
    requires 0 < n < |before.layers| && n < |now.layers|
  {
    forall o :: EntryAt(now.layers[n - 1], o) ==
      if DirtyEntry(before.layers[n], o) && o !in todo
      then Overwritten(EntryAt(before.layers[n - 1], o), before.layers[n].entries[o])
      else EntryAt(before.layers[n - 1], o)
  }

  /** They are clean, or gone if they were spent. */
  ghost predicate HereSettled(before: Store, now: Store, n: nat, todo: seq<OutPoint>)
    requires n < |before.layers| && n < |now.layers|
  {
    forall o :: EntryAt(now.layers[n], o) ==
      if DirtyEntry(before.layers[n], o) && o !in todo then Rested(before.layers[n].entries[o])
      else EntryAt(before.layers[n], o)
  }

  ghost predicate WritingBack(before: Store, now: Store, n: nat, todo: seq<OutPoint>) {
    && n < |before.layers| && OnlyAround(before, now, n)
    && HereSettled(before, now, n, todo) && (n > 0 ==> BelowWritten(before, now, n, todo))
  }

  lemma WritingStarts(s: Store, m: Model, n: nat)
    requires StackOk(s, m) && n < |s.layers| && n < |m.orders|
    ensures WritingBack(s, s, n, m.orders[n])
  {
    hide Linked, TotalMemory;
    LevelFacts(s, m, n);
  }

  lemma WritingStep(before: Store, t: Store, n: nat, todo: seq<OutPoint>, t': Store)
    requires WritingBack(before, t, n, todo) && Distinct(todo) && |todo| > 0 && n < |t.layers|
    requires DirtyEntry(t.layers[n], todo[0])
    requires n > 0 ==> Sentinel in t.layers[n - 1].links.prev
    requires n > 0 && Flagged(t.layers[n - 1], todo[0]) ==>
      Pair(todo[0]) in t.layers[n - 1].links.next && Pair(todo[0]) in t.layers[n - 1].links.prev
    requires Pair(todo[0]) in t.layers[n].links.next && Pair(todo[0]) in t.layers[n].links.prev
    requires var w := Written(t, n, todo[0], t.layers[n].entries[todo[0]]);
             t' == w.(layers := w.layers[n := CoinLayers.Settle(t.layers[n], todo[0])])
    ensures WritingBack(before, t', n, todo[1..])
  {
    hide CoinLayers.Settle, WriteEntry, Overwritten, Rested;
    var o := todo[0];
    assert forall u :: u in todo <==> u == o || u in todo[1..];
    assert o !in todo[1..];
    assert EntryAt(t.layers[n], o) == EntryAt(before.layers[n], o);
    forall u: OutPoint
      ensures EntryAt(t'.layers[n], u) == if u == o then Rested(t.layers[n].entries[o]) else EntryAt(t.layers[n], u)
    {
      SettledEntry(t.layers[n], o, u);
    }
    if n > 0 {
      assert EntryAt(t.layers[n - 1], o) == EntryAt(before.layers[n - 1], o);
      var p, p', e := t.layers[n - 1], t'.layers[n - 1], t.layers[n].entries[o];
      assert p' == WriteEntry(p, o, e);
      forall u: OutPoint
        ensures EntryAt(p', u) == WrittenAt(p, o, e, u)
      {
        WrittenEntry(p, o, e, u);
      }
    }
  }

  ghost function WrittenAt(p: Layer, o: OutPoint, e: Entry, u: OutPoint): Option<Entry> {
    if u == o then Overwritten(EntryAt(p, o), e) else EntryAt(p, u)
  }

  lemma WrittenEntry(p: Layer, o: OutPoint, e: Entry, u: OutPoint)
    requires Sentinel in p.links.prev
    requires Flagged(p, o) ==> Pair(o) in p.links.next && Pair(o) in p.links.prev
    ensures EntryAt(WriteEntry(p, o, e), u) == WrittenAt(p, o, e, u)
  {
  }

  lemma SettledEntry(l: Layer, o: OutPoint, u: OutPoint)
    requires o in l.entries && Pair(o) in l.links.next && Pair(o) in l.links.prev
    ensures EntryAt(CoinLayers.Settle(l, o), u) == if u == o then Rested(l.entries[o]) else EntryAt(l, u)
  {
  }

  /** Write one entry of layer `k` to the level below it. */
  function Written(s: Store, k: nat, o: OutPoint, e: Entry): (r: Store)
    requires k < |s.layers|
    requires k > 0 ==> Sentinel in s.layers[k - 1].links.prev
    requires k > 0 && Flagged(s.layers[k - 1], o) ==>
      Pair(o) in s.layers[k - 1].links.next && Pair(o) in s.layers[k - 1].links.prev
    ensures |r.layers| == |s.layers| && r.layers[k] == s.layers[k]
  {
    if k == 0 then s.(db := With(s.db, o, e.coin))
    else s.(layers := s.layers[k - 1 := WriteEntry(s.layers[k - 1], o, e)])
  }

  ghost function WrittenModel(s: Store, m: Model, k: nat, o: OutPoint, e: Entry): Model
    requires StackOk(s, m) && k < |s.layers|
  {
    Model(
      m.views[k := With(m.views[k], o, e.coin)],
      if k == 0 then m.orders else m.orders[k - 1 := WriteOrder(s.layers[k - 1], m.orders[k - 1], o, e)])
  }

  lemma CanWrite(s: Store, m: Model, k: nat, o: OutPoint)
    requires StackOk(s, m) && k < |s.layers| && o in s.layers[k].entries && s.layers[k].entries[o].isDirty
    ensures k > 0 ==> !Misapplied(s.layers[k - 1], o, s.layers[k].entries[o])
    ensures k > 0 ==> Sentinel in s.layers[k - 1].links.prev
    ensures k > 0 && Flagged(s.layers[k - 1], o) ==>
      Pair(o) in s.layers[k - 1].links.next && Pair(o) in s.layers[k - 1].links.prev
    ensures k > 0 ==>
      LayerOk(WriteEntry(s.layers[k - 1], o, s.layers[k].entries[o]),
              WriteOrder(s.layers[k - 1], m.orders[k - 1], o, s.layers[k].entries[o]),
              m.views[k - 1], With(m.views[k], o, s.layers[k].entries[o].coin))
  {
    hide Booked, EntryOk;
    var e := s.layers[k].entries[o];
    LevelFacts(s, m, k);
    SeenAt(s.layers[k].entries, m.views[k], m.views[k + 1], o);
    if k > 0 {
      LevelFacts(s, m, k - 1);
      WriteOk(s.layers[k - 1], m.orders[k - 1], m.views[k - 1], m.views[k], o, e);
    }
  }

  /** Writing a dirty entry below and settling it keeps every level in order; what is seen at the level below
      is now what is seen above. */
  lemma WriteSettleOk(s: Store, m: Model, k: nat, o: OutPoint, s': Store, m': Model)
    requires StackOk(s, m) && k < |s.layers| && o in s.layers[k].entries && s.layers[k].entries[o].isDirty
    requires k > 0 ==> Sentinel in s.layers[k - 1].links.prev
    requires k > 0 && Flagged(s.layers[k - 1], o) ==>
      Pair(o) in s.layers[k - 1].links.next && Pair(o) in s.layers[k - 1].links.prev
    requires Pair(o) in s.layers[k].links.next && Pair(o) in s.layers[k].links.prev
    requires var w := Written(s, k, o, s.layers[k].entries[o]);
             s' == w.(layers := w.layers[k := Settle(s.layers[k], o)])
    requires var w := WrittenModel(s, m, k, o, s.layers[k].entries[o]);
      m' == w.(orders := w.orders[k := DropOrder(m.orders[k], o)])
    ensures StackOk(s', m')
  {
    hide LayerOk, WriteEntry, WriteOrder, With, Settle, DropOrder;
    CanWrite(s, m, k, o);
    LevelFacts(s, m, k);
    SettleOk(s.layers[k], m.orders[k], m.views[k], m.views[k + 1], o);
    forall i | 0 <= i < |s'.layers|
      ensures LevelOk(s', m', i)
    {
      assert LevelOk(s, m, i);
    }
  }

  /** Only unspent coins without flags are left. */
  ghost predicate AllClean(l: Layer) {
    forall o :: o in l.entries ==> l.entries[o].coin.Unspent? && !l.entries[o].isDirty && !l.entries[o].isFresh
  }

  /** When nothing is dirty, the layer shows what is below it. */
  lemma NothingDirty(l: Layer, below: View, above: View)
    requires LayerOk(l, [], below, above)
    ensures above == below && AllClean(l) && l.dirty == 0
  {
    forall o
      ensures Get(above, o) == Get(below, o)
    {
      SeenAt(l.entries, below, above, o);
    }
    forall o | o in above || o in below
      ensures o in above && o in below && above[o] == below[o]
    {
      assert Get(above, o) == Get(below, o);
    }
  }

  lemma HeadOfList(l: Layer, order: seq<OutPoint>)
    requires Booked(l, order)
    ensures Sentinel in l.links.next
    ensures |order| == 0 ==> l.links.next[Sentinel] == Sentinel
    ensures |order| > 0 ==>
      l.links.next[Sentinel] == Pair(order[0]) && Pair(order[0]) in l.links.next && Pair(order[0]) in l.links.prev
    ensures |order| > 0 ==> order[0] in l.entries && l.entries[order[0]].isDirty
    ensures |order| > 0 ==> l.links.next[Pair(order[0])] == if |order| == 1 then Sentinel else Pair(order[1])
  {
    assert LinkedAt(l.links, order, 0);
    if |order| > 0 {
      assert LinkedAt(l.links, order, 1);
      assert order[0] in order;
    }
  }

  lemma DropHead(order: seq<OutPoint>)
    requires Distinct(order) && |order| > 0
    ensures DropOrder(order, order[0]) == order[1..]
  {
    var j :| 0 <= j < |order| && order[j] == order[0] && DropOrder(order, order[0]) == Without(order, j);
  }

  const NEW_LAYER := Layer(map[], EMPTY, 0, 0, false)

  lemma EmptyLayerOk(l: Layer, v: View)
    requires l.entries == map[] && l.links == EMPTY && l.usage == 0 && l.dirty == 0
    ensures LayerOk(l, [], v, v)
  {
    EmptyLinked();
    assert Memories(l.entries) == map[];
  }

  /** The views of all levels but `k` are as before. */
  ghost predicate OthersSame(m: Model, m': Model, k: nat) {
    |m'.views| == |m.views| && forall n :: 0 <= n < |m.views| && n != k ==> m'.views[n] == m.views[n]
  }

  /** A coin is added that must not overwrite another, and there is an unspent one, but not in the highest cache. */
  ghost predicate Unnoticed(s: Store, m: Model, o: OutPoint, c: Coin, possibleOverwrite: bool)
    requires StackOk(s, m) && |s.layers| > 0 && c.Unspent?
  {
    !c.unspendable && !possibleOverwrite && o !in s.layers[|s.layers| - 1].entries && o in m.views[|s.layers|]
  }

  /** A coin that is added is marked FRESH if it was before, or if it must not overwrite another and no change to an
      older one is still to be written. */
  predicate MarkedFresh(entries: map<OutPoint, Entry>, o: OutPoint, possibleOverwrite: bool) {
    || (o in entries && entries[o].isFresh)
    || (!possibleOverwrite && !(o in entries && entries[o].isDirty))
  }

  class CoinsStack {
    var s: Store
    ghost var m: Model

    ghost predicate Valid()
      reads this
    {
      StackOk(s, m)
    }

    /** Empty caches over a database. */
    constructor (db: View, overlays: seq<bool>)
      ensures Valid() && |s.layers| == |overlays|
      ensures s.db == db && (forall n :: 0 <= n <= |overlays| ==> m.views[n] == db)
      ensures forall n :: 0 <= n < |overlays| ==> s.layers[n] == NEW_LAYER.(overlay := overlays[n])
    {
      var layers := seq(|overlays|, i requires 0 <= i < |overlays| => NEW_LAYER.(overlay := overlays[i]));
      s := Store(db, layers);
      m := Model(seq(|overlays| + 1, i => db), seq(|overlays|, i => []));
      new;
      forall n | 0 <= n < |s.layers|
        ensures LevelOk(s, m, n)
      {
        EmptyLayerOk(s.layers[n], db);
      }
    }

    /** The coin at `o` as seen through the lowest `k` caches, without filling them. */
    method PeekCoin(k: nat, o: OutPoint) returns (r: Option<Coin>)
      requires Valid() && k <= |s.layers|
      ensures r == Get(m.views[k], o)
    {
      if k == 0 {
        return Get(s.db, o);
      }
      hide StackOk;
      LevelFacts(s, m, k - 1);
      SeenAt(s.layers[k - 1].entries, m.views[k - 1], m.views[k], o);
      if o in s.layers[k - 1].entries {
        return Visible(s.layers[k - 1].entries[o].coin);
      }
      r := PeekCoin(k - 1, o);
    }

    /** Find the entry for `o` in the `k`-th cache, filling it from below. */
    method FetchCoin(k: nat, o: OutPoint) returns (found: bool)
      requires Valid() && 0 < k <= |s.layers|
      modifies this`s
      ensures Valid() && s == LookedUp(old(s), k, o, Get(m.views[k], o))
      ensures found <==> o in s.layers[k - 1].entries
      ensures found <==> old(o in s.layers[k - 1].entries) || o in m.views[k]
      decreases k, 0
    {
      hide StackOk, Booked;
      LevelFacts(s, m, k - 1);
      SeenAt(s.layers[k - 1].entries, m.views[k - 1], m.views[k], o);
      found := o in s.layers[k - 1].entries;
      if !found {
        var c;
        if s.layers[k - 1].overlay {
          c := PeekCoin(k - 1, o);
        } else {
          c := GetCoin(k - 1, o);
        }
        if c.Some? {
          found := true;
          FilledHere(old(s), k, o, c.value);
          var l := s.layers[k - 1];
          LevelFacts(s, m, k - 1);
          FillOk(l, m.orders[k - 1], m.views[k - 1], m.views[k], o, c.value);
          ReplaceLayer(s, m, k - 1, Fill(l, o, c.value), m.orders[k - 1]);
          SameOrders(m, k - 1);
          s := s.(layers := s.layers[k - 1 := Fill(l, o, c.value)]);
        }
      }
    }

    /** The coin at `o` as seen through the lowest `k` caches. */
    method GetCoin(k: nat, o: OutPoint) returns (r: Option<Coin>)
      requires Valid() && k <= |s.layers|
      modifies this`s
      ensures Valid() && s == LookedUp(old(s), k, o, Get(m.views[k], o))
      ensures r == Get(m.views[k], o)
      decreases k, 1
    {
      if k == 0 {
        return Get(s.db, o);
      }
      hide StackOk;
      var found := FetchCoin(k, o);
      LevelFacts(s, m, k - 1);
      SeenAt(s.layers[k - 1].entries, m.views[k - 1], m.views[k], o);
      r := if found then Visible(s.layers[k - 1].entries[o].coin) else None;
    }

    /** Add a coin to the highest cache. Gives up if an unspent coin is in the way in that cache and is not
        to be overwritten. An unspent coin that is in the way below is not noticed: the caller has to say that it
        may be overwritten, or else the caches are not in order afterwards. */
    method AddCoin(o: OutPoint, c: Coin, possibleOverwrite: bool) returns (threw: bool)
      requires Valid() && |s.layers| > 0 && c.Unspent?
      modifies this
      ensures |s.layers| == old(|s.layers|) && s.db == old(s.db)
      ensures threw <==>
        && !c.unspendable && !possibleOverwrite
        && old(o in s.layers[|s.layers| - 1].entries && s.layers[|s.layers| - 1].entries[o].coin.Unspent?)
      ensures threw || c.unspendable ==> s == old(s) && m == old(m)
      ensures !threw && !c.unspendable ==>
        && s.layers[..|s.layers| - 1] == old(s.layers[..|s.layers| - 1])
        && s.layers[|s.layers| - 1].entries ==
             old(s.layers[|s.layers| - 1].entries[
               o := Entry(c, true, MarkedFresh(s.layers[|s.layers| - 1].entries, o, possibleOverwrite))])
      ensures InOrder(s) <==> !old(Unnoticed(s, m, o, c, possibleOverwrite))
      ensures InOrder(s) ==> Valid()
      ensures !threw && !c.unspendable && InOrder(s) ==>
        m.views == old(m.views)[|s.layers| := With(old(m.views[|s.layers|]), o, c)]
    {
      hide StackOk, LayerOk, InOrder, Put, PutOrder, With, MarkedFresh;
      threw := false;
      ModelFits(s, m);
      if c.unspendable {
        return;
      }
      var n := |s.layers| - 1;
      LevelFacts(s, m, n);
      var l := s.layers[n];
      var markFresh := false;
      if !possibleOverwrite {
        if o in l.entries && l.entries[o].coin.Unspent? {
          return true;
        }
        markFresh := !(o in l.entries && l.entries[o].isDirty);
      }
      var isFresh := markFresh || (o in l.entries && l.entries[o].isFresh);
      SentinelLinked(l, m.orders[n], m.views[n], m.views[n + 1]);
      PutEntry(l, o, c, isFresh, possibleOverwrite);
      ghost var s' := s.(layers := s.layers[n := Put(l, o, c, isFresh)]);
      if Unnoticed(s, m, o, c, possibleOverwrite) {
        FreshAbove(s, m, o, c);
      } else {
        AddedOk(l, m.orders[n], m.views[n], m.views[n + 1], o, c, possibleOverwrite, isFresh);
        ReplaceTop(s, m, Put(l, o, c, isFresh), PutOrder(m.orders[n], o), With(m.views[n + 1], o, c));
        m := Model(m.views[n + 1 := With(m.views[n + 1], o, c)], m.orders[n := PutOrder(m.orders[n], o)]);
        ModelFits(s', m);
      }
      s := s.(layers := s.layers[n := Put(l, o, c, isFresh)]);
    }

    /** An empty cache over a database that has the coin is not in order once the coin is added as a new one: the
        entry is marked FRESH over an unspent coin, and no plain maps fit that. */
    static method AddUnnoticed(db: View, o: OutPoint, c: Coin) returns (caches: CoinsStack)
      requires o in db && c.Unspent? && !c.unspendable
      ensures !InOrder(caches.s) && caches.s.db == db && |caches.s.layers| == 1
      ensures caches.s.layers[0].entries == map[o := Entry(c, true, true)]
    {
      hide StackOk, LayerOk, InOrder;
      caches := new CoinsStack(db, [false]);
      LevelFacts(caches.s, caches.m, 0);
      var threw := caches.AddCoin(o, c, false);
    }

    /** Spend a coin in the highest cache. `moved` is what the entry held. */
    method SpendCoin(o: OutPoint) returns (ok: bool, moved: Coin)
      requires Valid() && |s.layers| > 0
      modifies this
      ensures Valid() && |s.layers| == old(|s.layers|) && s.db == old(s.db)
      ensures m.views == old(m.views)[|s.layers| := With(old(m.views[|s.layers|]), o, Spent)]
      ensures s.layers[..|s.layers| - 1] ==
        old(LookedUp(s, |s.layers|, o, Get(m.views[|s.layers|], o)).layers[..|s.layers| - 1])
      ensures s.layers[|s.layers| - 1].entries ==
        var es := old(s.layers[|s.layers| - 1].entries);
        if o in es && es[o].isFresh then es - {o}
        else if o !in es && old(o !in m.views[|s.layers|]) then es
        else es[o := Entry(Spent, true, false)]
      ensures ok <==> old(o in s.layers[|s.layers| - 1].entries) || old(o in m.views[|s.layers|])
      ensures moved == if old(o in m.views[|s.layers|]) then old(m.views[|s.layers|][o]) else Spent
    {
      hide StackOk, LayerOk, DropOrder, LookedUp, Erase, Put, PutOrder, With;
      LevelFacts(s, m, |s.layers| - 1);
      FilledTop(s, |s.layers|, o, Get(m.views[|s.layers|], o));
      ok := FetchCoin(|s.layers|, o);
      moved := Spent;
      var n := |s.layers| - 1;
      LevelFacts(s, m, n);
      FoundFacts(s.layers[n], m.orders[n], m.views[n], m.views[n + 1], o);
      if !ok {
        SameView(m.views, n + 1, With(m.views[n + 1], o, Spent));
        return;
      }
      var l := s.layers[n];
      moved := l.entries[o].coin;
      if l.entries[o].isFresh {
        ReplaceTop(s, m, Erase(l, o), DropOrder(m.orders[n], o), With(m.views[n + 1], o, Spent));
        m := Model(m.views[n + 1 := With(m.views[n + 1], o, Spent)], m.orders[n := DropOrder(m.orders[n], o)]);
        s := s.(layers := s.layers[n := Erase(l, o)]);
      } else {
        ReplaceTop(s, m, Put(l, o, Spent, false), PutOrder(m.orders[n], o), With(m.views[n + 1], o, Spent));
        m := Model(m.views[n + 1 := With(m.views[n + 1], o, Spent)], m.orders[n := PutOrder(m.orders[n], o)]);
        s := s.(layers := s.layers[n := Put(l, o, Spent, false)]);
      }
    }

    /** A coin that is created and spent in the highest cache leaves no trace. */
    method AddThenSpend(o: OutPoint, c: Coin) returns (ok: bool, moved: Coin)
      requires Valid() && |s.layers| > 0 && c.Unspent? && !c.unspendable && o !in m.views[|s.layers|]
      modifies this
      ensures Valid() && ok && moved == c && m.views == old(m.views)
      ensures |s.layers| == old(|s.layers|) && s.db == old(s.db)
      ensures s.layers[..|s.layers| - 1] == old(s.layers[..|s.layers| - 1])
      ensures s.layers[|s.layers| - 1].entries == old(s.layers[|s.layers| - 1].entries)
    {
      hide StackOk, Booked, InOrder, Filled;
      ghost var n := |s.layers| - 1;
      LevelFacts(s, m, n);
      SeenAt(s.layers[n].entries, m.views[n], m.views[n + 1], o);
      var threw := AddCoin(o, c, false);
      LookedUpHere(s, n + 1, o, c);
      ok, moved := SpendCoin(o);
      SameView(old(m.views), n + 1, With(With(old(m.views[n + 1]), o, c), o, Spent));
    }

    /** A coin that was spent in the highest cache but is unspent below is spent once more, with success. */
    method SpendAgain(o: OutPoint) returns (ok: bool, moved: Coin)
      requires Valid() && |s.layers| > 0 && o in m.views[|s.layers| - 1] && o !in m.views[|s.layers|]
      modifies this
      ensures Valid() && ok && moved == Spent
    {
      hide StackOk, Booked;
      LevelFacts(s, m, |s.layers| - 1);
      SeenAt(s.layers[|s.layers| - 1].entries, m.views[|s.layers| - 1], m.views[|s.layers|], o);
      ok, moved := SpendCoin(o);
    }

    /** This happens to every coin of the database that is spent twice in a cache over it. */
    static method SpendTwice(db: View, o: OutPoint) returns (ok: bool, moved: Coin)
      requires o in db
      ensures ok && moved == Spent
    {
      hide StackOk, LayerOk;
      var caches := new CoinsStack(db, [false]);
      LevelFacts(caches.s, caches.m, 0);
      var first, coin := caches.SpendCoin(o);
      assert first && coin == db[o];
      ok, moved := caches.SpendAgain(o);
    }

    /** Drop an unmodified entry of the `k`-th cache. */
    method Uncache(k: nat, o: OutPoint)
      requires Valid() && 0 < k <= |s.layers|
      modifies this
      ensures Valid() && |s.layers| == old(|s.layers|) && m.views == old(m.views)
      ensures s.db == old(s.db) && s.layers == old(s.layers)[k - 1 := s.layers[k - 1]]
      ensures s.layers[k - 1].entries ==
        var es := old(s.layers[k - 1].entries);
        if o in es && !es[o].isDirty then es - {o} else es
    {
      hide StackOk, Booked, Linked, DropOrder;
      var l := s.layers[k - 1];
      LevelFacts(s, m, k - 1);
      SeenAt(l.entries, m.views[k - 1], m.views[k], o);
      if o in l.entries && !l.entries[o].isDirty {
        EraseOk(l, m.orders[k - 1], m.views[k - 1], m.views[k], o);
        SameCoin(m.views[k], o, l.entries[o].coin);
        ReplaceLayer(s, m, k - 1, Erase(l, o), DropOrder(m.orders[k - 1], o));
        m := m.(orders := m.orders[k - 1 := DropOrder(m.orders[k - 1], o)]);
        s := s.(layers := s.layers[k - 1 := Erase(l, o)]);
      }
    }

    /** Discard all modifications made in the highest cache. */
    method Reset()
      requires Valid() && |s.layers| > 0
      modifies this
      ensures Valid() && |s.layers| == old(|s.layers|)
      ensures m.views == old(m.views)[|s.layers| := old(m.views[|s.layers| - 1])]
      ensures var n := |s.layers| - 1;
        s == old(s).(layers := old(s.layers)[n := NEW_LAYER.(overlay := old(s.layers)[n].overlay)])
    {
      hide StackOk, LayerOk;
      var n := |s.layers| - 1;
      LevelFacts(s, m, n);
      var l := NEW_LAYER.(overlay := s.layers[n].overlay);
      EmptyLayerOk(l, m.views[n]);
      ReplaceTop(s, m, l, [], m.views[n]);
      m := Model(m.views[n + 1 := m.views[n]], m.orders[n := []]);
      s := s.(layers := s.layers[n := l]);
    }

    /** Write the modifications of the `k`-th cache to the level below it, and keep its unspent coins.
        `threw` is whether a FRESH flag was found to be misapplied. */
    method Sync(k: nat) returns (threw: bool)
      requires Valid() && 0 < k <= |s.layers|
      modifies this
      ensures Valid() && |s.layers| == old(|s.layers|) && !threw
      ensures m.views == old(m.views)[k - 1 := old(m.views[k])]
      ensures s.layers[k - 1].dirty == 0
      ensures AllClean(s.layers[k - 1])
      ensures WritingBack(old(s), s, k - 1, [])
    {
      hide StackOk, LayerOk, Written, WrittenModel, CoinLayers.Settle, Misapplied, DropOrder, AllClean, WritingBack;
      var n := k - 1;
      threw := false;
      HeadFacts(s, m, n);
      WritingStarts(s, m, n);
      var it := s.layers[n].links.next[Sentinel];
      while it != Sentinel
        invariant Valid() && |s.layers| == old(|s.layers|) && !threw
        invariant n < |m.orders| && WritingBack(old(s), s, n, m.orders[n])
        invariant |m.orders| == |s.layers| && it == HeadNode(m.orders[n])
        invariant OthersSame(old(m), m, n)
        decreases |m.orders[n]|
      {
        HeadFacts(s, m, n);
        var o := it.outpoint;
        var l := s.layers[n];
        var e := l.entries[o];
        var next := l.links.next[it];
        CanWrite(s, m, n, o);
        threw := threw || (n > 0 && Misapplied(s.layers[n - 1], o, e));
        var w := Written(s, n, o, e);
        var s' := w.(layers := w.layers[n := CoinLayers.Settle(l, o)]);
        WrittenFacts(s, m, n, o, e);
        ghost var m' := WrittenModel(s, m, n, o, e);
        m' := m'.(orders := m'.orders[n := DropOrder(m.orders[n], o)]);
        WriteSettleOk(s, m, n, o, s', m');
        OrderDistinct(s, m, n);
        WritingStep(old(s), s, n, m.orders[n], s');
        s, m, it := s', m', next;
      }
      LevelFacts(s, m, n);
      NothingDirty(s.layers[n], m.views[n], m.views[k]);
      OneView(old(m), m, n);
    }

    /** Write the modifications of the `k`-th cache to the level below it, and empty the cache. */
    method Flush(k: nat) returns (threw: bool)
      requires Valid() && 0 < k <= |s.layers|
      modifies this
      ensures Valid() && |s.layers| == old(|s.layers|) && !threw
      ensures m.views == old(m.views)[k - 1 := old(m.views[k])]
      ensures s.layers[k - 1].entries == map[] && s.layers[k - 1].dirty == 0
      ensures OnlyAround(old(s), s, k - 1) && (k > 1 ==> BelowWritten(old(s), s, k - 1, []))
    {
      hide StackOk, LayerOk, Written, Misapplied, FlushAt, WritingBack;
      var n := k - 1;
      threw := false;
      var l := s.layers[n];
      var it, count := Sentinel, l.dirty;
      ghost var t, order, j := s, m.orders, 0;
      FlushStarts(s, m, n);
      WritingStarts(s, m, n);
      it := l.links.next[Sentinel];
      while it != Sentinel
        invariant |s.layers| == old(|s.layers|) && !threw
        invariant StackOk(t, m) && |t.layers| == |s.layers| && s == t.(layers := t.layers[n := l])
        invariant OthersSame(old(m), m, n)
        invariant j <= |order[n]| && FlushAt(l, order[n], t.layers[n], j, count, it)
        invariant |m.orders| == |s.layers| && m.orders[n] == order[n][j..] && (it != Sentinel ==> j < |order[n]|)
        invariant WritingBack(old(s), t, n, m.orders[n])
        decreases |order[n]| - j
      {
        ghost var t', m' := FlushStep(s, t, m, n, l, order[n], j, count, it, old(s));
        var o := it.outpoint;
        var e := l.entries[o];
        threw := threw || (n > 0 && Misapplied(s.layers[n - 1], o, e));
        s := Written(s, n, o, e);
        t, m, j := t', m', j + 1;
        count := count - DirtyAt(l, o);
        it := l.links.next[it];
      }
      FlushEnds(t, m, n, l, order[n], j, count);
      ghost var t0 := t;
      OneView(old(m), m, n);
      var empty := Layer(map[], EMPTY, 0, count, l.overlay);
      EmptyLayerOk(empty, m.views[n]);
      ReplaceLayer(t, m, n, empty, []);
      m := m.(orders := m.orders[n := []]);
      assert s.layers[n := empty] == t.layers[n := empty];
      s := s.(layers := s.layers[n := empty]);
      Emptied(old(s), t0, s, n);
    }

    /** All unspent coins that are seen through the lowest `k` caches. */
    method FetchEffectiveUTXOs(k: nat) returns (utxos: map<OutPoint, Coin>)
      requires Valid() && 0 < k <= |s.layers|
      ensures utxos == m.views[k]
    {
      hide StackOk, Booked;
      LevelFacts(s, m, k - 1);
      var all: map<OutPoint, Coin>;
      if k == 1 {
        all := s.db;
        BottomView(s, m);
      } else {
        all := FetchEffectiveUTXOs(k - 1);
      }
      var entries := s.layers[k - 1].entries;
      utxos := map[];
      var todo := all.Keys;
      while todo != {}
        invariant todo <= all.Keys
        invariant forall o :: o in utxos <==> o in all && o !in todo && o !in entries
        invariant forall o :: o in utxos ==> utxos[o] == all[o]
      {
        var o :| o in todo;
        todo := todo - {o};
        if o !in entries && all[o].Unspent? {
          utxos := utxos[o := all[o]];
        }
      }
      todo := entries.Keys;
      while todo != {}
        invariant todo <= entries.Keys
        invariant forall o :: o in utxos <==>
          (o in all && o !in entries) || (o in entries && o !in todo && entries[o].coin.Unspent?)
        invariant forall o :: o in utxos ==> utxos[o] == if o in entries then entries[o].coin else all[o]
      {
        var o :| o in todo;
        todo := todo - {o};
        if entries[o].coin.Unspent? {
          utxos := utxos[o := entries[o].coin];
        } else {
          utxos := utxos - {o};
        }
      }
      EffectiveView(entries, m.views[k - 1], m.views[k], utxos);
    }

    /** The checks that the cache makes of its own structure, for a list that is linked well: they find whether
        flags, list and counters are right, which they always are. */
    method SanityCheck(k: nat, ghost order: seq<OutPoint>) returns (ok: bool)
      requires 0 < k <= |s.layers| && Linked(s.layers[k - 1].links, order)
      requires forall o :: o in order ==> o in s.layers[k - 1].entries
      ensures ok <==> Sane(s.layers[k - 1], order)
      ensures Valid() && order == m.orders[k - 1] ==> ok
    {
      hide StackOk, LayerOk, Booked, Linked, Seen, TotalMemory, Memories, Sum, LegalFlags;
      var l := s.layers[k - 1];
      if Valid() {
        LevelFacts(s, m, k - 1);
        if order == m.orders[k - 1] {
          ValidIsSane(l, order, m.views[k - 1], m.views[k]);
        }
      }
      SaneFacts(l, order);
      ok := true;
      var usage, countDirty := 0, 0;
      var todo := l.entries.Keys;
      while todo != {}
        invariant todo <= l.entries.Keys
        invariant ok <==> forall o :: o in l.entries && o !in todo ==> LegalFlags(l.entries[o])
        invariant usage == Sum(Memories(l.entries), l.entries.Keys - todo)
        invariant countDirty == |DirtyAmong(l.entries, l.entries.Keys - todo)|
      {
        var o :| o in todo;
        var e := l.entries[o];
        FlagsOf(e);
        ok := ok && (if e.coin.Spent? then e.isDirty && !e.isFresh else e.isDirty || !e.isFresh);
        CountOne(l.entries, todo, o);
        usage := usage + Memory(e.coin);
        countDirty := countDirty + (if e.isDirty then 1 else 0);
        todo := todo - {o};
      }
      assert l.entries.Keys - {} == l.entries.Keys;
      ghost var legal := ok;
      var countLinked := 0;
      var it := l.links.next[Sentinel];
      ghost var j: nat := 0;
      while it != Sentinel
        invariant j <= |order| && countLinked == j && it == NodeAt(order, j + 1)
        invariant ok <==> legal && forall i :: 0 <= i < j ==> DirtyEntry(l, order[i])
        decreases |order| - j
      {
        WalkFacts(l, order, j);
        var next, prev := l.links.next[it], l.links.prev[it];
        ok := ok && l.links.prev[next] == it && l.links.next[prev] == it && l.entries[it.outpoint].isDirty;
        countLinked := countLinked + 1;
        it := next;
        j := j + 1;
      }
      assert j == |order|;
      ok := ok && countDirty == countLinked == l.dirty && usage == l.usage;
    }
  }

  /** A spent coin is DIRTY and not FRESH, and an unspent one is not FRESH without being DIRTY. */
  ghost predicate LegalFlags(e: Entry) {
    (e.coin.Spent? ==> e.isDirty && !e.isFresh) && (e.isFresh ==> e.isDirty)
  }

  /** All flags are legal, the list holds as many dirty entries as there are, and the counters are exact. */
  ghost predicate Sane(l: Layer, order: seq<OutPoint>) {
    && (forall o :: o in l.entries ==> LegalFlags(l.entries[o]))
    && (forall i :: 0 <= i < |order| ==> DirtyEntry(l, order[i]))
    && |DirtyAmong(l.entries, l.entries.Keys)| == |order| == l.dirty
    && l.usage == TotalMemory(l.entries)
  }

  lemma FlagsOf(e: Entry)
    ensures LegalFlags(e) <==> if e.coin.Spent? then e.isDirty && !e.isFresh else e.isDirty || !e.isFresh
  {
  }

  lemma ValidIsSane(l: Layer, order: seq<OutPoint>, below: View, above: View)
    requires LayerOk(l, order, below, above)
    ensures Sane(l, order)
  {
    hide Linked, TotalMemory;
    DirtyCount(l, order);
    forall i | 0 <= i < |order|
      ensures DirtyEntry(l, order[i])
    {
      assert order[i] in order;
    }
  }

  /** The first node of the list. */
  ghost function HeadNode(order: seq<OutPoint>): Node {
    if |order| == 0 then Sentinel else Pair(order[0])
  }

  lemma HeadFacts(s: Store, m: Model, n: nat)
    requires StackOk(s, m) && n < |s.layers|
    ensures |m.views| == |s.layers| + 1 && |m.orders| == |s.layers|
    ensures Sentinel in s.layers[n].links.next && s.layers[n].links.next[Sentinel] == HeadNode(m.orders[n])
    ensures |m.orders[n]| > 0 ==>
      var o := m.orders[n][0];
      && o in s.layers[n].entries && s.layers[n].entries[o].isDirty
      && Pair(o) in s.layers[n].links.next && Pair(o) in s.layers[n].links.prev
      && s.layers[n].links.next[Pair(o)] == HeadNode(m.orders[n][1..]) && DropOrder(m.orders[n], o) == m.orders[n][1..]
  {
    hide Linked, DropOrder, TotalMemory;
    LevelFacts(s, m, n);
    HeadOfList(s.layers[n], m.orders[n]);
    if |m.orders[n]| > 0 {
      DistinctOrder(s.layers[n], m.orders[n]);
      DropHead(m.orders[n]);
    }
  }

  lemma WrittenFacts(s: Store, m: Model, k: nat, o: OutPoint, e: Entry)
    requires StackOk(s, m) && k < |s.layers|
    ensures OthersSame(m, WrittenModel(s, m, k, o, e), k) && |WrittenModel(s, m, k, o, e).orders| == |m.orders|
    ensures WrittenModel(s, m, k, o, e).views == m.views[k := With(m.views[k], o, e.coin)]
  {
  }

  /** Only the view of level `n` has changed, to that of the level above. */
  lemma OneView(m: Model, m': Model, n: nat)
    requires OthersSame(m, m', n) && n + 1 < |m.views| && m'.views[n + 1] == m'.views[n]
    ensures m'.views == m.views[n := m.views[n + 1]]
  {
  }

  /** A coin may be marked FRESH if it is not to overwrite any, and the cache does not hold it spent. */
  lemma AddedOk(
    l: Layer, order: seq<OutPoint>, below: View, above: View, o: OutPoint, c: Coin, possibleOverwrite: bool,
    isFresh: bool)
    requires LayerOk(l, order, below, above) && c.Unspent? && (possibleOverwrite || o in l.entries || o !in above)
    requires !possibleOverwrite && o in l.entries ==> l.entries[o].coin.Spent?
    requires isFresh <==>
      (!possibleOverwrite && !(o in l.entries && l.entries[o].isDirty)) || (o in l.entries && l.entries[o].isFresh)
    ensures Sentinel in l.links.prev
    ensures LayerOk(Put(l, o, c, isFresh), PutOrder(order, o), below, With(above, o, c))
  {
    hide Booked, Linked, Put, PutOrder, With;
    SeenAt(l.entries, below, above, o);
    PutOk(l, order, below, above, o, c, isFresh);
  }

  lemma SentinelLinked(l: Layer, order: seq<OutPoint>, below: View, above: View)
    requires LayerOk(l, order, below, above)
    ensures Sentinel in l.links.prev
  {
    hide Seen;
    assert LinkedAt(l.links, order, |order|);
  }

  /** What spending the entry at `o` leaves, if there is one. */
  lemma FoundFacts(l: Layer, order: seq<OutPoint>, below: View, above: View, o: OutPoint)
    requires LayerOk(l, order, below, above)
    ensures o in l.entries ==> Visible(l.entries[o].coin) == Get(above, o)
    ensures o !in above ==> With(above, o, Spent) == above
    ensures Sentinel in l.links.prev
    ensures o in l.entries ==> (Flagged(l, o) ==> Pair(o) in l.links.next && Pair(o) in l.links.prev)
    ensures o in l.entries && l.entries[o].isFresh ==>
      && Erase(l, o).entries == l.entries - {o}
      && LayerOk(Erase(l, o), DropOrder(order, o), below, With(above, o, Spent))
    ensures o in l.entries && !l.entries[o].isFresh ==>
      && Put(l, o, Spent, false).entries == l.entries[o := Entry(Spent, true, false)]
      && LayerOk(Put(l, o, Spent, false), PutOrder(order, o), below, With(above, o, Spent))
  {
    hide Booked, Linked, DropOrder, PutOrder;
    SentinelLinked(l, order, below, above);
    SeenAt(l.entries, below, above, o);
    if o in l.entries {
      EraseOk(l, order, below, above, o);
      if !l.entries[o].isFresh {
        PutOk(l, order, below, above, o, Spent, false);
      }
    }
  }

  lemma FreshOverUnspent(s: Store, m: Model, n: nat, o: OutPoint)
    requires n < |s.layers| && o in s.layers[n].entries && s.layers[n].entries[o].isFresh
    requires n < |m.views| && o in m.views[n]
    ensures !StackOk(s, m)
  {
    hide StackOk;
    if StackOk(s, m) {
      LevelFacts(s, m, n);
      SeenAt(s.layers[n].entries, m.views[n], m.views[n + 1], o);
    }
  }

  lemma ModelFits(s: Store, m: Model)
    requires StackOk(s, m)
    ensures InOrder(s)
  {
  }

  lemma PutEntry(l: Layer, o: OutPoint, c: Coin, isFresh: bool, possibleOverwrite: bool)
    requires Sentinel in l.links.prev
    requires isFresh <==>
      (!possibleOverwrite && !(o in l.entries && l.entries[o].isDirty)) || (o in l.entries && l.entries[o].isFresh)
    ensures Put(l, o, c, isFresh).entries ==
      l.entries[o := Entry(c, true, MarkedFresh(l.entries, o, possibleOverwrite))]
  {
  }

  /** What a level stands for is determined by the database and the layers up to it. */
  lemma {:induction false} ViewsDetermined(s: Store, m: Model, s': Store, m': Model, k: nat)
    requires StackOk(s, m) && StackOk(s', m') && s.db == s'.db
    requires k <= |s.layers| && k <= |s'.layers| && s.layers[..k] == s'.layers[..k]
    ensures k < |m.views| && k < |m'.views| && m.views[k] == m'.views[k]
  {
    if k > 0 {
      assert s.layers[..k - 1] == s.layers[..k][..k - 1] == s'.layers[..k - 1];
      ViewsDetermined(s, m, s', m', k - 1);
      assert s.layers[k - 1] == s.layers[..k][k - 1] == s'.layers[k - 1];
      hide StackOk;
      LevelFacts(s, m, k - 1);
      LevelFacts(s', m', k - 1);
      SameAbove(s.layers[k - 1].entries, m.views[k - 1], m.views[k], m'.views[k]);
    }
  }

  lemma SameAbove(es: map<OutPoint, Entry>, below: View, above: View, above': View)
    requires Seen(es, below, above) && Seen(es, below, above')
    ensures above == above'
  {
    forall o: OutPoint
      ensures Get(above, o) == Get(above', o)
    {
      SeenAt(es, below, above, o);
      SeenAt(es, below, above', o);
    }
    forall o: OutPoint
      ensures (o in above <==> o in above') && (o in above ==> above[o] == above'[o])
    {
      assert Get(above, o) == Get(above', o);
    }
  }

  /** A coin that is marked FRESH over an unspent one is out of order, whatever the levels are to stand for. */
  lemma FreshAbove(s: Store, m: Model, o: OutPoint, c: Coin)
    requires StackOk(s, m) && |s.layers| > 0 && Sentinel in s.layers[|s.layers| - 1].links.prev
    requires o !in s.layers[|s.layers| - 1].entries && o in m.views[|s.layers|]
    ensures
      var n := |s.layers| - 1;
      !InOrder(s.(layers := s.layers[n := Put(s.layers[n], o, c, true)]))
  {
    hide StackOk;
    var n := |s.layers| - 1;
    LevelFacts(s, m, n);
    SeenAt(s.layers[n].entries, m.views[n], m.views[n + 1], o);
    var s' := s.(layers := s.layers[n := Put(s.layers[n], o, c, true)]);
    assert s'.layers[..n] == s.layers[..n];
    forall m': Model
      ensures !StackOk(s', m')
    {
      if StackOk(s', m') {
        ViewsDetermined(s, m, s', m', n);
        FreshOverUnspent(s', m', n, o);
      }
    }
  }

  lemma SameView(views: seq<View>, n: nat, v: View)
    requires n < |views| && v == views[n]
    ensures views[n := v] == views
  {
  }

  lemma SameCoin(v: View, o: OutPoint, c: Coin)
    requires Get(v, o) == Visible(c)
    ensures With(v, o, c) == v
  {
  }

  lemma OrderDistinct(s: Store, m: Model, n: nat)
    requires StackOk(s, m) && n < |s.layers| && n < |m.orders|
    ensures Distinct(m.orders[n])
  {
    LevelFacts(s, m, n);
  }

  lemma DistinctOrder(l: Layer, order: seq<OutPoint>)
    requires Booked(l, order)
    ensures Distinct(order)
  {
  }

  lemma SameOrders(m: Model, n: nat)
    requires n < |m.orders|
    ensures m.(orders := m.orders[n := m.orders[n]]) == m
  {
    assert m.orders[n := m.orders[n]] == m.orders;
  }

  lemma BottomView(s: Store, m: Model)
    requires StackOk(s, m)
    ensures |m.views| > 0 && m.views[0] == s.db
  {
  }

  lemma EffectiveView(entries: map<OutPoint, Entry>, below: View, above: View, utxos: map<OutPoint, Coin>)
    requires Seen(entries, below, above)
    requires forall o :: o in utxos <==> (o in below && o !in entries) || (o in entries && entries[o].coin.Unspent?)
    requires forall o :: o in utxos ==> utxos[o] == if o in entries then entries[o].coin else below[o]
    ensures utxos == above
  {
    forall o
      ensures o in utxos <==> o in above
      ensures o in utxos ==> utxos[o] == above[o]
    {
      SeenAt(entries, below, above, o);
    }
  }

  // ---------- writing back without touching the cache until the end ----------

  /** The walk has come to place `j` of the list; `shadow` is the layer with all earlier entries settled. */
  ghost predicate FlushAt(l: Layer, order: seq<OutPoint>, shadow: Layer, j: nat, count: int, it: Node) {
    && j <= |order| && Booked(l, order) && it == HeadNode(order[j..]) && count == |order| - j
    && shadow.overlay == l.overlay
    && (forall i :: j <= i < |order| ==>
      order[i] in shadow.entries && order[i] in l.entries && shadow.entries[order[i]] == l.entries[order[i]])
  }

  lemma FlushStarts(s: Store, m: Model, n: nat)
    requires StackOk(s, m) && n < |s.layers|
    ensures |m.views| == |s.layers| + 1 && |m.orders| == |s.layers|
    ensures Sentinel in s.layers[n].links.next && m.orders[n] == m.orders[n][0..]
    ensures s == s.(layers := s.layers[n := s.layers[n]])
    ensures FlushAt(s.layers[n], m.orders[n], s.layers[n], 0, s.layers[n].dirty, s.layers[n].links.next[Sentinel])
    ensures s.layers[n].links.next[Sentinel] != Sentinel ==> |m.orders[n]| > 0
  {
    hide Linked, TotalMemory;
    LevelFacts(s, m, n);
    HeadFacts(s, m, n);
    assert s.layers[n := s.layers[n]] == s.layers;
    forall i | 0 <= i < |m.orders[n]|
      ensures m.orders[n][i] in s.layers[n].entries
    {
      assert m.orders[n][i] in m.orders[n];
    }
  }

  lemma FlushFacts(t: Store, m: Model, n: nat, l: Layer, order: seq<OutPoint>, j: nat, count: int, it: Node)
    requires StackOk(t, m) && n < |t.layers| && |m.orders| == |t.layers| && j <= |order| && m.orders[n] == order[j..]
    requires FlushAt(l, order, t.layers[n], j, count, it) && it != Sentinel
    ensures |m.views| == |t.layers| + 1
    ensures j < |order| && it == Pair(order[j]) && it in l.links.next && l.links.next[it] == HeadNode(order[j + 1..])
    ensures order[j] in l.entries && l.entries[order[j]].isDirty && order[j] in t.layers[n].entries
    ensures t.layers[n].entries[order[j]] == l.entries[order[j]]
    ensures Pair(order[j]) in t.layers[n].links.next && Pair(order[j]) in t.layers[n].links.prev
    ensures DropOrder(m.orders[n], order[j]) == order[j + 1..]
  {
    hide StackOk, TotalMemory, DropOrder;
    HeadFacts(t, m, n);
    assert order[j..][1..] == order[j + 1..];
    assert LinkedAt(l.links, order, j + 1);
    assert order[j] in order;
  }

  lemma SameBelow(t: Store, n: nat, l: Layer)
    requires n < |t.layers|
    ensures n > 0 ==> t.layers[n := l][n - 1] == t.layers[n - 1]
  {
  }

  lemma WrittenAround(t: Store, n: nat, l: Layer, o: OutPoint, e: Entry, t': Store)
    requires n < |t.layers|
    requires n > 0 ==> Sentinel in t.layers[n - 1].links.prev
    requires n > 0 && Flagged(t.layers[n - 1], o) ==>
      Pair(o) in t.layers[n - 1].links.next && Pair(o) in t.layers[n - 1].links.prev
    requires |t'.layers| == |t.layers| && t'.db == Written(t, n, o, e).db
    requires t'.layers == Written(t, n, o, e).layers[n := t'.layers[n]]
    ensures Written(t.(layers := t.layers[n := l]), n, o, e) == t'.(layers := t'.layers[n := l])
  {
    hide WriteEntry, With;
    var s := t.(layers := t.layers[n := l]);
    assert n > 0 ==> s.layers[n - 1] == t.layers[n - 1];
    assert Written(s, n, o, e).layers == t'.layers[n := l];
  }

  lemma FlushNext(t: Store, m: Model, n: nat, l: Layer, order: seq<OutPoint>, j: nat, count: int, it: Node)
    requires StackOk(t, m) && n < |t.layers| && |m.orders| == |t.layers| && j <= |order| && m.orders[n] == order[j..]
    requires FlushAt(l, order, t.layers[n], j, count, it) && it != Sentinel && j < |order|
    requires order[j] in t.layers[n].entries && Pair(order[j]) in t.layers[n].links.next
    requires Pair(order[j]) in t.layers[n].links.prev
    ensures FlushAt(l, order, CoinLayers.Settle(t.layers[n], order[j]), j + 1, count - DirtyAt(l, order[j]),
                    HeadNode(order[j + 1..]))
  {
    hide StackOk, TotalMemory, LinkedAt;
    assert order[j] in order;
    assert Distinct(order);
  }

  lemma Emptied(before: Store, t: Store, now: Store, n: nat)
    requires WritingBack(before, t, n, []) && n < |t.layers| && now.db == t.db && |now.layers| == |t.layers|
    requires now.layers == t.layers[n := now.layers[n]]
    ensures OnlyAround(before, now, n) && (n > 0 ==> BelowWritten(before, now, n, []))
  {
    assert n > 0 ==> now.layers[n - 1] == t.layers[n - 1];
  }

  lemma FlushStep(
    s: Store, t: Store, m: Model, n: nat, l: Layer, order: seq<OutPoint>, j: nat, count: int, it: Node, before: Store)
    returns (t': Store, m': Model)
    requires n < |m.orders| && WritingBack(before, t, n, m.orders[n])
    requires StackOk(t, m) && n < |t.layers| && |m.orders| == |t.layers| && j < |order| && m.orders[n] == order[j..]
    requires FlushAt(l, order, t.layers[n], j, count, it) && it != Sentinel && s == t.(layers := t.layers[n := l])
    ensures it == Pair(order[j]) && it in l.links.next && order[j] in l.entries
    ensures n > 0 ==> !Misapplied(s.layers[n - 1], order[j], l.entries[order[j]])
    ensures n > 0 ==> Sentinel in s.layers[n - 1].links.prev
    ensures n > 0 && Flagged(s.layers[n - 1], order[j]) ==>
      Pair(order[j]) in s.layers[n - 1].links.next && Pair(order[j]) in s.layers[n - 1].links.prev
    ensures StackOk(t', m') && |t'.layers| == |t.layers| && |m'.orders| == |m.orders| && OthersSame(m, m', n)
    ensures WritingBack(before, t', n, m'.orders[n])
    ensures Written(s, n, order[j], l.entries[order[j]]) == t'.(layers := t'.layers[n := l])
    ensures m'.orders[n] == order[j + 1..] && (l.links.next[it] != Sentinel ==> j + 1 < |order|)
    ensures FlushAt(l, order, t'.layers[n], j + 1, count - DirtyAt(l, order[j]), l.links.next[it])
  {
    hide StackOk, LayerOk, Booked, Written, WrittenModel, CoinLayers.Settle, Misapplied, DropOrder, FlushAt,
      WritingBack;
    FlushFacts(t, m, n, l, order, j, count, it);
    var o := order[j];
    var e := l.entries[o];
    CanWrite(t, m, n, o);
    SameBelow(t, n, l);
    var w := Written(t, n, o, e);
    t' := w.(layers := w.layers[n := CoinLayers.Settle(t.layers[n], o)]);
    WrittenFacts(t, m, n, o, e);
    m' := WrittenModel(t, m, n, o, e);
    m' := m'.(orders := m'.orders[n := DropOrder(m.orders[n], o)]);
    WriteSettleOk(t, m, n, o, t', m');
    OrderDistinct(t, m, n);
    assert m.orders[n][0] == o && m.orders[n][1..] == order[j + 1..];
    WritingStep(before, t, n, m.orders[n], t');
    WrittenAround(t, n, l, o, e, t');
    FlushNext(t, m, n, l, order, j, count, it);
  }

  lemma FlushEnds(t: Store, m: Model, n: nat, l: Layer, order: seq<OutPoint>, j: nat, count: int)
    requires StackOk(t, m) && n < |t.layers| && |m.orders| == |t.layers| && j <= |order| && m.orders[n] == order[j..]
    requires FlushAt(l, order, t.layers[n], j, count, Sentinel)
    ensures count == 0 && |m.views| == |t.layers| + 1 && m.views[n] == m.views[n + 1] && m.orders[n] == []
  {
    hide StackOk, Booked, LayerOk, AllClean;
    LevelFacts(t, m, n);
    assert order[j..] == [];
    NothingDirty(t.layers[n], m.views[n], m.views[n + 1]);
  }

  // ---------- the cache's own checks ----------

  ghost function DirtyAmong(entries: map<OutPoint, Entry>, S: set<OutPoint>): set<OutPoint> {
    set o | o in S && o in entries && entries[o].isDirty
  }

  lemma CountOne(entries: map<OutPoint, Entry>, todo: set<OutPoint>, o: OutPoint)
    requires todo <= entries.Keys && o in todo
    ensures Memories(entries).Keys == entries.Keys
    ensures Sum(Memories(entries), entries.Keys - (todo - {o})) ==
      Sum(Memories(entries), entries.Keys - todo) + Memory(entries[o].coin)
    ensures |DirtyAmong(entries, entries.Keys - (todo - {o}))| ==
      |DirtyAmong(entries, entries.Keys - todo)| + (if entries[o].isDirty then 1 else 0)
  {
    var S := entries.Keys - (todo - {o});
    assert S - {o} == entries.Keys - todo;
    SumPick(Memories(entries), S, o);
    DirtyOneMore(entries, S, o);
  }

  lemma DirtyOneMore(entries: map<OutPoint, Entry>, S: set<OutPoint>, o: OutPoint)
    requires o in S && o in entries
    ensures |DirtyAmong(entries, S)| == |DirtyAmong(entries, S - {o})| + (if entries[o].isDirty then 1 else 0)
  {
    var D := DirtyAmong(entries, S - {o});
    if entries[o].isDirty {
      assert DirtyAmong(entries, S) == D + {o};
    } else {
      assert DirtyAmong(entries, S) == D;
    }
  }

  lemma SaneFacts(l: Layer, order: seq<OutPoint>)
    requires Linked(l.links, order)
    ensures Sentinel in l.links.next && l.links.next[Sentinel] == NodeAt(order, 1)
    ensures Memories(l.entries).Keys == l.entries.Keys && Sum(Memories(l.entries), {}) == 0
    ensures |DirtyAmong(l.entries, {})| == 0 && TotalMemory(l.entries) == Sum(Memories(l.entries), l.entries.Keys)
    ensures l.entries.Keys - l.entries.Keys == {}
  {
    assert LinkedAt(l.links, order, 0);
    assert DirtyAmong(l.entries, {}) == {};
  }

  lemma WalkFacts(l: Layer, order: seq<OutPoint>, j: nat)
    requires Linked(l.links, order) && j < |order|
    ensures NodeAt(order, j + 1) == Pair(order[j]) && Pair(order[j]) in l.links.next && Pair(order[j]) in l.links.prev
    ensures l.links.next[Pair(order[j])] == NodeAt(order, j + 2) && l.links.prev[Pair(order[j])] == NodeAt(order, j)
    ensures NodeAt(order, j + 2) in l.links.prev && l.links.prev[NodeAt(order, j + 2)] == Pair(order[j])
    ensures NodeAt(order, j) in l.links.next && l.links.next[NodeAt(order, j)] == Pair(order[j])
    ensures order[j] in order
  {
    assert LinkedAt(l.links, order, j) && LinkedAt(l.links, order, j + 1);
  }

  ghost function SetOf(order: seq<OutPoint>): set<OutPoint> {
    set o | o in order
  }

  lemma {:induction false} OrderCount(order: seq<OutPoint>)
    requires Distinct(order)
    ensures |SetOf(order)| == |order|
  {
    if |order| > 0 {
      var rest, last := order[..|order| - 1], order[|order| - 1];
      OrderCount(rest);
      assert order == rest + [last];
      assert SetOf(order) == SetOf(rest) + {last};
    } else {
      assert SetOf(order) == {};
    }
  }

  lemma DirtyCount(l: Layer, order: seq<OutPoint>)
    requires Booked(l, order)
    ensures |DirtyAmong(l.entries, l.entries.Keys)| == |order| == l.dirty
    ensures Memories(l.entries).Keys == l.entries.Keys && l.usage == Sum(Memories(l.entries), l.entries.Keys)
  {
    hide LinkedAt;
    OrderCount(order);
    assert DirtyAmong(l.entries, l.entries.Keys) == SetOf(order);
  }
}
