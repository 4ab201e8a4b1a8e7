/** One layer of the coins cache hierarchy: entries with DIRTY and FRESH flags over the view below. */
module CoinLayers {
  import opened Options
  import opened Sums
  import opened FlaggedLists

  /** A coin, or what is left of it once it is spent. `data` stands for its amount, script, height and
      whether it is a coinbase; `usage` is the memory its script takes. */
  datatype Coin = Spent | Unspent(data: nat, usage: nat, unspendable: bool)

  datatype Entry = Entry(coin: Coin, isDirty: bool, isFresh: bool)

  /** A plain map of the unspent coins. */
  type View = v: map<OutPoint, Coin> | forall o :: o in v ==> v[o].Unspent? witness map[]

  /** `cacheCoins` with the links of its flagged entries, `cachedCoinsUsage` and `m_dirty_count`. An overlay
      looks up what it misses without filling the caches below. */
  datatype Layer = Layer(entries: map<OutPoint, Entry>, links: Links, usage: int, dirty: int, overlay: bool)

  function Memory(c: Coin): nat {
    if c.Unspent? then c.usage else 0
  }

  function Visible(c: Coin): Option<Coin> {
    if c.Unspent? then Some(c) else None
  }

  function Get(v: View, o: OutPoint): Option<Coin> {
    if o in v then Some(v[o]) else None
  }

  /** The view with the coin at `o` replaced. */
  function With(v: View, o: OutPoint, c: Coin): View {
    if c.Unspent? then v[o := c] else v - {o}
  }

  // ---------- what a layer must satisfy ----------

  /** One of the four legal combinations of flags: a spent coin is DIRTY and not FRESH, and a FRESH coin is
      DIRTY. FRESH entries are unspent nowhere below, and those not DIRTY are the same below. */
  ghost predicate EntryOk(e: Entry, below: Option<Coin>) {
    && (e.coin.Spent? ==> e.isDirty && !e.isFresh)
    && (e.isFresh ==> e.isDirty && below.None?)
    && (!e.isDirty ==> below == Some(e.coin))
  }

  /** What is seen through the layer. */
  function Shown(entries: map<OutPoint, Entry>, below: View, o: OutPoint): Option<Coin> {
    if o in entries then Visible(entries[o].coin) else Get(below, o)
  }

  ghost predicate Seen(entries: map<OutPoint, Entry>, below: View, above: View) {
    && (forall o :: o in entries ==> EntryOk(entries[o], Get(below, o)))
    && (forall o :: Get(above, o) == Shown(entries, below, o))
  }

  ghost function Memories(entries: map<OutPoint, Entry>): map<nat, int> {
    map o | o in entries :: Memory(entries[o].coin)
  }

  ghost function TotalMemory(entries: map<OutPoint, Entry>): int {
    Sum(Memories(entries), entries.Keys)
  }

  predicate Flagged(l: Layer, o: OutPoint) {
    o in l.entries && (l.entries[o].isDirty || l.entries[o].isFresh)
  }

  /** The linked list holds the dirty entries, which are all the flagged ones, and the counters are exact. */
  ghost predicate Booked(l: Layer, order: seq<OutPoint>) {
    && Linked(l.links, order)
    && (forall o :: o in order <==> o in l.entries && l.entries[o].isDirty)
    && (forall o :: o in l.entries && l.entries[o].isFresh ==> l.entries[o].isDirty)
    && l.dirty == |order|
    && l.usage == TotalMemory(l.entries)
  }

  ghost predicate LayerOk(l: Layer, order: seq<OutPoint>, below: View, above: View) {
    Booked(l, order) && Seen(l.entries, below, above)
  }

  // ---------- the changes that are made to a layer ----------

  /** A coin from below is put in, without flags. */
  function Fill(l: Layer, o: OutPoint, c: Coin): Layer {
    l.(entries := l.entries[o := Entry(c, false, false)], usage := l.usage + Memory(c))
  }

  function MemoryAt(l: Layer, o: OutPoint): nat {
    if o in l.entries then Memory(l.entries[o].coin) else 0
  }

  function DirtyAt(l: Layer, o: OutPoint): nat {
    if o in l.entries && l.entries[o].isDirty then 1 else 0
  }

  /** An entry is written and marked DIRTY, and linked at the back if it had no flags before. */
  function Put(l: Layer, o: OutPoint, c: Coin, isFresh: bool): Layer
    requires Sentinel in l.links.prev
  {
    Layer(
      l.entries[o := Entry(c, true, isFresh)],
      if Flagged(l, o) then l.links else Append(l.links, o),
      l.usage - MemoryAt(l, o) + Memory(c),
      l.dirty - DirtyAt(l, o) + 1,
      l.overlay)
  }

  /** An entry is erased, and unlinked if it had flags. */
  function Erase(l: Layer, o: OutPoint): Layer
    requires o in l.entries && (Flagged(l, o) ==> Pair(o) in l.links.next && Pair(o) in l.links.prev)
  {
    Layer(
      l.entries - {o},
      if Flagged(l, o) then Unlink(l.links, o) else l.links,
      l.usage - MemoryAt(l, o),
      l.dirty - DirtyAt(l, o),
      l.overlay)
  }

  /** The flags of an entry are cleared. */
  function Clean(l: Layer, o: OutPoint): Layer
    requires o in l.entries && Pair(o) in l.links.next && Pair(o) in l.links.prev
  {
    l.(entries := l.entries[o := Entry(l.entries[o].coin, false, false)],
       links := Unlink(l.links, o),
       dirty := l.dirty - DirtyAt(l, o))
  }

  // ---------- the books stay right ----------

  lemma MemorySet(entries: map<OutPoint, Entry>, o: OutPoint, e: Entry)
    ensures TotalMemory(entries[o := e]) ==
      TotalMemory(entries) - (if o in entries then Memory(entries[o].coin) else 0) + Memory(e.coin)
  {
    var es := entries[o := e];
    SumPick(Memories(es), es.Keys, o);
    assert es.Keys - {o} == entries.Keys - {o};
    SameSum(Memories(entries), Memories(es), entries.Keys - {o});
    if o in entries {
      SumPick(Memories(entries), entries.Keys, o);
    } else {
      assert entries.Keys - {o} == entries.Keys;
    }
  }

  lemma MemoryDrop(entries: map<OutPoint, Entry>, o: OutPoint)
    requires o in entries
    ensures TotalMemory(entries - {o}) == TotalMemory(entries) - Memory(entries[o].coin)
  {
    var es := entries - {o};
    SumPick(Memories(entries), entries.Keys, o);
    assert es.Keys == entries.Keys - {o};
    SameSum(Memories(entries), Memories(es), es.Keys);
  }

  lemma FillBooked(l: Layer, order: seq<OutPoint>, o: OutPoint, c: Coin)
    requires Booked(l, order) && o !in l.entries
    ensures Booked(Fill(l, o, c), order)
  {
    hide Linked, TotalMemory;
    MemorySet(l.entries, o, Entry(c, false, false));
  }

  ghost function PutOrder(order: seq<OutPoint>, o: OutPoint): seq<OutPoint> {
    if o in order then order else order + [o]
  }

  lemma PutBooked(l: Layer, order: seq<OutPoint>, o: OutPoint, c: Coin, isFresh: bool)
    requires Booked(l, order)
    ensures Sentinel in l.links.prev && Booked(Put(l, o, c, isFresh), PutOrder(order, o))
  {
    hide Linked, TotalMemory;
    MemberLinked(l.links, order, o);
    MemorySet(l.entries, o, Entry(c, true, isFresh));
    if o !in order {
      AppendLinked(l.links, order, o);
    }
  }

  /** The list without `o`, wherever it is. */
  ghost function DropOrder(order: seq<OutPoint>, o: OutPoint): seq<OutPoint> {
    if o in order then
      var j :| 0 <= j < |order| && order[j] == o;
      Without(order, j)
    else order
  }

  lemma DropElems(order: seq<OutPoint>, o: OutPoint)
    requires Distinct(order)
    ensures forall u :: u in DropOrder(order, o) <==> u in order && u != o
    ensures |DropOrder(order, o)| == |order| - (if o in order then 1 else 0)
  {
    if o in order {
      var j :| 0 <= j < |order| && order[j] == o && DropOrder(order, o) == Without(order, j);
      forall u
        ensures u in Without(order, j) <==> u in order && u != o
      {
        WithoutElems(order, j, u);
      }
    }
  }

  lemma DropLinked(l: Links, order: seq<OutPoint>, o: OutPoint)
    requires Linked(l, order) && o in order
    ensures Pair(o) in l.next && Pair(o) in l.prev && Linked(Unlink(l, o), DropOrder(order, o))
  {
    var j :| 0 <= j < |order| && order[j] == o && DropOrder(order, o) == Without(order, j);
    UnlinkLinked(l, order, j);
  }

  lemma EraseBooked(l: Layer, order: seq<OutPoint>, o: OutPoint)
    requires Booked(l, order) && o in l.entries
    ensures Flagged(l, o) ==> Pair(o) in l.links.next && Pair(o) in l.links.prev
    ensures Booked(Erase(l, o), DropOrder(order, o))
  {
    hide TotalMemory, LinkedAt, DropOrder;
    DropElems(order, o);
    MemoryDrop(l.entries, o);
    if o in order {
      DropLinked(l.links, order, o);
    } else {
      NotDropped(order, o);
    }
  }

  lemma NotDropped(order: seq<OutPoint>, o: OutPoint)
    requires o !in order
    ensures DropOrder(order, o) == order
  {
  }

  lemma CleanBooked(l: Layer, order: seq<OutPoint>, o: OutPoint)
    requires Booked(l, order) && o in l.entries && l.entries[o].isDirty
    ensures Pair(o) in l.links.next && Pair(o) in l.links.prev && Booked(Clean(l, o), DropOrder(order, o))
  {
    hide TotalMemory, LinkedAt, DropOrder;
    DropElems(order, o);
    DropLinked(l.links, order, o);
    MemorySet(l.entries, o, Entry(l.entries[o].coin, false, false));
  }

  // ---------- what is seen stays right ----------

  ghost predicate SameElsewhere(v: View, v': View, o: OutPoint) {
    forall u :: u != o ==> Get(v', u) == Get(v, u)
  }

  lemma WithElsewhere(v: View, o: OutPoint, c: Coin)
    ensures SameElsewhere(v, With(v, o, c), o) && Get(With(v, o, c), o) == Visible(c)
  {
  }

  /** Only what is at `o` has changed. */
  lemma SeenChanged(
    es: map<OutPoint, Entry>, es': map<OutPoint, Entry>, below: View, below': View, above: View, above': View,
    o: OutPoint)
    requires Seen(es, below, above) && SameElsewhere(below, below', o) && SameElsewhere(above, above', o)
    requires forall u :: u != o ==> (u in es' <==> u in es)
    requires forall u :: u != o && u in es ==> es'[u] == es[u]
    requires o in es' ==> EntryOk(es'[o], Get(below', o))
    requires Get(above', o) == Shown(es', below', o)
    ensures Seen(es', below', above')
  {
    hide EntryOk;
    forall u
      ensures Get(above', u) == Shown(es', below', u)
    {
      if u != o {
        assert Get(above, u) == Shown(es, below, u);
      }
    }
    forall u | u in es'
      ensures EntryOk(es'[u], Get(below', u))
    {
      if u != o {
        assert EntryOk(es[u], Get(below, u));
      }
    }
  }

  lemma FillOk(l: Layer, order: seq<OutPoint>, below: View, above: View, o: OutPoint, c: Coin)
    requires LayerOk(l, order, below, above) && o !in l.entries && Get(below, o) == Some(c)
    ensures LayerOk(Fill(l, o, c), order, below, above)
  {
    hide Booked;
    FillBooked(l, order, o, c);
  }

  lemma PutOk(l: Layer, order: seq<OutPoint>, below: View, above: View, o: OutPoint, c: Coin, isFresh: bool)
    requires LayerOk(l, order, below, above) && EntryOk(Entry(c, true, isFresh), Get(below, o))
    ensures Sentinel in l.links.prev
    ensures LayerOk(Put(l, o, c, isFresh), PutOrder(order, o), below, With(above, o, c))
  {
    hide Booked, Linked, Seen, EntryOk, With;
    PutBooked(l, order, o, c, isFresh);
    WithElsewhere(above, o, c);
    SeenChanged(l.entries, Put(l, o, c, isFresh).entries, below, below, above, With(above, o, c), o);
  }

  /** An entry can be erased if the same is seen without it. */
  lemma EraseOk(l: Layer, order: seq<OutPoint>, below: View, above: View, o: OutPoint)
    requires LayerOk(l, order, below, above) && o in l.entries
    ensures Flagged(l, o) ==> Pair(o) in l.links.next && Pair(o) in l.links.prev
    ensures LayerOk(Erase(l, o), DropOrder(order, o), below,
                    if o in below then With(above, o, below[o]) else With(above, o, Spent))
  {
    hide Booked, Linked, DropOrder, Seen, With;
    EraseBooked(l, order, o);
    var c := if o in below then below[o] else Spent;
    WithElsewhere(above, o, c);
    SeenChanged(l.entries, Erase(l, o).entries, below, below, above, With(above, o, c), o);
  }

  // ---------- writing a dirty entry to the layer below ----------

  /** The case in which the code gives up: a FRESH entry of a coin that is unspent in the layer it is
      written to. */
  predicate Misapplied(p: Layer, o: OutPoint, e: Entry) {
    o in p.entries && e.isFresh && p.entries[o].coin.Unspent?
  }

  /** What `BatchWrite` makes of one dirty entry of the layer above. */
  function WriteEntry(p: Layer, o: OutPoint, e: Entry): Layer
    requires Sentinel in p.links.prev
    requires Flagged(p, o) ==> Pair(o) in p.links.next && Pair(o) in p.links.prev
  {
    if o !in p.entries then
      if e.isFresh && e.coin.Spent? then p else Put(p, o, e.coin, e.isFresh)
    else if p.entries[o].isFresh && e.coin.Spent? then Erase(p, o)
    else Put(p, o, e.coin, p.entries[o].isFresh)
  }

  ghost function WriteOrder(p: Layer, order: seq<OutPoint>, o: OutPoint, e: Entry): seq<OutPoint> {
    if o in p.entries && p.entries[o].isFresh && e.coin.Spent? then DropOrder(order, o) else PutOrder(order, o)
  }

  /** FRESH is never misapplied, and the lower layer then shows the written coin. */
  lemma WriteOk(p: Layer, order: seq<OutPoint>, below: View, above: View, o: OutPoint, e: Entry)
    requires LayerOk(p, order, below, above) && e.isDirty && EntryOk(e, Get(above, o))
    ensures !Misapplied(p, o, e)
    ensures Sentinel in p.links.prev && (Flagged(p, o) ==> Pair(o) in p.links.next && Pair(o) in p.links.prev)
    ensures LayerOk(WriteEntry(p, o, e), WriteOrder(p, order, o, e), below, With(above, o, e.coin))
  {
    assert Get(above, o) == Shown(p.entries, below, o);
    if o in p.entries {
      assert EntryOk(p.entries[o], Get(below, o));
      EraseOk(p, order, below, above, o);
    }
    PutOk(p, order, below, above, o, e.coin,
          if o in p.entries then p.entries[o].isFresh && e.coin.Unspent? else e.isFresh);
  }

  // ---------- taking a written entry off the list ----------

  /** `NextAndMaybeErase` when the cache is kept: spent entries are erased, others lose their flags. */
  function Settle(l: Layer, o: OutPoint): Layer
    requires o in l.entries && Pair(o) in l.links.next && Pair(o) in l.links.prev
  {
    if l.entries[o].coin.Spent? then Erase(l, o) else Clean(l, o)
  }

  /** Once the layer below shows the same coin, settling an entry changes nothing that is seen. */
  lemma SettleOk(l: Layer, order: seq<OutPoint>, below: View, above: View, o: OutPoint)
    requires LayerOk(l, order, below, above) && o in l.entries && l.entries[o].isDirty
    ensures Pair(o) in l.links.next && Pair(o) in l.links.prev
    ensures LayerOk(Settle(l, o), DropOrder(order, o), With(below, o, l.entries[o].coin), above)
  {
    hide Booked, Linked, DropOrder, Seen, With;
    CleanBooked(l, order, o);
    EraseBooked(l, order, o);
    var c := l.entries[o].coin;
    WithElsewhere(below, o, c);
    SeenAt(l.entries, below, above, o);
    SeenChanged(l.entries, Settle(l, o).entries, below, With(below, o, c), above, above, o);
  }

  lemma SeenAt(es: map<OutPoint, Entry>, below: View, above: View, o: OutPoint)
    requires Seen(es, below, above)
    ensures Get(above, o) == Shown(es, below, o) && (o in es ==> EntryOk(es[o], Get(below, o)))
  {
  }
}
