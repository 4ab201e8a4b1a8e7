/** The small changes that the operations of the address manager are made of. */
module AddrSteps {
  import opened AddrTables

  // ---------- one entry changed ----------

  /** Changing an entry other than in its address. */
  lemma EntryChanged(infos: map<Id, Info>, n: Id, info: Info)
    requires n in infos && info.addr == infos[n].addr
    ensures n in Addrs(infos) && Addrs(infos)[n] == info.addr && n in Refs(infos) && Refs(infos)[n] == infos[n].refs
    ensures n in Places(infos) && Places(infos)[n] == infos[n].place
    ensures Addrs(infos[n := info]) == Addrs(infos)
    ensures Places(infos[n := info]) == Places(infos)[n := info.place]
    ensures Refs(infos[n := info]) == Refs(infos)[n := info.refs]
  {
  }

  lemma SamePlaces(places: map<Id, int>, n: Id)
    requires n in places
    ensures places[n := places[n]] == places
  {
  }

  lemma FlagsKept(infos: map<Id, Info>, N: set<Id>, T: set<Id>, idCount: nat, n: Id, info: Info)
    requires FlagsOk(infos, N, T, idCount) && n in infos
    requires n in N + T ==> info.inTried == infos[n].inTried
    ensures FlagsOk(infos[n := info], N, T, idCount)
  {
  }

  lemma EntryAdded(infos: map<Id, Info>, n: Id, info: Info)
    requires n !in infos
    ensures n !in Addrs(infos)
    ensures Addrs(infos[n := info]) == Addrs(infos)[n := info.addr]
    ensures Places(infos[n := info]) == Places(infos)[n := info.place]
    ensures Refs(infos[n := info]) == Refs(infos)[n := info.refs]
  {
  }

  lemma EntryRemoved(infos: map<Id, Info>, n: Id)
    requires n in infos
    ensures n in Addrs(infos) && Addrs(infos)[n] == infos[n].addr
    ensures n in Places(infos) && Places(infos)[n] == infos[n].place
    ensures Addrs(infos - {n}) == Addrs(infos) - {n}
    ensures Places(infos - {n}) == Places(infos) - {n}
    ensures Refs(infos - {n}) == Refs(infos) - {n}
  {
  }

  lemma Projected(infos: map<Id, Info>)
    ensures Addrs(infos).Keys == infos.Keys && Places(infos).Keys == infos.Keys && Refs(infos).Keys == infos.Keys
  {
  }

  // ---------- in and out of the index ----------

  ghost function Indexed(d: Tables, info: Info): Tables {
    var n := d.idCount;
    d.(infos := d.infos[n := info.(place := |d.random|)], ids := d.ids[info.addr := n], random := d.random + [n],
       idCount := n + 1)
  }

  ghost function Swapped(d: Tables, i: nat, j: nat): Tables
    requires i < |d.random| && j < |d.random| && d.random[i] in d.infos && d.random[j] in d.infos
  {
    var a, b := d.random[i], d.random[j];
    var infos := d.infos[a := d.infos[a].(place := j)];
    d.(infos := infos[b := infos[b].(place := i)], random := d.random[i := b][j := a])
  }

  ghost function Unindexed(d: Tables, n: Id): Tables
    requires n in d.infos && |d.random| > 0
  {
    d.(infos := d.infos - {n}, ids := d.ids - {d.infos[n].addr}, random := d.random[..|d.random| - 1])
  }

  lemma IndexedOk(h: Hashing, d: Tables, N: set<Id>, T: set<Id>, except: set<Id>, info: Info)
    requires Sound(h, d, N, T, except) && info.addr !in d.ids && info.refs == 0 && !info.inTried
    ensures Sound(h, Indexed(d, info), N, T, except) && d.idCount !in d.infos && d.idCount !in N + T
  {
    hide IndexOk, TablesOk, RefsOk, CountsOk, FlagsOk, Addrs, Places, Refs, Counted;
    var n := d.idCount;
    FlagsMore(d.infos, N, T, n, info.(place := |d.random|));
    EntryAdded(d.infos, n, info.(place := |d.random|));
    IndexAdd(Addrs(d.infos), d.ids, d.random, Places(d.infos), n, info.addr);
    TablesMore(h, Addrs(d.infos), N, T, d.tried, d.news, n, info.addr);
    RefsMore(h, Addrs(d.infos), Refs(d.infos), N, T, d.tried, d.news, except, n);
    CountsMore(h, Addrs(d.infos), N, T, d.nNew, d.nTried, d.counts, n, info.addr, d.tried, d.news);
  }

  lemma FlagsMore(infos: map<Id, Info>, N: set<Id>, T: set<Id>, n: Id, info: Info)
    requires FlagsOk(infos, N, T, n)
    ensures n !in infos && n !in N + T
    ensures FlagsOk(infos[n := info], N, T, n + 1)
  {
  }

  lemma CountsMore(h: Hashing, A: map<Id, Addr>, N: set<Id>, T: set<Id>, nNew: int, nTried: int,
      counts: map<Net, Count>, n: Id, a: Addr, tried: map<Slot, Id>, news: map<Slot, Id>)
    requires CountsOk(h, A, N, T, nNew, nTried, counts) && TablesOk(h, A, N, T, tried, news) && n !in A
    ensures CountsOk(h, A[n := a], N, T, nNew, nTried, counts)
  {
    hide CountsOk;
    CountsFrame(h, A, A[n := a], N, T, nNew, nTried, counts);
  }

  lemma TablesMore(h: Hashing, A: map<Id, Addr>, N: set<Id>, T: set<Id>, tried: map<Slot, Id>, news: map<Slot, Id>,
      n: Id, a: Addr)
    requires TablesOk(h, A, N, T, tried, news) && n !in A
    ensures TablesOk(h, A[n := a], N, T, tried, news)
  {
    var B := A[n := a];
    forall s | s in tried
      ensures TriedEntryOk(h, B, T, tried, s)
    {
      assert TriedEntryOk(h, A, T, tried, s);
    }
    forall s | s in news
      ensures NewEntryOk(h, B, N, news, s)
    {
      assert NewEntryOk(h, A, N, news, s);
    }
  }

  lemma RefsMore(h: Hashing, A: map<Id, Addr>, refs: map<Id, int>, N: set<Id>, T: set<Id>, tried: map<Slot, Id>,
      news: map<Slot, Id>, except: set<Id>, n: Id)
    requires TablesOk(h, A, N, T, tried, news) && RefsOk(refs, N, news, except) && n !in A
    ensures RefsOk(refs[n := 0], N, news, except)
  {
    NotNewNoSlots(h, A, N, T, tried, news, n);
  }

  /** An id that is not new is in no bucket of new ones. */
  lemma NotNewNoSlots(h: Hashing, A: map<Id, Addr>, N: set<Id>, T: set<Id>, tried: map<Slot, Id>, news: map<Slot, Id>,
      n: Id)
    requires TablesOk(h, A, N, T, tried, news) && n !in N
    ensures SlotsOf(news, n) == {}
  {
    assert forall s :: s in news ==> NewEntryOk(h, A, N, news, s);
  }

  lemma SwappedOk(h: Hashing, d: Tables, N: set<Id>, T: set<Id>, except: set<Id>, i: nat, j: nat)
    requires Sound(h, d, N, T, except) && i < |d.random| && j < |d.random|
    ensures d.random[i] in d.infos && d.random[j] in d.infos
    ensures Sound(h, Swapped(d, i, j), N, T, except)
  {
    hide IndexOk, TablesOk, RefsOk, CountsOk, FlagsOk, Addrs, Places, Refs, Counted;
    IndexSwap(Addrs(d.infos), d.ids, d.random, Places(d.infos), i, j);
    Projected(d.infos);
    var a, b := d.random[i], d.random[j];
    EntryChanged(d.infos, a, d.infos[a].(place := j));
    FlagsKept(d.infos, N, T, d.idCount, a, d.infos[a].(place := j));
    var infos := d.infos[a := d.infos[a].(place := j)];
    EntryChanged(infos, b, infos[b].(place := i));
    FlagsKept(infos, N, T, d.idCount, b, infos[b].(place := i));
    SamePlaces(Refs(d.infos), a);
    SamePlaces(Refs(infos), b);
  }

  lemma UnindexedOk(h: Hashing, d: Tables, N: set<Id>, T: set<Id>, except: set<Id>, n: Id)
    requires Sound(h, d, N, T, except) && n in d.infos && n !in N + T && d.infos[n].place == |d.random| - 1
    ensures |d.random| > 0
    ensures Sound(h, Unindexed(d, n), N, T, except)
  {
    hide IndexOk, TablesOk, RefsOk, CountsOk, FlagsOk, Addrs, Places, Refs, Counted;
    EntryRemoved(d.infos, n);
    IndexRemove(Addrs(d.infos), d.ids, d.random, Places(d.infos), n);
    FlagsFewer(d.infos, N, T, d.idCount, n);
    TablesFewer(h, Addrs(d.infos), N, T, d.tried, d.news, n);
    RefsFewer(Refs(d.infos), N, d.news, except, n);
    CountsFewer(h, Addrs(d.infos), N, T, d.nNew, d.nTried, d.counts, n, d.tried, d.news);
  }

  lemma FlagsFewer(infos: map<Id, Info>, N: set<Id>, T: set<Id>, idCount: nat, n: Id)
    requires FlagsOk(infos, N, T, idCount) && n !in N + T
    ensures FlagsOk(infos - {n}, N, T, idCount)
  {
  }

  lemma CountsFewer(h: Hashing, A: map<Id, Addr>, N: set<Id>, T: set<Id>, nNew: int, nTried: int,
      counts: map<Net, Count>, n: Id, tried: map<Slot, Id>, news: map<Slot, Id>)
    requires CountsOk(h, A, N, T, nNew, nTried, counts) && TablesOk(h, A, N, T, tried, news) && n !in N + T
    ensures CountsOk(h, A - {n}, N, T, nNew, nTried, counts)
  {
    hide CountsOk;
    CountsFrame(h, A, A - {n}, N, T, nNew, nTried, counts);
  }

  lemma TablesFewer(h: Hashing, A: map<Id, Addr>, N: set<Id>, T: set<Id>, tried: map<Slot, Id>, news: map<Slot, Id>,
      n: Id)
    requires TablesOk(h, A, N, T, tried, news) && n !in N + T
    ensures TablesOk(h, A - {n}, N, T, tried, news)
  {
    var B := A - {n};
    forall s | s in tried
      ensures TriedEntryOk(h, B, T, tried, s)
    {
      assert TriedEntryOk(h, A, T, tried, s);
    }
    forall s | s in news
      ensures NewEntryOk(h, B, N, news, s)
    {
      assert NewEntryOk(h, A, N, news, s);
    }
  }

  lemma RefsFewer(refs: map<Id, int>, N: set<Id>, news: map<Slot, Id>, except: set<Id>, n: Id)
    requires RefsOk(refs, N, news, except)
    ensures RefsOk(refs - {n}, N, news, except)
  {
  }

  // ---------- slots of new buckets ----------

  ghost function Slotted(d: Tables, s: Slot, n: Id): Tables
    requires n in d.infos
  {
    d.(infos := d.infos[n := d.infos[n].(refs := d.infos[n].refs + 1)], news := d.news[s := n])
  }

  ghost function Unslotted(d: Tables, s: Slot): Tables
    requires s in d.news && d.news[s] in d.infos
  {
    var n := d.news[s];
    d.(infos := d.infos[n := d.infos[n].(refs := d.infos[n].refs - 1)], news := d.news - {s})
  }

  lemma SlottedOk(h: Hashing, d: Tables, N: set<Id>, T: set<Id>, except: set<Id>, s: Slot, n: Id)
    requires Sound(h, d, N, T, except) && s !in d.news && n in N && n in d.infos && d.infos[n].refs < MAX_REFS
    requires s.bucket < NEW_BUCKETS && s == NewSlot(h, d.infos[n].addr, s.bucket)
    ensures Sound(h, Slotted(d, s, n), N, T, except - {n})
  {
    hide IndexOk, TablesOk, RefsOk, CountsOk, FlagsOk, Addrs, Places, Refs, Counted;
    EntryChanged(d.infos, n, d.infos[n].(refs := d.infos[n].refs + 1));
    SamePlaces(Places(d.infos), n);
    FlagsKept(d.infos, N, T, d.idCount, n, d.infos[n].(refs := d.infos[n].refs + 1));
    RefsFill(Refs(d.infos), N, d.news, except, s, n);
    TablesFill(h, Addrs(d.infos), N, T, d.tried, d.news, s, n);
  }

  lemma TablesFill(h: Hashing, A: map<Id, Addr>, N: set<Id>, T: set<Id>, tried: map<Slot, Id>, news: map<Slot, Id>,
      s: Slot, n: Id)
    requires TablesOk(h, A, N, T, tried, news) && n in N && n in A
    requires s.bucket < NEW_BUCKETS && s == NewSlot(h, A[n], s.bucket)
    ensures TablesOk(h, A, N, T, tried, news[s := n])
  {
    var news' := news[s := n];
    forall q | q in news'
      ensures NewEntryOk(h, A, N, news', q)
    {
      assert q != s ==> NewEntryOk(h, A, N, news, q);
    }
  }

  lemma UnslottedOk(h: Hashing, d: Tables, N: set<Id>, T: set<Id>, except: set<Id>, s: Slot)
    requires Sound(h, d, N, T, except) && s in d.news
    ensures d.news[s] in d.infos && d.news[s] in N && d.infos[d.news[s]].refs > 0
    ensures Sound(h, Unslotted(d, s), N, T, except + {d.news[s]})
    ensures d.news[s] !in except && d.infos[d.news[s]].refs > 1 ==> Sound(h, Unslotted(d, s), N, T, except)
  {
    hide IndexOk, TablesOk, RefsOk, CountsOk, FlagsOk, Addrs, Places, Refs, Counted;
    TablesClear(h, Addrs(d.infos), N, T, d.tried, d.news, s);
    Projected(d.infos);
    var n := d.news[s];
    EntryChanged(d.infos, n, d.infos[n].(refs := d.infos[n].refs - 1));
    SamePlaces(Places(d.infos), n);
    FlagsKept(d.infos, N, T, d.idCount, n, d.infos[n].(refs := d.infos[n].refs - 1));
    RefsClear(Refs(d.infos), N, d.news, except, s);
  }

  lemma TablesClear(h: Hashing, A: map<Id, Addr>, N: set<Id>, T: set<Id>, tried: map<Slot, Id>, news: map<Slot, Id>,
      s: Slot)
    requires TablesOk(h, A, N, T, tried, news) && s in news
    ensures news[s] in N && news[s] in A
    ensures TablesOk(h, A, N, T, tried, news - {s})
  {
    assert NewEntryOk(h, A, N, news, s);
    forall q | q in news - {s}
      ensures NewEntryOk(h, A, N, news - {s}, q)
    {
      assert NewEntryOk(h, A, N, news, q);
    }
  }

  // ---------- among the new ones ----------

  ghost function EnterNew(h: Hashing, d: Tables, n: Id): Tables
    requires n in d.infos
  {
    d.(nNew := d.nNew + 1, counts := Counted(d.counts, h.network(d.infos[n].addr), 1, 0))
  }

  ghost function LeaveNew(h: Hashing, d: Tables, n: Id): Tables
    requires n in d.infos
  {
    d.(nNew := d.nNew - 1, counts := Counted(d.counts, h.network(d.infos[n].addr), -1, 0))
  }

  lemma EnterNewOk(h: Hashing, d: Tables, N: set<Id>, T: set<Id>, except: set<Id>, n: Id)
    requires Sound(h, d, N, T, except) && n in d.infos && n !in N + T && !d.infos[n].inTried
    ensures Sound(h, EnterNew(h, d, n), N + {n}, T, except + {n})
  {
    hide IndexOk, TablesOk, RefsOk, CountsOk, FlagsOk, Addrs, Places, Refs, Counted;
    EntryRemoved(d.infos, n);
    FlagsEnterNew(d.infos, N, T, d.idCount, n);
    CountNew(h, Addrs(d.infos), N, T, d.nNew, d.nTried, d.counts, n);
    TablesWiden(h, Addrs(d.infos), N, T, d.tried, d.news, n);
    RefsWiden(Refs(d.infos), N, d.news, except, n);
  }

  lemma FlagsEnterNew(infos: map<Id, Info>, N: set<Id>, T: set<Id>, idCount: nat, n: Id)
    requires FlagsOk(infos, N, T, idCount) && n in infos && n !in T && !infos[n].inTried
    ensures FlagsOk(infos, N + {n}, T, idCount)
  {
  }

  lemma FlagsLeaveNew(infos: map<Id, Info>, N: set<Id>, T: set<Id>, idCount: nat, n: Id)
    requires FlagsOk(infos, N, T, idCount)
    ensures FlagsOk(infos, N - {n}, T, idCount)
  {
  }

  lemma TablesWiden(h: Hashing, A: map<Id, Addr>, N: set<Id>, T: set<Id>, tried: map<Slot, Id>, news: map<Slot, Id>,
      n: Id)
    requires TablesOk(h, A, N, T, tried, news) && n in A
    ensures TablesOk(h, A, N + {n}, T, tried, news)
  {
    forall s | s in news
      ensures NewEntryOk(h, A, N + {n}, news, s)
    {
      assert NewEntryOk(h, A, N, news, s);
    }
  }

  lemma RefsWiden(refs: map<Id, int>, N: set<Id>, news: map<Slot, Id>, except: set<Id>, n: Id)
    requires RefsOk(refs, N, news, except)
    ensures RefsOk(refs, N + {n}, news, except + {n})
  {
  }

  lemma LeaveNewOk(h: Hashing, d: Tables, N: set<Id>, T: set<Id>, except: set<Id>, n: Id)
    requires Sound(h, d, N, T, except) && n in N && n in d.infos && d.infos[n].refs == 0
    ensures Sound(h, LeaveNew(h, d, n), N - {n}, T, except - {n})
  {
    hide IndexOk, TablesOk, RefsOk, CountsOk, FlagsOk, Addrs, Places, Refs, Counted;
    EntryChanged(d.infos, n, d.infos[n]);
    FlagsLeaveNew(d.infos, N, T, d.idCount, n);
    UncountNew(h, Addrs(d.infos), N, T, d.nNew, d.nTried, d.counts, n);
    NoRefsNoSlots(Refs(d.infos), N, d.news, except, n);
    TablesNarrow(h, Addrs(d.infos), N, T, d.tried, d.news, n);
  }

  lemma TablesNarrow(h: Hashing, A: map<Id, Addr>, N: set<Id>, T: set<Id>, tried: map<Slot, Id>, news: map<Slot, Id>,
      n: Id)
    requires TablesOk(h, A, N, T, tried, news) && SlotsOf(news, n) == {}
    ensures TablesOk(h, A, N - {n}, T, tried, news)
  {
    forall s | s in news
      ensures NewEntryOk(h, A, N - {n}, news, s)
    {
      assert NewEntryOk(h, A, N, news, s);
      assert s !in SlotsOf(news, n);
    }
  }

  lemma NoRefsNoSlots(refs: map<Id, int>, N: set<Id>, news: map<Slot, Id>, except: set<Id>, n: Id)
    requires RefsOk(refs, N, news, except) && n in refs && refs[n] == 0
    ensures SlotsOf(news, n) == {}
    ensures RefsOk(refs, N - {n}, news, except - {n})
  {
  }

  // ---------- among the tried ones ----------

  ghost function EnterTried(h: Hashing, d: Tables, n: Id): Tables
    requires n in d.infos
  {
    d.(infos := d.infos[n := d.infos[n].(inTried := true)], tried := d.tried[TriedSlot(h, d.infos[n].addr) := n],
       nTried := d.nTried + 1, counts := Counted(d.counts, h.network(d.infos[n].addr), 0, 1))
  }

  ghost function LeaveTried(h: Hashing, d: Tables, n: Id): Tables
    requires n in d.infos
  {
    d.(infos := d.infos[n := d.infos[n].(inTried := false)], tried := d.tried - {TriedSlot(h, d.infos[n].addr)},
       nTried := d.nTried - 1, counts := Counted(d.counts, h.network(d.infos[n].addr), 0, -1))
  }

  lemma EnterTriedOk(h: Hashing, d: Tables, N: set<Id>, T: set<Id>, except: set<Id>, n: Id)
    requires Sound(h, d, N, T, except) && n in d.infos && n !in N + T && TriedSlot(h, d.infos[n].addr) !in d.tried
    ensures Sound(h, EnterTried(h, d, n), N, T + {n}, except)
  {
    hide IndexOk, TablesOk, RefsOk, CountsOk, FlagsOk, Addrs, Places, Refs, Counted;
    EntryChanged(d.infos, n, d.infos[n].(inTried := true));
    SamePlaces(Places(d.infos), n);
    SamePlaces(Refs(d.infos), n);
    FlagsEnterTried(d.infos, N, T, d.idCount, n, d.infos[n].(inTried := true));
    CountTried(h, Addrs(d.infos), N, T, d.nNew, d.nTried, d.counts, n);
    TriedFill(h, Addrs(d.infos), N, T, d.tried, d.news, n);
  }

  lemma FlagsEnterTried(infos: map<Id, Info>, N: set<Id>, T: set<Id>, idCount: nat, n: Id, info: Info)
    requires FlagsOk(infos, N, T, idCount) && n in infos && n !in N + T && info.inTried
    ensures FlagsOk(infos[n := info], N, T + {n}, idCount)
  {
  }

  lemma TriedFill(h: Hashing, A: map<Id, Addr>, N: set<Id>, T: set<Id>, tried: map<Slot, Id>, news: map<Slot, Id>,
      n: Id)
    requires TablesOk(h, A, N, T, tried, news) && n in A && n !in T && TriedSlot(h, A[n]) !in tried
    ensures TablesOk(h, A, N, T + {n}, tried[TriedSlot(h, A[n]) := n], news)
  {
    var tried' := tried[TriedSlot(h, A[n]) := n];
    forall s | s in tried'
      ensures TriedEntryOk(h, A, T + {n}, tried', s)
    {
      assert s != TriedSlot(h, A[n]) ==> TriedEntryOk(h, A, T, tried, s);
    }
  }

  lemma LeaveTriedOk(h: Hashing, d: Tables, N: set<Id>, T: set<Id>, except: set<Id>, n: Id)
    requires Sound(h, d, N, T, except) && n in d.infos && n in T
    ensures d.infos[n].refs == 0
    ensures Sound(h, LeaveTried(h, d, n), N, T - {n}, except)
  {
    hide IndexOk, TablesOk, RefsOk, CountsOk, FlagsOk, Addrs, Places, Refs, Counted;
    EntryChanged(d.infos, n, d.infos[n].(inTried := false));
    SamePlaces(Places(d.infos), n);
    SamePlaces(Refs(d.infos), n);
    FlagsLeaveTried(d.infos, N, T, d.idCount, n, d.infos[n].(inTried := false));
    NotNewNoRefs(h, Addrs(d.infos), Refs(d.infos), N, T, d.tried, d.news, except, n);
    UncountTried(h, Addrs(d.infos), N, T, d.nNew, d.nTried, d.counts, n);
    TriedClear(h, Addrs(d.infos), N, T, d.tried, d.news, n);
  }

  lemma FlagsLeaveTried(infos: map<Id, Info>, N: set<Id>, T: set<Id>, idCount: nat, n: Id, info: Info)
    requires FlagsOk(infos, N, T, idCount) && n in infos && n in T
    ensures n !in N
    ensures FlagsOk(infos[n := info], N, T - {n}, idCount)
  {
  }

  lemma NotNewNoRefs(h: Hashing, A: map<Id, Addr>, refs: map<Id, int>, N: set<Id>, T: set<Id>, tried: map<Slot, Id>,
      news: map<Slot, Id>, except: set<Id>, n: Id)
    requires TablesOk(h, A, N, T, tried, news) && RefsOk(refs, N, news, except) && n !in N && n in refs
    ensures refs[n] == 0
  {
    NotNewNoSlots(h, A, N, T, tried, news, n);
  }

  lemma TriedClear(h: Hashing, A: map<Id, Addr>, N: set<Id>, T: set<Id>, tried: map<Slot, Id>, news: map<Slot, Id>,
      n: Id)
    requires TablesOk(h, A, N, T, tried, news) && n in T && n in A
    ensures TablesOk(h, A, N, T - {n}, tried - {TriedSlot(h, A[n])}, news)
  {
    var tried' := tried - {TriedSlot(h, A[n])};
    forall s | s in tried'
      ensures TriedEntryOk(h, A, T - {n}, tried', s)
    {
      assert TriedEntryOk(h, A, T, tried, s);
    }
    forall m | m in T - {n}
      ensures TriedSlot(h, A[m]) in tried' && tried'[TriedSlot(h, A[m])] == m
    {
      assert tried[TriedSlot(h, A[m])] == m && tried[TriedSlot(h, A[n])] == n;
    }
  }

  // ---------- creating and deleting ----------

  /** A new id for an address that is not known. */
  ghost function Created(h: Hashing, d: Tables, info: Info): Tables {
    var n := d.idCount;
    d.(infos := d.infos[n := info.(place := |d.random|)], ids := d.ids[info.addr := n], random := d.random + [n],
       idCount := n + 1, nNew := d.nNew + 1, counts := Counted(d.counts, h.network(info.addr), 1, 0))
  }

  lemma CreatedOk(h: Hashing, d: Tables, N: set<Id>, T: set<Id>, info: Info)
    requires Sound(h, d, N, T, {}) && info.addr !in d.ids && info.refs == 0 && !info.inTried
    ensures d.idCount !in d.infos && d.idCount !in N + T
    ensures Sound(h, Created(h, d, info), N + {d.idCount}, T, {d.idCount})
  {
    hide Sound, Counted;
    IndexedOk(h, d, N, T, {}, info);
    EnterNewOk(h, Indexed(d, info), N, T, {}, d.idCount);
    assert {} + {d.idCount} == {d.idCount};
  }

  lemma NewOrTried(h: Hashing, d: Tables, N: set<Id>, T: set<Id>, except: set<Id>)
    requires Sound(h, d, N, T, except)
    ensures N !! T && N <= d.infos.Keys && T <= d.infos.Keys
  {
  }

  /** The id at the end of the random order is dropped from the tables. */
  ghost function Dropped(h: Hashing, d: Tables, n: Id): Tables
    requires n in d.infos && |d.random| > 0
  {
    d.(infos := d.infos - {n}, ids := d.ids - {d.infos[n].addr}, random := d.random[..|d.random| - 1],
       nNew := d.nNew - 1, counts := Counted(d.counts, h.network(d.infos[n].addr), -1, 0))
  }

  lemma DroppedOk(h: Hashing, d: Tables, N: set<Id>, T: set<Id>, except: set<Id>, n: Id)
    requires Sound(h, d, N, T, except) && n in d.infos && n in N && d.infos[n].refs == 0
    requires d.infos[n].place == |d.random| - 1
    ensures |d.random| > 0 && Sound(h, Dropped(h, d, n), N - {n}, T, except - {n})
  {
    hide Sound, Counted;
    LeaveNewOk(h, d, N, T, except, n);
    NewOrTried(h, d, N, T, except);
    UnindexedOk(h, LeaveNew(h, d, n), N - {n}, T, except - {n}, n);
  }
}
