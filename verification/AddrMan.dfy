/** The address manager: addresses heard of are kept in buckets of new ones, and those that were connected to
    move to one slot among the tried ones. */
module AddrManagers {
  import opened Options
  import opened FiniteSets
  import opened AddrTables
  import opened AddrSteps

  const MAX_COLLISIONS: nat := 10

  // ---------- entries that were kept ----------

  /** The entry differs at most in its place, its references and whether it is tried. */
  ghost predicate SameEntry(before: Info, after: Info) {
    after == before.(place := after.place, refs := after.refs, inTried := after.inTried)
  }

  /** Every entry was there before. */
  ghost predicate Follows(before: map<Id, Info>, after: map<Id, Info>) {
    forall m :: m in after ==> m in before && SameEntry(before[m], after[m])
  }

  /** Entries other than `n` keep their references and whether they are tried. */
  ghost predicate KeptBut(before: map<Id, Info>, after: map<Id, Info>, n: Id) {
    forall m :: m in after && m in before && m != n ==> after[m] == before[m].(place := after[m].place)
  }

  lemma FollowsAt(before: map<Id, Info>, after: map<Id, Info>, m: Id)
    requires Follows(before, after) && m in after
    ensures m in before && SameEntry(before[m], after[m])
  {
  }

  lemma FollowsTransitive(a: map<Id, Info>, b: map<Id, Info>, c: map<Id, Info>)
    requires Follows(a, b) && Follows(b, c)
    ensures Follows(a, c)
  {
  }

  // ---------- what soundness gives about one entry ----------

  lemma EntryFacts(h: Hashing, d: Tables, N: set<Id>, T: set<Id>, except: set<Id>, n: Id)
    requires Sound(h, d, N, T, except) && n in d.infos
    ensures d.infos[n].addr in d.ids && d.ids[d.infos[n].addr] == n && n < d.idCount
    ensures 0 <= d.infos[n].place < |d.random| && d.random[d.infos[n].place] == n
    ensures n in N ==> !d.infos[n].inTried
    ensures n in T ==> d.infos[n].inTried
  {
    hide TablesOk, RefsOk, CountsOk;
    var A := Addrs(d.infos);
    assert n in A && A[n] == d.infos[n].addr;
    assert n in Places(d.infos) && Places(d.infos)[n] == d.infos[n].place;
  }

  // ---------- the ids of each kind, and times ----------

  ghost function NewIds(infos: map<Id, Info>): set<Id> {
    set n | n in infos && !infos[n].inTried
  }

  ghost function TriedIds(infos: map<Id, Info>): set<Id> {
    set n | n in infos && infos[n].inTried
  }

  ghost predicate TimeOk(info: Info) {
    info.lastTry >= 0 && info.lastSuccess >= 0 && (info.inTried ==> info.lastSuccess != 0)
  }

  ghost predicate TimesOk(infos: map<Id, Info>) {
    forall n :: n in infos ==> TimeOk(infos[n])
  }

  /** An id that waits for another one to be tested finds that other one in its slot, unless it is forgotten. */
  ghost predicate CollisionsOk(h: Hashing, infos: map<Id, Info>, tried: map<Slot, Id>, collisions: set<Id>,
      idCount: nat) {
    forall n :: n in collisions ==> n < idCount && (n in infos ==> TriedSlot(h, infos[n].addr) in tried)
  }

  /** The ids that wait once an address was connected to. */
  ghost function Collided(h: Hashing, d: Tables, collisions: set<Id>, addr: Addr, testBeforeEvict: bool): set<Id> {
    if addr in d.ids && d.ids[addr] in d.infos && !d.infos[d.ids[addr]].inTried && testBeforeEvict
       && TriedSlot(h, addr) in d.tried && |collisions| < MAX_COLLISIONS
    then collisions + {d.ids[addr]} else collisions
  }

  lemma EmptySound(h: Hashing)
    ensures Sound(h, Tables(map[], map[], [], map[], map[], 0, 0, map[], 0), NewIds(map[]), TriedIds(map[]), {})
  {
    var A: map<Id, Addr> := map[];
    assert NewIds(map[]) == {} && TriedIds(map[]) == {};
    forall net
      ensures NetOk(h, A, {}, {}, map[], net)
    {
      assert InNet(h, A, {}, net) == {};
    }
  }

  lemma AddressFacts(h: Hashing, d: Tables, N: set<Id>, T: set<Id>, except: set<Id>, a: Addr)
    requires Sound(h, d, N, T, except) && a in d.ids
    ensures d.ids[a] in d.infos && d.infos[d.ids[a]].addr == a
  {
    hide TablesOk, RefsOk, CountsOk, FlagsOk;
    assert d.ids[a] in Addrs(d.infos);
  }

  /** An entry's statistics may be changed. */
  lemma Restated(h: Hashing, d: Tables, N: set<Id>, T: set<Id>, except: set<Id>, n: Id, info: Info)
    requires Sound(h, d, N, T, except) && n in d.infos
    requires info.addr == d.infos[n].addr && info.refs == d.infos[n].refs && info.inTried == d.infos[n].inTried
    requires info.place == d.infos[n].place
    ensures Sound(h, d.(infos := d.infos[n := info]), N, T, except)
    ensures NewIds(d.infos[n := info]) == NewIds(d.infos) && TriedIds(d.infos[n := info]) == TriedIds(d.infos)
  {
    hide IndexOk, TablesOk, RefsOk, CountsOk, FlagsOk, Addrs, Places, Refs;
    EntryChanged(d.infos, n, info);
    SamePlaces(Places(d.infos), n);
    SamePlaces(Refs(d.infos), n);
    FlagsKept(d.infos, N, T, d.idCount, n, info);
  }

  /** What holds of tables after whole operations. */
  ghost predicate Keeps(h: Hashing, before: Tables, after: Tables) {
    && before.idCount <= after.idCount && before.tried.Keys <= after.tried.Keys
    && (forall m :: m in after.infos && m < before.idCount ==>
      m in before.infos && after.infos[m].addr == before.infos[m].addr)
  }

  lemma CollisionsKept(h: Hashing, before: Tables, after: Tables, collisions: set<Id>)
    requires CollisionsOk(h, before.infos, before.tried, collisions, before.idCount) && Keeps(h, before, after)
    ensures CollisionsOk(h, after.infos, after.tried, collisions, after.idCount)
  {
  }

  lemma RestatedRest(h: Hashing, before: Tables, after: Tables, n: Id, collisions: set<Id>)
    requires n in before.infos && n in after.infos && after == before.(infos := before.infos[n := after.infos[n]])
    requires after.infos[n].addr == before.infos[n].addr
    requires CollisionsOk(h, before.infos, before.tried, collisions, before.idCount)
    ensures CollisionsOk(h, after.infos, after.tried, collisions, after.idCount)
  {
    hide CollisionsOk;
    CollisionsKept(h, before, after, collisions);
  }

  lemma MoreCollisions(h: Hashing, d: Tables, collisions: set<Id>, n: Id)
    requires Sound(h, d, NewIds(d.infos), TriedIds(d.infos), {}) && n in d.infos
    requires TriedSlot(h, d.infos[n].addr) in d.tried
    requires CollisionsOk(h, d.infos, d.tried, collisions, d.idCount)
    ensures CollisionsOk(h, d.infos, d.tried, collisions + {n}, d.idCount)
  {
    hide Sound, NewIds, TriedIds;
    EntryFacts(h, d, NewIds(d.infos), TriedIds(d.infos), {}, n);
  }

  lemma NewIsReferenced(h: Hashing, d: Tables, n: Id)
    requires Sound(h, d, NewIds(d.infos), TriedIds(d.infos), {}) && n in d.infos && !d.infos[n].inTried
    ensures 1 <= d.infos[n].refs <= MAX_REFS && n in NewIds(d.infos)
  {
    hide Sound;
    RefFacts(h, d, NewIds(d.infos), TriedIds(d.infos), {}, n);
  }

  lemma TimesRestated(infos: map<Id, Info>, n: Id, info: Info)
    requires n in infos
    ensures TimesOk(infos) ==> (TimesOk(infos[n := info]) <==> TimeOk(info))
  {
    assert TimesOk(infos[n := info]) ==> TimeOk(infos[n := info][n]);
  }

  /** Where every id is new or tried, these are the ids of each kind. */
  lemma Kinds(h: Hashing, d: Tables, N: set<Id>, T: set<Id>, except: set<Id>)
    requires Sound(h, d, N, T, except) && N + T == d.infos.Keys
    ensures N == NewIds(d.infos) && T == TriedIds(d.infos)
  {
    hide IndexOk, TablesOk, RefsOk, CountsOk;
    assert FlagsOk(d.infos, N, T, d.idCount);
    assert N == NewIds(d.infos);
    assert T == TriedIds(d.infos);
  }

  lemma KindsOf(infos: map<Id, Info>)
    ensures NewIds(infos) + TriedIds(infos) == infos.Keys && NewIds(infos) !! TriedIds(infos)
  {
  }

  lemma AfterMove(h: Hashing, before: Tables, d: Tables, N: set<Id>, N': set<Id>, T: set<Id>, evicted: set<Id>, n: Id)
    requires N == NewIds(before.infos) && T == TriedIds(before.infos) && n in N
    requires Sound(h, d, N', T - evicted + {n}, {})
    requires evicted <= T && evicted <= N' && N' - evicted <= N - {n}
    requires d.infos.Keys == before.infos.Keys - (N - {n} - N') && d.idCount == before.idCount
    requires before.tried.Keys <= d.tried.Keys && Follows(before.infos, d.infos)
    ensures Sound(h, d, NewIds(d.infos), TriedIds(d.infos), {})
    ensures TriedIds(d.infos) == TriedIds(before.infos) - evicted + {n}
    ensures Keeps(h, before, d)
    ensures n in d.infos && d.infos[n].inTried && TriedIds(before.infos) <= d.infos.Keys
  {
    hide Sound, NewIds, TriedIds;
    KindsOf(before.infos);
    KindsMoved(before.infos.Keys, N, N', T, evicted, n);
    Kinds(h, d, N', T - evicted + {n}, {});
    EntryFacts(h, d, N', T - evicted + {n}, {}, n);
  }

  lemma KindsMoved(all: set<Id>, N: set<Id>, N': set<Id>, T: set<Id>, evicted: set<Id>, n: Id)
    requires all == N + T && N !! T && n in N
    requires evicted <= T && evicted <= N' && N' - evicted <= N - {n}
    ensures N' + (T - evicted + {n}) == all - (N - {n} - N')
  {
    forall m | m in N'
      ensures m in all - (N - {n} - N')
    {
      assert m in evicted || m in N' - evicted;
    }
  }

  lemma TimesMoved(before: map<Id, Info>, here: map<Id, Info>, after: map<Id, Info>, n: Id, time: int)
    requires n in before && here == before[n := before[n].(lastSuccess := time, lastTry := time, attempts := 0)]
    requires Follows(here, after) && n in after && after[n].inTried
    requires TriedIds(after) <= TriedIds(here) + {n}
    ensures TimesOk(before) ==> (TimesOk(after) <==> time > 0)
  {
    assert SameEntry(here[n], after[n]);
    if TimesOk(before) && time > 0 {
      forall m | m in after
        ensures TimeOk(after[m])
      {
        assert m in here && SameEntry(here[m], after[m]);
        assert m != n ==> TimeOk(before[m]);
        assert m in TriedIds(after) ==> m in TriedIds(here) + {n};
      }
    }
  }

  lemma SameNewsAfter(h: Hashing, before: Tables, here: Tables, n: Id)
    requires n in before.infos && n in here.infos && here == before.(infos := before.infos[n := here.infos[n]])
    requires here.infos[n].addr == before.infos[n].addr && here.infos[n].source == before.infos[n].source
    ensures NewsAfter(h, here, n) == NewsAfter(h, before, n)
  {
  }

  // ---------- what a connection changes ----------

  /** The statistics after a connection at this time. */
  ghost function Stamped(info: Info, time: int): Info {
    info.(lastSuccess := time, lastTry := time, attempts := 0)
  }

  /** When `n` becomes tried, the id that leaves its slot takes the last reference of `m`. */
  ghost predicate Displaced(h: Hashing, d: Tables, n: Id, m: Id)
    requires n in d.infos
  {
    var slot := TriedSlot(h, d.infos[n].addr);
    m != n && slot in d.tried && d.tried[slot] in d.infos && OnlyAt(d, HomeSlot(h, d.infos[d.tried[slot]]), m)
  }

  /** What a connection to the address of `n` does to the tables. All entries keep what is known of them, except
      for the statistics of `n`; and if `n` becomes tried, exactly the id that is displaced is forgotten. */
  ghost predicate ConnectedTo(h: Hashing, before: Tables, after: Tables, n: Id, time: int, moved: bool) {
    && n in before.infos && n in after.infos && after.idCount == before.idCount
    && after.tried == (if moved then before.tried[TriedSlot(h, before.infos[n].addr) := n] else before.tried)
    && after.news == (if moved then NewsAfter(h, before, n) else before.news)
    && (forall m :: m in after.infos <==> m in before.infos && !(moved && Displaced(h, before, n, m)))
    && (forall m :: m in after.infos ==>
          SameEntry(if m == n then Stamped(before.infos[m], time) else before.infos[m], after.infos[m]))
    && (!moved ==> after == before.(infos := before.infos[n := Stamped(before.infos[n], time)]))
  }

  lemma OnlyStamped(h: Hashing, before: Tables, here: Tables, n: Id, time: int)
    requires n in before.infos && here == before.(infos := before.infos[n := Stamped(before.infos[n], time)])
    ensures ConnectedTo(h, before, here, n, time, false)
  {
    hide TriedSlot, NewsAfter, Displaced;
  }

  lemma StampedAndMoved(h: Hashing, before: Tables, here: Tables, d: Tables, n: Id, time: int)
    requires Sound(h, before, NewIds(before.infos), TriedIds(before.infos), {})
    requires Sound(h, d, NewIds(d.infos), TriedIds(d.infos), {})
    requires n in before.infos && n in d.infos && d.idCount == before.idCount
    requires here == before.(infos := before.infos[n := Stamped(before.infos[n], time)]) && Follows(here.infos, d.infos)
    requires d.tried == before.tried[TriedSlot(h, before.infos[n].addr) := n] && d.news == NewsAfter(h, before, n)
    requires TriedIds(before.infos) <= d.infos.Keys && TriedIds(d.infos) <= TriedIds(before.infos) + {n}
    ensures ConnectedTo(h, before, d, n, time, true)
  {
    hide Sound, TriedSlot, NewIds, TriedIds, NewsAfter, Displaced;
    forall m
      ensures m in d.infos <==> m in before.infos && !Displaced(h, before, n, m)
    {
      if m in before.infos && m != n {
        Forgotten(h, before, d, n, m);
      }
      assert m == n ==> !Displaced(h, before, n, m) by {
        NotDisplaced(h, before, n);
      }
    }
  }

  lemma NotDisplaced(h: Hashing, d: Tables, n: Id)
    requires n in d.infos
    ensures !Displaced(h, d, n, n)
  {
  }

  /** An id is forgotten exactly if it was displaced from its only slot. */
  lemma Forgotten(h: Hashing, before: Tables, d: Tables, n: Id, m: Id)
    requires Sound(h, before, NewIds(before.infos), TriedIds(before.infos), {})
    requires Sound(h, d, NewIds(d.infos), TriedIds(d.infos), {})
    requires n in before.infos && m in before.infos && m != n
    requires d.news == NewsAfter(h, before, n)
    requires TriedIds(before.infos) <= d.infos.Keys && TriedIds(d.infos) <= TriedIds(before.infos) + {n}
    ensures m in d.infos <==> !Displaced(h, before, n, m)
  {
    hide Sound, TriedSlot, HomeSlot;
    RefFacts(h, before, NewIds(before.infos), TriedIds(before.infos), {}, m);
    if before.infos[m].inTried {
      NotNewNoRefsHere(h, before, NewIds(before.infos), TriedIds(before.infos), {}, m);
      assert m in TriedIds(before.infos);
    } else {
      var slot := TriedSlot(h, before.infos[n].addr);
      if slot in before.tried {
        TriedEntryFacts(h, before, NewIds(before.infos), TriedIds(before.infos), {}, slot);
      }
      SlotsAfterMove(h, before, n, m);
      NewIsReferenced(h, before, m);
      if m in d.infos {
        assert m !in TriedIds(d.infos);
        NewIsReferenced(h, d, m);
        RefFacts(h, d, NewIds(d.infos), TriedIds(d.infos), {}, m);
      } else {
        UnknownNoSlots(h, d, m);
      }
    }
  }

  lemma UnknownNoSlots(h: Hashing, d: Tables, m: Id)
    requires Sound(h, d, NewIds(d.infos), TriedIds(d.infos), {}) && m !in d.infos
    ensures SlotsOf(d.news, m) == {}
  {
    hide Sound;
    forall s | s in d.news
      ensures d.news[s] != m
    {
      NewEntryFacts(h, d, NewIds(d.infos), TriedIds(d.infos), {}, s);
    }
  }

  /** What is left of the slots of another new id. */
  lemma SlotsAfterMove(h: Hashing, d: Tables, n: Id, m: Id)
    requires n in d.infos && m in d.infos && m != n && !d.infos[m].inTried
    requires d.infos[m].refs == |SlotsOf(d.news, m)| >= 1
    requires
      var slot := TriedSlot(h, d.infos[n].addr);
      slot in d.tried ==> d.tried[slot] in d.infos && d.infos[d.tried[slot]].inTried
    ensures SlotsOf(NewsAfter(h, d, n), m) == {} <==> Displaced(h, d, n, m)
  {
    hide TriedSlot, HomeSlot;
    var slot := TriedSlot(h, d.infos[n].addr);
    var S, S' := SlotsOf(d.news, m), SlotsOf(NewsAfter(h, d, n), m);
    if slot in d.tried {
      var home := HomeSlot(h, d.infos[d.tried[slot]]);
      assert S' == S - {home};
      if S' == {} {
        assert S <= {home};
        FewerOrEqual(S, {home});
        assert S == {home} by {
          var s := Any(S);
        }
      }
      if Displaced(h, d, n, m) {
        OnlyMember(S, home);
      }
    } else {
      assert S' == S;
    }
  }

  lemma OnlyMember(S: set<Slot>, s: Slot)
    requires |S| == 1 && s in S
    ensures S == {s}
  {
    assert S - {s} == {} by {
      assert |S - {s}| == 0;
    }
  }

  // ---------- which addresses are added ----------

  const MINUTE: int := 60
  const HOUR: int := 3600
  const DAY: int := 86400
  const HORIZON: int := 2592000
  const MIN_FAIL: int := 604800
  const RETRIES: int := 3
  const MAX_FAILURES: int := 10

  function Max(a: int, b: int): int {
    if a < b then b else a
  }

  /** The entry is not worth keeping. */
  predicate IsTerrible(info: Info, now: int) {
    && now - info.lastTry > MINUTE
    && (|| info.time > now + 10 * MINUTE
        || now - info.time > HORIZON
        || (info.lastSuccess == 0 && info.attempts >= RETRIES)
        || (now - info.lastSuccess > MIN_FAIL && info.attempts >= MAX_FAILURES))
  }

  /** There is no penalty when an address announces itself. */
  function Penalty(h: Hashing, addr: Addr, source: Host, penalty: int): int {
    if h.host(addr) == source then 0 else penalty
  }

  /** The time that an entry gets when its address is heard of again, with `time`. */
  function UpdatedTime(info: Info, time: int, penalty: int, now: int): int {
    var interval := if now - time < DAY then HOUR else DAY;
    if info.time < time - interval - penalty then Max(0, time - penalty) else info.time
  }

  /** An entry is brought up to date once it lags behind by more than an hour, if the address was online within the last
      day, and by more than a day if not; its time never goes back, and hearing the same once more changes nothing. */
  lemma UpdatedTimeMeans(info: Info, time: int, penalty: int, now: int)
    ensures
      var t := UpdatedTime(info, time, penalty, now);
      var lag := if now < time + 24 * 60 * 60 then 60 * 60 else 24 * 60 * 60;
      && t >= info.time && t >= time - penalty - lag
      && (t == info.time || (t == Max(0, time - penalty) && time - penalty - info.time > lag))
      && UpdatedTime(info.(time := t), time, penalty, now) == t
  {
  }

  /** An entry that has just been tried is worth keeping; so is one that was seen in the last thirty days, and not
      in the future, unless it was tried three times and never reached, or ten times and not reached for a week. */
  lemma WorthKeeping(info: Info, now: int)
    ensures !IsTerrible(info, now) <==>
      || info.lastTry >= now - 60
      || (&& now - 30 * 24 * 60 * 60 <= info.time <= now + 600
          && (info.attempts < 3 || info.lastSuccess != 0)
          && (info.attempts < 10 || info.lastSuccess >= now - 7 * 24 * 60 * 60))
  {
  }

  function SourceSlot(h: Hashing, addr: Addr, source: Host): Slot {
    NewSlot(h, addr, h.newBucket(addr, source))
  }

  /** The slot is free, or holds another id that is not worth keeping, or is kept elsewhere while `n` is not. */
  ghost predicate MayEnter(h: Hashing, d: Tables, n: Id, source: Host, now: int)
    requires n in d.infos
  {
    var s := SourceSlot(h, d.infos[n].addr, source);
    s in d.news ==>
      && d.news[s] != n && d.news[s] in d.infos
      && (IsTerrible(d.infos[d.news[s]], now) || (d.infos[d.news[s]].refs > 1 && d.infos[n].refs == 0))
  }

  /** An address that is not known is admitted where its slot is free or can be taken; one that is known must
      also be new, bring a later time, have fewer than eight references, and be lucky. */
  ghost predicate Admitted(h: Hashing, d: Tables, addr: Addr, time: int, source: Host, penalty: int, now: int,
      lucky: bool) {
    var s := SourceSlot(h, addr, source);
    && h.routable(addr)
    && (addr in d.ids && d.ids[addr] in d.infos ==>
          var info := d.infos[d.ids[addr]];
          time > UpdatedTime(info, time, Penalty(h, addr, source, penalty), now) && !info.inTried &&
            info.refs != MAX_REFS && lucky)
    && (s in d.news && d.news[s] in d.infos ==>
          && !(addr in d.ids && d.ids[addr] == d.news[s])
          && (IsTerrible(d.infos[d.news[s]], now) || (d.infos[d.news[s]].refs > 1 && addr !in d.ids)))
  }

  /** The id has no reference but from this slot. */
  ghost predicate OnlyAt(d: Tables, s: Slot, m: Id) {
    Holds(d.news, s, m) && m in d.infos && d.infos[m].refs == 1
  }

  lemma HeldHasRefs(news: map<Slot, Id>, s: Slot, n: Id)
    requires Holds(news, s, n)
    ensures |SlotsOf(news, n)| > 0
  {
    assert s in SlotsOf(news, n);
  }

  lemma StillThere(before: Tables, cleared: Tables, s: Slot, n: Id, gone: set<Id>)
    requires n in before.infos && !Holds(before.news, s, n) && cleared.infos.Keys == before.infos.Keys - gone
    requires gone <= (if s in before.news then {before.news[s]} else {})
    requires if s in before.news then KeptBut(before.infos, cleared.infos, before.news[s]) else cleared == before
    ensures n in cleared.infos && cleared.infos[n] == before.infos[n].(place := cleared.infos[n].place)
  {
  }

  lemma SlottedAt(h: Hashing, d: Tables, N: set<Id>, T: set<Id>, except: set<Id>, s: Slot, n: Id, bucket: nat)
    requires Sound(h, d, N, T, except) && s !in d.news && n in N && n in d.infos && d.infos[n].refs < MAX_REFS
    requires except <= {n}
    requires bucket < NEW_BUCKETS && s == NewSlot(h, d.infos[n].addr, bucket)
    ensures Sound(h, Slotted(d, s, n), N, T, {}) && Follows(d.infos, Slotted(d, s, n).infos)
  {
    hide Sound;
    SlottedOk(h, d, N, T, except, s, n);
    assert except - {n} == {};
  }

  lemma SlottedIs(d: Tables, after: Tables, s: Slot, n: Id)
    requires n in d.infos
    requires after == d.(infos := d.infos[n := d.infos[n].(refs := d.infos[n].refs + 1)], news := d.news[s := n])
    ensures after == Slotted(d, s, n)
  {
  }

  lemma SlotTaken(news: map<Slot, Id>, s: Slot, n: Id)
    ensures (news - {s})[s := n] == news[s := n]
  {
  }

  /** The entries once an address was heard of again: the one for the address, if there is one, has its time
      updated. */
  ghost function Heard(
    h: Hashing, d: Tables, addr: Addr, time: int, source: Host, penalty: int, now: int): map<Id, Info>
  {
    if h.routable(addr) && addr in d.ids && d.ids[addr] in d.infos then
      var info := d.infos[d.ids[addr]];
      d.infos[d.ids[addr] := info.(time := UpdatedTime(info, time, Penalty(h, addr, source, penalty), now))]
    else d.infos
  }

  /** The entry of an address that was heard of for the first time. */
  ghost function FirstHeard(h: Hashing, addr: Addr, time: int, source: Host, penalty: int): Info {
    Info(addr, source, Max(0, time - Penalty(h, addr, source, penalty)), 0, 0, 0, 0, 0, false, -1)
  }

  /** What adding an address does to the tables: nobody becomes or stops being tried; an address that is let in
      is in its slot; otherwise the buckets stay; exactly what was in that slot alone is forgotten; and the other
      entries keep what is known of them. */
  ghost predicate AddOutcome(
    h: Hashing, before: Tables, after: Tables, addr: Addr, time: int, source: Host, penalty: int, now: int,
    inserted: bool)
  {
    var s := SourceSlot(h, addr, source);
    && after.tried == before.tried && TriedIds(after.infos) == TriedIds(before.infos)
    && (inserted ==> addr in after.ids && after.news == before.news[s := after.ids[addr]])
    && (!inserted ==> after.news == before.news && after.ids == before.ids)
    && EntriesOutcome(h, before, after, addr, time, source, penalty, now, inserted)
    && Keeps(h, before, after)
  }

  ghost predicate EntriesOutcome(
    h: Hashing, before: Tables, after: Tables, addr: Addr, time: int, source: Host, penalty: int, now: int,
    inserted: bool)
    requires inserted ==> addr in after.ids
  {
    && (forall m :: m in before.infos ==>
          (m in after.infos <==> !(inserted && OnlyAt(before, SourceSlot(h, addr, source), m))))
    && (forall m :: m in after.infos && m !in before.infos ==> inserted && m == after.ids[addr])
    && (forall m :: m in after.infos && m in before.infos ==>
          SameEntry(Heard(h, before, addr, time, source, penalty, now)[m], after.infos[m]))
    && (inserted && addr !in before.ids ==>
          && after.ids[addr] in after.infos && after.ids[addr] !in before.infos
          && SameEntry(FirstHeard(h, addr, time, source, penalty), after.infos[after.ids[addr]]))
  }

  lemma NewEntriesOutcome(
    h: Hashing, before: Tables, here: Tables, d: Tables, gone: set<Id>, n: Id, info: Info, time: int, source: Host,
    penalty: int, now: int, inserted: bool)
    requires IsNewEntry(before, here, n, info) && SameEntry(FirstHeard(h, info.addr, time, source, penalty), info)
    requires d.infos.Keys == here.infos.Keys - gone && Follows(here.infos, d.infos)
    requires inserted ==> info.addr in d.ids && d.ids[info.addr] == n && n in d.infos
    requires inserted ==> forall m :: m in gone <==> OnlyAt(here, SourceSlot(h, info.addr, source), m)
    requires !inserted ==> gone == {n}
    ensures EntriesOutcome(h, before, d, info.addr, time, source, penalty, now, inserted)
  {
    hide SourceSlot, FirstHeard, UpdatedTime;
  }

  lemma OldEntriesOutcome(
    h: Hashing, before: Tables, here: Tables, d: Tables, gone: set<Id>, n: Id, addr: Addr, time: int, source: Host,
    penalty: int, now: int, inserted: bool)
    requires addr in before.ids && before.ids[addr] == n && n in before.infos
    requires here == before.(infos := Heard(h, before, addr, time, source, penalty, now))
    requires d.infos.Keys == here.infos.Keys - gone && Follows(here.infos, d.infos)
    requires inserted ==> addr in d.ids
    requires inserted ==> forall m :: m in gone <==> OnlyAt(here, SourceSlot(h, addr, source), m)
    requires !inserted ==> gone == {}
    ensures EntriesOutcome(h, before, d, addr, time, source, penalty, now, inserted)
    ensures forall m :: m in d.infos ==> m in before.infos && SameButTime(before.infos[m], d.infos[m])
  {
    hide SourceSlot, FirstHeard, UpdatedTime;
  }

  lemma NotAdmitted(
    h: Hashing, d: Tables, addr: Addr, time: int, source: Host, penalty: int, now: int, lucky: bool)
    requires !h.routable(addr)
    ensures !Admitted(h, d, addr, time, source, penalty, now, lucky)
    ensures AddOutcome(h, d, d, addr, time, source, penalty, now, false)
  {
    hide SourceSlot;
  }

  /** For an address that is known, being admitted is decided by its entry and its slot. */
  lemma KnownAdmitted(
    h: Hashing, before: Tables, here: Tables, N: set<Id>, T: set<Id>, n: Id, addr: Addr, time: int, source: Host,
    penalty: int, now: int, lucky: bool)
    requires Sound(h, before, N, T, {}) && N == NewIds(before.infos) && T == TriedIds(before.infos)
    requires h.routable(addr) && addr in before.ids && before.ids[addr] == n
    requires n in before.infos && before.infos[n].addr == addr
    requires here == before.(infos := Heard(h, before, addr, time, source, penalty, now))
    ensures Admitted(h, before, addr, time, source, penalty, now, lucky) <==>
        && time > here.infos[n].time && !here.infos[n].inTried && here.infos[n].refs != MAX_REFS && lucky
        && MayEnter(h, here, n, source, now)
    ensures AddOutcome(h, before, here, addr, time, source, penalty, now, false)
  {
    hide Sound, SourceSlot, UpdatedTime, IsTerrible;
    var s := SourceSlot(h, addr, source);
    if s in before.news {
      NewEntryFacts(h, before, N, T, {}, s);
    }
    if !before.infos[n].inTried {
      NewIsReferenced(h, before, n);
    }
    assert TriedIds(here.infos) == TriedIds(before.infos);
  }

  /** An entry that was just created, and then got another time. */
  lemma NewEntry(h: Hashing, before: Tables, created: Tables, here: Tables, n: Id, info: Info)
    requires n == before.idCount && n !in before.infos && n in created.infos
    requires created == Created(h, before, info.(place := -1, time := created.infos[n].time))
    requires info == created.infos[n].(time := info.time) && here == created.(infos := created.infos[n := info])
    ensures here == before.(infos := before.infos[n := info], ids := before.ids[info.addr := n], random := here.random,
      nNew := here.nNew, counts := here.counts, idCount := n + 1)
  {
    assert created.infos[n := info] == before.infos[n := info];
  }

  ghost predicate IsNewEntry(before: Tables, here: Tables, n: Id, info: Info) {
    && n == before.idCount && n !in before.infos && info.addr !in before.ids
    && here == before.(infos := before.infos[n := info], ids := before.ids[info.addr := n], random := here.random,
        nNew := here.nNew, counts := here.counts, idCount := n + 1)
    && info.refs == 0 && !info.inTried && info.lastTry == 0 && info.lastSuccess == 0
  }

  /** For an address that is not known, being admitted is decided by its slot. */
  lemma UnknownAdmitted(
    h: Hashing, before: Tables, here: Tables, N: set<Id>, T: set<Id>, n: Id, info: Info, time: int, source: Host,
    penalty: int, now: int, lucky: bool)
    requires Sound(h, before, N, T, {}) && h.routable(info.addr) && IsNewEntry(before, here, n, info)
    ensures Admitted(h, before, info.addr, time, source, penalty, now, lucky) <==> MayEnter(h, here, n, source, now)
  {
    hide Sound, SourceSlot, UpdatedTime, IsTerrible;
    var s := SourceSlot(h, info.addr, source);
    if s in before.news {
      NewEntryFacts(h, before, N, T, {}, s);
    }
  }

  lemma AfterAddNew(
    h: Hashing, before: Tables, here: Tables, d: Tables, N: set<Id>, T: set<Id>, gone: set<Id>, n: Id, info: Info,
    time: int, source: Host, penalty: int, now: int, inserted: bool)
    requires N == NewIds(before.infos) && T == TriedIds(before.infos) && gone <= N + {n}
    requires IsNewEntry(before, here, n, info) && SameEntry(FirstHeard(h, info.addr, time, source, penalty), info)
    requires Sound(h, d, N + {n} - gone, T, {}) && d.infos.Keys == here.infos.Keys - gone && d.idCount == here.idCount
    requires d.tried == here.tried && Follows(here.infos, d.infos)
    requires inserted ==> n in d.infos && d.news == here.news[SourceSlot(h, info.addr, source) := n]
    requires inserted ==> forall m :: m in gone <==> OnlyAt(here, SourceSlot(h, info.addr, source), m)
    requires !inserted ==> d.news == here.news && gone == {n} && d.ids == here.ids - {info.addr}
    ensures Sound(h, d, NewIds(d.infos), TriedIds(d.infos), {})
    ensures AddOutcome(h, before, d, info.addr, time, source, penalty, now, inserted)
    ensures Keeps(h, before, d)
    ensures TimesOk(before.infos) ==> TimesOk(d.infos)
  {
    hide Sound, NewIds, TriedIds, SourceSlot, FirstHeard, UpdatedTime, EntriesOutcome;
    KindsOf(before.infos);
    assert N + {n} - gone + T == d.infos.Keys;
    Kinds(h, d, N + {n} - gone, T, {});
    if inserted {
      EntryFacts(h, d, N + {n} - gone, T, {}, n);
      FollowsAt(here.infos, d.infos, n);
    }
    NewEntriesOutcome(h, before, here, d, gone, n, info, time, source, penalty, now, inserted);
    TimesCreated(before.infos, here.infos, d.infos, n);
  }

  lemma TimesCreated(before: map<Id, Info>, here: map<Id, Info>, after: map<Id, Info>, n: Id)
    requires n in here && n !in before && here == before[n := here[n]] && here[n].lastTry == 0
    requires here[n].lastSuccess == 0
    requires Follows(here, after) && TriedIds(after) <= TriedIds(before)
    ensures TimesOk(before) ==> TimesOk(after)
  {
    forall m | m in after && TimesOk(before)
      ensures TimeOk(after[m])
    {
      assert SameEntry(here[m], after[m]);
      assert m != n ==> TimeOk(before[m]);
      assert m in TriedIds(after) ==> m in TriedIds(before);
    }
  }

  lemma TimesRetimed(infos: map<Id, Info>, n: Id, info: Info)
    requires n in infos && info == infos[n].(time := info.time)
    ensures TimesOk(infos) ==> TimesOk(infos[n := info])
  {
  }

  ghost predicate SameButTime(before: Info, after: Info) {
    SameEntry(before, after.(time := before.time))
  }

  lemma AfterAdd(
    h: Hashing, before: Tables, here: Tables, d: Tables, N: set<Id>, T: set<Id>, gone: set<Id>, n: Id, addr: Addr,
    time: int, source: Host, penalty: int, now: int, inserted: bool)
    requires N == NewIds(before.infos) && T == TriedIds(before.infos) && gone <= N
    requires h.routable(addr) && addr in before.ids && before.ids[addr] == n && n in before.infos
    requires here == before.(infos := Heard(h, before, addr, time, source, penalty, now))
    requires Sound(h, d, N - gone, T, {}) && d.infos.Keys == here.infos.Keys - gone && d.idCount == before.idCount
    requires d.tried == before.tried && Follows(here.infos, d.infos) && before.infos[n].addr == addr
    requires inserted ==> n in d.infos && d.news == before.news[SourceSlot(h, addr, source) := n]
    requires inserted ==> forall m :: m in gone <==> OnlyAt(here, SourceSlot(h, addr, source), m)
    requires !inserted ==> d.news == before.news && gone == {} && d.ids == before.ids
    ensures Sound(h, d, NewIds(d.infos), TriedIds(d.infos), {})
    ensures AddOutcome(h, before, d, addr, time, source, penalty, now, inserted)
    ensures Keeps(h, before, d)
    ensures TimesOk(before.infos) ==> TimesOk(d.infos)
  {
    hide Sound, NewIds, TriedIds, SourceSlot, UpdatedTime, TimesOk, EntriesOutcome;
    KindsOf(before.infos);
    assert N - gone + T == d.infos.Keys;
    Kinds(h, d, N - gone, T, {});
    if inserted {
      EntryFacts(h, d, N - gone, T, {}, n);
    }
    OldEntriesOutcome(h, before, here, d, gone, n, addr, time, source, penalty, now, inserted);
    TimesAdded(before.infos, d.infos);
  }

  lemma TimesAdded(before: map<Id, Info>, after: map<Id, Info>)
    requires forall m :: m in after ==> m in before && SameButTime(before[m], after[m])
    requires TriedIds(after) <= TriedIds(before)
    ensures TimesOk(before) ==> TimesOk(after)
  {
    forall m | m in after && TimesOk(before)
      ensures TimeOk(after[m])
    {
      assert SameButTime(before[m], after[m]) && TimeOk(before[m]);
      assert m in TriedIds(after) ==> m in TriedIds(before);
    }
  }

  // ---------- collisions ----------

  const REPLACEMENT: int := 14400
  const TEST_WINDOW: int := 2400

  datatype Verdict = Drop | Replace | Wait

  /** An id that waits is dropped when it is no longer known or the one in its slot was connected to lately,
      replaces that one when this was tried in vain or not at all for long, and waits otherwise. */
  ghost function Judged(h: Hashing, d: Tables, n: Id, now: int): Verdict {
    if n !in d.infos || !h.valid(d.infos[n].addr) then Drop
    else
      var slot := TriedSlot(h, d.infos[n].addr);
      if slot !in d.tried || d.tried[slot] !in d.infos then Replace
      else
        var holder := d.infos[d.tried[slot]];
        if now - holder.lastSuccess < REPLACEMENT then Drop
        else if now - holder.lastTry < REPLACEMENT then if now - holder.lastTry > MINUTE then Replace else Wait
        else if now - d.infos[n].lastSuccess > TEST_WINDOW then Replace else Wait
  }

  /** Who is in the slot stays if reached within four hours; gives way if tried since, at least a minute ago and within
      four hours, or if not tried for four hours while the one that waits has waited for forty minutes. */
  lemma JudgedMeans(h: Hashing, d: Tables, n: Id, now: int)
    requires n in d.infos && h.valid(d.infos[n].addr)
    requires TriedSlot(h, d.infos[n].addr) in d.tried && d.tried[TriedSlot(h, d.infos[n].addr)] in d.infos
    ensures
      var holder := d.infos[d.tried[TriedSlot(h, d.infos[n].addr)]];
      var reached, tried := holder.lastSuccess > now - 4 * 60 * 60, holder.lastTry > now - 4 * 60 * 60;
      && (Judged(h, d, n, now) == Drop <==> reached)
      && (Judged(h, d, n, now) == Replace <==>
            !reached && if tried then holder.lastTry < now - 60 else d.infos[n].lastSuccess < now - 40 * 60)
  {
    hide TriedSlot;
  }

  /** An id that waits and is still known finds somebody in its slot. */
  lemma WaitingFacts(h: Hashing, d: Tables, collisions: set<Id>, n: Id)
    requires Sound(h, d, NewIds(d.infos), TriedIds(d.infos), {})
    requires CollisionsOk(h, d.infos, d.tried, collisions, d.idCount)
    requires n in collisions && n in d.infos
    ensures d.infos[n].addr in d.ids && d.ids[d.infos[n].addr] == n
    ensures
      var slot := TriedSlot(h, d.infos[n].addr);
      && slot in d.tried && d.tried[slot] in d.infos && d.tried[slot] in TriedIds(d.infos)
      && d.infos[d.tried[slot]].inTried && TriedSlot(h, d.infos[d.tried[slot]].addr) == slot
      && (d.infos[n].inTried ==> d.tried[slot] == n)
  {
    hide Sound, TriedSlot;
    var N, T := NewIds(d.infos), TriedIds(d.infos);
    EntryFacts(h, d, N, T, {}, n);
    TriedEntryFacts(h, d, N, T, {}, TriedSlot(h, d.infos[n].addr));
    if d.infos[n].inTried {
      TriedAtSlot(h, d, N, T, {}, n);
    }
  }

  lemma TriedAtSlot(h: Hashing, d: Tables, N: set<Id>, T: set<Id>, except: set<Id>, n: Id)
    requires Sound(h, d, N, T, except) && n in T
    ensures n in d.infos && TriedSlot(h, d.infos[n].addr) in d.tried && d.tried[TriedSlot(h, d.infos[n].addr)] == n
  {
    hide IndexOk, RefsOk, CountsOk;
    assert n in Addrs(d.infos);
  }

  lemma FewerCollisions(h: Hashing, d: Tables, collisions: set<Id>, n: Id)
    requires CollisionsOk(h, d.infos, d.tried, collisions, d.idCount)
    ensures CollisionsOk(h, d.infos, d.tried, collisions - {n}, d.idCount)
    ensures |collisions - {n}| <= |collisions|
  {
    FewerOrEqual(collisions - {n}, collisions);
  }

  lemma Replaced(before: Tables, tried: map<Slot, Id>, slot: Slot, n: Id, moved: bool)
    requires slot in before.tried && tried == if moved then before.tried[slot := n] else before.tried
    requires !moved ==> before.tried[slot] == n
    ensures tried == before.tried[slot := n] && tried.Keys == before.tried.Keys
  {
  }

  /** What judging `n` does to the tables. */
  ghost predicate Resolves(h: Hashing, before: Tables, after: Tables, n: Id, now: int) {
    if Judged(h, before, n, now) == Replace then
      n in before.infos && ConnectedTo(h, before, after, n, now, !before.infos[n].inTried)
    else after == before
  }

  /** The ids that were told to wait. */
  ghost function Waiters(h: Hashing, states: seq<Tables>, order: seq<Id>, clock: nat -> int): set<Id>
    requires |states| > |order|
  {
    set k | 0 <= k < |order| && Judged(h, states[k], order[k], clock(k)) == Wait :: order[k]
  }

  /** The tables are sound, with every id either new or tried. */
  ghost predicate Settled(h: Hashing, d: Tables) {
    Sound(h, d, NewIds(d.infos), TriedIds(d.infos), {})
  }

  /** All but the ids in `todo` were judged, in this order, and those in `waiting` were told to wait. */
  ghost predicate Trace(h: Hashing, all: set<Id>, todo: set<Id>, waiting: set<Id>, order: seq<Id>, states: seq<Tables>,
      clock: nat -> int) {
    && todo <= all && |order| == |all - todo| && (forall n :: n in order <==> n in all - todo)
    && |states| == |order| + 1 && (forall k :: 0 <= k < |states| ==> Settled(h, states[k]))
    && (forall k :: 0 <= k < |order| ==> Resolves(h, states[k], states[k + 1], order[k], clock(k)))
    && waiting == Waiters(h, states, order, clock)
  }

  lemma NoTrace(h: Hashing, all: set<Id>, d: Tables, clock: nat -> int)
    requires Settled(h, d)
    ensures Trace(h, all, all, {}, [], [d], clock)
  {
    assert all - all == {};
    assert Waiters(h, [d], [], clock) == {};
  }

  lemma TraceDone(h: Hashing, all: set<Id>, waiting: set<Id>, order: seq<Id>, states: seq<Tables>, clock: nat -> int)
    requires Trace(h, all, {}, waiting, order, states, clock)
    ensures |order| == |all| && (forall n :: n in order <==> n in all) && |states| == |order| + 1
    ensures forall k :: 0 <= k < |states| ==> Settled(h, states[k])
    ensures forall k :: 0 <= k < |order| ==> Resolves(h, states[k], states[k + 1], order[k], clock(k))
    ensures waiting == Waiters(h, states, order, clock)
  {
    assert all - {} == all;
  }

  lemma StillWaiting(before: set<Id>, after: set<Id>, todo: set<Id>, n: Id)
    requires n in todo && todo <= before && (after == before || after == before - {n})
    ensures after - (todo - {n}) == before - todo + if n in after then {n} else {}
    ensures todo - {n} <= after
  {
  }

  lemma OneMoreWaiter(h: Hashing, states: seq<Tables>, order: seq<Id>, clock: nat -> int, n: Id, d: Tables)
    requires |states| == |order| + 1
    ensures Waiters(h, states + [d], order + [n], clock)
      == Waiters(h, states, order, clock) + if Judged(h, states[|order|], n, clock(|order|)) == Wait then {n} else {}
  {
    hide Judged;
    var more, next := order + [n], states + [d];
    assert forall k :: 0 <= k < |order| ==> more[k] == order[k] && next[k] == states[k];
    forall m | m in Waiters(h, states, order, clock)
      ensures m in Waiters(h, next, more, clock)
    {
      var k :| 0 <= k < |order| && Judged(h, states[k], order[k], clock(k)) == Wait && m == order[k];
      assert Judged(h, next[k], more[k], clock(k)) == Wait && more[k] == m;
    }
    if Judged(h, states[|order|], n, clock(|order|)) == Wait {
      assert Judged(h, next[|order|], more[|order|], clock(|order|)) == Wait && more[|order|] == n;
    }
  }

  lemma OneMoreJudged(h: Hashing, all: set<Id>, todo: set<Id>, waiting: set<Id>, order: seq<Id>, states: seq<Tables>,
      clock: nat -> int, n: Id, d: Tables)
    requires Trace(h, all, todo, waiting, order, states, clock) && n in todo && |states| > 0
    requires Resolves(h, states[|states| - 1], d, n, clock(|order|)) && Settled(h, d)
    ensures
      var waiting' := if Judged(h, states[|states| - 1], n, clock(|order|)) == Wait then waiting + {n} else waiting;
      Trace(h, all, todo - {n}, waiting', order + [n], states + [d], clock)
  {
    hide Judged, Resolves, Waiters, Settled;
    OneMoreDone(all, todo, n);
    OneMoreWaiter(h, states, order, clock, n, d);
    var more, next := order + [n], states + [d];
    forall k | 0 <= k < |more|
      ensures Resolves(h, next[k], next[k + 1], more[k], clock(k))
    {
      assert k < |order| ==> Resolves(h, states[k], states[k + 1], order[k], clock(k));
    }
  }

  // ---------- choosing addresses ----------

  /** The entries differ at most in their places. */
  ghost predicate OnlyPlaces(before: map<Id, Info>, after: map<Id, Info>) {
    && after.Keys == before.Keys
    && (forall m :: m in after ==> after[m] == before[m].(place := after[m].place))
  }

  /** How many of `n` addresses are asked for; zero stands for no limit. */
  function AddrLimit(n: nat, maxAddresses: nat, maxPct: nat): nat {
    var share := if maxPct == 0 then n else if maxPct < 100 then maxPct * n / 100 else n;
    if maxAddresses == 0 || share < maxAddresses then share else maxAddresses
  }

  lemma AllInOrder(h: Hashing, d: Tables)
    requires Sound(h, d, NewIds(d.infos), TriedIds(d.infos), {})
    ensures |d.random| == |d.infos|
  {
    hide TablesOk, RefsOk, CountsOk, FlagsOk;
    RandomCount(Addrs(d.infos), d.ids, d.random, Places(d.infos));
    assert Addrs(d.infos).Keys == d.infos.Keys;
  }

  predicate Offered(info: Info, allowed: Addr -> bool, filtered: bool, now: int) {
    allowed(info.addr) && !(IsTerrible(info, now) && filtered)
  }

  ghost predicate PlacesDoNotMatter(wanted: Info -> bool) {
    forall info: Info, place: int :: wanted(info.(place := place)) == wanted(info)
  }

  /** The addresses of the wanted ones among these ids. */
  ghost function Chosen(infos: map<Id, Info>, order: seq<Id>, wanted: Info -> bool): seq<Addr> {
    if order == [] then []
    else
      var n := order[|order| - 1];
      Chosen(infos, order[..|order| - 1], wanted) + if n in infos && wanted(infos[n]) then [infos[n].addr] else []
  }

  lemma OnlyPlacesSelf(infos: map<Id, Info>)
    ensures OnlyPlaces(infos, infos)
  {
  }

  lemma ChosenNone(infos: map<Id, Info>, wanted: Info -> bool)
    ensures Chosen(infos, [], wanted) == []
  {
  }

  lemma OnlyPlacesSwapped(before: map<Id, Info>, d: Tables, i: nat, j: nat)
    requires i < |d.random| && j < |d.random| && d.random[i] in d.infos && d.random[j] in d.infos
    requires OnlyPlaces(before, d.infos)
    ensures OnlyPlaces(before, Swapped(d, i, j).infos)
  {
  }

  lemma OnlyPlacesKeep(h: Hashing, before: Tables, after: Tables, collisions: set<Id>)
    requires Sound(h, after, NewIds(before.infos), TriedIds(before.infos), {}) && OnlyPlaces(before.infos, after.infos)
    requires CollisionsOk(h, before.infos, before.tried, collisions, before.idCount)
    requires after == before.(infos := after.infos, random := after.random)
    ensures Sound(h, after, NewIds(after.infos), TriedIds(after.infos), {})
    ensures CollisionsOk(h, after.infos, after.tried, collisions, after.idCount)
    ensures TimesOk(before.infos) ==> TimesOk(after.infos)
  {
    hide Sound;
    assert NewIds(after.infos) == NewIds(before.infos) && TriedIds(after.infos) == TriedIds(before.infos);
  }

  lemma RandomFacts(h: Hashing, d: Tables, N: set<Id>, T: set<Id>, except: set<Id>, k: nat)
    requires Sound(h, d, N, T, except) && k < |d.random|
    ensures d.random[k] in d.infos && d.infos[d.random[k]].place == k
  {
    hide TablesOk, RefsOk, CountsOk, FlagsOk;
    assert d.random[k] in Addrs(d.infos) && Places(d.infos)[d.random[k]] == k;
  }

  lemma ChosenNext(before: map<Id, Info>, infos: map<Id, Info>, random: seq<Id>, random': seq<Id>, k: nat, j: nat,
      wanted: Info -> bool)
    requires k <= j < |random| && random' == random[k := random[j]][j := random[k]]
    requires OnlyPlaces(before, infos) && PlacesDoNotMatter(wanted) && random'[k] in infos
    ensures Chosen(before, random'[..k + 1], wanted)
      == Chosen(before, random[..k], wanted) + if wanted(infos[random'[k]]) then [infos[random'[k]].addr] else []
  {
    var n := random'[k];
    assert random'[..k + 1][..k] == random[..k] && random'[..k + 1][k] == n;
    assert wanted(before[n].(place := infos[n].place)) == wanted(before[n]);
  }

  lemma {:induction false} ChosenAll(infos: map<Id, Info>, order: seq<Id>, wanted: Info -> bool)
    requires forall i :: 0 <= i < |order| ==> order[i] in infos
    ensures forall n :: n in order && n in infos && wanted(infos[n]) ==> infos[n].addr in Chosen(infos, order, wanted)
  {
    if order != [] {
      var rest, last := order[..|order| - 1], order[|order| - 1];
      ChosenAll(infos, rest, wanted);
      forall n | n in order && n in infos && wanted(infos[n])
        ensures infos[n].addr in Chosen(infos, order, wanted)
      {
        assert n in rest || n == last;
      }
    }
  }

  /** Every chosen address belongs to one of the ids, in their order. */
  lemma {:induction false} ChosenFrom(infos: map<Id, Info>, order: seq<Id>, wanted: Info -> bool)
    returns (from: seq<nat>)
    requires forall i :: 0 <= i < |order| ==> order[i] in infos
    ensures |from| == |Chosen(infos, order, wanted)|
    ensures forall i :: 0 <= i < |from| ==> PickedAt(infos, order, wanted, from[i], Chosen(infos, order, wanted)[i])
    ensures forall i, j :: 0 <= i < j < |from| ==> from[i] < from[j]
  {
    hide PickedAt;
    if order == [] {
      from := [];
    } else {
      var rest, last := order[..|order| - 1], order[|order| - 1];
      assert forall i :: 0 <= i < |rest| ==> rest[i] == order[i];
      from := ChosenFrom(infos, rest, wanted);
      var picked := Chosen(infos, rest, wanted);
      forall i | 0 <= i < |from|
        ensures PickedAt(infos, order, wanted, from[i], picked[i]) && from[i] < |order| - 1
      {
        PickedLonger(infos, order, wanted, from[i], picked[i]);
      }
      if wanted(infos[last]) {
        PickedLast(infos, order, wanted);
        from := from + [|order| - 1];
      }
    }
  }

  ghost predicate PickedAt(infos: map<Id, Info>, order: seq<Id>, wanted: Info -> bool, j: nat, a: Addr) {
    j < |order| && order[j] in infos && wanted(infos[order[j]]) && a == infos[order[j]].addr
  }

  lemma PickedLonger(infos: map<Id, Info>, order: seq<Id>, wanted: Info -> bool, j: nat, a: Addr)
    requires |order| > 0 && PickedAt(infos, order[..|order| - 1], wanted, j, a)
    ensures PickedAt(infos, order, wanted, j, a) && j < |order| - 1
  {
  }

  lemma PickedLast(infos: map<Id, Info>, order: seq<Id>, wanted: Info -> bool)
    requires |order| > 0 && order[|order| - 1] in infos && wanted(infos[order[|order| - 1]])
    ensures PickedAt(infos, order, wanted, |order| - 1, infos[order[|order| - 1]].addr)
  {
  }

  lemma ChosenFacts(h: Hashing, d: Tables, N: set<Id>, T: set<Id>, before: map<Id, Info>, k: nat, wanted: Info -> bool)
    requires Sound(h, d, N, T, {}) && OnlyPlaces(before, d.infos) && PlacesDoNotMatter(wanted) && k <= |d.random|
    ensures
      var r := Chosen(before, d.random[..k], wanted);
      && (forall i, j :: 0 <= i < j < |r| ==> r[i] != r[j])
      && (forall i :: 0 <= i < |r| ==> r[i] in d.ids && d.ids[r[i]] in d.infos && wanted(d.infos[d.ids[r[i]]]))
      && (k == |d.random| ==> forall n :: n in d.infos && wanted(d.infos[n]) ==> d.infos[n].addr in r)
  {
    hide Sound, OnlyPlaces, PlacesDoNotMatter, Chosen;
    var order := d.random[..k];
    forall i | 0 <= i < |order|
      ensures order[i] in before && order[i] in d.infos && d.infos[order[i]].addr == before[order[i]].addr
      ensures wanted(d.infos[order[i]]) == wanted(before[order[i]]) && d.infos[order[i]].place == i
      ensures d.infos[order[i]].addr in d.ids && d.ids[d.infos[order[i]].addr] == order[i]
    {
      RandomFacts(h, d, N, T, {}, i);
      PlaceOnly(before, d.infos, order[i], wanted);
      EntryFacts(h, d, N, T, {}, order[i]);
    }
    var from := ChosenFrom(before, order, wanted);
    ChosenAll(before, order, wanted);
    if k == |d.random| {
      forall n | n in d.infos && wanted(d.infos[n])
        ensures d.infos[n].addr in Chosen(before, order, wanted)
      {
        EntryFacts(h, d, N, T, {}, n);
        PlaceOnly(before, d.infos, n, wanted);
        assert order[d.infos[n].place] == n;
      }
    }
  }

  lemma PlaceOnly(before: map<Id, Info>, after: map<Id, Info>, n: Id, wanted: Info -> bool)
    requires OnlyPlaces(before, after) && PlacesDoNotMatter(wanted) && n in after
    ensures n in before && after[n].addr == before[n].addr && wanted(after[n]) == wanted(before[n])
  {
    assert wanted(before[n].(place := after[n].place)) == wanted(before[n]);
  }

  // ---------- attempts ----------

  ghost function Attempted(info: Info, countFailure: bool, time: int, lastGood: int): Info {
    if countFailure && info.lastCount < lastGood
    then info.(lastTry := time, lastCount := time, attempts := info.attempts + 1)
    else info.(lastTry := time)
  }

  lemma AttemptedIs(before: map<Id, Info>, after: map<Id, Info>, n: Id, countFailure: bool, time: int, lastGood: int)
    requires n in before
    requires
      var tried := before[n := before[n].(lastTry := time)];
      after == if countFailure && before[n].lastCount < lastGood
               then tried[n := tried[n].(lastCount := time, attempts := tried[n].attempts + 1)]
               else tried
    ensures after == before[n := Attempted(before[n], countFailure, time, lastGood)]
    ensures n in after && after[n] == Attempted(before[n], countFailure, time, lastGood)
    ensures after[n].addr == before[n].addr && after[n].refs == before[n].refs
    ensures after[n].inTried == before[n].inTried && after[n].place == before[n].place
    ensures TimesOk(before) ==> (TimesOk(after) <==> time >= 0)
  {
    hide TimesOk;
    TimesRestated(before, n, after[n]);
    assert TimesOk(before) ==> TimeOk(before[n]) by {
      TimesAt(before, n);
    }
  }

  lemma TimesAt(infos: map<Id, Info>, n: Id)
    requires n in infos
    ensures TimesOk(infos) ==> TimeOk(infos[n])
  {
  }

  class AddrMan {
    const h: Hashing
    var infos: map<Id, Info>
    var ids: map<Addr, Id>
    var random: seq<Id>
    var tried: map<Slot, Id>
    var news: map<Slot, Id>
    var nNew: int
    var nTried: int
    var counts: map<Net, Count>
    var idCount: nat
    var lastGood: int
    var collisions: set<Id>

    function State(): Tables
      reads this
    {
      Tables(infos, ids, random, tried, news, nNew, nTried, counts, idCount)
    }

    ghost predicate Valid()
      reads this
    {
      && GoodHashing(h) && Sound(h, State(), NewIds(infos), TriedIds(infos), {})
      && CollisionsOk(h, infos, tried, collisions, idCount) && |collisions| <= MAX_COLLISIONS
    }

    /** Nothing is known yet. */
    constructor (h: Hashing)
      requires GoodHashing(h)
      ensures Valid() && this.h == h && collisions == {} && TimesOk(infos)
      ensures State() == Tables(map[], map[], [], map[], map[], 0, 0, map[], 0)
    {
      this.h := h;
      infos, ids, random, tried, news, nNew, nTried, counts := map[], map[], [], map[], map[], 0, 0, map[];
      idCount, lastGood, collisions := 0, 1, {};
      new;
      EmptySound(h);
    }

    // ---------- operations ----------

    /** An address was connected to. It becomes tried, unless an id in its slot is to be tested first. */
    method Good(addr: Addr, testBeforeEvict: bool, time: int) returns (moved: bool)
      requires Valid()
      modifies this
      ensures Valid() && lastGood == time && idCount == old(idCount)
      ensures moved <==>
        && addr in old(ids) && !old(infos)[old(ids)[addr]].inTried
        && !(testBeforeEvict && TriedSlot(h, addr) in old(tried))
      ensures tried == if moved then old(tried)[TriedSlot(h, addr) := old(ids)[addr]] else old(tried)
      ensures news == if moved then NewsAfter(h, old(State()), old(ids)[addr]) else old(news)
      ensures collisions == Collided(h, old(State()), old(collisions), addr, testBeforeEvict)
      ensures addr !in old(ids) ==> State() == old(State())
      ensures addr in old(ids) ==> ConnectedTo(h, old(State()), State(), old(ids)[addr], time, moved)
      ensures old(TimesOk(infos)) ==>
        (TimesOk(infos) <==>
          || addr !in old(ids) || time > 0
          || (&& time == 0 && !old(infos)[old(ids)[addr]].inTried
              && testBeforeEvict && TriedSlot(h, addr) in old(tried)))
    {
      hide Sound, GoodHashing, NewIds, TriedIds, CollisionsOk, Follows, TimesOk, TriedSlot, NewsAfter, ConnectedTo;
      lastGood := time;
      if addr !in ids {
        return false;
      }
      var n := ids[addr];
      ghost var before := State();
      ghost var N, T := NewIds(infos), TriedIds(infos);
      AddressFacts(h, before, N, T, {}, addr);
      infos := infos[n := infos[n].(lastSuccess := time, lastTry := time, attempts := 0)];
      ghost var here := State();
      Restated(h, before, N, T, {}, n, infos[n]);
      RestatedRest(h, before, here, n, collisions);
      OnlyStamped(h, before, here, n, time);
      if infos[n].inTried {
        TimesRestated(before.infos, n, infos[n]);
        return false;
      }
      NewIsReferenced(h, here, n);
      assert infos[n].refs > 0;
      if testBeforeEvict && TriedSlot(h, addr) in tried {
        TimesRestated(before.infos, n, infos[n]);
        if |collisions| < MAX_COLLISIONS {
          MoreCollisions(h, here, collisions, n);
          collisions := collisions + {n};
        }
        return false;
      }
      ghost var N', evicted := MakeTried(n, N, T);
      moved := true;
      AfterMove(h, here, State(), N, N', T, evicted, n);
      CollisionsKept(h, here, State(), collisions);
      TimesMoved(before.infos, here.infos, infos, n, time);
      SameNewsAfter(h, before, here, n);
      StampedAndMoved(h, before, here, State(), n, time);
    }

    /** A connection to an address is being tried. */
    method Attempt(addr: Addr, countFailure: bool, time: int)
      requires Valid()
      modifies this
      ensures Valid() && lastGood == old(lastGood) && collisions == old(collisions)
      ensures addr !in ids || ids[addr] !in old(infos) ==> State() == old(State())
      ensures addr in ids && ids[addr] in old(infos) ==>
        State() == old(State()).(infos := old(infos)[
          ids[addr] := Attempted(old(infos)[ids[addr]], countFailure, time, lastGood)])
      ensures old(TimesOk(infos)) ==> (TimesOk(infos) <==> addr !in ids || time >= 0)
    {
      hide Sound, GoodHashing, NewIds, TriedIds, CollisionsOk, TimesOk, Attempted;
      if addr !in ids {
        return;
      }
      var n := ids[addr];
      ghost var before := State();
      ghost var N, T := NewIds(infos), TriedIds(infos);
      AddressFacts(h, before, N, T, {}, addr);
      infos := infos[n := infos[n].(lastTry := time)];
      if countFailure && infos[n].lastCount < lastGood {
        infos := infos[n := infos[n].(lastCount := time, attempts := infos[n].attempts + 1)];
      }
      AttemptedIs(before.infos, infos, n, countFailure, time, lastGood);
      Restated(h, before, N, T, {}, n, infos[n]);
      RestatedRest(h, before, State(), n, collisions);
    }

    method Connected(addr: Addr, time: int)
      requires Valid()
      modifies this
      ensures Valid() && lastGood == old(lastGood) && collisions == old(collisions)
      ensures addr !in ids ==> State() == old(State())
      ensures addr in ids ==>
        && ids[addr] in old(infos)
        && var info := old(infos)[ids[addr]];
           State() == old(State()).(infos := old(infos)[
             ids[addr] := info.(time := if time > info.time + 20 * MINUTE then time else info.time)])
      ensures old(TimesOk(infos)) ==> TimesOk(infos)
    {
      hide Sound, GoodHashing, NewIds, TriedIds, CollisionsOk, TimesOk;
      if addr !in ids {
        return;
      }
      var n := ids[addr];
      ghost var before := State();
      ghost var N, T := NewIds(infos), TriedIds(infos);
      AddressFacts(h, before, N, T, {}, addr);
      infos := infos[n := infos[n].(time := if time - infos[n].time > 20 * MINUTE then time else infos[n].time)];
      Restated(h, before, N, T, {}, n, infos[n]);
      RestatedRest(h, before, State(), n, collisions);
      TimesRetimed(before.infos, n, infos[n]);
    }

    /** Addresses of the allowed networks, up to a number and a percentage of all, without the ones not worth
        keeping if so asked. When it is fewer, these are all. */
    method GetAddr(maxAddresses: nat, maxPct: nat, allowed: Addr -> bool, filtered: bool, now: int)
      returns (r: seq<Addr>)
      requires Valid()
      modifies this
      ensures Valid() && lastGood == old(lastGood) && collisions == old(collisions)
      ensures State() == old(State()).(infos := infos, random := random) && OnlyPlaces(old(infos), infos)
      ensures old(TimesOk(infos)) ==> TimesOk(infos)
      ensures |r| <= AddrLimit(|infos|, maxAddresses, maxPct)
      ensures forall i, j :: 0 <= i < j < |r| ==> r[i] != r[j]
      ensures forall i :: 0 <= i < |r| ==>
        r[i] in ids && ids[r[i]] in infos && Offered(infos[ids[r[i]]], allowed, filtered, now)
      ensures |r| < AddrLimit(|infos|, maxAddresses, maxPct) ==>
        forall n :: n in infos && Offered(infos[n], allowed, filtered, now) ==> infos[n].addr in r
    {
      hide Sound, GoodHashing, NewIds, TriedIds, CollisionsOk, TimesOk;
      AllInOrder(h, State());
      var limit := |random|;
      if maxPct != 0 {
        limit := (if maxPct < 100 then maxPct else 100) * limit / 100;
      }
      if maxAddresses != 0 && maxAddresses < limit {
        limit := maxAddresses;
      }
      r := GetWanted(limit, (info: Info) => Offered(info, allowed, filtered, now));
      AllInOrder(h, State());
    }

    /** Up to `limit` addresses that are wanted, chosen by shuffling the random order from its start. */
    method GetWanted(limit: nat, wanted: Info -> bool) returns (r: seq<Addr>)
      requires Valid() && PlacesDoNotMatter(wanted)
      modifies this
      ensures Valid() && lastGood == old(lastGood) && collisions == old(collisions)
      ensures State() == old(State()).(infos := infos, random := random) && OnlyPlaces(old(infos), infos)
      ensures old(TimesOk(infos)) ==> TimesOk(infos)
      ensures |r| <= limit
      ensures forall i, j :: 0 <= i < j < |r| ==> r[i] != r[j]
      ensures forall i :: 0 <= i < |r| ==> r[i] in ids && ids[r[i]] in infos && wanted(infos[ids[r[i]]])
      ensures |r| < limit ==> forall n :: n in infos && wanted(infos[n]) ==> infos[n].addr in r
    {
      hide Sound, GoodHashing, NewIds, TriedIds, CollisionsOk, TimesOk, OnlyPlaces, PlacesDoNotMatter, Chosen;
      r := [];
      ghost var before := State();
      ghost var N, T := NewIds(infos), TriedIds(infos);
      var k := 0;
      OnlyPlacesSelf(infos);
      ChosenNone(before.infos, wanted);
      assert random[..0] == [];
      while k < |random| && |r| < limit
        invariant k <= |random| && |r| <= limit
        invariant Sound(h, State(), N, T, {}) && State() == before.(infos := infos, random := random)
        invariant OnlyPlaces(before.infos, infos)
        invariant r == Chosen(before.infos, random[..k], wanted)
        invariant lastGood == old(lastGood) && collisions == old(collisions)
      {
        var j: nat :| k <= j < |random|;
        ghost var here := State();
        SwapRandom(k, j, N, T, {});
        OnlyPlacesSwapped(before.infos, here, k, j);
        RandomFacts(h, State(), N, T, {}, k);
        ChosenNext(before.infos, infos, here.random, random, k, j, wanted);
        var n := random[k];
        if wanted(infos[n]) {
          r := r + [infos[n].addr];
        }
        k := k + 1;
      }
      OnlyPlacesKeep(h, before, State(), collisions);
      ChosenFacts(h, State(), N, T, before.infos, k, wanted);
    }

    /** What becomes of an id that waits for the one in its slot to be tested. */
    method ResolveOne(n: Id, now: int) returns (erase: bool)
      requires Valid() && n in collisions
      modifies this
      ensures Valid() && collisions == old(collisions) && tried.Keys == old(tried).Keys
      ensures erase <==> Judged(h, old(State()), n, now) != Wait
      ensures Resolves(h, old(State()), State(), n, now)
      ensures old(TimesOk(infos)) && now > 0 ==> TimesOk(infos)
    {
      hide Sound, GoodHashing, NewIds, TriedIds, CollisionsOk, TimesOk, TriedSlot, NewsAfter;
      erase := false;
      if n !in infos {
        return true;
      }
      if !h.valid(infos[n].addr) {
        return true;
      }
      // Nobody leaves a slot of the tried table without another one taking it.
      ghost var before := State();
      WaitingFacts(h, before, collisions, n);
      var slot := TriedSlot(h, infos[n].addr);
      var holder := infos[tried[slot]];
      if now - holder.lastSuccess < REPLACEMENT {
        return true;
      }
      if now - holder.lastTry < REPLACEMENT {
        if now - holder.lastTry <= MINUTE {
          return;
        }
      } else if now - infos[n].lastSuccess <= TEST_WINDOW {
        return;
      }
      var moved := Good(infos[n].addr, false, now);
      Replaced(before, tried, slot, n, moved);
      return true;
    }

    method JudgeOne(n: Id, now: int)
      requires Valid() && n in collisions
      modifies this
      ensures Valid() && tried.Keys == old(tried).Keys
      ensures collisions == if Judged(h, old(State()), n, now) == Wait then old(collisions) else old(collisions) - {n}
      ensures Resolves(h, old(State()), State(), n, now)
      ensures old(TimesOk(infos)) && now > 0 ==> TimesOk(infos)
    {
      hide Sound, GoodHashing, NewIds, TriedIds, CollisionsOk, TimesOk, Resolves, Judged;
      var erase := ResolveOne(n, now);
      if erase {
        FewerCollisions(h, State(), collisions, n);
        collisions := collisions - {n};
      }
    }

    /** Every id that waits is judged once, in some order, by the tables as they then are; those that go on
        waiting stay in the set. `clock` is what the clock shows at each turn. */
    method ResolveCollisions(clock: nat -> int) returns (ghost order: seq<Id>, ghost states: seq<Tables>)
      requires Valid()
      modifies this
      ensures Valid() && tried.Keys == old(tried).Keys
      ensures |order| == |old(collisions)| && (forall n :: n in order <==> n in old(collisions))
      ensures |states| == |order| + 1 && states[0] == old(State()) && states[|order|] == State()
      ensures forall k :: 0 <= k < |states| ==> Settled(h, states[k])
      ensures forall k :: 0 <= k < |order| ==> Resolves(h, states[k], states[k + 1], order[k], clock(k))
      ensures collisions == Waiters(h, states, order, clock)
      ensures old(TimesOk(infos)) && (forall k :: clock(k) > 0) ==> TimesOk(infos)
    {
      hide Valid, TimesOk, Resolves, Trace, Judged, Waiters, Settled;
      var todo, turn := collisions, 0;
      ghost var all := collisions;
      order, states := [], [State()];
      ValidIsSettled(this);
      NoTrace(h, all, State(), clock);
      assert collisions - todo == {};
      while todo != {}
        invariant Valid() && todo <= collisions && tried.Keys == old(tried).Keys && turn == |order|
        invariant Trace(h, all, todo, collisions - todo, order, states, clock)
        invariant |states| > 0 && states[0] == old(State()) && states[|states| - 1] == State()
        invariant old(TimesOk(infos)) && (forall k :: clock(k) > 0) ==> TimesOk(infos)
        decreases |todo|
      {
        var n :| n in todo;
        label Here:
        ghost var waiting := collisions - todo;
        JudgeOne(n, clock(turn));
        ValidIsSettled(this);
        StillWaiting(old@Here(collisions), collisions, todo, n);
        OneMoreJudged(h, all, todo, waiting, order, states, clock, n, State());
        todo, turn := todo - {n}, turn + 1;
        order, states := order + [n], states + [State()];
      }
      TraceDone(h, all, collisions - todo, order, states, clock);
      assert collisions - todo == collisions;
    }

    /** The address to test for the sake of one that waits, if that one is still known. */
    method SelectTriedCollision(pick: Id) returns (r: Option<(Addr, int)>)
      requires Valid() && (collisions != {} ==> pick in collisions)
      modifies this
      ensures Valid() && State() == old(State()) && lastGood == old(lastGood)
      ensures collisions == if pick in infos then old(collisions) else old(collisions) - {pick}
      ensures r.Some? <==> old(collisions) != {} && pick in infos
      ensures r.Some? ==>
        && TriedSlot(h, infos[pick].addr) in tried && tried[TriedSlot(h, infos[pick].addr)] in TriedIds(infos)
        && var holder := infos[tried[TriedSlot(h, infos[pick].addr)]];
           holder.inTried && TriedSlot(h, holder.addr) == TriedSlot(h, infos[pick].addr) &&
             r.value == (holder.addr, holder.lastTry)
    {
      hide Sound, GoodHashing, NewIds, TriedIds, CollisionsOk, TriedSlot;
      if collisions == {} {
        assert {} - {pick} == collisions;
        return None;
      }
      if pick !in infos {
        FewerCollisions(h, State(), collisions, pick);
        collisions := collisions - {pick};
        return None;
      }
      WaitingFacts(h, State(), collisions, pick);
      var holder := infos[tried[TriedSlot(h, infos[pick].addr)]];
      return Some((holder.addr, holder.lastTry));
    }

    /** An address was heard of from `source`. It gets a slot in a new bucket where the rules admit it, and
        then at most what was in that slot is forgotten. */
    method AddSingle(addr: Addr, time: int, source: Host, penalty: int, now: int, lucky: bool) returns (inserted: bool)
      requires Valid()
      modifies this
      ensures Valid()
      ensures inserted <==> Admitted(h, old(State()), addr, time, source, penalty, now, lucky)
      ensures AddOutcome(h, old(State()), State(), addr, time, source, penalty, now, inserted)
      ensures old(TimesOk(infos)) ==> TimesOk(infos)
      ensures collisions == old(collisions) && lastGood == old(lastGood)
    {
      hide Sound, GoodHashing, CollisionsOk, TimesOk, SourceSlot, UpdatedTime, IsTerrible, Admitted, AddOutcome;
      if !h.routable(addr) {
        inserted := false;
        NotAdmitted(h, State(), addr, time, source, penalty, now, lucky);
      } else if addr in ids {
        inserted := AddKnown(addr, time, source, penalty, now, lucky);
      } else {
        inserted := AddUnknown(addr, time, source, penalty, now, lucky);
      }
    }

    method AddKnown(addr: Addr, time: int, source: Host, penalty: int, now: int, lucky: bool) returns (inserted: bool)
      requires Valid() && addr in ids && h.routable(addr)
      modifies this
      ensures Valid()
      ensures inserted <==> Admitted(h, old(State()), addr, time, source, penalty, now, lucky)
      ensures AddOutcome(h, old(State()), State(), addr, time, source, penalty, now, inserted)
      ensures old(TimesOk(infos)) ==> TimesOk(infos)
      ensures collisions == old(collisions) && lastGood == old(lastGood)
    {
      hide Sound, GoodHashing, NewIds, TriedIds, CollisionsOk, Follows, TimesOk, SourceSlot, UpdatedTime, IsTerrible,
        Admitted, AddOutcome, MayEnter, OnlyAt;
      ghost var before := State();
      ghost var N, T := NewIds(infos), TriedIds(infos);
      AddressFacts(h, before, N, T, {}, addr);
      var n := ids[addr];
      infos := infos[n := infos[n].(time := UpdatedTime(infos[n], time, Penalty(h, addr, source, penalty), now))];
      ghost var here := State();
      Restated(h, before, N, T, {}, n, infos[n]);
      RestatedRest(h, before, here, n, collisions);
      TimesRetimed(before.infos, n, infos[n]);
      assert infos == Heard(h, before, addr, time, source, penalty, now);
      KnownAdmitted(h, before, here, N, T, n, addr, time, source, penalty, now, lucky);
      if time <= infos[n].time || infos[n].inTried || infos[n].refs == MAX_REFS || !lucky {
        return false;
      }
      NewIsReferenced(h, here, n);
      ghost var gone;
      inserted, gone := EnterBucket(n, source, now, N, T, {});
      AfterAdd(h, before, here, State(), N, T, gone, n, addr, time, source, penalty, now, inserted);
      CollisionsKept(h, before, State(), collisions);
    }

    method AddUnknown(addr: Addr, time: int, source: Host, penalty: int, now: int, ghost lucky: bool)
      returns (inserted: bool)
      requires Valid() && addr !in ids && h.routable(addr)
      modifies this
      ensures Valid()
      ensures inserted <==> Admitted(h, old(State()), addr, time, source, penalty, now, lucky)
      ensures AddOutcome(h, old(State()), State(), addr, time, source, penalty, now, inserted)
      ensures old(TimesOk(infos)) ==> TimesOk(infos)
      ensures collisions == old(collisions) && lastGood == old(lastGood)
    {
      hide Sound, GoodHashing, NewIds, TriedIds, CollisionsOk, Follows, TimesOk, SourceSlot, UpdatedTime, IsTerrible,
        Admitted, AddOutcome, MayEnter, OnlyAt;
      ghost var before := State();
      ghost var N, T := NewIds(infos), TriedIds(infos);
      var n := Create(addr, source, time, N, T);
      ghost var created := State();
      infos := infos[n := infos[n].(time := Max(0, time - Penalty(h, addr, source, penalty)))];
      ghost var here := State();
      Restated(h, created, N + {n}, T, {n}, n, infos[n]);
      ghost var info := infos[n];
      NewEntry(h, before, created, here, n, info);
      UnknownAdmitted(h, before, here, N, T, n, info, time, source, penalty, now, lucky);
      ghost var gone;
      inserted, gone := EnterBucket(n, source, now, N + {n}, T, {n});
      AfterAddNew(h, before, here, State(), N, T, gone, n, info, time, source, penalty, now, inserted);
      CollisionsKept(h, before, State(), collisions);
    }

    /** A new id is put into the bucket that `source` leads to, if nothing better is in its slot there. */
    method EnterBucket(n: Id, source: Host, now: int, ghost N: set<Id>, ghost T: set<Id>, ghost except: set<Id>)
      returns (inserted: bool, ghost gone: set<Id>)
      requires GoodHashing(h) && Sound(h, State(), N, T, except) && n in infos && n in N && infos[n].refs < MAX_REFS
      requires except == if infos[n].refs == 0 then {n} else {}
      modifies this
      ensures inserted <==> MayEnter(h, old(State()), n, source, now)
      ensures Sound(h, State(), N - gone, T, {}) && infos.Keys == old(infos).Keys - gone && gone <= N
      ensures Follows(old(infos), infos) && tried == old(tried) && idCount == old(idCount)
      ensures inserted ==> n in infos && news == old(news)[SourceSlot(h, old(infos)[n].addr, source) := n]
      ensures inserted ==>
        forall m :: m in gone <==> OnlyAt(old(State()), SourceSlot(h, old(infos)[n].addr, source), m)
      ensures !inserted ==> news == old(news) && gone == if old(infos)[n].refs == 0 then {n} else {}
      ensures !inserted ==> ids == if old(infos)[n].refs == 0 then old(ids) - {old(infos)[n].addr} else old(ids)
      ensures collisions == old(collisions) && lastGood == old(lastGood)
    {
      hide Sound, GoodHashing, NewSlot, Follows, KeptBut, IsTerrible, SlotsOf;
      ghost var before := State();
      gone := {};
      var s := SourceSlot(h, infos[n].addr, source);
      if s in news {
        NewEntryFacts(h, before, N, T, except, s);
      }
      inserted := s !in news;
      FollowsSelf(infos);
      assert N - gone == N;
      if Holds(news, s, n) {
        RefFacts(h, before, N, T, except, n);
        HeldHasRefs(news, s, n);
        return;
      }
      if !inserted {
        var holder := infos[news[s]];
        inserted := IsTerrible(holder, now) || (holder.refs > 1 && infos[n].refs == 0);
      }
      if inserted {
        gone := TakeSlot(s, n, source, N, T, except);
      } else if infos[n].refs == 0 {
        Delete(n, N, T, except);
        gone := {n};
        assert {n} - {n} == {};
      }
    }

    method TakeSlot(s: Slot, n: Id, ghost source: Host, ghost N: set<Id>, ghost T: set<Id>, ghost except: set<Id>)
      returns (ghost gone: set<Id>)
      requires GoodHashing(h) && Sound(h, State(), N, T, except) && n in infos && n in N && infos[n].refs < MAX_REFS
      requires except <= {n}
      requires s == SourceSlot(h, infos[n].addr, source) && !Holds(news, s, n)
      modifies this
      ensures Sound(h, State(), N - gone, T, {}) && infos.Keys == old(infos).Keys - gone && gone <= N && n in infos
      ensures Follows(old(infos), infos) && tried == old(tried) && idCount == old(idCount)
      ensures news == old(news)[s := n]
      ensures forall m :: m in gone <==> OnlyAt(old(State()), s, m)
      ensures collisions == old(collisions) && lastGood == old(lastGood)
    {
      hide Sound, GoodHashing, Follows, KeptBut, NewSlot, Slotted;
      ghost var before := State();
      ghost var bucket := h.newBucket(infos[n].addr, source);
      BucketFacts(h, infos[n].addr, source);
      gone := ClearNew(s, N, T, except);
      ghost var cleared := State();
      StillThere(before, cleared, s, n, gone);
      SlottedAt(h, cleared, N - gone, T, except, s, n, bucket);
      infos := infos[n := infos[n].(refs := infos[n].refs + 1)];
      news := news[s := n];
      SlottedIs(cleared, State(), s, n);
      FollowsTransitive(before.infos, cleared.infos, infos);
      SlotTaken(before.news, s, n);
    }

    // ---------- the parts of operations ----------

    method Create(addr: Addr, source: Host, time: int, ghost N: set<Id>, ghost T: set<Id>) returns (n: Id)
      requires Sound(h, State(), N, T, {}) && addr !in ids
      modifies this
      ensures n == old(idCount) && n !in old(infos) && n !in N + T
      ensures State() == Created(h, old(State()), Info(addr, source, time, 0, 0, 0, 0, 0, false, -1))
      ensures Sound(h, State(), N + {n}, T, {n})
      ensures lastGood == old(lastGood) && collisions == old(collisions)
    {
      hide Sound, Counted;
      ghost var before := State();
      ghost var info := Info(addr, source, time, 0, 0, 0, 0, 0, false, -1);
      n := idCount;
      idCount := idCount + 1;
      infos := infos[n := Info(addr, source, time, 0, 0, 0, 0, 0, false, |random|)];
      ids := ids[addr := n];
      random := random + [n];
      nNew := nNew + 1;
      counts := Counted(counts, h.network(addr), 1, 0);
      assert State() == Created(h, before, info);
      CreatedOk(h, before, N, T, info);
    }

    method SwapRandom(i: nat, j: nat, ghost N: set<Id>, ghost T: set<Id>, ghost except: set<Id>)
      requires Sound(h, State(), N, T, except) && i < |random| && j < |random|
      modifies this
      ensures old(random)[i] in old(infos) && old(random)[j] in old(infos)
      ensures State() == Swapped(old(State()), i, j)
      ensures Sound(h, State(), N, T, except)
      ensures lastGood == old(lastGood) && collisions == old(collisions)
    {
      hide Sound;
      ghost var before := State();
      SwappedOk(h, before, N, T, except, i, j);
      if i == j {
        SwappedSelf(h, before, N, T, except, i);
        return;
      }
      var a, b := random[i], random[j];
      infos := infos[a := infos[a].(place := j)];
      infos := infos[b := infos[b].(place := i)];
      random := random[i := b];
      random := random[j := a];
    }

    /** An id without references is forgotten. */
    method Delete(n: Id, ghost N: set<Id>, ghost T: set<Id>, ghost except: set<Id>)
      requires Sound(h, State(), N, T, except) && n in infos && n in N && infos[n].refs == 0
      modifies this
      ensures Sound(h, State(), N - {n}, T, except - {n})
      ensures infos.Keys == old(infos).Keys - {n} && ids == old(ids) - {old(infos)[n].addr}
      ensures Follows(old(infos), infos) && KeptBut(old(infos), infos, n)
      ensures tried == old(tried) && news == old(news) && idCount == old(idCount)
      ensures lastGood == old(lastGood) && collisions == old(collisions)
    {
      hide Sound, Counted, Follows, KeptBut, Swapped;
      ghost var before := State();
      EntryFacts(h, State(), N, T, except, n);
      SwapRandom(infos[n].place, |random| - 1, N, T, except);
      ghost var swapped := State();
      SwappedEntries(h, before, N, T, except, before.infos[n].place, |before.random| - 1, n);
      counts := Counted(counts, h.network(infos[n].addr), -1, 0);
      random := random[..|random| - 1];
      ids := ids - {infos[n].addr};
      infos := infos - {n};
      nNew := nNew - 1;
      DroppedOk(h, swapped, N, T, except, n);
      assert State() == Dropped(h, swapped, n);
      FewerEntries(before.infos, swapped.infos, n);
    }

    /** The slot of a new bucket is emptied, and its id forgotten if it is in no other. */
    method ClearNew(s: Slot, ghost N: set<Id>, ghost T: set<Id>, ghost except: set<Id>) returns (ghost gone: set<Id>)
      requires Sound(h, State(), N, T, except) && (s in news ==> news[s] !in except)
      modifies this
      ensures Sound(h, State(), N - gone, T, except)
      ensures news == old(news) - {s} && tried == old(tried) && idCount == old(idCount)
      ensures gone == if s in old(news) && old(news)[s] in old(infos) && old(infos)[old(news)[s]].refs == 1
                      then {old(news)[s]} else {}
      ensures infos.Keys == old(infos).Keys - gone && gone <= N
      ensures Follows(old(infos), infos)
      ensures if s in old(news) then KeptBut(old(infos), infos, old(news)[s]) else State() == old(State())
      ensures lastGood == old(lastGood) && collisions == old(collisions)
    {
      hide Sound, KeptBut, Follows;
      gone := {};
      ghost var before := State();
      if s in news {
        UnslottedOk(h, before, N, T, except, s);
        var n := news[s];
        infos := infos[n := infos[n].(refs := infos[n].refs - 1)];
        news := news - {s};
        assert State() == Unslotted(before, s);
        ghost var cleared := State();
        OneEntry(before.infos, n, infos[n]);
        if infos[n].refs == 0 {
          Delete(n, N, T, except + {n});
          gone := {n};
          assert except + {n} - {n} == except;
          FollowsTransitive(before.infos, cleared.infos, infos);
          KeptTwice(before.infos, cleared.infos, infos, n);
        } else {
          assert N - gone == N;
        }
      } else {
        FollowsSelf(infos);
        assert news == news - {s} && N - gone == N;
      }
    }

    /** A new id is taken out of every bucket: its references run out before the buckets do. */
    method RemoveFromNew(n: Id, ghost N: set<Id>, ghost T: set<Id>)
      requires GoodHashing(h) && Sound(h, State(), N, T, {}) && n in infos && n in N
      modifies this
      ensures Sound(h, State(), N, T, {n})
      ensures State() ==
        old(State()).(infos := old(infos)[n := old(infos)[n].(refs := 0)], news := old(news) - SlotsOf(old(news), n))
      ensures lastGood == old(lastGood) && collisions == old(collisions)
    {
      hide Sound, Pruned, GoodHashing, Pruning, NewSlot, Around;
      ghost var before := State();
      var info := infos[n];
      var start := h.newBucket(info.addr, info.source);
      BucketFacts(h, info.addr, info.source);
      var k := 0;
      StartPruning(h, before, N, T, n, start);
      while k < NEW_BUCKETS && infos[n].refs != 0
        invariant k <= NEW_BUCKETS && n in infos
        invariant Pruning(h, before, State(), N, T, n, start, k)
        invariant lastGood == old(lastGood) && collisions == old(collisions)
      {
        var s := NewSlot(h, info.addr, Around(start, k));
        ghost var here := State();
        PruneStep(h, before, here, N, T, n, start, k);
        if Holds(news, s, n) {
          infos := infos[n := infos[n].(refs := infos[n].refs - 1)];
          news := news - {s};
          assert State() == Unslotted(here, s);
        }
        k := k + 1;
      }
      NoneLeft(h, before, State(), N, T, n, start, k);
    }

    /** The tried id in the slot goes back to its own new bucket, to the place of what was there. */
    method MakeSpace(slot: Slot, ghost N: set<Id>, ghost T: set<Id>) returns (ghost N': set<Id>)
      requires GoodHashing(h) && Sound(h, State(), N, T, {}) && slot in tried
      modifies this
      ensures old(tried)[slot] in T && old(tried)[slot] in old(infos)
      ensures Sound(h, State(), N', T - {old(tried)[slot]}, {})
      ensures old(tried)[slot] in N' && N' - {old(tried)[slot]} <= N && infos.Keys == old(infos).Keys - (N - N')
      ensures Follows(old(infos), infos) && old(tried)[slot] in infos
      ensures tried == old(tried) - {slot} && idCount == old(idCount)
      ensures
        var e := old(infos)[old(tried)[slot]];
        news == old(news)[NewSlot(h, e.addr, h.newBucket(e.addr, e.source)) := old(tried)[slot]]
      ensures lastGood == old(lastGood) && collisions == old(collisions)
    {
      hide Sound, Counted, GoodHashing, Follows, KeptBut, NewSlot, LeaveTried;
      ghost var before := State();
      var evicted := tried[slot];
      LeaveTriedTable(slot, N, T);
      ghost var left := State();
      LeftTried(h, before, evicted);
      N' := BackToNew(evicted, N, T - {evicted});
      FollowsTransitive(before.infos, left.infos, infos);
    }

    method LeaveTriedTable(slot: Slot, ghost N: set<Id>, ghost T: set<Id>)
      requires Sound(h, State(), N, T, {}) && slot in tried
      modifies this
      ensures old(tried)[slot] in T && old(tried)[slot] in old(infos) && old(tried)[slot] !in N
      ensures State() == LeaveTried(h, old(State()), old(tried)[slot]) && tried == old(tried) - {slot}
      ensures Sound(h, State(), N, T - {old(tried)[slot]}, {})
      ensures lastGood == old(lastGood) && collisions == old(collisions)
    {
      hide Sound, Counted, TriedSlot;
      ghost var before := State();
      var evicted := tried[slot];
      TriedEntryFacts(h, before, N, T, {}, slot);
      infos := infos[evicted := infos[evicted].(inTried := false)];
      tried := tried - {slot};
      nTried := nTried - 1;
      counts := Counted(counts, h.network(infos[evicted].addr), 0, -1);
      assert State() == LeaveTried(h, before, evicted);
      LeaveTriedOk(h, before, N, T, {}, evicted);
    }

    /** An id that is in neither table enters the new bucket that its source leads to. */
    method BackToNew(e: Id, ghost N: set<Id>, ghost T: set<Id>) returns (ghost N': set<Id>)
      requires GoodHashing(h) && Sound(h, State(), N, T, {}) && e in infos && e !in N + T && !infos[e].inTried
      modifies this
      ensures Sound(h, State(), N', T, {})
      ensures e in N' && N' - {e} <= N && infos.Keys == old(infos).Keys - (N - N')
      ensures Follows(old(infos), infos) && e in infos
      ensures tried == old(tried) && idCount == old(idCount)
      ensures news ==
        old(news)[NewSlot(h, old(infos)[e].addr, h.newBucket(old(infos)[e].addr, old(infos)[e].source)) := e]
      ensures lastGood == old(lastGood) && collisions == old(collisions)
    {
      hide Sound, Counted, GoodHashing, Follows, KeptBut, NewSlot;
      ghost var before := State();
      var bucket := h.newBucket(infos[e].addr, infos[e].source);
      BucketFacts(h, infos[e].addr, infos[e].source);
      var s := NewSlot(h, infos[e].addr, bucket);
      ghost var gone := ClearNew(s, N, T, {});
      ghost var cleared := State();
      BackInNew(h, before, cleared, N, gone, T, e, s, bucket);
      infos := infos[e := infos[e].(refs := 1)];
      news := news[s := e];
      nNew := nNew + 1;
      counts := Counted(counts, h.network(infos[e].addr), 1, 0);
      N' := N - gone + {e};
      assert State() == Reentered(h, cleared, s, e);
      SpaceMade(before.infos.Keys, infos.Keys, N, N', gone, e);
    }

    /** A new id moves to its slot among the tried ones; the id that was there becomes new again. */
    method MakeTried(n: Id, ghost N: set<Id>, ghost T: set<Id>) returns (ghost N': set<Id>, ghost evicted: set<Id>)
      requires GoodHashing(h) && Sound(h, State(), N, T, {}) && n in infos && n in N
      modifies this
      ensures evicted == var slot := TriedSlot(h, old(infos)[n].addr);
                         if slot in old(tried) then {old(tried)[slot]} else {}
      ensures Sound(h, State(), N', T - evicted + {n}, {})
      ensures evicted <= T && evicted <= N' && N' - evicted <= N - {n}
      ensures infos.Keys == old(infos).Keys - (N - {n} - N')
      ensures Follows(old(infos), infos) && n in infos && idCount == old(idCount)
      ensures tried == old(tried)[TriedSlot(h, old(infos)[n].addr) := n]
      ensures news == NewsAfter(h, old(State()), n)
      ensures lastGood == old(lastGood) && collisions == old(collisions)
    {
      hide Sound, GoodHashing, Follows, NewSlot, TriedSlot, SlotsOf;
      ghost var before := State();
      NewOrTried(h, before, N, T, {});
      LeaveNewTable(n, N, T);
      ghost var left := State();
      N', evicted := MakeRoom(TriedSlot(h, infos[n].addr), n, N - {n}, T);
      FollowsTransitive(before.infos, left.infos, infos);
      FollowsAt(before.infos, infos, n);
      EnterTriedTable(n, N', T - evicted, before.infos);
      SlotFilled(before.tried, tried, TriedSlot(h, before.infos[n].addr), n);
    }

    method LeaveNewTable(n: Id, ghost N: set<Id>, ghost T: set<Id>)
      requires GoodHashing(h) && Sound(h, State(), N, T, {}) && n in infos && n in N
      modifies this
      ensures Sound(h, State(), N - {n}, T, {})
      ensures infos == old(infos)[n := old(infos)[n].(refs := 0)] && Follows(old(infos), infos)
      ensures news == old(news) - SlotsOf(old(news), n) && tried == old(tried) && idCount == old(idCount)
      ensures lastGood == old(lastGood) && collisions == old(collisions)
    {
      hide Sound, Counted, GoodHashing, Follows, SlotsOf;
      ghost var before := State();
      RemoveFromNew(n, N, T);
      ghost var removed := State();
      nNew := nNew - 1;
      counts := Counted(counts, h.network(infos[n].addr), -1, 0);
      LeaveNewOk(h, removed, N, T, {n}, n);
      assert State() == LeaveNew(h, removed, n) && {n} - {n} == {};
      OneEntry(before.infos, n, infos[n]);
    }

    /** The slot is empty afterwards. */
    method MakeRoom(slot: Slot, ghost n: Id, ghost N: set<Id>, ghost T: set<Id>)
      returns (ghost N': set<Id>, ghost evicted: set<Id>)
      requires GoodHashing(h) && Sound(h, State(), N, T, {}) && n in infos && n !in N + T
      modifies this
      ensures evicted == (if slot in old(tried) then {old(tried)[slot]} else {}) && evicted <= old(infos).Keys
      ensures Sound(h, State(), N', T - evicted, {})
      ensures evicted <= T && evicted <= N' && N' - evicted <= N
      ensures infos.Keys == old(infos).Keys - (N - N') && n in infos
      ensures Follows(old(infos), infos) && idCount == old(idCount)
      ensures tried == old(tried) - {slot}
      ensures news == if slot in old(tried)
                      then old(news)[HomeSlot(h, old(infos)[old(tried)[slot]]) := old(tried)[slot]]
                      else old(news)
      ensures lastGood == old(lastGood) && collisions == old(collisions)
    {
      hide Sound, GoodHashing, Follows, NewSlot;
      N' := N;
      evicted := {};
      if slot in tried {
        evicted := {tried[slot]};
        N' := MakeSpace(slot, N, T);
      } else {
        FollowsSelf(infos);
        assert T - evicted == T && tried - {slot} == tried;
      }
    }

    method EnterTriedTable(n: Id, ghost N: set<Id>, ghost T: set<Id>, ghost before: map<Id, Info>)
      requires Sound(h, State(), N, T, {}) && n in infos && n !in N + T && TriedSlot(h, infos[n].addr) !in tried
      requires Follows(before, infos)
      modifies this
      ensures Sound(h, State(), N, T + {n}, {})
      ensures infos == old(infos)[n := old(infos)[n].(inTried := true)] && Follows(before, infos)
      ensures tried == old(tried)[TriedSlot(h, old(infos)[n].addr) := n] && news == old(news) && idCount == old(idCount)
      ensures lastGood == old(lastGood) && collisions == old(collisions)
    {
      hide Sound, Counted, TriedSlot, Follows;
      ghost var left := State();
      tried := tried[TriedSlot(h, infos[n].addr) := n];
      nTried := nTried + 1;
      infos := infos[n := infos[n].(inTried := true)];
      counts := Counted(counts, h.network(infos[n].addr), 0, 1);
      EnterTriedOk(h, left, N, T, {}, n);
      assert State() == EnterTried(h, left, n);
      OneEntry(left.infos, n, infos[n]);
      FollowsTransitive(before, left.infos, infos);
    }
  }

  lemma ValidIsSettled(m: AddrMan)
    requires m.Valid()
    ensures Settled(m.h, m.State())
  {
  }

  lemma SlotFilled(before: map<Slot, Id>, after: map<Slot, Id>, slot: Slot, n: Id)
    requires after == (before - {slot})[slot := n]
    ensures after == before[slot := n]
  {
  }

  /** The new buckets once `n` left them and an evicted id came back to its own. */
  ghost function NewsAfter(h: Hashing, d: Tables, n: Id): map<Slot, Id>
    requires n in d.infos
  {
    var left := d.news - SlotsOf(d.news, n);
    var slot := TriedSlot(h, d.infos[n].addr);
    if slot in d.tried && d.tried[slot] in d.infos
    then left[HomeSlot(h, d.infos[d.tried[slot]]) := d.tried[slot]]
    else left
  }

  /** The slot in a new bucket that an address has by the one it was first heard of from. */
  function HomeSlot(h: Hashing, info: Info): Slot {
    NewSlot(h, info.addr, h.newBucket(info.addr, info.source))
  }

  lemma LeftTried(h: Hashing, d: Tables, e: Id)
    requires e in d.infos
    ensures LeaveTried(h, d, e).infos.Keys == d.infos.Keys && Follows(d.infos, LeaveTried(h, d, e).infos)
    ensures LeaveTried(h, d, e).infos[e] == d.infos[e].(inTried := false)
    ensures LeaveTried(h, d, e).news == d.news && LeaveTried(h, d, e).idCount == d.idCount
  {
  }

  lemma TriedEntryFacts(h: Hashing, d: Tables, N: set<Id>, T: set<Id>, except: set<Id>, s: Slot)
    requires Sound(h, d, N, T, except) && s in d.tried
    ensures d.tried[s] in d.infos && d.tried[s] in T && d.tried[s] !in N
    ensures s == TriedSlot(h, d.infos[d.tried[s]].addr)
    ensures d.infos[d.tried[s]].inTried
  {
    hide IndexOk, RefsOk, CountsOk;
    assert TriedEntryOk(h, Addrs(d.infos), T, d.tried, s);
  }

  lemma SpaceMade(before: set<Id>, after: set<Id>, N: set<Id>, N': set<Id>, gone: set<Id>, e: Id)
    requires gone <= N && N' == N - gone + {e} && after == before - gone && e !in N
    ensures N' - {e} <= N && after == before - (N - N')
  {
  }

  /** The id is entered among the new ones, in the slot. */
  ghost function Reentered(h: Hashing, d: Tables, s: Slot, e: Id): Tables
    requires e in d.infos
  {
    d.(infos := d.infos[e := d.infos[e].(refs := 1)], news := d.news[s := e], nNew := d.nNew + 1,
       counts := Counted(d.counts, h.network(d.infos[e].addr), 1, 0))
  }

  /** After the slot was cleared, an id that was in neither table can be entered there. */
  lemma BackInNew(h: Hashing, left: Tables, d: Tables, N: set<Id>, gone: set<Id>, T: set<Id>, e: Id, s: Slot,
      bucket: nat)
    requires e in left.infos && !left.infos[e].inTried && Follows(left.infos, d.infos)
    requires if s in left.news then KeptBut(left.infos, d.infos, left.news[s]) else d == left
    requires Sound(h, left, N, T, {})
    requires Sound(h, d, N - gone, T, {}) && e !in N + T && gone <= N && d.infos.Keys == left.infos.Keys - gone
    requires d.news == left.news - {s} && bucket < NEW_BUCKETS && s == NewSlot(h, left.infos[e].addr, bucket)
    ensures e in d.infos && SameEntry(left.infos[e], d.infos[e])
    ensures Sound(h, Reentered(h, d, s, e), N - gone + {e}, T, {})
    ensures Follows(left.infos, Reentered(h, d, s, e).infos) && Reentered(h, d, s, e).news == left.news[s := e]
  {
    hide Sound, Counted, NewSlot;
    if s in left.news {
      NewEntryFacts(h, left, N, T, {}, s);
    }
    assert e in d.infos && SameEntry(left.infos[e], d.infos[e]);
    BackInSlot(h, d, N - gone, T, e, s, bucket);
  }

  lemma BackInSlot(h: Hashing, d: Tables, N: set<Id>, T: set<Id>, e: Id, s: Slot, bucket: nat)
    requires Sound(h, d, N, T, {}) && e in d.infos && e !in N + T && !d.infos[e].inTried
    requires s !in d.news && bucket < NEW_BUCKETS && s == NewSlot(h, d.infos[e].addr, bucket)
    ensures Sound(h, Reentered(h, d, s, e), N + {e}, T, {})
  {
    hide Sound, Counted;
    NotNewNoRefsHere(h, d, N, T, {}, e);
    EnterNewOk(h, d, N, T, {}, e);
    SlottedOk(h, EnterNew(h, d, e), N + {e}, T, {} + {e}, s, e);
    assert {} + {e} - {e} == {};
    assert Reentered(h, d, s, e) == Slotted(EnterNew(h, d, e), s, e);
  }

  lemma NotNewNoRefsHere(h: Hashing, d: Tables, N: set<Id>, T: set<Id>, except: set<Id>, n: Id)
    requires Sound(h, d, N, T, except) && n in d.infos && n !in N
    ensures d.infos[n].refs == 0
  {
    hide IndexOk, TablesOk, RefsOk, CountsOk, FlagsOk;
    assert n in Refs(d.infos) && Refs(d.infos)[n] == d.infos[n].refs;
    NotNewNoRefs(h, Addrs(d.infos), Refs(d.infos), N, T, d.tried, d.news, except, n);
  }

  // ---------- out of every bucket ----------

  /** The bucket that many after `start`, going around. */
  function Around(start: nat, k: nat): nat {
    (start + k) % NEW_BUCKETS
  }

  predicate Holds(news: map<Slot, Id>, s: Slot, n: Id) {
    s in news && news[s] == n
  }

  /** Some of the slots of `n` were emptied, and no other. */
  ghost predicate Pruned(before: map<Slot, Id>, after: map<Slot, Id>, n: Id) {
    && (forall s :: s in after ==> s in before && before[s] == after[s])
    && (forall s :: s in before && before[s] != n ==> s in after)
  }

  /** The first `k` buckets after `start` do not hold `n`. */
  ghost predicate Passed(h: Hashing, news: map<Slot, Id>, a: Addr, n: Id, start: nat, k: nat) {
    forall j :: 0 <= j < k ==> !Holds(news, NewSlot(h, a, Around(start, j)), n)
  }

  /** Taking `n` out of buckets has come to the one that is `k` after `start`. */
  ghost predicate Pruning(h: Hashing, before: Tables, d: Tables, N: set<Id>, T: set<Id>, n: Id, start: nat, k: nat)
    requires n in before.infos && n in d.infos
  {
    && Sound(h, d, N, T, {n})
    && d == before.(infos := before.infos[n := before.infos[n].(refs := d.infos[n].refs)], news := d.news)
    && Pruned(before.news, d.news, n)
    && Passed(h, d.news, before.infos[n].addr, n, start, k)
  }

  lemma StartPruning(h: Hashing, d: Tables, N: set<Id>, T: set<Id>, n: Id, start: nat)
    requires Sound(h, d, N, T, {}) && n in d.infos
    ensures Pruning(h, d, d, N, T, n, start, 0)
  {
    MoreExceptions(h, d, N, T, n);
    PrunedSelf(d.news, n);
    assert d.infos[n := d.infos[n].(refs := d.infos[n].refs)] == d.infos;
  }

  lemma PruneStep(h: Hashing, before: Tables, d: Tables, N: set<Id>, T: set<Id>, n: Id, start: nat, k: nat)
    requires n in before.infos && n in d.infos && Pruning(h, before, d, N, T, n, start, k)
    ensures
      var s := NewSlot(h, before.infos[n].addr, Around(start, k));
      if Holds(d.news, s, n) then Pruning(h, before, Unslotted(d, s), N, T, n, start, k + 1)
      else Pruning(h, before, d, N, T, n, start, k + 1)
  {
    hide Sound, Pruned, NewSlot, Around;
    var s := NewSlot(h, before.infos[n].addr, Around(start, k));
    if Holds(d.news, s, n) {
      UnslottedOk(h, d, N, T, {n}, s);
      PrunedMore(before.news, d.news, n, s);
      assert {n} + {n} == {n};
      assert Unslotted(d, s).infos == before.infos[n := before.infos[n].(refs := d.infos[n].refs - 1)];
    }
  }

  lemma PrunedSelf(news: map<Slot, Id>, n: Id)
    ensures Pruned(news, news, n)
  {
  }

  lemma PrunedMore(before: map<Slot, Id>, news: map<Slot, Id>, n: Id, s: Slot)
    requires Pruned(before, news, n) && Holds(news, s, n)
    ensures Pruned(before, news - {s}, n)
  {
  }

  lemma PrunedAll(before: map<Slot, Id>, news: map<Slot, Id>, n: Id)
    requires Pruned(before, news, n) && SlotsOf(news, n) == {}
    ensures news == before - SlotsOf(before, n)
  {
    assert forall s :: s in news ==> s !in SlotsOf(news, n);
  }

  lemma BucketFacts(h: Hashing, a: Addr, source: Host)
    requires GoodHashing(h)
    ensures h.newBucket(a, source) < NEW_BUCKETS && h.triedBucket(a) < TRIED_BUCKETS
  {
  }

  lemma MoreExceptions(h: Hashing, d: Tables, N: set<Id>, T: set<Id>, n: Id)
    requires Sound(h, d, N, T, {})
    ensures Sound(h, d, N, T, {n})
  {
    hide IndexOk, TablesOk, CountsOk, FlagsOk;
  }

  /** Where all buckets were looked at, no slot is left. */
  lemma AllPassed(h: Hashing, d: Tables, N: set<Id>, T: set<Id>, n: Id, start: nat)
    requires Sound(h, d, N, T, {n}) && n in d.infos && start < NEW_BUCKETS
    requires Passed(h, d.news, d.infos[n].addr, n, start, NEW_BUCKETS)
    ensures SlotsOf(d.news, n) == {}
  {
    hide Sound, NewSlot;
    forall s | s in d.news
      ensures d.news[s] != n
    {
      NewEntryFacts(h, d, N, T, {n}, s);
      var j := if s.bucket >= start then s.bucket - start else s.bucket + NEW_BUCKETS - start;
      assert Around(start, j) == s.bucket;
      assert !Holds(d.news, NewSlot(h, d.infos[n].addr, Around(start, j)), n);
    }
  }

  lemma NoneLeft(h: Hashing, before: Tables, d: Tables, N: set<Id>, T: set<Id>, n: Id, start: nat, k: nat)
    requires n in before.infos && n in d.infos && Pruning(h, before, d, N, T, n, start, k) && start < NEW_BUCKETS
    requires k == NEW_BUCKETS || d.infos[n].refs == 0
    ensures d ==
      before.(infos := before.infos[n := before.infos[n].(refs := 0)], news := before.news - SlotsOf(before.news, n))
    ensures d.infos[n].refs == 0 && Sound(h, d, N, T, {n})
  {
    hide Passed, Pruned, Sound;
    if k == NEW_BUCKETS {
      AllPassed(h, d, N, T, n, start);
    }
    RefFacts(h, d, N, T, {n}, n);
    PrunedAll(before.news, d.news, n);
  }

  lemma RefFacts(h: Hashing, d: Tables, N: set<Id>, T: set<Id>, except: set<Id>, n: Id)
    requires Sound(h, d, N, T, except) && n in d.infos
    ensures d.infos[n].refs == |SlotsOf(d.news, n)|
    ensures n in N && n !in except ==> 1 <= d.infos[n].refs <= MAX_REFS
  {
    hide IndexOk, CountsOk, FlagsOk, TablesOk;
    assert n in Refs(d.infos) && Refs(d.infos)[n] == d.infos[n].refs;
  }

  lemma NewEntryFacts(h: Hashing, d: Tables, N: set<Id>, T: set<Id>, except: set<Id>, s: Slot)
    requires Sound(h, d, N, T, except) && s in d.news
    ensures d.news[s] in d.infos && d.news[s] in N && s.bucket < NEW_BUCKETS
    ensures s == NewSlot(h, d.infos[d.news[s]].addr, s.bucket)
  {
    hide IndexOk, RefsOk, CountsOk, FlagsOk;
    assert NewEntryOk(h, Addrs(d.infos), N, d.news, s);
  }

  lemma SwappedSelf(h: Hashing, d: Tables, N: set<Id>, T: set<Id>, except: set<Id>, i: nat)
    requires Sound(h, d, N, T, except) && i < |d.random| && d.random[i] in d.infos
    ensures Swapped(d, i, i) == d
  {
    hide TablesOk, RefsOk, CountsOk, FlagsOk;
    var n := d.random[i];
    assert n in Places(d.infos) && Places(d.infos)[n] == i;
    assert d.infos[n].(place := i) == d.infos[n];
  }

  lemma SwappedEntries(h: Hashing, d: Tables, N: set<Id>, T: set<Id>, except: set<Id>, i: nat, j: nat, n: Id)
    requires Sound(h, d, N, T, except)
    requires i < |d.random| && j < |d.random| && d.random[i] in d.infos && d.random[j] in d.infos
    requires n == d.random[i]
    ensures Swapped(d, i, j) == d.(infos := Swapped(d, i, j).infos, random := Swapped(d, i, j).random)
    ensures |Swapped(d, i, j).random| == |d.random|
    ensures Swapped(d, i, j).infos.Keys == d.infos.Keys
    ensures n in Swapped(d, i, j).infos && Swapped(d, i, j).infos[n] == d.infos[n].(place := j)
    ensures Follows(d.infos, Swapped(d, i, j).infos) && KeptBut(d.infos, Swapped(d, i, j).infos, n)
  {
    hide TablesOk, RefsOk, CountsOk, FlagsOk;
    var places := Places(d.infos);
    assert places[d.random[i]] == i && places[d.random[j]] == j;
    assert i != j ==> d.random[i] != d.random[j];
    hide Sound;
  }

  lemma FewerEntries(before: map<Id, Info>, after: map<Id, Info>, n: Id)
    requires Follows(before, after) && KeptBut(before, after, n)
    ensures Follows(before, after - {n}) && KeptBut(before, after - {n}, n)
  {
  }

  lemma OneEntry(before: map<Id, Info>, n: Id, info: Info)
    requires n in before && SameEntry(before[n], info)
    ensures Follows(before, before[n := info]) && KeptBut(before, before[n := info], n)
  {
  }

  lemma FollowsSelf(infos: map<Id, Info>)
    ensures Follows(infos, infos)
  {
  }

  lemma KeptTwice(a: map<Id, Info>, b: map<Id, Info>, c: map<Id, Info>, n: Id)
    requires Follows(b, c) && KeptBut(a, b, n) && KeptBut(b, c, n)
    ensures KeptBut(a, c, n)
  {
  }
}
