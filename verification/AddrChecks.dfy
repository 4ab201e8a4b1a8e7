/** The address manager's own check of its tables, which returns the number of the first fault it finds. */
module AddrChecks {
  import opened FiniteSets
  import opened AddrTables
  import opened AddrManagers

  // ---------- what is checked ----------

  /** The tables have no slot outside of their buckets. */
  ghost predicate InBuckets(d: Tables) {
    && (forall s :: s in d.tried ==> s.bucket < TRIED_BUCKETS && s.pos < BUCKET_SIZE)
    && (forall s :: s in d.news ==> s.bucket < NEW_BUCKETS && s.pos < BUCKET_SIZE)
  }

  predicate CountRight(info: Info) {
    if info.inTried then info.lastSuccess != 0 && info.refs == 0 else 1 <= info.refs <= MAX_REFS
  }

  predicate IndexRight(d: Tables, n: Id, info: Info) {
    && info.addr in d.ids && d.ids[info.addr] == n
    && 0 <= info.place < |d.random| && d.random[info.place] == n
  }

  predicate EntryRight(d: Tables, n: Id, info: Info) {
    CountRight(info) && IndexRight(d, n, info) && info.lastTry >= 0 && info.lastSuccess >= 0
  }

  ghost predicate TriedRight(h: Hashing, d: Tables) {
    && (forall s :: s in d.tried ==> TriedSlotRight(h, d, s))
    && (forall n :: n in TriedIds(d.infos) ==> Holds(d.tried, TriedSlot(h, d.infos[n].addr), n))
  }

  predicate TriedSlotRight(h: Hashing, d: Tables, s: Slot)
    requires s in d.tried
  {
    d.tried[s] in d.infos && d.infos[d.tried[s]].inTried && s == TriedSlot(h, d.infos[d.tried[s]].addr)
  }

  ghost predicate NewsRight(h: Hashing, d: Tables) {
    && (forall s :: s in d.news ==> NewSlotRight(h, d, s))
    && (forall n :: n in NewIds(d.infos) ==> d.infos[n].refs == |SlotsOf(d.news, n)|)
  }

  predicate NewSlotRight(h: Hashing, d: Tables, s: Slot)
    requires s in d.news
  {
    d.news[s] in d.infos && !d.infos[d.news[s]].inTried && s == NewSlot(h, d.infos[d.news[s]].addr, s.bucket)
  }

  /** The networks of these ids. */
  ghost function Nets(h: Hashing, A: map<Id, Addr>, S: set<Id>): set<Net> {
    set n | n in S && n in A :: h.network(A[n])
  }

  /** The counts that are kept per network are right, and there are enough of them. */
  ghost predicate CountsRight(h: Hashing, d: Tables) {
    && |d.counts.Keys| >= |Nets(h, Addrs(d.infos), d.infos.Keys)|
    && (forall net :: net in d.counts ==> NetOk(h, Addrs(d.infos), NewIds(d.infos), TriedIds(d.infos), d.counts, net))
  }

  ghost predicate Consistent(h: Hashing, d: Tables) {
    && |d.random| == d.nTried + d.nNew
    && (forall n :: n in d.infos ==> EntryRight(d, n, d.infos[n]))
    && d.nTried == |TriedIds(d.infos)| && d.nNew == |NewIds(d.infos)|
    && TriedRight(h, d) && NewsRight(h, d) && CountsRight(h, d)
  }

  // ---------- every entry ----------

  method CheckEntry(d: Tables, n: Id, info: Info) returns (err: int)
    ensures err == 0 <==> EntryRight(d, n, info)
  {
    if info.inTried {
      if info.lastSuccess == 0 {
        return -1;
      }
      if info.refs != 0 {
        return -2;
      }
    } else {
      if info.refs < 0 || info.refs > MAX_REFS {
        return -3;
      }
      if info.refs == 0 {
        return -4;
      }
    }
    if info.addr !in d.ids || d.ids[info.addr] != n {
      return -5;
    }
    if info.place < 0 || info.place >= |d.random| || d.random[info.place] != n {
      return -14;
    }
    if info.lastTry < 0 {
      return -6;
    }
    if info.lastSuccess < 0 {
      return -8;
    }
    return 0;
  }

  /** The tried ids, the references of the new ones, and the counts by network, of the ids seen so far. */
  ghost predicate Gathered(h: Hashing, d: Tables, seen: set<Id>, setTried: set<Id>, mapNew: map<Id, int>,
      local: map<Net, Count>) {
    && setTried == TriedIds(d.infos) * seen
    && mapNew == (map n | n in NewIds(d.infos) * seen :: d.infos[n].refs)
    && local.Keys == Nets(h, Addrs(d.infos), seen)
    && forall net :: NetOk(h, Addrs(d.infos), NewIds(d.infos) * seen, TriedIds(d.infos) * seen, local, net)
  }

  lemma GatheredNone(h: Hashing, d: Tables)
    ensures Gathered(h, d, {}, {}, map[], map[])
  {
    var A := Addrs(d.infos);
    assert NewIds(d.infos) * {} == {} && TriedIds(d.infos) * {} == {};
    assert Nets(h, A, {}) == {};
    forall net
      ensures NetOk(h, A, {}, {}, map[], net)
    {
      assert InNet(h, A, {}, net) == {};
    }
  }

  lemma NetsMore(h: Hashing, A: map<Id, Addr>, seen: set<Id>, n: Id)
    requires n in A
    ensures Nets(h, A, seen + {n}) == Nets(h, A, seen) + {h.network(A[n])}
  {
    assert n in seen + {n};
  }

  lemma GatherTried(h: Hashing, d: Tables, seen: set<Id>, setTried: set<Id>, mapNew: map<Id, int>,
      local: map<Net, Count>, n: Id)
    requires Gathered(h, d, seen, setTried, mapNew, local) && n in d.infos && d.infos[n].inTried && n !in seen
    ensures Gathered(h, d, seen + {n}, setTried + {n}, mapNew, Counted(local, h.network(d.infos[n].addr), 0, 1))
  {
    hide NetOk, Nets;
    var A, N, T := Addrs(d.infos), NewIds(d.infos), TriedIds(d.infos);
    var local' := Counted(local, h.network(d.infos[n].addr), 0, 1);
    NetsMore(h, A, seen, n);
    assert N * (seen + {n}) == N * seen && T * (seen + {n}) == T * seen + {n};
    forall net
      ensures NetOk(h, A, N * seen, T * seen + {n}, local', net)
    {
      assert NetOk(h, A, N * seen, T * seen, local, net);
      OneMoreTried(h, A, N * seen, T * seen, local, n, net);
    }
  }

  lemma OneMoreTried(h: Hashing, A: map<Id, Addr>, N: set<Id>, T: set<Id>, counts: map<Net, Count>, n: Id, net: Net)
    requires NetOk(h, A, N, T, counts, net) && n in A && n !in T
    ensures NetOk(h, A, N, T + {n}, Counted(counts, h.network(A[n]), 0, 1), net)
  {
    InNetAdd(h, A, T, n, net);
  }

  lemma OneMoreNew(h: Hashing, A: map<Id, Addr>, N: set<Id>, T: set<Id>, counts: map<Net, Count>, n: Id, net: Net)
    requires NetOk(h, A, N, T, counts, net) && n in A && n !in N
    ensures NetOk(h, A, N + {n}, T, Counted(counts, h.network(A[n]), 1, 0), net)
  {
    InNetAdd(h, A, N, n, net);
  }

  lemma GatherNew(h: Hashing, d: Tables, seen: set<Id>, setTried: set<Id>, mapNew: map<Id, int>,
      local: map<Net, Count>, n: Id)
    requires Gathered(h, d, seen, setTried, mapNew, local) && n in d.infos && !d.infos[n].inTried && n !in seen
    ensures Gathered(h, d, seen + {n}, setTried, mapNew[n := d.infos[n].refs],
                     Counted(local, h.network(d.infos[n].addr), 1, 0))
  {
    hide NetOk, Nets;
    var A, N, T := Addrs(d.infos), NewIds(d.infos), TriedIds(d.infos);
    var local' := Counted(local, h.network(d.infos[n].addr), 1, 0);
    NetsMore(h, A, seen, n);
    assert N * (seen + {n}) == N * seen + {n} && T * (seen + {n}) == T * seen;
    forall net
      ensures NetOk(h, A, N * seen + {n}, T * seen, local', net)
    {
      assert NetOk(h, A, N * seen, T * seen, local, net);
      OneMoreNew(h, A, N * seen, T * seen, local, n, net);
    }
  }

  method CheckEntries(h: Hashing, d: Tables)
    returns (err: int, setTried: set<Id>, mapNew: map<Id, int>, local: map<Net, Count>)
    ensures err == 0 <==> forall n :: n in d.infos ==> EntryRight(d, n, d.infos[n])
    ensures err == 0 ==> Gathered(h, d, d.infos.Keys, setTried, mapNew, local)
  {
    hide EntryRight, Gathered, Counted;
    err, setTried, mapNew, local := 0, {}, map[], map[];
    var todo := d.infos.Keys;
    GatheredNone(h, d);
    assert d.infos.Keys - todo == {};
    while todo != {}
      invariant todo <= d.infos.Keys
      invariant forall n :: n in d.infos.Keys - todo ==> EntryRight(d, n, d.infos[n])
      invariant Gathered(h, d, d.infos.Keys - todo, setTried, mapNew, local)
      decreases |todo|
    {
      var n :| n in todo;
      var info := d.infos[n];
      var fault := CheckEntry(d, n, info);
      if fault != 0 {
        return fault, setTried, mapNew, local;
      }
      OneMoreDone(d.infos.Keys, todo, n);
      if info.inTried {
        GatherTried(h, d, d.infos.Keys - todo, setTried, mapNew, local, n);
        setTried := setTried + {n};
        local := Counted(local, h.network(info.addr), 0, 1);
      } else {
        GatherNew(h, d, d.infos.Keys - todo, setTried, mapNew, local, n);
        mapNew := mapNew[n := info.refs];
        local := Counted(local, h.network(info.addr), 1, 0);
      }
      todo := todo - {n};
    }
    assert d.infos.Keys - todo == d.infos.Keys;
  }

  // ---------- every tried slot ----------

  /** The slot comes before position `p` of bucket `b`. */
  ghost predicate Before(s: Slot, b: nat, p: nat) {
    s.bucket < b || (s.bucket == b && s.pos < p)
  }

  /** The tried ids that were not yet met in their slots. */
  ghost function Unmet(h: Hashing, d: Tables, b: nat, p: nat): set<Id> {
    set n | n in TriedIds(d.infos) && !Met(h, d, n, b, p)
  }

  ghost predicate Met(h: Hashing, d: Tables, n: Id, b: nat, p: nat)
    requires n in d.infos
  {
    Holds(d.tried, TriedSlot(h, d.infos[n].addr), n) && Before(TriedSlot(h, d.infos[n].addr), b, p)
  }

  ghost predicate TriedSoFar(h: Hashing, d: Tables, b: nat, p: nat, setTried: set<Id>) {
    && setTried == Unmet(h, d, b, p)
    && (forall s :: s in d.tried && Before(s, b, p) ==> TriedSlotRight(h, d, s))
  }

  lemma TriedStart(h: Hashing, d: Tables)
    ensures TriedSoFar(h, d, 0, 0, TriedIds(d.infos))
  {
    assert Unmet(h, d, 0, 0) == TriedIds(d.infos);
  }

  /** An id that is met in a slot that is not its own, or again, shows a fault. */
  lemma TriedFault(h: Hashing, d: Tables, b: nat, p: nat, setTried: set<Id>)
    requires TriedSoFar(h, d, b, p, setTried) && Slot(b, p) in d.tried && d.tried[Slot(b, p)] !in setTried
    ensures !TriedSlotRight(h, d, Slot(b, p))
  {
    var n := d.tried[Slot(b, p)];
    assert n in TriedIds(d.infos) ==> Met(h, d, n, b, p);
  }

  lemma TriedStep(h: Hashing, d: Tables, b: nat, p: nat, setTried: set<Id>)
    requires TriedSoFar(h, d, b, p, setTried)
    requires Slot(b, p) in d.tried ==> TriedSlotRight(h, d, Slot(b, p))
    ensures TriedSoFar(h, d, b, p + 1, if Slot(b, p) in d.tried then setTried - {d.tried[Slot(b, p)]} else setTried)
  {
    hide TriedSlotRight, TriedSlot;
    var s := Slot(b, p);
    var setTried' := if s in d.tried then setTried - {d.tried[s]} else setTried;
    forall q | q in d.tried && Before(q, b, p + 1)
      ensures TriedSlotRight(h, d, q)
    {
      assert q == s || Before(q, b, p);
    }
    forall n | n in TriedIds(d.infos)
      ensures n in setTried' <==> n in Unmet(h, d, b, p + 1)
    {
      MetStep(h, d, n, b, p);
    }
    assert setTried' == Unmet(h, d, b, p + 1);
  }

  lemma MetStep(h: Hashing, d: Tables, n: Id, b: nat, p: nat)
    requires n in d.infos && (Slot(b, p) in d.tried ==> TriedSlotRight(h, d, Slot(b, p)))
    ensures Met(h, d, n, b, p + 1) <==> Met(h, d, n, b, p) || Holds(d.tried, Slot(b, p), n)
  {
    var s := TriedSlot(h, d.infos[n].addr);
    assert Before(s, b, p + 1) <==> Before(s, b, p) || s == Slot(b, p);
  }

  lemma TriedNextBucket(h: Hashing, d: Tables, b: nat, setTried: set<Id>)
    requires TriedSoFar(h, d, b, BUCKET_SIZE, setTried) && InBuckets(d) && GoodHashing(h)
    ensures TriedSoFar(h, d, b + 1, 0, setTried)
  {
    forall n | n in TriedIds(d.infos)
      ensures Met(h, d, n, b, BUCKET_SIZE) <==> Met(h, d, n, b + 1, 0)
    {
      assert TriedSlot(h, d.infos[n].addr).pos < BUCKET_SIZE;
    }
    assert Unmet(h, d, b, BUCKET_SIZE) == Unmet(h, d, b + 1, 0);
  }

  lemma TriedEnd(h: Hashing, d: Tables, setTried: set<Id>)
    requires TriedSoFar(h, d, TRIED_BUCKETS, 0, setTried) && InBuckets(d) && GoodHashing(h)
    ensures setTried == {} <==> TriedRight(h, d)
  {
    assert forall n :: n in TriedIds(d.infos) ==>
      (Met(h, d, n, TRIED_BUCKETS, 0) <==> Holds(d.tried, TriedSlot(h, d.infos[n].addr), n));
    assert forall n :: n in setTried <==> n in TriedIds(d.infos) && !Met(h, d, n, TRIED_BUCKETS, 0);
  }

  lemma TriedWrong(h: Hashing, d: Tables, s: Slot)
    requires s in d.tried && !TriedSlotRight(h, d, s)
    ensures !TriedRight(h, d)
  {
  }

  method CheckTriedTable(h: Hashing, d: Tables, all: set<Id>) returns (err: int, setTried: set<Id>)
    requires InBuckets(d) && GoodHashing(h) && all == TriedIds(d.infos)
    ensures err == 0 && setTried == {} <==> TriedRight(h, d)
  {
    hide TriedSoFar, GoodHashing, InBuckets, TriedRight, TriedIds;
    err, setTried := 0, all;
    TriedStart(h, d);
    var b := 0;
    while b < TRIED_BUCKETS
      invariant b <= TRIED_BUCKETS && TriedSoFar(h, d, b, 0, setTried)
    {
      var p := 0;
      while p < BUCKET_SIZE
        invariant p <= BUCKET_SIZE && TriedSoFar(h, d, b, p, setTried)
      {
        var s := Slot(b, p);
        if s in d.tried {
          var n := d.tried[s];
          if n !in setTried {
            TriedFault(h, d, b, p, setTried);
            TriedWrong(h, d, s);
            return -11, setTried;
          }
          if n !in d.infos || h.triedBucket(d.infos[n].addr) != b {
            TriedWrong(h, d, s);
            return -17, setTried;
          }
          if h.position(d.infos[n].addr, false, b) != p {
            TriedWrong(h, d, s);
            return -18, setTried;
          }
          UnmetIsTried(h, d, b, p, setTried, n);
          TriedStep(h, d, b, p, setTried);
          setTried := setTried - {n};
        } else {
          TriedStep(h, d, b, p, setTried);
        }
        p := p + 1;
      }
      TriedNextBucket(h, d, b, setTried);
      b := b + 1;
    }
    TriedEnd(h, d, setTried);
  }

  lemma UnmetIsTried(h: Hashing, d: Tables, b: nat, p: nat, setTried: set<Id>, n: Id)
    requires TriedSoFar(h, d, b, p, setTried) && n in setTried
    ensures n in d.infos && d.infos[n].inTried
  {
  }

  // ---------- every new slot ----------

  /** The slots of `n` that come before position `p` of bucket `b`. */
  ghost function Seen(d: Tables, n: Id, b: nat, p: nat): set<Slot> {
    set s | s in SlotsOf(d.news, n) && Before(s, b, p)
  }

  /** The new ids of which slots are still to be met, and how many. */
  ghost function Remaining(d: Tables, b: nat, p: nat): map<Id, int> {
    map n | n in NewIds(d.infos) && d.infos[n].refs > |Seen(d, n, b, p)| :: d.infos[n].refs - |Seen(d, n, b, p)|
  }

  ghost predicate NewsSoFar(h: Hashing, d: Tables, b: nat, p: nat, mapNew: map<Id, int>) {
    && mapNew == Remaining(d, b, p)
    && (forall n :: n in NewIds(d.infos) ==> |Seen(d, n, b, p)| <= d.infos[n].refs)
    && (forall s :: s in d.news && Before(s, b, p) ==> NewSlotRight(h, d, s))
  }

  lemma NewsStart(h: Hashing, d: Tables, mapNew: map<Id, int>)
    requires forall n :: n in d.infos ==> EntryRight(d, n, d.infos[n])
    requires mapNew == map n | n in NewIds(d.infos) :: d.infos[n].refs
    ensures NewsSoFar(h, d, 0, 0, mapNew)
  {
    forall n
      ensures Seen(d, n, 0, 0) == {}
    {
    }
    assert mapNew == Remaining(d, 0, 0);
  }

  lemma SeenStep(d: Tables, n: Id, b: nat, p: nat)
    ensures |Seen(d, n, b, p + 1)| == |Seen(d, n, b, p)| + if Holds(d.news, Slot(b, p), n) then 1 else 0
  {
    assert forall s :: Before(s, b, p + 1) <==> Before(s, b, p) || s == Slot(b, p);
    if Holds(d.news, Slot(b, p), n) {
      assert Seen(d, n, b, p + 1) == Seen(d, n, b, p) + {Slot(b, p)};
    } else {
      assert Seen(d, n, b, p + 1) == Seen(d, n, b, p);
    }
  }

  lemma SeenSome(d: Tables, n: Id, b: nat, p: nat)
    ensures |Seen(d, n, b, p)| <= |SlotsOf(d.news, n)|
  {
    FewerOrEqual(Seen(d, n, b, p), SlotsOf(d.news, n));
  }

  /** An id that is not new, or met more often than it has references, shows a fault. */
  lemma NewsFault(h: Hashing, d: Tables, b: nat, p: nat, mapNew: map<Id, int>)
    requires NewsSoFar(h, d, b, p, mapNew) && Slot(b, p) in d.news && d.news[Slot(b, p)] !in mapNew
    ensures !NewsRight(h, d)
  {
    var n := d.news[Slot(b, p)];
    SeenStep(d, n, b, p);
    SeenSome(d, n, b, p + 1);
    assert NewSlotRight(h, d, Slot(b, p)) ==> n in NewIds(d.infos);
  }

  lemma NewsWrong(h: Hashing, d: Tables, s: Slot)
    requires s in d.news && !NewSlotRight(h, d, s)
    ensures !NewsRight(h, d)
  {
  }

  lemma NewsStep(h: Hashing, d: Tables, b: nat, p: nat, mapNew: map<Id, int>)
    requires NewsSoFar(h, d, b, p, mapNew)
    requires Slot(b, p) in d.news ==> NewSlotRight(h, d, Slot(b, p)) && d.news[Slot(b, p)] in mapNew
    ensures NewsSoFar(h, d, b, p + 1, if Slot(b, p) in d.news then OneFewer(mapNew, d.news[Slot(b, p)]) else mapNew)
  {
    hide NewSlotRight, Seen, NewIds;
    var s := Slot(b, p);
    var mapNew' := if s in d.news then OneFewer(mapNew, d.news[s]) else mapNew;
    KindsOf(d.infos);
    forall q | q in d.news && Before(q, b, p + 1)
      ensures NewSlotRight(h, d, q)
    {
      assert q == s || Before(q, b, p);
    }
    forall n | n in NewIds(d.infos)
      ensures |Seen(d, n, b, p + 1)| <= d.infos[n].refs
      ensures n in mapNew' <==> d.infos[n].refs > |Seen(d, n, b, p + 1)|
      ensures n in mapNew' ==> mapNew'[n] == d.infos[n].refs - |Seen(d, n, b, p + 1)|
    {
      SeenStep(d, n, b, p);
    }
    RemainingIs(d, b, p + 1, mapNew');
  }

  lemma RemainingIs(d: Tables, b: nat, p: nat, mapNew: map<Id, int>)
    requires mapNew.Keys <= NewIds(d.infos)
    requires forall n :: n in NewIds(d.infos) ==> (n in mapNew <==> d.infos[n].refs > |Seen(d, n, b, p)|)
    requires forall n :: n in mapNew ==> mapNew[n] == d.infos[n].refs - |Seen(d, n, b, p)|
    ensures mapNew == Remaining(d, b, p)
  {
    hide Seen;
  }

  /** One reference fewer is to be met, and the id is done when none is. */
  function OneFewer(mapNew: map<Id, int>, n: Id): map<Id, int>
    requires n in mapNew
  {
    if mapNew[n] - 1 == 0 then mapNew - {n} else mapNew[n := mapNew[n] - 1]
  }

  lemma NewsNextBucket(h: Hashing, d: Tables, b: nat, mapNew: map<Id, int>)
    requires NewsSoFar(h, d, b, BUCKET_SIZE, mapNew) && InBuckets(d)
    ensures NewsSoFar(h, d, b + 1, 0, mapNew)
  {
    forall n
      ensures Seen(d, n, b, BUCKET_SIZE) == Seen(d, n, b + 1, 0)
    {
    }
    assert Remaining(d, b, BUCKET_SIZE) == Remaining(d, b + 1, 0);
  }

  lemma NewsEnd(h: Hashing, d: Tables, mapNew: map<Id, int>)
    requires NewsSoFar(h, d, NEW_BUCKETS, 0, mapNew) && InBuckets(d)
    ensures mapNew == map[] <==> NewsRight(h, d)
  {
    forall n
      ensures Seen(d, n, NEW_BUCKETS, 0) == SlotsOf(d.news, n)
    {
    }
    assert forall n :: n in mapNew <==> n in NewIds(d.infos) && d.infos[n].refs > |Seen(d, n, NEW_BUCKETS, 0)|;
    assert mapNew == map[] <==> forall n :: n !in mapNew;
  }

  method CheckNewTable(h: Hashing, d: Tables, all: map<Id, int>) returns (err: int, mapNew: map<Id, int>)
    requires InBuckets(d) && (forall n :: n in d.infos ==> EntryRight(d, n, d.infos[n]))
    requires all == map n | n in NewIds(d.infos) :: d.infos[n].refs
    ensures err == 0 && mapNew == map[] <==> NewsRight(h, d)
  {
    hide NewsSoFar, InBuckets, NewsRight, NewIds, EntryRight;
    err, mapNew := 0, all;
    NewsStart(h, d, all);
    var b := 0;
    while b < NEW_BUCKETS
      invariant b <= NEW_BUCKETS && NewsSoFar(h, d, b, 0, mapNew)
    {
      var p := 0;
      while p < BUCKET_SIZE
        invariant p <= BUCKET_SIZE && NewsSoFar(h, d, b, p, mapNew)
      {
        var s := Slot(b, p);
        if s in d.news {
          var n := d.news[s];
          if n !in mapNew {
            NewsFault(h, d, b, p, mapNew);
            return -12, mapNew;
          }
          if n !in d.infos || h.position(d.infos[n].addr, true, b) != p {
            NewsWrong(h, d, s);
            return -19, mapNew;
          }
          RemainingIsNew(h, d, b, p, mapNew, n);
          NewsStep(h, d, b, p, mapNew);
          mapNew := OneFewer(mapNew, n);
        } else {
          NewsStep(h, d, b, p, mapNew);
        }
        p := p + 1;
      }
      NewsNextBucket(h, d, b, mapNew);
      b := b + 1;
    }
    NewsEnd(h, d, mapNew);
  }

  lemma RemainingIsNew(h: Hashing, d: Tables, b: nat, p: nat, mapNew: map<Id, int>, n: Id)
    requires NewsSoFar(h, d, b, p, mapNew) && n in mapNew
    ensures n in d.infos && !d.infos[n].inTried
  {
  }

  // ---------- the counts of networks ----------

  method CheckCounts(h: Hashing, d: Tables, local: map<Net, Count>) returns (err: int)
    requires local.Keys == Nets(h, Addrs(d.infos), d.infos.Keys)
    requires forall net :: NetOk(h, Addrs(d.infos), NewIds(d.infos), TriedIds(d.infos), local, net)
    ensures err == 0 <==> CountsRight(h, d)
  {
    hide Nets, NewIds, TriedIds, Addrs;
    ghost var A, N, T := Addrs(d.infos), NewIds(d.infos), TriedIds(d.infos);
    if |d.counts.Keys| < |local.Keys| {
      return -20;
    }
    var todo := d.counts.Keys;
    while todo != {}
      invariant todo <= d.counts.Keys
      invariant forall net :: net in d.counts && net !in todo ==> NetOk(h, A, N, T, d.counts, net)
      decreases |todo|
    {
      var net :| net in todo;
      assert NetOk(h, A, N, T, local, net);
      if CountOf(local, net) != d.counts[net] {
        assert !NetOk(h, A, N, T, d.counts, net);
        return -21;
      }
      todo := todo - {net};
    }
    return 0;
  }

  /** The check finds no fault exactly where the tables are consistent. */
  method CheckAddrman(h: Hashing, d: Tables, keyIsNull: bool) returns (err: int)
    requires InBuckets(d) && GoodHashing(h)
    ensures err == 0 <==> Consistent(h, d) && !keyIsNull
  {
    hide InBuckets, GoodHashing, TriedRight, NewsRight, CountsRight, EntryRight, NewIds, TriedIds, Gathered;
    if |d.random| != d.nTried + d.nNew {
      return -7;
    }
    var fault, setTried, mapNew, local := CheckEntries(h, d);
    if fault != 0 {
      return fault;
    }
    GatheredAll(h, d, setTried, mapNew, local);
    if |setTried| != d.nTried {
      return -9;
    }
    if |mapNew.Keys| != d.nNew {
      return -10;
    }
    var restTried, restNew;
    fault, restTried := CheckTriedTable(h, d, setTried);
    if fault != 0 {
      return fault;
    }
    fault, restNew := CheckNewTable(h, d, mapNew);
    if fault != 0 {
      return fault;
    }
    if restTried != {} {
      return -13;
    }
    if restNew != map[] {
      return -15;
    }
    if keyIsNull {
      return -16;
    }
    err := CheckCounts(h, d, local);
  }

  lemma GatheredAll(h: Hashing, d: Tables, setTried: set<Id>, mapNew: map<Id, int>, local: map<Net, Count>)
    requires Gathered(h, d, d.infos.Keys, setTried, mapNew, local)
    ensures setTried == TriedIds(d.infos) && mapNew == (map n | n in NewIds(d.infos) :: d.infos[n].refs)
    ensures mapNew.Keys == NewIds(d.infos)
    ensures local.Keys == Nets(h, Addrs(d.infos), d.infos.Keys)
    ensures forall net :: NetOk(h, Addrs(d.infos), NewIds(d.infos), TriedIds(d.infos), local, net)
  {
    hide Nets, NetOk;
    assert NewIds(d.infos) * d.infos.Keys == NewIds(d.infos) && TriedIds(d.infos) * d.infos.Keys == TriedIds(d.infos);
  }

  // ---------- the tables that operations leave behind ----------

  /** Tables that operations left behind are consistent. */
  lemma SoundIsConsistent(h: Hashing, d: Tables)
    requires GoodHashing(h) && Sound(h, d, NewIds(d.infos), TriedIds(d.infos), {}) && TimesOk(d.infos)
    ensures InBuckets(d) && Consistent(h, d)
  {
    hide GoodHashing, Sound, NewIds, TriedIds, TimesOk, InBuckets, TriedRight, NewsRight, CountsRight, EntryRight;
    forall n | n in d.infos
      ensures EntryRight(d, n, d.infos[n])
    {
      EntryIsRight(h, d, n);
    }
    SlotsAreRight(h, d);
    TotalsAreRight(h, d);
  }

  lemma EntryIsRight(h: Hashing, d: Tables, n: Id)
    requires Sound(h, d, NewIds(d.infos), TriedIds(d.infos), {}) && TimesOk(d.infos) && n in d.infos
    ensures EntryRight(d, n, d.infos[n])
  {
    hide Sound;
    EntryFacts(h, d, NewIds(d.infos), TriedIds(d.infos), {}, n);
    if d.infos[n].inTried {
      NotNewNoRefsHere(h, d, NewIds(d.infos), TriedIds(d.infos), {}, n);
    } else {
      NewIsReferenced(h, d, n);
    }
    assert TimeOk(d.infos[n]);
  }

  lemma SlotsAreRight(h: Hashing, d: Tables)
    requires GoodHashing(h) && Sound(h, d, NewIds(d.infos), TriedIds(d.infos), {})
    ensures InBuckets(d) && TriedRight(h, d) && NewsRight(h, d)
  {
    hide Sound;
    var N, T := NewIds(d.infos), TriedIds(d.infos);
    forall s | s in d.tried
      ensures TriedSlotRight(h, d, s) && s.bucket < TRIED_BUCKETS && s.pos < BUCKET_SIZE
    {
      TriedEntryFacts(h, d, N, T, {}, s);
    }
    forall n | n in T
      ensures Holds(d.tried, TriedSlot(h, d.infos[n].addr), n)
    {
      TriedAtSlot(h, d, N, T, {}, n);
    }
    forall s | s in d.news
      ensures NewSlotRight(h, d, s) && s.bucket < NEW_BUCKETS && s.pos < BUCKET_SIZE
    {
      NewEntryFacts(h, d, N, T, {}, s);
    }
    forall n | n in N
      ensures d.infos[n].refs == |SlotsOf(d.news, n)|
    {
      RefFacts(h, d, N, T, {}, n);
    }
  }

  lemma TotalsAreRight(h: Hashing, d: Tables)
    requires Sound(h, d, NewIds(d.infos), TriedIds(d.infos), {})
    ensures |d.random| == d.nTried + d.nNew && d.nTried == |TriedIds(d.infos)| && d.nNew == |NewIds(d.infos)|
    ensures CountsRight(h, d)
  {
    hide IndexOk, TablesOk, RefsOk, FlagsOk, NewIds, TriedIds;
    var A, N, T := Addrs(d.infos), NewIds(d.infos), TriedIds(d.infos);
    RandomCount(A, d.ids, d.random, Places(d.infos));
    KindsOf(d.infos);
    assert A.Keys == N + T;
    CountedNets(h, A, N, T, d.nNew, d.nTried, d.counts);
    FewerOrEqual(Nets(h, A, d.infos.Keys), d.counts.Keys);
  }

  lemma CountedNets(h: Hashing, A: map<Id, Addr>, N: set<Id>, T: set<Id>, nNew: int, nTried: int,
      counts: map<Net, Count>)
    requires CountsOk(h, A, N, T, nNew, nTried, counts) && A.Keys == N + T
    ensures Nets(h, A, A.Keys) <= counts.Keys
  {
    forall n | n in A
      ensures h.network(A[n]) in counts
    {
      var net := h.network(A[n]);
      assert NetOk(h, A, N, T, counts, net);
      assert n in InNet(h, A, N, net) || n in InNet(h, A, T, net);
    }
  }

  /** In tables that operations left behind, the check finds a fault exactly if some time is wrong. */
  method Check(m: AddrMan) returns (err: int)
    requires m.Valid()
    ensures err == 0 <==> TimesOk(m.infos)
  {
    hide GoodHashing, Sound, NewIds, TriedIds, TimesOk, InBuckets, Consistent, EntryRight;
    SlotsAreRight(m.h, m.State());
    if TimesOk(m.infos) {
      SoundIsConsistent(m.h, m.State());
    }
    ConsistentTimes(m.h, m.State());
    err := CheckAddrman(m.h, m.State(), false);
  }

  /** The times must be positive: one connection at time zero is enough for the check to fail. */
  method ConnectedAtZero(h: Hashing, addr: Addr, source: Host, now: int) returns (err: int)
    requires GoodHashing(h) && h.routable(addr)
    ensures err != 0
  {
    hide GoodHashing, Sound, NewIds, TriedIds, TimesOk, CollisionsOk;
    var m := new AddrMan(h);
    var added := m.AddSingle(addr, now, source, 0, now, true);
    assert added;
    UntriedIfNew(h, m.State(), addr);
    var moved := m.Good(addr, false, 0);
    err := Check(m);
  }

  lemma UntriedIfNew(h: Hashing, d: Tables, addr: Addr)
    requires Sound(h, d, NewIds(d.infos), TriedIds(d.infos), {}) && d.tried == map[] && addr in d.ids
    ensures d.ids[addr] in d.infos && !d.infos[d.ids[addr]].inTried
  {
    hide Sound;
    AddressFacts(h, d, NewIds(d.infos), TriedIds(d.infos), {}, addr);
    if d.infos[d.ids[addr]].inTried {
      TriedAtSlot(h, d, NewIds(d.infos), TriedIds(d.infos), {}, d.ids[addr]);
    }
  }

  lemma ConsistentTimes(h: Hashing, d: Tables)
    ensures Consistent(h, d) ==> TimesOk(d.infos)
  {
    assert Consistent(h, d) ==> forall n :: n in d.infos ==> EntryRight(d, n, d.infos[n]);
  }

  // ---------- what the check does not see ----------

  /** No address leads to a wrong id, ids are below the next one, and every network has its count. */
  ghost predicate Unchecked(h: Hashing, d: Tables) {
    && (forall a :: a in d.ids ==> d.ids[a] in d.infos && d.infos[d.ids[a]].addr == a)
    && (forall n :: n in d.infos ==> n < d.idCount && h.network(d.infos[n].addr) in d.counts)
  }

  lemma {:induction false} AtMost(S: set<Id>, s: seq<Id>)
    requires forall n :: n in S ==> n in s
    ensures |S| <= |s|
  {
    if s == [] {
      assert S == {};
    } else {
      var last := s[|s| - 1];
      AtMost(S - {last}, s[..|s| - 1]);
      assert |S| <= |S - {last}| + 1 by {
        assert S <= S - {last} + {last};
        FewerOrEqual(S, S - {last} + {last});
      }
    }
  }

  /** As many places as ids, and every id at some place: then there is one place for each. */
  lemma {:induction false} OnePlaceEach(S: set<Id>, s: seq<Id>)
    requires (forall n :: n in S ==> n in s) && |S| == |s|
    ensures forall k :: 0 <= k < |s| ==> s[k] in S
    ensures forall i, j :: 0 <= i < j < |s| ==> s[i] != s[j]
  {
    if s != [] {
      var last, rest := s[|s| - 1], s[..|s| - 1];
      if forall n :: n in S ==> n in rest {
        AtMost(S, rest);
      }
      assert last in S && last !in rest;
      OnePlaceEach(S - {last}, rest);
    }
  }

  lemma IndexFromChecks(h: Hashing, d: Tables)
    requires Consistent(h, d) && Unchecked(h, d)
    ensures IndexOk(Addrs(d.infos), d.ids, d.random, Places(d.infos))
  {
    hide TriedRight, NewsRight, CountsRight, NewIds, TriedIds, EntryRight, Addrs, Places, IndexOk;
    KindsOf(d.infos);
    assert |d.infos.Keys| == |d.random|;
    forall n | n in d.infos
      ensures IndexRight(d, n, d.infos[n])
    {
      RightIndex(d, n, d.infos[n]);
    }
    PlacesFromChecks(d);
    IndexIs(d);
  }

  lemma RightIndex(d: Tables, n: Id, info: Info)
    requires EntryRight(d, n, info)
    ensures IndexRight(d, n, info)
  {
  }

  lemma PlacesFromChecks(d: Tables)
    requires |d.infos.Keys| == |d.random| && forall n :: n in d.infos ==> IndexRight(d, n, d.infos[n])
    ensures forall k :: 0 <= k < |d.random| ==> d.random[k] in d.infos && d.infos[d.random[k]].place == k
  {
    forall n | n in d.infos.Keys
      ensures n in d.random
    {
      assert IndexRight(d, n, d.infos[n]);
    }
    OnePlaceEach(d.infos.Keys, d.random);
    forall k | 0 <= k < |d.random|
      ensures d.random[k] in d.infos && d.infos[d.random[k]].place == k
    {
      assert IndexRight(d, d.random[k], d.infos[d.random[k]]);
    }
  }

  lemma IndexIs(d: Tables)
    requires forall n :: n in d.infos ==> IndexRight(d, n, d.infos[n])
    requires forall a :: a in d.ids ==> d.ids[a] in d.infos && d.infos[d.ids[a]].addr == a
    requires forall k :: 0 <= k < |d.random| ==> d.random[k] in d.infos && d.infos[d.random[k]].place == k
    ensures IndexOk(Addrs(d.infos), d.ids, d.random, Places(d.infos))
  {
    var A, places := Addrs(d.infos), Places(d.infos);
    forall n | n in A
      ensures A[n] in d.ids && d.ids[A[n]] == n && 0 <= places[n] < |d.random| && d.random[places[n]] == n
    {
      assert IndexRight(d, n, d.infos[n]);
    }
  }

  lemma TablesFromChecks(h: Hashing, d: Tables)
    requires TriedRight(h, d) && NewsRight(h, d) && InBuckets(d)
    ensures TablesOk(h, Addrs(d.infos), NewIds(d.infos), TriedIds(d.infos), d.tried, d.news)
  {
    hide TriedSlot, NewSlot;
    forall s | s in d.tried
      ensures TriedEntryOk(h, Addrs(d.infos), TriedIds(d.infos), d.tried, s)
    {
      assert TriedSlotRight(h, d, s);
    }
    forall s | s in d.news
      ensures NewEntryOk(h, Addrs(d.infos), NewIds(d.infos), d.news, s)
    {
      assert NewSlotRight(h, d, s);
    }
  }

  lemma RefsFromChecks(h: Hashing, d: Tables)
    requires NewsRight(h, d) && forall n :: n in d.infos ==> EntryRight(d, n, d.infos[n])
    ensures RefsOk(Refs(d.infos), NewIds(d.infos), d.news, {})
  {
    hide IndexRight;
    forall n | n in d.infos
      ensures d.infos[n].refs == |SlotsOf(d.news, n)| && (!d.infos[n].inTried ==> 1 <= d.infos[n].refs <= MAX_REFS)
    {
      assert EntryRight(d, n, d.infos[n]);
      if d.infos[n].inTried {
        assert forall s :: s in d.news ==> NewSlotRight(h, d, s);
        assert SlotsOf(d.news, n) == {};
      } else {
        assert n in NewIds(d.infos);
      }
    }
  }

  lemma CountsFromChecks(h: Hashing, d: Tables)
    requires CountsRight(h, d) && Unchecked(h, d) && d.nTried == |TriedIds(d.infos)| && d.nNew == |NewIds(d.infos)|
    ensures CountsOk(h, Addrs(d.infos), NewIds(d.infos), TriedIds(d.infos), d.nNew, d.nTried, d.counts)
  {
    hide NewIds, TriedIds, Nets;
    var A, N, T := Addrs(d.infos), NewIds(d.infos), TriedIds(d.infos);
    forall net
      ensures NetOk(h, A, N, T, d.counts, net)
    {
      if net !in d.counts {
        assert InNet(h, A, N, net) == {} && InNet(h, A, T, net) == {};
      }
    }
  }

  lemma UncheckedOf(h: Hashing, d: Tables)
    requires Sound(h, d, NewIds(d.infos), TriedIds(d.infos), {})
    ensures Unchecked(h, d)
  {
    hide Sound, NewIds, TriedIds;
    var N, T := NewIds(d.infos), TriedIds(d.infos);
    forall a | a in d.ids
      ensures d.ids[a] in d.infos && d.infos[d.ids[a]].addr == a
    {
      AddressFacts(h, d, N, T, {}, a);
    }
    forall n | n in d.infos
      ensures n < d.idCount && h.network(d.infos[n].addr) in d.counts
    {
      EntryFacts(h, d, N, T, {}, n);
      NetworkCounted(h, d, n);
    }
  }

  lemma NetworkCounted(h: Hashing, d: Tables, n: Id)
    requires Sound(h, d, NewIds(d.infos), TriedIds(d.infos), {}) && n in d.infos
    ensures h.network(d.infos[n].addr) in d.counts
  {
    hide IndexOk, TablesOk, RefsOk, FlagsOk, NewIds, TriedIds;
    var A := Addrs(d.infos);
    KindsOf(d.infos);
    CountedNets(h, A, NewIds(d.infos), TriedIds(d.infos), d.nNew, d.nTried, d.counts);
    assert h.network(A[n]) in Nets(h, A, A.Keys);
  }

  /** The check together with what it does not see is all that must hold. */
  lemma SoundIffChecked(h: Hashing, d: Tables)
    requires GoodHashing(h) && InBuckets(d)
    ensures Sound(h, d, NewIds(d.infos), TriedIds(d.infos), {}) && TimesOk(d.infos) <==>
      Consistent(h, d) && Unchecked(h, d)
  {
    hide Sound, Consistent, Unchecked, TimesOk, NewIds, TriedIds, GoodHashing, InBuckets;
    if Sound(h, d, NewIds(d.infos), TriedIds(d.infos), {}) && TimesOk(d.infos) {
      SoundIsConsistent(h, d);
      UncheckedOf(h, d);
    }
    if Consistent(h, d) && Unchecked(h, d) {
      CheckedIsSound(h, d);
    }
  }

  lemma CheckedIsSound(h: Hashing, d: Tables)
    requires InBuckets(d) && Consistent(h, d) && Unchecked(h, d)
    ensures Sound(h, d, NewIds(d.infos), TriedIds(d.infos), {}) && TimesOk(d.infos)
  {
    hide IndexOk, TablesOk, RefsOk, CountsOk, TriedRight, NewsRight, CountsRight, Addrs, Places, Refs, InBuckets,
      IndexRight;
    IndexFromChecks(h, d);
    TablesFromChecks(h, d);
    RefsFromChecks(h, d);
    CountsFromChecks(h, d);
    assert forall n :: n in d.infos ==> EntryRight(d, n, d.infos[n]);
  }
}
