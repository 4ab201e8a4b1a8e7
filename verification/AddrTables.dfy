/** The tables of the address manager: what must hold between them, and the small changes that keep it. */
module AddrTables {

  type Id = nat
  type Addr = nat
  type Host = nat
  type Net = nat

  const NEW_BUCKETS: nat := 1024
  const TRIED_BUCKETS: nat := 256
  const BUCKET_SIZE: nat := 64
  const MAX_REFS: nat := 8

  datatype Slot = Slot(bucket: nat, pos: nat)

  /** How many new and tried addresses there are. */
  datatype Count = Count(news: int, tried: int)

  datatype Info = Info(
    addr: Addr, source: Host, time: int, lastTry: int, lastCount: int, lastSuccess: int, attempts: int,
    refs: int, inTried: bool, place: int)

  /** The facts about addresses that come from elsewhere: where the keyed hashes put them, and what they are. */
  datatype Hashing = Hashing(
    triedBucket: Addr -> nat, newBucket: (Addr, Host) -> nat, position: (Addr, bool, nat) -> nat,
    network: Addr -> Net, host: Addr -> Host, routable: Addr -> bool, valid: Addr -> bool)

  ghost predicate GoodHashing(h: Hashing) {
    && (forall a, source :: h.newBucket(a, source) < NEW_BUCKETS)
    && (forall a :: h.triedBucket(a) < TRIED_BUCKETS)
    && (forall a, asNew, bucket :: h.position(a, asNew, bucket) < BUCKET_SIZE)
  }

  /** The tables: what is known by id, ids by address, all ids in random order, the two bucket tables with
      only their filled slots, how many addresses are new and tried, and the next id. */
  datatype Tables = Tables(
    infos: map<Id, Info>, ids: map<Addr, Id>, random: seq<Id>, tried: map<Slot, Id>, news: map<Slot, Id>,
    nNew: int, nTried: int, counts: map<Net, Count>, idCount: nat)

  /** The one slot for an address among the tried ones. */
  function TriedSlot(h: Hashing, a: Addr): Slot {
    var b := h.triedBucket(a);
    Slot(b, h.position(a, false, b))
  }

  /** The slot for an address in a bucket of new ones. */
  function NewSlot(h: Hashing, a: Addr, bucket: nat): Slot {
    Slot(bucket, h.position(a, true, bucket))
  }

  ghost function Addrs(infos: map<Id, Info>): map<Id, Addr> {
    map n | n in infos :: infos[n].addr
  }

  ghost function Places(infos: map<Id, Info>): map<Id, int> {
    map n | n in infos :: infos[n].place
  }

  ghost function Refs(infos: map<Id, Info>): map<Id, int> {
    map n | n in infos :: infos[n].refs
  }

  // ---------- what must hold ----------

  /** Ids and addresses belong to each other, and every id is at its place of the random order. */
  ghost predicate IndexOk(A: map<Id, Addr>, ids: map<Addr, Id>, random: seq<Id>, places: map<Id, int>) {
    && places.Keys == A.Keys
    && (forall n :: n in A ==> A[n] in ids && ids[A[n]] == n)
    && (forall a :: a in ids ==> ids[a] in A && A[ids[a]] == a)
    && (forall n :: n in A ==> 0 <= places[n] < |random| && random[places[n]] == n)
    && (forall k :: 0 <= k < |random| ==> random[k] in A && places[random[k]] == k)
  }

  /** The tried addresses are in their slots, and the new buckets hold new addresses, in the slots where
      these belong. */
  ghost predicate TablesOk(h: Hashing, A: map<Id, Addr>, N: set<Id>, T: set<Id>, tried: map<Slot, Id>,
      news: map<Slot, Id>) {
    && T <= A.Keys && N <= A.Keys
    && (forall s :: s in tried ==> TriedEntryOk(h, A, T, tried, s))
    && (forall n :: n in T ==> TriedSlot(h, A[n]) in tried && tried[TriedSlot(h, A[n])] == n)
    && (forall s :: s in news ==> NewEntryOk(h, A, N, news, s))
  }

  ghost predicate TriedEntryOk(h: Hashing, A: map<Id, Addr>, T: set<Id>, tried: map<Slot, Id>, s: Slot)
    requires s in tried
  {
    tried[s] in T && tried[s] in A && s == TriedSlot(h, A[tried[s]])
  }

  ghost predicate NewEntryOk(h: Hashing, A: map<Id, Addr>, N: set<Id>, news: map<Slot, Id>, s: Slot)
    requires s in news
  {
    news[s] in N && news[s] in A && s.bucket < NEW_BUCKETS && s == NewSlot(h, A[news[s]], s.bucket)
  }

  /** The slots of new buckets that an id is in. */
  ghost function SlotsOf(news: map<Slot, Id>, n: Id): set<Slot> {
    set s | s in news && news[s] == n
  }

  /** Reference counts are exact, and new addresses have between one and eight, except for those that are
      just being moved. */
  ghost predicate RefsOk(refs: map<Id, int>, N: set<Id>, news: map<Slot, Id>, except: set<Id>) {
    && (forall n :: n in refs ==> refs[n] == |SlotsOf(news, n)|)
    && (forall n :: n in refs && n in N && n !in except ==> 1 <= refs[n] <= MAX_REFS)
  }

  ghost function InNet(h: Hashing, A: map<Id, Addr>, S: set<Id>, net: Net): set<Id> {
    set n | n in S && n in A && h.network(A[n]) == net
  }

  function CountOf(counts: map<Net, Count>, net: Net): Count {
    if net in counts then counts[net] else Count(0, 0)
  }

  /** The totals, and those of every network, are exact. */
  ghost predicate CountsOk(h: Hashing, A: map<Id, Addr>, N: set<Id>, T: set<Id>, nNew: int, nTried: int,
      counts: map<Net, Count>) {
    && nNew == |N| && nTried == |T|
    && forall net :: NetOk(h, A, N, T, counts, net)
  }

  ghost predicate NetOk(h: Hashing, A: map<Id, Addr>, N: set<Id>, T: set<Id>, counts: map<Net, Count>, net: Net) {
    CountOf(counts, net) == Count(|InNet(h, A, N, net)|, |InNet(h, A, T, net)|)
  }

  ghost predicate FlagsOk(infos: map<Id, Info>, N: set<Id>, T: set<Id>, idCount: nat) {
    && N <= infos.Keys && T <= infos.Keys && N !! T
    && (forall n :: n in N ==> !infos[n].inTried)
    && (forall n :: n in T ==> infos[n].inTried)
    && (forall n :: n in infos ==> n < idCount)
  }

  /** Everything that must hold when the ids in `N` are new and those in `T` tried. An id is in neither only
      while it is being moved, and in `except` only while its references are being changed. */
  ghost predicate Sound(h: Hashing, d: Tables, N: set<Id>, T: set<Id>, except: set<Id>) {
    && IndexOk(Addrs(d.infos), d.ids, d.random, Places(d.infos))
    && TablesOk(h, Addrs(d.infos), N, T, d.tried, d.news)
    && RefsOk(Refs(d.infos), N, d.news, except)
    && CountsOk(h, Addrs(d.infos), N, T, d.nNew, d.nTried, d.counts)
    && FlagsOk(d.infos, N, T, d.idCount)
  }

  // ---------- the index ----------

  lemma IndexAdd(A: map<Id, Addr>, ids: map<Addr, Id>, random: seq<Id>, places: map<Id, int>, n: Id, a: Addr)
    requires IndexOk(A, ids, random, places) && n !in A && a !in ids
    ensures IndexOk(A[n := a], ids[a := n], random + [n], places[n := |random|])
  {
  }

  lemma IndexSwap(A: map<Id, Addr>, ids: map<Addr, Id>, random: seq<Id>, places: map<Id, int>, i: nat, j: nat)
    requires IndexOk(A, ids, random, places) && i < |random| && j < |random|
    ensures random[i] in A && random[j] in A
    ensures IndexOk(A, ids, random[i := random[j]][j := random[i]], places[random[i] := j][random[j] := i])
  {
    var random', places' := random[i := random[j]][j := random[i]], places[random[i] := j][random[j] := i];
    assert i != j ==> random[i] != random[j];
    forall n | n in A
      ensures 0 <= places'[n] < |random'| && random'[places'[n]] == n
    {
      assert n == random[i] || n == random[j] || (places[n] != i && places[n] != j);
    }
    forall k | 0 <= k < |random'|
      ensures random'[k] in A && places'[random'[k]] == k
    {
      assert k != i && k != j ==> random[k] != random[i] && random[k] != random[j];
    }
  }

  /** Removing the id at the end of the random order. */
  lemma IndexRemove(A: map<Id, Addr>, ids: map<Addr, Id>, random: seq<Id>, places: map<Id, int>, n: Id)
    requires IndexOk(A, ids, random, places) && n in A && places[n] == |random| - 1
    ensures A[n] in ids && |random| > 0
    ensures IndexOk(A - {n}, ids - {A[n]}, random[..|random| - 1], places - {n})
  {
    var random' := random[..|random| - 1];
    forall k | 0 <= k < |random'|
      ensures random'[k] in A && random'[k] != n && places[random'[k]] == k
    {
      assert random'[k] == random[k];
    }
    forall m | m in A && m != n
      ensures 0 <= places[m] < |random'| && random'[places[m]] == m && A[m] != A[n]
    {
      assert places[m] != places[n];
    }
  }

  /** There are as many entries in the random order as ids. */
  lemma {:induction false} RandomCount(A: map<Id, Addr>, ids: map<Addr, Id>, random: seq<Id>, places: map<Id, int>)
    requires IndexOk(A, ids, random, places)
    ensures |random| == |A.Keys|
    decreases |random|
  {
    if |random| == 0 {
      assert forall n :: n in A ==> 0 <= places[n] < |random|;
      assert A.Keys == {};
    } else {
      var n := random[|random| - 1];
      assert n in A;
      IndexRemove(A, ids, random, places, n);
      RandomCount(A - {n}, ids - {A[n]}, random[..|random| - 1], places - {n});
      assert (A - {n}).Keys == A.Keys - {n};
    }
  }

  // ---------- references ----------

  lemma SlotsAfterFill(news: map<Slot, Id>, s: Slot, n: Id, m: Id)
    requires s !in news
    ensures |SlotsOf(news[s := n], m)| == |SlotsOf(news, m)| + if m == n then 1 else 0
  {
    if m == n {
      assert SlotsOf(news[s := n], m) == SlotsOf(news, m) + {s};
    } else {
      assert SlotsOf(news[s := n], m) == SlotsOf(news, m);
    }
  }

  lemma SlotsAfterClear(news: map<Slot, Id>, s: Slot, m: Id)
    requires s in news
    ensures |SlotsOf(news - {s}, m)| == |SlotsOf(news, m)| - if m == news[s] then 1 else 0
  {
    if m == news[s] {
      assert SlotsOf(news - {s}, m) == SlotsOf(news, m) - {s};
    } else {
      assert SlotsOf(news - {s}, m) == SlotsOf(news, m);
    }
  }

  lemma RefsFill(refs: map<Id, int>, N: set<Id>, news: map<Slot, Id>, except: set<Id>, s: Slot, n: Id)
    requires RefsOk(refs, N, news, except) && n in refs && s !in news
    ensures RefsOk(refs[n := refs[n] + 1], N, news[s := n], except + {n})
    ensures refs[n] < MAX_REFS ==> RefsOk(refs[n := refs[n] + 1], N, news[s := n], except - {n})
  {
    forall m | m in refs
      ensures refs[n := refs[n] + 1][m] == |SlotsOf(news[s := n], m)|
    {
      SlotsAfterFill(news, s, n, m);
    }
  }

  lemma RefsClear(refs: map<Id, int>, N: set<Id>, news: map<Slot, Id>, except: set<Id>, s: Slot)
    requires RefsOk(refs, N, news, except) && s in news && news[s] in refs
    ensures RefsOk(refs[news[s] := refs[news[s]] - 1], N, news - {s}, except + {news[s]})
    ensures refs[news[s]] > 0
    ensures news[s] !in except && refs[news[s]] > 1 && news[s] in N ==>
      RefsOk(refs[news[s] := refs[news[s]] - 1], N, news - {s}, except)
  {
    var n := news[s];
    assert s in SlotsOf(news, n);
    forall m | m in refs
      ensures refs[n := refs[n] - 1][m] == |SlotsOf(news - {s}, m)|
    {
      SlotsAfterClear(news, s, m);
    }
  }

  // ---------- counts ----------

  lemma InNetAdd(h: Hashing, A: map<Id, Addr>, S: set<Id>, n: Id, net: Net)
    requires n in A && n !in S
    ensures |InNet(h, A, S + {n}, net)| == |InNet(h, A, S, net)| + if h.network(A[n]) == net then 1 else 0
  {
    if h.network(A[n]) == net {
      assert InNet(h, A, S + {n}, net) == InNet(h, A, S, net) + {n};
    } else {
      assert InNet(h, A, S + {n}, net) == InNet(h, A, S, net);
    }
  }

  lemma InNetRemove(h: Hashing, A: map<Id, Addr>, S: set<Id>, n: Id, net: Net)
    requires n in A && n in S
    ensures |InNet(h, A, S - {n}, net)| == |InNet(h, A, S, net)| - if h.network(A[n]) == net then 1 else 0
  {
    if h.network(A[n]) == net {
      assert InNet(h, A, S - {n}, net) == InNet(h, A, S, net) - {n};
    } else {
      assert InNet(h, A, S - {n}, net) == InNet(h, A, S, net);
    }
  }

  /** One more or one fewer of a network's new or tried addresses. */
  function Counted(counts: map<Net, Count>, net: Net, news: int, tried: int): map<Net, Count> {
    var c := CountOf(counts, net);
    counts[net := Count(c.news + news, c.tried + tried)]
  }

  lemma CountNew(h: Hashing, A: map<Id, Addr>, N: set<Id>, T: set<Id>, nNew: int, nTried: int, counts: map<Net, Count>,
      n: Id)
    requires CountsOk(h, A, N, T, nNew, nTried, counts) && n in A && n !in N
    ensures CountsOk(h, A, N + {n}, T, nNew + 1, nTried, Counted(counts, h.network(A[n]), 1, 0))
  {
    forall net
      ensures NetOk(h, A, N + {n}, T, Counted(counts, h.network(A[n]), 1, 0), net)
    {
      assert NetOk(h, A, N, T, counts, net);
      InNetAdd(h, A, N, n, net);
    }
  }

  lemma UncountNew(h: Hashing, A: map<Id, Addr>, N: set<Id>, T: set<Id>, nNew: int, nTried: int,
      counts: map<Net, Count>, n: Id)
    requires CountsOk(h, A, N, T, nNew, nTried, counts) && n in A && n in N
    ensures CountsOk(h, A, N - {n}, T, nNew - 1, nTried, Counted(counts, h.network(A[n]), -1, 0))
  {
    forall net
      ensures NetOk(h, A, N - {n}, T, Counted(counts, h.network(A[n]), -1, 0), net)
    {
      assert NetOk(h, A, N, T, counts, net);
      InNetRemove(h, A, N, n, net);
    }
  }

  lemma CountTried(h: Hashing, A: map<Id, Addr>, N: set<Id>, T: set<Id>, nNew: int, nTried: int,
      counts: map<Net, Count>, n: Id)
    requires CountsOk(h, A, N, T, nNew, nTried, counts) && n in A && n !in T
    ensures CountsOk(h, A, N, T + {n}, nNew, nTried + 1, Counted(counts, h.network(A[n]), 0, 1))
  {
    forall net
      ensures NetOk(h, A, N, T + {n}, Counted(counts, h.network(A[n]), 0, 1), net)
    {
      assert NetOk(h, A, N, T, counts, net);
      InNetAdd(h, A, T, n, net);
    }
  }

  lemma UncountTried(h: Hashing, A: map<Id, Addr>, N: set<Id>, T: set<Id>, nNew: int, nTried: int,
      counts: map<Net, Count>, n: Id)
    requires CountsOk(h, A, N, T, nNew, nTried, counts) && n in A && n in T
    ensures CountsOk(h, A, N, T - {n}, nNew, nTried - 1, Counted(counts, h.network(A[n]), 0, -1))
  {
    forall net
      ensures NetOk(h, A, N, T - {n}, Counted(counts, h.network(A[n]), 0, -1), net)
    {
      assert NetOk(h, A, N, T, counts, net);
      InNetRemove(h, A, T, n, net);
    }
  }

  /** Ids that are neither new nor tried do not count. */
  lemma CountsFrame(h: Hashing, A: map<Id, Addr>, B: map<Id, Addr>, N: set<Id>, T: set<Id>, nNew: int, nTried: int,
      counts: map<Net, Count>)
    requires CountsOk(h, A, N, T, nNew, nTried, counts)
    requires forall n :: n in N || n in T ==> n in A && n in B && A[n] == B[n]
    ensures CountsOk(h, B, N, T, nNew, nTried, counts)
  {
    forall net
      ensures NetOk(h, B, N, T, counts, net)
    {
      assert NetOk(h, A, N, T, counts, net);
      assert InNet(h, A, N, net) == InNet(h, B, N, net);
      assert InNet(h, A, T, net) == InNet(h, B, T, net);
    }
  }
}
