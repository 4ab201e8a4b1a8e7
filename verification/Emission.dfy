/** Writing out the chunks of a state as a linearization. */
module Emission {
  import opened FiniteSets
  import opened Clusters
  import opened Linearizations
  import opened Ordering

  // ---------- unmet dependencies ----------

  /** Dependencies on transactions that have not been written out. */
  ghost function UnmetTx(deps: set<Dep>, met: set<Dep>, c: Tx): set<Dep> {
    set d | d in deps && d !in met && d.chl == c
  }

  /** Dependencies of chunk `k` on other chunks. */
  ghost function UnmetChunk(deps: set<Dep>, home: Homes, met: set<Dep>, k: Tx): set<Dep> {
    set d | d in deps && d !in met && d.chl in home && d.par in home && home[d.chl] == k && home[d.par] != k
  }

  ghost predicate TxCounts(deps: set<Dep>, met: set<Dep>, txDeps: map<Tx, nat>) {
    forall c :: c in txDeps ==> txDeps[c] == |UnmetTx(deps, met, c)|
  }

  ghost predicate ChunkCounts(deps: set<Dep>, home: Homes, met: set<Dep>, chunkDeps: map<Tx, nat>) {
    forall k :: k in chunkDeps ==> chunkDeps[k] == |UnmetChunk(deps, home, met, k)|
  }

  lemma MeetTx(deps: set<Dep>, met: set<Dep>, d: Dep, c: Tx)
    requires d in deps && d !in met
    ensures |UnmetTx(deps, met + {d}, c)| == |UnmetTx(deps, met, c)| - (if d.chl == c then 1 else 0)
  {
    if d.chl == c {
      assert UnmetTx(deps, met + {d}, c) == UnmetTx(deps, met, c) - {d};
    } else {
      assert UnmetTx(deps, met + {d}, c) == UnmetTx(deps, met, c);
    }
  }

  lemma MeetChunk(deps: set<Dep>, home: Homes, met: set<Dep>, d: Dep, k: Tx)
    requires d in deps && d !in met && d.chl in home && d.par in home
    ensures |UnmetChunk(deps, home, met + {d}, k)| ==
            |UnmetChunk(deps, home, met, k)| - (if home[d.chl] == k && home[d.par] != k then 1 else 0)
  {
    if home[d.chl] == k && home[d.par] != k {
      assert UnmetChunk(deps, home, met + {d}, k) == UnmetChunk(deps, home, met, k) - {d};
    } else {
      assert UnmetChunk(deps, home, met + {d}, k) == UnmetChunk(deps, home, met, k);
    }
  }

  ghost function MetBy(deps: set<Dep>, D: set<Tx>): set<Dep> {
    set d | d in deps && d.par in D
  }

  // ---------- chunk by chunk ----------

  /** Parents come before children. */
  ghost predicate ParentsFirst(g: Cluster, out: seq<Tx>) {
    forall m, d :: 0 <= m < |out| && d in g.deps && d.chl == out[m] ==> d.par in out[..m]
  }

  ghost predicate HighestFirst(g: Cluster, home: Homes, emitted: set<Tx>)
    requires home.Keys == g.txs
  {
    forall i, k :: i in emitted && k in home.Values && k !in emitted ==>
      i in home.Values && ChunkRate(g, home, i) >= ChunkRate(g, home, k)
  }

  /** The chunks `emitted` have been written out: what is still to be written out has no higher
      feerate, and the diagram of the output reaches that of these chunks. */
  ghost predicate Emitted(g: Cluster, home: Homes, out: seq<Tx>, emitted: set<Tx>) {
    && home.Keys == g.txs && emitted <= home.Values
    && Distinct(out) && Elems(out) == Members(home, emitted) && ParentsFirst(g, out)
    && HighestFirst(g, home, emitted)
    && forall theta: real :: ReachesAt(g, out, DiagramOn(g, home, emitted, theta), theta)
  }

  lemma EmittedNone(g: Cluster, home: Homes)
    requires home.Keys == g.txs
    ensures Emitted(g, home, [], {})
  {
    forall theta: real
      ensures ReachesAt(g, [], DiagramOn(g, home, {}, theta), theta)
    {
      assert Elems([][..0]) == {};
      assert PrefixGain(g, [], 0, theta) == 0.0;
    }
  }

  /** When all chunks pay more than the threshold, their union pays what the diagram grants them. */
  lemma {:induction false} AllPositive(g: Cluster, home: Homes, I: set<Tx>, theta: real)
    requires home.Keys == g.txs && I <= home.Values
    requires forall i :: i in I ==> ChunkRate(g, home, i) >= theta
    ensures DiagramOn(g, home, I, theta) == GainOf(g, Members(home, I), theta)
  {
    if I == {} {
      assert Members(home, I) == {};
    } else {
      var i := Any(I);
      DiagramPick(g, home, I, i, theta);
      AllPositive(g, home, I - {i}, theta);
      GainUnion(g, Members(home, I - {i}), Chunk(home, i), theta);
      assert Members(home, I - {i}) + Chunk(home, i) == Members(home, I);
      GainAtRate(g, Chunk(home, i), theta);
    }
  }

  /** A chunk of highest feerate among the rest has been written out as well. */
  lemma EmittedNext(g: Cluster, home: Homes, out: seq<Tx>, emitted: set<Tx>, k: Tx, out': seq<Tx>)
    requires Emitted(g, home, out, emitted) && k in home.Values && k !in emitted
    requires forall i :: i in home.Values && i !in emitted ==> ChunkRate(g, home, i) <= ChunkRate(g, home, k)
    requires out <= out' && Distinct(out') && ParentsFirst(g, out')
    requires Elems(out') == Elems(out) + Chunk(home, k)
    ensures Emitted(g, home, out', emitted + {k})
  {
    assert Members(home, emitted + {k}) == Members(home, emitted) + Chunk(home, k);
    forall theta: real
      ensures ReachesAt(g, out', DiagramOn(g, home, emitted + {k}, theta), theta)
    {
      DiagramPick(g, home, emitted + {k}, k, theta);
      assert emitted + {k} - {k} == emitted;
      GainAtRate(g, Chunk(home, k), theta);
      if ChunkRate(g, home, k) > theta {
        AllPositive(g, home, emitted + {k}, theta);
        assert out'[..|out'|] == out';
        assert PrefixGain(g, out', |out'|, theta) == GainOf(g, Elems(out'), theta);
      } else {
        assert ReachesAt(g, out, DiagramOn(g, home, emitted, theta), theta);
        var m: nat :| m <= |out| && PrefixGain(g, out, m, theta) >= DiagramOn(g, home, emitted, theta);
        assert out'[..m] == out[..m];
        assert PrefixGain(g, out', m, theta) == PrefixGain(g, out, m, theta);
      }
    }
  }

  lemma EmittedAll(g: Cluster, home: Homes, out: seq<Tx>)
    requires Emitted(g, home, out, home.Values)
    ensures ValidLinearization(g, out) && Reaches(g, out, home)
  {
    assert Members(home, home.Values) == g.txs;
  }

  // ---------- transaction by transaction ----------

  /** The output so far, the counts of unmet dependencies, and what can be written out next. */
  datatype Progress = Progress(
    out: seq<Tx>, txDeps: map<Tx, nat>, chunkDeps: map<Tx, nat>, readyTx: set<Tx>, readyChunks: set<Tx>)

  ghost function ReadyTxs(g: Cluster, home: Homes, met: set<Dep>, k: Tx, D: set<Tx>): set<Tx> {
    set t | t in Chunk(home, k) && t !in D && UnmetTx(g.deps, met, t) == {}
  }

  ghost function ReadyChunks(g: Cluster, home: Homes, met: set<Dep>, started: set<Tx>): set<Tx> {
    set j | j in home.Values && j !in started && UnmetChunk(g.deps, home, met, j) == {}
  }

  /** The transaction counts are right for the dependencies `met`, and so is what is ready of chunk `k`. */
  ghost predicate TxRight(g: Cluster, home: Homes, s: Progress, met: set<Dep>, k: Tx) {
    && s.txDeps.Keys == g.txs == home.Keys
    && TxCounts(g.deps, met, s.txDeps)
    && s.readyTx == ReadyTxs(g, home, met, k, Elems(s.out))
  }

  /** The chunk counts are right, and so are the chunks that are ready, other than those `started`. */
  ghost predicate ChunkRight(g: Cluster, home: Homes, s: Progress, met: set<Dep>, started: set<Tx>) {
    && home.Keys == g.txs && s.chunkDeps.Keys == home.Values
    && ChunkCounts(g.deps, home, met, s.chunkDeps)
    && s.readyChunks == ReadyChunks(g, home, met, started)
  }

  /** One dependency of a transaction not written out yet is met. */
  lemma TxRightStep(g: Cluster, home: Homes, s: Progress, s': Progress, met: set<Dep>, k: Tx, d: Dep)
    requires TxRight(g, home, s, met, k) && d in g.deps && d !in met && d.chl !in s.out && s.txDeps[d.chl] > 0
    requires s'.out == s.out && s'.txDeps == s.txDeps[d.chl := s.txDeps[d.chl] - 1]
    requires s'.readyTx == if s'.txDeps[d.chl] == 0 && home[d.chl] == k then s.readyTx + {d.chl} else s.readyTx
    ensures TxRight(g, home, s', met + {d}, k)
  {
    var met' := met + {d};
    forall c | c in s'.txDeps
      ensures s'.txDeps[c] == |UnmetTx(g.deps, met', c)|
      ensures UnmetTx(g.deps, met', c) == {} <==> s'.txDeps[c] == 0
    {
      MeetTx(g.deps, met, d, c);
    }
    forall t
      ensures t in s'.readyTx <==> t in ReadyTxs(g, home, met', k, Elems(s'.out))
    {
      if t in Chunk(home, k) {
        MeetTx(g.deps, met, d, t);
        assert UnmetTx(g.deps, met, t) == {} <==> s.txDeps[t] == 0;
      }
    }
  }

  /** One dependency of a chunk not started yet on chunk `k` is met. */
  lemma ChunkRightStep(g: Cluster, home: Homes, s: Progress, s': Progress, met: set<Dep>, k: Tx, started: set<Tx>,
      d: Dep)
    requires ChunkRight(g, home, s, met, started) && d in g.deps && d !in met && home[d.par] == k
    requires home[d.chl] != k ==> home[d.chl] !in started && s.chunkDeps[home[d.chl]] > 0
    requires home[d.chl] == k ==> s'.chunkDeps == s.chunkDeps && s'.readyChunks == s.readyChunks
    requires home[d.chl] != k ==>
               && s'.chunkDeps == s.chunkDeps[home[d.chl] := s.chunkDeps[home[d.chl]] - 1]
               && s'.readyChunks == if s'.chunkDeps[home[d.chl]] == 0
                                    then s.readyChunks + {home[d.chl]} else s.readyChunks
    ensures ChunkRight(g, home, s', met + {d}, started)
  {
    var met' := met + {d};
    forall j | j in s'.chunkDeps
      ensures s'.chunkDeps[j] == |UnmetChunk(g.deps, home, met', j)|
      ensures UnmetChunk(g.deps, home, met', j) == {} <==> s'.chunkDeps[j] == 0
      ensures UnmetChunk(g.deps, home, met, j) == {} <==> s.chunkDeps[j] == 0
    {
      MeetChunk(g.deps, home, met, d, j);
    }
  }

  /** Transactions written out have their dependencies met, those of the last one are not written out,
      and chunks that have been started do not depend on the current one. */
  lemma ChildNotOut(g: Cluster, home: Homes, out: seq<Tx>, t: Tx, d: Dep)
    requires Distinct(out) && ParentsFirst(g, out) && out != [] && out[|out| - 1] == t
    requires d in g.deps && d.par == t
    ensures d.chl !in out
  {
    forall m | 0 <= m < |out|
      ensures out[m] != d.chl
    {
      assert t !in out[..m];
    }
  }

  lemma CountPositive(g: Cluster, home: Homes, s: Progress, met: set<Dep>, k: Tx, started: set<Tx>, d: Dep)
    requires TxRight(g, home, s, met, k) && ChunkRight(g, home, s, met, started)
    requires d in g.deps && d !in met && home[d.par] == k
    ensures s.txDeps[d.chl] > 0
    ensures home[d.chl] != k ==> s.chunkDeps[home[d.chl]] > 0
  {
    assert d in UnmetTx(g.deps, met, d.chl);
    if home[d.chl] != k {
      assert d in UnmetChunk(g.deps, home, met, home[d.chl]);
    }
  }

  /** The output is without repetition, has parents first, and consists of the chunks `done` and a part
      of chunk `k`. */
  ghost predicate Partial(g: Cluster, home: Homes, out: seq<Tx>, done: set<Tx>, k: Tx) {
    && home.Keys == g.txs && k in home.Values && k !in done && done <= home.Values
    && Distinct(out) && ParentsFirst(g, out)
    && Members(home, done) <= Elems(out) <= Members(home, done + {k})
  }

  /** Appending transaction `t` of chunk `k`, all of whose dependencies are met. */
  lemma PartialAppend(g: Cluster, home: Homes, out: seq<Tx>, done: set<Tx>, k: Tx, t: Tx)
    requires Partial(g, home, out, done, k) && t in Chunk(home, k) && t !in out
    requires UnmetTx(g.deps, MetBy(g.deps, Elems(out)), t) == {}
    ensures Partial(g, home, out + [t], done, k) && Elems(out + [t]) == Elems(out) + {t}
  {
    var out' := out + [t];
    ElemsAppend(out, t);
    forall m, d | 0 <= m < |out'| && d in g.deps && d.chl == out'[m]
      ensures d.par in out'[..m]
    {
      if m < |out| {
        assert out'[..m] == out[..m];
      } else {
        assert out'[..m] == out;
        assert d !in UnmetTx(g.deps, MetBy(g.deps, Elems(out)), t);
      }
    }
  }

  lemma NextDependency(g: Cluster, home: Homes, out: seq<Tx>, done: set<Tx>, k: Tx, t: Tx, d: Dep)
    requires Partial(g, home, out, done, k) && out != [] && out[|out| - 1] == t
    requires d in g.deps && d.par == t
    ensures d.chl !in out && home[d.chl] !in done
  {
    ChildNotOut(g, home, out, t, d);
    assert d.chl !in Members(home, done);
  }

  /** Count the dependencies on `t`, the last transaction written out, as met. */
  method MeetDependencies(ghost g: Cluster, deps: set<Dep>, home: Homes, s0: Progress, t: Tx, k: Tx,
      ghost done: set<Tx>)
    returns (s: Progress)
    requires deps == g.deps && Partial(g, home, s0.out, done, k)
    requires s0.out != [] && s0.out[|s0.out| - 1] == t && t in home && home[t] == k
    requires TxRight(g, home, s0, MetBy(deps, Elems(s0.out) - {t}), k)
    requires ChunkRight(g, home, s0, MetBy(deps, Elems(s0.out) - {t}), done + {k})
    ensures s.out == s0.out
    ensures TxRight(g, home, s, MetBy(deps, Elems(s.out)), k)
    ensures ChunkRight(g, home, s, MetBy(deps, Elems(s.out)), done + {k})
  {
    hide Partial, TxCounts, ChunkCounts, ReadyTxs, ReadyChunks;
    s := s0;
    var todo := set d | d in deps && d.par == t;
    ghost var all := todo;
    ghost var met := MetBy(deps, Elems(s.out) - {t});
    while todo != {}
      invariant todo <= all && s.out == s0.out
      invariant met == MetBy(deps, Elems(s.out) - {t}) + (all - todo)
      invariant TxRight(g, home, s, met, k) && ChunkRight(g, home, s, met, done + {k})
    {
      var d :| d in todo;
      todo := todo - {d};
      NextDependency(g, home, s.out, done, k, t, d);
      CountPositive(g, home, s, met, k, done + {k}, d);
      ghost var before := s;
      var c, j := d.chl, home[d.chl];
      s := s.(txDeps := s.txDeps[c := s.txDeps[c] - 1]);
      if s.txDeps[c] == 0 && j == k {
        s := s.(readyTx := s.readyTx + {c});
      }
      if j != k {
        s := s.(chunkDeps := s.chunkDeps[j := s.chunkDeps[j] - 1]);
        if s.chunkDeps[j] == 0 {
          s := s.(readyChunks := s.readyChunks + {j});
        }
      }
      TxRightStep(g, home, before, s, met, k, d);
      ChunkRightStep(g, home, before, s, met, k, done + {k}, d);
      met := met + {d};
    }
    assert met == MetBy(deps, Elems(s.out));
  }

  /** While transactions of chunk `k` are left, some of them can be written out. */
  lemma SomeTxReady(g: Cluster, home: Homes, out: seq<Tx>, done: set<Tx>, k: Tx)
    requires Acyclic(g) && Partial(g, home, out, done, k)
    requires UnmetChunk(g.deps, home, MetBy(g.deps, Elems(out)), k) == {}
    ensures Chunk(home, k) - Elems(out) != {} ==> ReadyTxs(g, home, MetBy(g.deps, Elems(out)), k, Elems(out)) != {}
  {
    var left, met := Chunk(home, k) - Elems(out), MetBy(g.deps, Elems(out));
    if left != {} {
      assert left <= g.txs;
      assert HasRoot(g, left);
      var t :| t in left && NoParentIn(g, t, left);
      forall d | d in g.deps && d.chl == t
        ensures d in met
      {
        assert d.par in home && d.par !in left;
        assert d !in UnmetChunk(g.deps, home, met, k);
        if home[d.par] == k {
          assert d.par in Chunk(home, k);
        }
      }
      assert UnmetTx(g.deps, met, t) == {};
      assert t in ReadyTxs(g, home, met, k, Elems(out));
    }
  }

  lemma StillMet(g: Cluster, home: Homes, D: set<Tx>, D': set<Tx>, k: Tx)
    requires D <= D' && UnmetChunk(g.deps, home, MetBy(g.deps, D), k) == {}
    ensures UnmetChunk(g.deps, home, MetBy(g.deps, D'), k) == {}
  {
    forall d | d in UnmetChunk(g.deps, home, MetBy(g.deps, D'), k)
      ensures d in UnmetChunk(g.deps, home, MetBy(g.deps, D), k)
    {
    }
  }

  lemma ReadyStart(g: Cluster, home: Homes, s: Progress, chunk: set<Tx>, k: Tx, done: set<Tx>)
    requires home.Keys == g.txs == s.txDeps.Keys && TxCounts(g.deps, MetBy(g.deps, Elems(s.out)), s.txDeps)
    requires chunk == Chunk(home, k) && k !in done && Elems(s.out) == Members(home, done)
    requires s.readyTx == set t | t in chunk && s.txDeps[t] == 0
    ensures TxRight(g, home, s, MetBy(g.deps, Elems(s.out)), k)
  {
    var met := MetBy(g.deps, Elems(s.out));
    forall t
      ensures t in s.readyTx <==> t in ReadyTxs(g, home, met, k, Elems(s.out))
    {
      if t in chunk {
        assert s.txDeps[t] == 0 <==> UnmetTx(g.deps, met, t) == {};
      }
    }
  }

  lemma TakeReady(g: Cluster, home: Homes, s: Progress, s': Progress, t: Tx, k: Tx, started: set<Tx>)
    requires TxRight(g, home, s, MetBy(g.deps, Elems(s.out)), k)
    requires ChunkRight(g, home, s, MetBy(g.deps, Elems(s.out)), started) && t in s.readyTx
    requires s' == s.(out := s.out + [t], readyTx := s.readyTx - {t})
    ensures t in Chunk(home, k) && t !in s.out && UnmetTx(g.deps, MetBy(g.deps, Elems(s.out)), t) == {}
    ensures Elems(s'.out) - {t} == Elems(s.out)
    ensures TxRight(g, home, s', MetBy(g.deps, Elems(s'.out) - {t}), k)
    ensures ChunkRight(g, home, s', MetBy(g.deps, Elems(s'.out) - {t}), started)
  {
    ElemsAppend(s.out, t);
    assert Elems(s'.out) - {t} == Elems(s.out);
  }

  /** Write out transaction `t` of chunk `k`, which is ready. */
  method EmitTx(ghost g: Cluster, deps: set<Dep>, home: Homes, s0: Progress, t: Tx, k: Tx, ghost done: set<Tx>)
    returns (s: Progress)
    requires deps == g.deps && Partial(g, home, s0.out, done, k) && t in s0.readyTx
    requires TxRight(g, home, s0, MetBy(deps, Elems(s0.out)), k)
    requires ChunkRight(g, home, s0, MetBy(deps, Elems(s0.out)), done + {k})
    ensures s.out == s0.out + [t] && Elems(s.out) == Elems(s0.out) + {t} && t in Chunk(home, k) && t !in s0.out
    ensures Partial(g, home, s.out, done, k)
    ensures TxRight(g, home, s, MetBy(deps, Elems(s.out)), k)
    ensures ChunkRight(g, home, s, MetBy(deps, Elems(s.out)), done + {k})
  {
    hide Partial, TxRight, ChunkRight, MetBy, UnmetTx;
    s := s0.(out := s0.out + [t], readyTx := s0.readyTx - {t});
    TakeReady(g, home, s0, s, t, k, done + {k});
    PartialAppend(g, home, s0.out, done, k, t);
    s := MeetDependencies(g, deps, home, s, t, k, done);
  }

  /** Find the transactions of chunk `k` that can be written out first. */
  method StartChunk(ghost g: Cluster, deps: set<Dep>, home: Homes, chunk: set<Tx>, s0: Progress, k: Tx,
      ghost done: set<Tx>)
    returns (s: Progress)
    requires deps == g.deps && Partial(g, home, s0.out, done, k) && Elems(s0.out) == Members(home, done)
    requires chunk == Chunk(home, k)
    requires s0.txDeps.Keys == g.txs && TxCounts(deps, MetBy(deps, Elems(s0.out)), s0.txDeps)
    requires ChunkRight(g, home, s0, MetBy(deps, Elems(s0.out)), done + {k})
    ensures s.out == s0.out
    ensures TxRight(g, home, s, MetBy(deps, Elems(s.out)), k)
    ensures ChunkRight(g, home, s, MetBy(deps, Elems(s.out)), done + {k})
  {
    PartialKeys(g, home, s0.out, done, k);
    hide Partial, TxRight, ChunkRight, MetBy, TxCounts, Members, Chunk, Elems;
    s := s0.(readyTx := set t | t in chunk && s0.txDeps[t] == 0);
    ReadyStart(g, home, s, chunk, k, done);
    ChunkRightSame(g, home, s0, s, MetBy(deps, Elems(s.out)), done + {k});
  }

  /** When nothing is ready anymore, all of chunk `k` has been written out. */
  lemma ChunkDone(g: Cluster, home: Homes, D0: set<Tx>, s: Progress, done: set<Tx>, k: Tx)
    requires Acyclic(g) && Partial(g, home, s.out, done, k) && D0 <= Elems(s.out) <= D0 + Chunk(home, k)
    requires UnmetChunk(g.deps, home, MetBy(g.deps, D0), k) == {}
    requires TxRight(g, home, s, MetBy(g.deps, Elems(s.out)), k) && s.readyTx == {}
    ensures Elems(s.out) == D0 + Chunk(home, k)
    ensures s.txDeps.Keys == g.txs && TxCounts(g.deps, MetBy(g.deps, Elems(s.out)), s.txDeps)
  {
    hide Partial, TxRight, UnmetChunk, MetBy, Acyclic, TxCounts, ReadyTxs;
    StillMet(g, home, D0, Elems(s.out), k);
    SomeTxReady(g, home, s.out, done, k);
    TxRightFacts(g, home, s, MetBy(g.deps, Elems(s.out)), k);
    var left := Chunk(home, k) - Elems(s.out);
    assert left == {};
    assert forall t :: t in Chunk(home, k) && t !in Elems(s.out) ==> t in left;
  }

  /** Write out all transactions of chunk `k`, none of whose dependencies on other chunks is unmet. */
  method EmitChunk(ghost g: Cluster, deps: set<Dep>, home: Homes, chunk: set<Tx>, s0: Progress, k: Tx,
      ghost done: set<Tx>)
    returns (s: Progress)
    requires deps == g.deps && Acyclic(g) && Partial(g, home, s0.out, done, k) && Elems(s0.out) == Members(home, done)
    requires chunk == Chunk(home, k) && UnmetChunk(deps, home, MetBy(deps, Elems(s0.out)), k) == {}
    requires s0.txDeps.Keys == g.txs && TxCounts(deps, MetBy(deps, Elems(s0.out)), s0.txDeps)
    requires ChunkRight(g, home, s0, MetBy(deps, Elems(s0.out)), done + {k})
    ensures s0.out <= s.out && Partial(g, home, s.out, done, k) && Elems(s.out) == Elems(s0.out) + chunk
    ensures s.txDeps.Keys == g.txs && TxCounts(deps, MetBy(deps, Elems(s.out)), s.txDeps)
    ensures ChunkRight(g, home, s, MetBy(deps, Elems(s.out)), done + {k})
  {
    hide Partial, TxRight, ChunkRight, MetBy, UnmetChunk, Acyclic, TxCounts, Members, Chunk, Elems;
    s := StartChunk(g, deps, home, chunk, s0, k, done);
    while s.readyTx != {}
      invariant s0.out <= s.out && Partial(g, home, s.out, done, k)
      invariant Elems(s0.out) <= Elems(s.out) <= Elems(s0.out) + chunk
      invariant TxRight(g, home, s, MetBy(deps, Elems(s.out)), k)
      invariant ChunkRight(g, home, s, MetBy(deps, Elems(s.out)), done + {k})
      decreases chunk - Elems(s.out)
    {
      var t :| t in s.readyTx;
      NotYetOut(s.out, t);
      s := EmitTx(g, deps, home, s, t, k, done);
    }
    ChunkDone(g, home, Elems(s0.out), s, done, k);
  }

  lemma NotYetOut(out: seq<Tx>, t: Tx)
    ensures t in Elems(out) <==> t in out
  {
  }

  lemma PartialKeys(g: Cluster, home: Homes, out: seq<Tx>, done: set<Tx>, k: Tx)
    requires Partial(g, home, out, done, k)
    ensures home.Keys == g.txs && Chunk(home, k) <= g.txs && k !in done
    ensures Distinct(out) && ParentsFirst(g, out)
  {
  }

  lemma ChunkRightSame(g: Cluster, home: Homes, s: Progress, s': Progress, met: set<Dep>, started: set<Tx>)
    requires ChunkRight(g, home, s, met, started) && s'.chunkDeps == s.chunkDeps && s'.readyChunks == s.readyChunks
    ensures ChunkRight(g, home, s', met, started)
  {
  }

  lemma TxRightFacts(g: Cluster, home: Homes, s: Progress, met: set<Dep>, k: Tx)
    requires TxRight(g, home, s, met, k)
    ensures s.readyTx == ReadyTxs(g, home, met, k, Elems(s.out))
    ensures s.txDeps.Keys == g.txs && TxCounts(g.deps, met, s.txDeps)
  {
  }

  // ---------- counting ----------

  /** The dependencies of the transactions `seen` of chunk `k` on other chunks. */
  ghost function OutOf(deps: set<Dep>, home: Homes, seen: set<Tx>, k: Tx): set<Dep> {
    set d | d in deps && d.chl in seen && d.chl in home && d.par in home && home[d.chl] == k && home[d.par] != k
  }

  /** The dependencies of transaction `c` on other chunks. */
  function Outside(deps: set<Dep>, home: Homes, c: Tx): set<Dep>
    requires c in home
  {
    set d | d in deps && d.chl == c && d.par in home && home[d.par] != home[c]
  }

  lemma OutOfMore(deps: set<Dep>, home: Homes, seen: set<Tx>, c: Tx, k: Tx)
    requires c !in seen && c in home
    ensures |OutOf(deps, home, seen + {c}, k)| ==
            |OutOf(deps, home, seen, k)| + if k == home[c] then |Outside(deps, home, c)| else 0
  {
    if k == home[c] {
      assert OutOf(deps, home, seen + {c}, k) == OutOf(deps, home, seen, k) + Outside(deps, home, c);
    } else {
      assert OutOf(deps, home, seen + {c}, k) == OutOf(deps, home, seen, k);
    }
  }

  /** The counts for the transactions `seen`. */
  ghost predicate SeenCounts(deps: set<Dep>, home: Homes, seen: set<Tx>, txDeps: map<Tx, nat>,
      chunkDeps: map<Tx, nat>) {
    && txDeps.Keys == seen && chunkDeps.Keys == home.Values
    && TxCounts(deps, {}, txDeps)
    && forall k :: k in chunkDeps ==> chunkDeps[k] == |OutOf(deps, home, seen, k)|
  }

  lemma SeenMore(deps: set<Dep>, home: Homes, seen: set<Tx>, txDeps: map<Tx, nat>, chunkDeps: map<Tx, nat>, c: Tx,
      parents: set<Dep>)
    requires SeenCounts(deps, home, seen, txDeps, chunkDeps) && c in home && c !in seen
    requires parents == set d | d in deps && d.chl == c
    ensures home[c] in chunkDeps
    ensures SeenCounts(deps, home, seen + {c}, txDeps[c := |parents|],
                       chunkDeps[home[c] := chunkDeps[home[c]] + |Outside(deps, home, c)|])
  {
    assert parents == UnmetTx(deps, {}, c);
    forall k | k in chunkDeps
      ensures |OutOf(deps, home, seen + {c}, k)| ==
              chunkDeps[k] + if k == home[c] then |Outside(deps, home, c)| else 0
    {
      OutOfMore(deps, home, seen, c, k);
    }
  }

  lemma SeenAll(g: Cluster, home: Homes, txDeps: map<Tx, nat>, chunkDeps: map<Tx, nat>)
    requires home.Keys == g.txs && SeenCounts(g.deps, home, home.Keys, txDeps, chunkDeps)
    ensures txDeps.Keys == g.txs && TxCounts(g.deps, {}, txDeps)
    ensures chunkDeps.Keys == home.Values && ChunkCounts(g.deps, home, {}, chunkDeps)
  {
    forall k | k in chunkDeps
      ensures chunkDeps[k] == |UnmetChunk(g.deps, home, {}, k)|
    {
      assert OutOf(g.deps, home, home.Keys, k) == UnmetChunk(g.deps, home, {}, k);
    }
  }

  lemma SeenNone(deps: set<Dep>, home: Homes, chunkDeps: map<Tx, nat>)
    requires chunkDeps.Keys == home.Values && forall k :: k in chunkDeps ==> chunkDeps[k] == 0
    ensures SeenCounts(deps, home, {}, map[], chunkDeps)
  {
    assert forall k :: OutOf(deps, home, {}, k) == {};
  }

  /** Count the dependencies of every transaction, and those of every chunk on other chunks. */
  method CountDependencies(ghost g: Cluster, deps: set<Dep>, home: Homes, chunks: set<Tx>)
    returns (txDeps: map<Tx, nat>, chunkDeps: map<Tx, nat>)
    requires deps == g.deps && home.Keys == g.txs && chunks == home.Values
    ensures txDeps.Keys == g.txs && TxCounts(deps, {}, txDeps)
    ensures chunkDeps.Keys == home.Values && ChunkCounts(deps, home, {}, chunkDeps)
  {
    hide SeenCounts, TxCounts, ChunkCounts;
    txDeps := map[];
    chunkDeps := map k | k in chunks :: 0;
    var todo := home.Keys;
    SeenNone(deps, home, chunkDeps);
    assert home.Keys - todo == {};
    while todo != {}
      invariant todo <= home.Keys
      invariant SeenCounts(deps, home, home.Keys - todo, txDeps, chunkDeps)
    {
      var c :| c in todo;
      var parents := set d | d in deps && d.chl == c;
      SeenMore(deps, home, home.Keys - todo, txDeps, chunkDeps, c, parents);
      assert home.Keys - (todo - {c}) == home.Keys - todo + {c};
      todo := todo - {c};
      txDeps := txDeps[c := |parents|];
      chunkDeps := chunkDeps[home[c] := chunkDeps[home[c]] + |Outside(deps, home, c)|];
    }
    assert home.Keys - todo == home.Keys;
    SeenAll(g, home, txDeps, chunkDeps);
  }

  // ---------- the whole output ----------

  /** What holds between chunks, with the chunks `done` written out. */
  ghost predicate BetweenChunks(g: Cluster, home: Homes, s: Progress, done: set<Tx>) {
    && Emitted(g, home, s.out, done)
    && s.txDeps.Keys == g.txs && TxCounts(g.deps, MetBy(g.deps, Elems(s.out)), s.txDeps)
    && ChunkRight(g, home, s, MetBy(g.deps, Elems(s.out)), done)
  }

  lemma BetweenStart(g: Cluster, home: Homes, s: Progress)
    requires home.Keys == g.txs && s.out == [] && s.txDeps.Keys == g.txs && s.chunkDeps.Keys == home.Values
    requires TxCounts(g.deps, {}, s.txDeps) && ChunkCounts(g.deps, home, {}, s.chunkDeps)
    requires s.readyChunks == set k | k in home.Values && s.chunkDeps[k] == 0
    ensures BetweenChunks(g, home, s, {})
  {
    EmittedNone(g, home);
    assert MetBy(g.deps, Elems(s.out)) == {};
    forall k
      ensures k in s.readyChunks <==> k in ReadyChunks(g, home, {}, {})
    {
      if k in home.Values {
        assert s.chunkDeps[k] == 0 <==> UnmetChunk(g.deps, home, {}, k) == {};
      }
    }
  }

  /** The ready chunks include one of highest feerate among those left. */
  lemma ReadyIsHighest(g: Cluster, home: Homes, s: Progress, done: set<Tx>) returns (i: Tx)
    requires BetweenChunks(g, home, s, done) && Linearizable(g, home) && done != home.Values
    ensures i in s.readyChunks && i in home.Values
    ensures forall k :: k in home.Values && k !in done ==> ChunkRate(g, home, k) <= ChunkRate(g, home, i)
  {
    var left := home.Values - done;
    assert left != {} by {
      var k :| k in home.Values && k !in done;
      assert k in left;
    }
    i := SomeChunkReady(g, home, left);
    var met := MetBy(g.deps, Elems(s.out));
    forall d | d in g.deps && home[d.chl] == i && home[d.par] != i
      ensures d in met
    {
      assert home[d.par] in done;
      assert d.par in Members(home, done);
    }
    assert UnmetChunk(g.deps, home, met, i) == {};
  }

  /** A ready chunk can be written out. */
  lemma ReadyToEmit(g: Cluster, home: Homes, s: Progress, s': Progress, done: set<Tx>, k: Tx)
    requires BetweenChunks(g, home, s, done) && k in s.readyChunks
    requires s' == s.(readyChunks := s.readyChunks - {k})
    ensures k in home.Values && k !in done && Partial(g, home, s'.out, done, k)
    ensures Elems(s'.out) == Members(home, done) && UnmetChunk(g.deps, home, MetBy(g.deps, Elems(s'.out)), k) == {}
    ensures s'.txDeps.Keys == g.txs && TxCounts(g.deps, MetBy(g.deps, Elems(s'.out)), s'.txDeps)
    ensures ChunkRight(g, home, s', MetBy(g.deps, Elems(s'.out)), done + {k})
  {
  }

  lemma BetweenNext(g: Cluster, home: Homes, s: Progress, s': Progress, done: set<Tx>, k: Tx)
    requires BetweenChunks(g, home, s, done) && k in home.Values && k !in done
    requires forall i :: i in home.Values && i !in done ==> ChunkRate(g, home, i) <= ChunkRate(g, home, k)
    requires s.out <= s'.out && Partial(g, home, s'.out, done, k) && Elems(s'.out) == Elems(s.out) + Chunk(home, k)
    requires s'.txDeps.Keys == g.txs && TxCounts(g.deps, MetBy(g.deps, Elems(s'.out)), s'.txDeps)
    requires ChunkRight(g, home, s', MetBy(g.deps, Elems(s'.out)), done + {k})
    ensures BetweenChunks(g, home, s', done + {k})
  {
    hide MetBy, TxCounts, ChunkRight, Emitted;
    EmittedNext(g, home, s.out, done, k, s'.out);
  }

  lemma BetweenFacts(g: Cluster, home: Homes, s: Progress, done: set<Tx>)
    requires BetweenChunks(g, home, s, done)
    ensures home.Keys == g.txs && done <= home.Values && s.readyChunks <= home.Values - done
    ensures s.readyChunks != {} ==> done != home.Values
  {
    if s.readyChunks != {} {
      var k := Any(s.readyChunks);
      assert k in home.Values && k !in done;
    }
  }

  /** The output never stalls: when no chunk is ready, all have been written out. */
  lemma AllEmitted(g: Cluster, home: Homes, s: Progress, done: set<Tx>)
    requires BetweenChunks(g, home, s, done) && Linearizable(g, home) && s.readyChunks == {}
    ensures ValidLinearization(g, s.out) && Reaches(g, s.out, home)
  {
    hide MetBy, TxCounts, ChunkRight, Linearizable;
    if done != home.Values {
      var i := ReadyIsHighest(g, home, s, done);
      assert false;
    }
    EmittedAll(g, home, s.out);
  }
}
