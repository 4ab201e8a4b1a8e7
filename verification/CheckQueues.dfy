/** The check queue as a protocol: a master and any number of workers that share a queue of checks
    under one lock. Every step is what one thread does while it holds the lock, or the checks that it
    runs without it; steps of different threads interleave freely. */
module CheckQueues {
  import opened Options

  type Error = int

  /** A check, with what running it gives: nothing, or an error. */
  datatype Check = Check(id: nat, outcome: Option<Error>)

  /** Where a thread is. `local` is its `local_result`, which is kept from one batch to the next. */
  datatype Thread =
    | Outside
    | Starting
    | Executing(batch: seq<Check>, doWork: bool, local: Option<Error>)
    | Executed(batch: seq<Check>, local: Option<Error>)
    | Waiting(notified: bool, local: Option<Error>)

  /** The checks that were added in a round, and what `Complete` returned for it. */
  datatype Round = Round(checks: seq<Check>, result: Option<Error>)

  /** Thread 0 is the master. `added` are the checks of this round, `finished` those whose batches have
      been accounted for, and `history` the rounds before; these three are not in the code. */
  datatype State = State(
    queue: seq<Check>, nIdle: nat, nTotal: nat, result: Option<Error>, nTodo: int, threads: seq<Thread>,
    added: seq<Check>, finished: multiset<Check>, history: seq<Round>)

  // ---------- the steps ----------

  /** The result of the last check that is run: the first error, if any. */
  function RunChecks(batch: seq<Check>): Option<Error>
    requires |batch| > 0
  {
    if batch[0].outcome.Some? || |batch| == 1 then batch[0].outcome else RunChecks(batch[1..])
  }

  /** Go through a batch: without the lock, and only if the round has not failed already. */
  method ExecuteBatch(batch: seq<Check>, doWork: bool, local0: Option<Error>) returns (local: Option<Error>)
    requires |batch| > 0
    ensures local == if doWork then RunChecks(batch) else local0
    ensures doWork ==> if local.Some? then exists n: nat :: FailsFirst(batch, n) && local == batch[n].outcome
                       else forall n :: 0 <= n < |batch| ==> batch[n].outcome.None?
  {
    local := local0;
    if doWork {
      for n := 0 to |batch|
        invariant n > 0 ==> local.None?
        invariant forall k :: 0 <= k < n ==> batch[k].outcome.None?
        invariant RunChecks(batch) == if n < |batch| then RunChecks(batch[n..]) else local
      {
        local := batch[n].outcome;
        if local.Some? {
          assert FailsFirst(batch, n);
          break;
        }
        assert batch[n..][1..] == batch[n + 1..];
      }
    }
  }

  function BatchSize(max: nat, queued: nat, nTotal: nat, nIdle: nat): (n: nat)
    ensures queued > 0 ==> 1 <= n <= queued
  {
    var share := queued / (nTotal + nIdle + 1);
    assert queued > 0 ==> share <= queued by {
      ShareSmaller(queued, nTotal + nIdle + 1);
    }
    var n := if max < share then max else share;
    if n < 1 then 1 else n
  }

  /** A batch of more than one check is within the limit, and so small that all threads could take as many and the idle
      ones once more; and it is the largest such. */
  lemma BatchSizeMeans(max: nat, queued: nat, nTotal: nat, nIdle: nat, m: nat)
    ensures var n, k := BatchSize(max, queued, nTotal, nIdle), nTotal + nIdle + 1;
      (n == 1 || (n <= max && n * k <= queued)) && (m <= max && m * k <= queued ==> m <= n)
  {
    var k := nTotal + nIdle + 1;
    var share := queued / k;
    Quotient(queued, k, m);
    Quotient(queued, k, if max < share then max else share);
  }

  lemma Quotient(n: nat, k: nat, m: nat)
    requires k > 0
    ensures m * k <= n <==> m <= n / k
  {
    var q := n / k;
    assert n == k * q + n % k;
    if m <= q {
      assert m * k <= q * k;
    } else {
      assert m * k >= (q + 1) * k;
    }
  }

  lemma ShareSmaller(n: nat, k: nat)
    requires k > 0
    ensures n / k <= n
  {
    Multiple(k, n / k);
  }

  lemma Multiple(k: nat, q: nat)
    requires k > 0
    ensures q <= k * q
  {
    assert k * q == (k - 1) * q + q;
  }

  /** Wake the master, if it is waiting. */
  function NotifyMaster(threads: seq<Thread>): seq<Thread> {
    if |threads| > 0 && threads[0].Waiting? then threads[0 := Waiting(true, threads[0].local)] else threads
  }

  /** What thread `i` does first when it has the lock: account for its last batch, or count itself in, or
      stop being idle. */
  function CleanUp(s: State, i: nat): State
    requires i < |s.threads| && (s.threads[i].Starting? || s.threads[i].Executed? || s.threads[i].Waiting?)
    requires s.threads[i].Waiting? ==> s.nIdle > 0
  {
    match s.threads[i]
    case Executed(batch, local) =>
      var nTodo := s.nTodo - |batch|;
      s.(result := if local.Some? && s.result.None? then local else s.result,
         nTodo := nTodo,
         threads := if nTodo == 0 && i != 0 then NotifyMaster(s.threads) else s.threads,
         finished := s.finished + multiset(batch))
    case Starting => s.(nTotal := s.nTotal + 1)
    case Waiting(_, _) => s.(nIdle := s.nIdle - 1)
  }

  /** What is in `local_result` after the clean-up. */
  function LocalAfter(s: State, i: nat): Option<Error>
    requires i < |s.threads| && (s.threads[i].Starting? || s.threads[i].Executed? || s.threads[i].Waiting?)
  {
    match s.threads[i]
    case Executed(batch, local) => if local.Some? && s.result.None? then s.result else local
    case Starting => None
    case Waiting(_, local) => local
  }

  /** What thread `i` does next: take a batch from the back of the queue, or return the result of the
      round if it is the master and nothing is left to do, or wait. */
  function Decide(s: State, i: nat, local: Option<Error>, max: nat): State
    requires i < |s.threads| && s.nTotal > 0
  {
    if |s.queue| > 0 then
      var n := BatchSize(max, |s.queue|, s.nTotal, s.nIdle);
      var rest := |s.queue| - n;
      s.(queue := s.queue[..rest], threads := s.threads[i := Executing(s.queue[rest..], s.result.None?, local)])
    else if i == 0 && s.nTodo == 0 then
      s.(nTotal := s.nTotal - 1,
         result := None,
         threads := s.threads[0 := Outside],
         added := [], finished := multiset{},
         history := s.history + [Round(s.added, s.result)])
    else
      s.(nIdle := s.nIdle + 1, threads := s.threads[i := Waiting(false, local)])
  }

  /** Thread `i` gets the lock, having been woken (or not) if it was waiting. */
  ghost predicate LockStep(s: State, s': State, i: nat, max: nat) {
    && i < |s.threads| && (s.threads[i].Starting? || s.threads[i].Executed? || s.threads[i].Waiting?)
    && (s.threads[i].Waiting? ==> s.nIdle > 0) && (!s.threads[i].Starting? ==> s.nTotal > 0)
    && s' == Decide(CleanUp(s, i), i, LocalAfter(s, i), max)
  }

  /** Thread `i` goes through its batch. */
  ghost predicate ExecuteStep(s: State, s': State, i: nat) {
    && i < |s.threads| && s.threads[i].Executing? && |s.threads[i].batch| > 0
    && var t := s.threads[i];
       s' == s.(threads := s.threads[i := Executed(t.batch, if t.doWork then RunChecks(t.batch) else t.local)])
  }

  /** The master, outside `Complete`, adds checks. */
  ghost predicate AddStep(s: State, s': State, checks: seq<Check>) {
    && |s.threads| > 0 && s.threads[0].Outside?
    && s' == s.(queue := s.queue + checks, nTodo := s.nTodo + |checks|, added := s.added + checks)
  }

  /** The master calls `Complete`. */
  ghost predicate CompleteStep(s: State, s': State) {
    && |s.threads| > 0 && s.threads[0].Outside?
    && s' == s.(threads := s.threads[0 := Starting])
  }

  ghost predicate Next(s: State, s': State, max: nat) {
    || (exists i :: LockStep(s, s', i, max))
    || (exists i :: ExecuteStep(s, s', i))
    || (exists checks :: AddStep(s, s', checks))
    || CompleteStep(s, s')
  }

  ghost predicate Init(s: State) {
    && |s.threads| > 0 && s.threads[0].Outside? && (forall i :: 0 < i < |s.threads| ==> s.threads[i].Starting?)
    && s.queue == [] && s.nIdle == 0 && s.nTotal == 0 && s.result == None && s.nTodo == 0
    && s.added == [] && s.finished == multiset{} && s.history == []
  }

  // ---------- counting ----------

  function BatchOf(t: Thread): multiset<Check> {
    if t.Executing? || t.Executed? then multiset(t.batch) else multiset{}
  }

  /** All checks that threads hold in their batches. */
  ghost function InFlight(threads: seq<Thread>): multiset<Check> {
    if |threads| == 0 then multiset{} else InFlight(threads[..|threads| - 1]) + BatchOf(threads[|threads| - 1])
  }

  lemma {:induction false} InFlightUpdate(threads: seq<Thread>, i: nat, t: Thread)
    requires i < |threads|
    ensures BatchOf(threads[i]) <= InFlight(threads)
    ensures InFlight(threads[i := t]) == InFlight(threads) - BatchOf(threads[i]) + BatchOf(t)
  {
    hide BatchOf;
    var n := |threads| - 1;
    var threads' := threads[i := t];
    assert InFlight(threads) == InFlight(threads[..n]) + BatchOf(threads[n]);
    if i == n {
      assert threads'[..n] == threads[..n];
    } else {
      InFlightUpdate(threads[..n], i, t);
      assert threads'[..n] == threads[..n][i := t];
    }
  }

  ghost function Idle(threads: seq<Thread>): nat {
    if |threads| == 0 then 0 else Idle(threads[..|threads| - 1]) + (if threads[|threads| - 1].Waiting? then 1 else 0)
  }

  ghost predicate Inside(t: Thread) {
    t.Executing? || t.Executed? || t.Waiting?
  }

  ghost function Entered(threads: seq<Thread>): nat {
    if |threads| == 0 then 0 else Entered(threads[..|threads| - 1]) + (if Inside(threads[|threads| - 1]) then 1 else 0)
  }

  lemma {:induction false} CountsUpdate(threads: seq<Thread>, i: nat, t: Thread)
    requires i < |threads|
    ensures Idle(threads[i := t]) ==
      Idle(threads) - (if threads[i].Waiting? then 1 else 0) + (if t.Waiting? then 1 else 0)
    ensures Entered(threads[i := t]) ==
      Entered(threads) - (if Inside(threads[i]) then 1 else 0) + (if Inside(t) then 1 else 0)
    ensures threads[i].Waiting? ==> Idle(threads) > 0
    ensures Inside(threads[i]) ==> Entered(threads) > 0
  {
    var n := |threads| - 1;
    var threads' := threads[i := t];
    if i == n {
      assert threads'[..n] == threads[..n];
    } else {
      CountsUpdate(threads[..n], i, t);
      assert threads'[..n] == threads[..n][i := t];
    }
  }

  // ---------- the invariant ----------

  ghost predicate AllSucceed(checks: multiset<Check>) {
    forall c :: c in checks ==> c.outcome.None?
  }

  ghost predicate FailsWith(checks: seq<Check>, e: Option<Error>) {
    exists c :: c in checks && c.outcome == e
  }

  /** `Complete` returned nothing exactly if all checks succeed, and otherwise one of their errors. */
  ghost predicate RoundOk(r: Round) {
    && (r.result.None? <==> AllSucceed(multiset(r.checks)))
    && (r.result.Some? ==> FailsWith(r.checks, r.result))
  }

  /** A batch that is not worked on, or was not, is one that no longer matters: the round has failed. What
      is left in `local_result` from earlier is then never looked at. */
  ghost predicate ThreadOk(t: Thread, result: Option<Error>) {
    && (t.Executing? ==> |t.batch| > 0 && (!t.doWork ==> result.Some?))
    && (t.Executed? ==> |t.batch| > 0 && (result.None? ==> t.local == RunChecks(t.batch)))
  }

  ghost predicate MasterOk(s: State) {
    && |s.threads| > 0
    && (s.threads[0].Waiting? ==> s.queue == [])
    && (s.threads[0].Waiting? && !s.threads[0].notified ==> s.nTodo > 0)
  }

  ghost predicate CountsOk(s: State) {
    && s.nTodo == |s.queue| + |InFlight(s.threads)|
    && multiset(s.added) == s.finished + multiset(s.queue) + InFlight(s.threads)
    && s.nIdle == Idle(s.threads)
    && s.nTotal == Entered(s.threads)
  }

  ghost predicate ResultOk(s: State) {
    && (s.result.None? ==> AllSucceed(s.finished))
    && (s.result.Some? ==> FailsWith(s.added, s.result))
  }

  ghost predicate Inv(s: State) {
    && MasterOk(s) && CountsOk(s) && ResultOk(s)
    && (forall i :: 0 <= i < |s.threads| ==> ThreadOk(s.threads[i], s.result))
    && (forall n :: 0 <= n < |s.history| ==> RoundOk(s.history[n]))
  }

  /** Check `n` fails, and none before it. */
  ghost predicate FailsFirst(batch: seq<Check>, n: nat) {
    n < |batch| && batch[n].outcome.Some? && forall k :: 0 <= k < n ==> batch[k].outcome.None?
  }

  /** The result is the outcome of the first check that fails. */
  lemma {:induction false} FirstFailure(batch: seq<Check>, n: nat)
    requires FailsFirst(batch, n)
    ensures RunChecks(batch) == batch[n].outcome
  {
    if n > 0 {
      assert FailsFirst(batch[1..], n - 1);
      FirstFailure(batch[1..], n - 1);
    }
  }

  lemma {:induction false} RunChecksMeans(batch: seq<Check>)
    requires |batch| > 0
    ensures RunChecks(batch).None? <==> AllSucceed(multiset(batch))
    ensures RunChecks(batch).Some? ==> FailsWith(batch, RunChecks(batch))
  {
    assert batch[0] in multiset(batch);
    if batch[0].outcome.None? && |batch| > 1 {
      RunChecksMeans(batch[1..]);
      assert batch == [batch[0]] + batch[1..];
      if RunChecks(batch).Some? {
        var c :| c in batch[1..] && c.outcome == RunChecks(batch);
        assert c in batch;
      }
    } else if batch[0].outcome.None? {
      assert batch == [batch[0]];
    }
  }

  // ---------- accounting for a batch ----------

  /** The state with thread `i` done with what it had, holding nothing and not counted. */
  ghost function Freed(s: State, i: nat): State
    requires i < |s.threads| && (s.threads[i].Starting? || s.threads[i].Executed? || s.threads[i].Waiting?)
    requires (s.threads[i].Waiting? ==> s.nIdle > 0) && (!s.threads[i].Starting? ==> s.nTotal > 0)
  {
    var c := CleanUp(s, i);
    assert |c.threads| == |s.threads|;
    c.(threads := c.threads[i := Outside], nTotal := c.nTotal - 1)
  }

  lemma NotifyCounts(threads: seq<Thread>)
    ensures InFlight(NotifyMaster(threads)) == InFlight(threads)
    ensures Idle(NotifyMaster(threads)) == Idle(threads) && Entered(NotifyMaster(threads)) == Entered(threads)
  {
    if |threads| > 0 && threads[0].Waiting? {
      InFlightUpdate(threads, 0, Waiting(true, threads[0].local));
      CountsUpdate(threads, 0, Waiting(true, threads[0].local));
    }
  }

  /** Moving a batch from the ones in flight to the finished ones. */
  lemma MoveBatch(f: multiset<Check>, q: multiset<Check>, a: multiset<Check>, b: multiset<Check>)
    requires b <= a
    ensures (f + b) + q + (a - b + multiset{}) == f + q + a
    ensures |a - b + multiset{}| == |a| - |b|
  {
    assert a == (a - b) + b;
  }

  lemma FreedThreads(threads: seq<Thread>, threads': seq<Thread>, i: nat)
    requires threads' == threads || threads' == NotifyMaster(threads)
    requires i < |threads| && threads'[i] == threads[i]
    ensures BatchOf(threads[i]) <= InFlight(threads)
    ensures InFlight(threads'[i := Outside]) == InFlight(threads) - BatchOf(threads[i]) + multiset{}
    ensures Idle(threads'[i := Outside]) == Idle(threads) - (if threads[i].Waiting? then 1 else 0)
    ensures Entered(threads'[i := Outside]) == Entered(threads) - (if Inside(threads[i]) then 1 else 0)
  {
    hide InFlight, Idle, Entered;
    NotifyCounts(threads);
    CountsUpdate(threads', i, Outside);
    InFlightUpdate(threads', i, Outside);
  }

  lemma FreedCounts(s: State, i: nat)
    requires Inv(s) && i < |s.threads| && (s.threads[i].Starting? || s.threads[i].Executed? || s.threads[i].Waiting?)
    ensures (s.threads[i].Waiting? ==> s.nIdle > 0) && (!s.threads[i].Starting? ==> s.nTotal > 0)
    ensures CountsOk(Freed(s, i))
  {
    hide ResultOk, RoundOk, ThreadOk, MasterOk, InFlight, Idle, Entered;
    CountsUpdate(s.threads, i, Outside);
    var c, b := CleanUp(s, i), BatchOf(s.threads[i]);
    FreedThreads(s.threads, c.threads, i);
    MoveBatch(s.finished, multiset(s.queue), InFlight(s.threads), b);
    assert s.finished + multiset{} == s.finished;
  }

  lemma FreedResult(s: State, i: nat)
    requires Inv(s) && i < |s.threads| && s.threads[i].Executed?
    ensures ResultOk(CleanUp(s, i))
  {
    var t := s.threads[i];
    assert ThreadOk(t, s.result);
    RunChecksMeans(t.batch);
    if s.result.None? && t.local.Some? {
      var c :| c in t.batch && c.outcome == t.local;
      InFlightUpdate(s.threads, i, Outside);
      assert c in BatchOf(t);
      assert c in multiset(s.added);
    }
  }

  lemma FreedInv(s: State, i: nat)
    requires Inv(s) && i < |s.threads| && (s.threads[i].Starting? || s.threads[i].Executed? || s.threads[i].Waiting?)
    ensures (s.threads[i].Waiting? ==> s.nIdle > 0) && (!s.threads[i].Starting? ==> s.nTotal > 0)
    ensures Inv(Freed(s, i))
  {
    hide CountsOk, ResultOk, RoundOk;
    FreedCounts(s, i);
    if s.threads[i].Executed? {
      FreedResult(s, i);
    }
    FreedResultOther(s, i);
    var f := Freed(s, i);
    forall j | 0 <= j < |f.threads|
      ensures ThreadOk(f.threads[j], f.result)
    {
      assert ThreadOk(s.threads[j], s.result);
    }
    TodoNatural(f);
  }

  lemma FreedResultOther(s: State, i: nat)
    requires ResultOk(s) && i < |s.threads|
    requires (s.threads[i].Starting? || s.threads[i].Waiting? || s.threads[i].Executed?)
    requires (s.threads[i].Waiting? ==> s.nIdle > 0) && (!s.threads[i].Starting? ==> s.nTotal > 0)
    requires s.threads[i].Executed? ==> ResultOk(CleanUp(s, i))
    ensures ResultOk(Freed(s, i))
  {
  }

  lemma TodoNatural(s: State)
    requires CountsOk(s)
    ensures s.nTodo >= 0
  {
  }

  // ---------- deciding what to do next ----------

  lemma ThreadsKept(s: State, s': State, i: nat)
    requires forall j :: 0 <= j < |s.threads| ==> ThreadOk(s.threads[j], s.result)
    requires i < |s.threads| && |s'.threads| == |s.threads| && s'.result == s.result
    requires s'.threads == s.threads[i := s'.threads[i]] && ThreadOk(s'.threads[i], s.result)
    ensures forall j :: 0 <= j < |s'.threads| ==> ThreadOk(s'.threads[j], s'.result)
  {
    hide ThreadOk;
  }

  lemma SplitQueue(f: multiset<Check>, q: seq<Check>, a: multiset<Check>, n: nat)
    requires n <= |q|
    ensures f + multiset(q) + a == f + multiset(q[..n]) + (a - multiset{} + multiset(q[n..]))
    ensures |q| + |a| == n + |a - multiset{} + multiset(q[n..])|
  {
    assert q == q[..n] + q[n..];
  }

  /** Thread `i` takes a batch. */
  lemma TakeInv(f: State, s': State, i: nat, n: nat, t: Thread)
    requires Inv(f) && i < |f.threads| && f.threads[i].Outside? && n < |f.queue|
    requires t.Executing? && t.batch == f.queue[n..] && t.doWork == f.result.None?
    requires s' == f.(queue := f.queue[..n], nTotal := f.nTotal + 1, threads := f.threads[i := t])
    ensures Inv(s')
  {
    hide RoundOk, InFlight, Idle, Entered;
    InFlightUpdate(f.threads, i, t);
    CountsUpdate(f.threads, i, t);
    SplitQueue(f.finished, f.queue, InFlight(f.threads), n);
    assert ThreadOk(t, f.result);
    ThreadsKept(f, s', i);
  }

  /** Thread `i` waits. */
  lemma WaitInv(f: State, s': State, i: nat, local: Option<Error>)
    requires Inv(f) && i < |f.threads| && f.threads[i].Outside? && |f.queue| == 0 && !(i == 0 && f.nTodo == 0)
    requires s' == f.(nIdle := f.nIdle + 1, nTotal := f.nTotal + 1, threads := f.threads[i := Waiting(false, local)])
    ensures Inv(s')
  {
    hide RoundOk, InFlight, Idle, Entered;
    var t := Waiting(false, local);
    InFlightUpdate(f.threads, i, t);
    CountsUpdate(f.threads, i, t);
    assert InFlight(f.threads) - multiset{} + multiset{} == InFlight(f.threads);
    TodoNatural(f);
    ThreadsKept(f, s', i);
  }

  lemma NothingInFlight(threads: seq<Thread>, j: nat)
    requires |InFlight(threads)| == 0 && j < |threads|
    requires threads[j].Executing? || threads[j].Executed? ==> |threads[j].batch| > 0
    ensures !threads[j].Executing? && !threads[j].Executed?
  {
    InFlightUpdate(threads, j, Outside);
    assert BatchOf(threads[j]) == multiset{};
  }

  /** The master returns the result of the round. */
  lemma ReturnInv(f: State, s': State)
    requires Inv(f) && f.threads[0].Outside? && |f.queue| == 0 && f.nTodo == 0
    requires s' == f.(result := None, threads := f.threads[0 := Outside], added := [], finished := multiset{},
                      history := f.history + [Round(f.added, f.result)])
    ensures Inv(s') && RoundOk(Round(f.added, f.result))
  {
    hide InFlight, Idle, Entered;
    assert f.threads[0 := Outside] == f.threads;
    assert InFlight(f.threads) == multiset{};
    assert multiset(f.queue) == multiset{};
    assert multiset(f.added) == f.finished;
    if f.result.Some? {
      var c :| c in f.added && c.outcome == f.result;
      assert c in multiset(f.added);
    }
    forall j | 0 <= j < |f.threads|
      ensures ThreadOk(f.threads[j], None)
    {
      assert ThreadOk(f.threads[j], f.result);
      NothingInFlight(f.threads, j);
    }
  }

  lemma DecideInv(s: State, s': State, i: nat, max: nat)
    requires Inv(s) && LockStep(s, s', i, max)
    ensures Inv(s')
  {
    hide Inv, MasterOk, CountsOk, ResultOk, ThreadOk, RoundOk, CleanUp, LocalAfter, BatchSize;
    FreedInv(s, i);
    var c, f, local := CleanUp(s, i), Freed(s, i), LocalAfter(s, i);
    CleanUpCounts(s, i);
    if |c.queue| > 0 {
      var n := BatchSize(max, |c.queue|, c.nTotal, c.nIdle);
      TakeInv(f, s', i, |c.queue| - n, s'.threads[i]);
    } else if i == 0 && c.nTodo == 0 {
      ReturnInv(f, s');
    } else {
      WaitInv(f, s', i, local);
    }
  }

  lemma CleanUpCounts(s: State, i: nat)
    requires i < |s.threads| && (s.threads[i].Starting? || s.threads[i].Executed? || s.threads[i].Waiting?)
    requires (s.threads[i].Waiting? ==> s.nIdle > 0) && (!s.threads[i].Starting? ==> s.nTotal > 0)
    ensures CleanUp(s, i).nTotal > 0 && |CleanUp(s, i).threads| == |s.threads|
  {
  }

  // ---------- the other steps ----------

  lemma ExecuteInv(s: State, s': State, i: nat)
    requires Inv(s) && ExecuteStep(s, s', i)
    ensures Inv(s')
  {
    hide RoundOk, InFlight, Idle, Entered;
    var t, t' := s.threads[i], s'.threads[i];
    assert ThreadOk(t, s.result);
    InFlightUpdate(s.threads, i, t');
    CountsUpdate(s.threads, i, t');
    SameFlight(InFlight(s.threads), BatchOf(t));
    ThreadsKept(s, s', i);
  }

  lemma SameFlight(a: multiset<Check>, b: multiset<Check>)
    requires b <= a
    ensures a - b + b == a
  {
  }

  lemma AddInv(s: State, s': State, checks: seq<Check>)
    requires Inv(s) && AddStep(s, s', checks)
    ensures Inv(s')
  {
    hide RoundOk, InFlight, Idle, Entered, ThreadOk;
    if s.result.Some? {
      var c :| c in s.added && c.outcome == s.result;
      assert c in s'.added;
    }
  }

  lemma CompleteInv(s: State, s': State)
    requires Inv(s) && CompleteStep(s, s')
    ensures Inv(s')
  {
    hide RoundOk, InFlight, Idle, Entered;
    InFlightUpdate(s.threads, 0, Starting);
    CountsUpdate(s.threads, 0, Starting);
    SameFlight(InFlight(s.threads), multiset{});
    ThreadsKept(s, s', 0);
  }

  lemma NextInv(s: State, s': State, max: nat)
    requires Inv(s) && Next(s, s', max)
    ensures Inv(s')
  {
    hide Inv, LockStep, ExecuteStep, AddStep, CompleteStep;
    if i :| LockStep(s, s', i, max) {
      DecideInv(s, s', i, max);
    } else if i :| ExecuteStep(s, s', i) {
      ExecuteInv(s, s', i);
    } else if checks :| AddStep(s, s', checks) {
      AddInv(s, s', checks);
    } else {
      CompleteInv(s, s');
    }
  }

  lemma {:induction false} InitCounts(threads: seq<Thread>)
    requires forall i :: 0 <= i < |threads| ==> threads[i].Starting? || threads[i].Outside?
    ensures InFlight(threads) == multiset{} && Idle(threads) == 0 && Entered(threads) == 0
  {
    if |threads| > 0 {
      InitCounts(threads[..|threads| - 1]);
    }
  }

  lemma InitInv(s: State)
    requires Init(s)
    ensures Inv(s)
  {
    InitCounts(s.threads);
  }

  // ---------- whole runs ----------

  ghost predicate IsRun(run: seq<State>, max: nat) {
    && |run| > 0 && Init(run[0])
    && forall n :: 0 <= n < |run| - 1 ==> Next(run[n], run[n + 1], max)
  }

  lemma {:induction false} RunInv(run: seq<State>, max: nat, n: nat)
    requires IsRun(run, max) && n < |run|
    ensures Inv(run[n])
  {
    if n == 0 {
      InitInv(run[0]);
    } else {
      RunInv(run, max, n - 1);
      assert Next(run[n - 1], run[n - 1 + 1], max);
      NextInv(run[n - 1], run[n], max);
    }
  }

  /** In every interleaving, and for every round, `Complete` returns nothing exactly if every check that
      was added in that round succeeds, and otherwise the error of one of these checks. */
  lemma EveryRoundRight(run: seq<State>, max: nat, n: nat, k: nat)
    requires IsRun(run, max) && n < |run| && k < |run[n].history|
    ensures RoundOk(run[n].history[k])
  {
    RunInv(run, max, n);
  }

  /** `nTodo` counts the checks that are queued or in some thread's batch. */
  lemma TodoExact(run: seq<State>, max: nat, n: nat)
    requires IsRun(run, max) && n < |run|
    ensures run[n].nTodo == |run[n].queue| + |InFlight(run[n].threads)|
    ensures run[n].nIdle == Idle(run[n].threads) && run[n].nTotal == Entered(run[n].threads)
  {
    RunInv(run, max, n);
  }

  /** While the master waits and has not been notified, some worker holds a batch, the end of which is still
      to come. */
  lemma MasterNotForgotten(run: seq<State>, max: nat, n: nat)
    requires IsRun(run, max) && n < |run|
    requires |run[n].threads| > 0 && run[n].threads[0].Waiting? && !run[n].threads[0].notified
    ensures exists i :: 0 < i < |run[n].threads| && (run[n].threads[i].Executing? || run[n].threads[i].Executed?)
  {
    RunInv(run, max, n);
    var s := run[n];
    SomeoneHolds(s.threads);
  }

  lemma {:induction false} SomeoneHolds(threads: seq<Thread>)
    requires |InFlight(threads)| > 0
    ensures exists i :: 0 <= i < |threads| && (threads[i].Executing? || threads[i].Executed?)
  {
    var k := |threads| - 1;
    if threads[k].Executing? || threads[k].Executed? {
    } else {
      SomeoneHolds(threads[..k]);
      var i :| 0 <= i < k && (threads[..k][i].Executing? || threads[..k][i].Executed?);
      assert threads[i].Executing? || threads[i].Executed?;
    }
  }

  /** The lock regions never underflow a counter: whoever can take the lock can go through with it. */
  lemma LockAlwaysGoesThrough(run: seq<State>, max: nat, n: nat, i: nat)
    requires IsRun(run, max) && n < |run| && i < |run[n].threads|
    requires var t := run[n].threads[i]; t.Starting? || t.Executed? || t.Waiting?
    ensures exists s' :: LockStep(run[n], s', i, max)
  {
    RunInv(run, max, n);
    FreedInv(run[n], i);
    CleanUpCounts(run[n], i);
    assert LockStep(run[n], Decide(CleanUp(run[n], i), i, LocalAfter(run[n], i), max), i, max);
  }
}
