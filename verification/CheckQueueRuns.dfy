/** The protocol around the script-check queue (src/checkqueue.h): one master and any number of
    workers, interleaved one critical section or one executed check at a time. */
module CheckQueueRuns {
  import opened CheckQueue

  /** Where a thread is between two of its critical sections. A working thread has gone through
      the first `done` checks of its batch; a waiting one may have been notified. */
  datatype Thread =
    | Outside
    | Working(batch: seq<Check>, done: nat, ok: bool)
    | Waiting(notified: bool)

  /** Thread 0 is the master. `added`, `ran` and `failed` record what happened since Wait last
      returned: the checks added, those executed, and those that returned false. */
  datatype State = State(shared: Shared, threads: seq<Thread>,
                         added: multiset<Check>, ran: multiset<Check>, failed: multiset<Check>)

  datatype Event =
    | AddEv(checks: seq<Check>, lucky: nat)
    | EnterEv(i: nat)
    | ExecEv(i: nat, result: bool)
    | FinishEv(i: nat)
    | WakeEv(i: nat)

  function Init(n: nat): (r: State)
    requires n > 0
    ensures |r.threads| == n
  {
    State(Shared([], 0, 0, true, 0), seq(n, _ => Outside), multiset{}, multiset{}, multiset{})
  }

  // ---- What the threads hold, summed ----

  function Sum(ts: seq<Thread>, f: Thread -> nat): nat {
    if ts == [] then 0 else f(ts[0]) + Sum(ts[1..], f)
  }

  function Union(ts: seq<Thread>, f: Thread -> multiset<Check>): multiset<Check> {
    if ts == [] then multiset{} else f(ts[0]) + Union(ts[1..], f)
  }

  function Present(t: Thread): nat { if t.Outside? then 0 else 1 }
  function Asleep(t: Thread): nat { if t.Waiting? then 1 else 0 }
  function Busy(t: Thread): nat { if t.Working? && t.batch != [] then 1 else 0 }

  /** The checks of a thread's batch, counted in nTodo until the batch is handed in. */
  function Held(t: Thread): multiset<Check> {
    if t.Working? then multiset(t.batch) else multiset{}
  }

  /** The checks of a thread's batch it has not come to yet. */
  function Rest(t: Thread): multiset<Check> {
    if t.Working? && t.done <= |t.batch| then multiset(t.batch[t.done..]) else multiset{}
  }

  lemma SumUpdate(ts: seq<Thread>, i: nat, t: Thread, f: Thread -> nat)
    requires i < |ts|
    ensures Sum(ts[i := t], f) == Sum(ts, f) - f(ts[i]) + f(t)
  {
    var us := ts[i := t];
    if i == 0 {
      assert us[1..] == ts[1..];
    } else {
      assert us[1..] == ts[1..][i - 1 := t];
      SumUpdate(ts[1..], i - 1, t, f);
    }
  }

  lemma UnionHas(ts: seq<Thread>, i: nat, f: Thread -> multiset<Check>)
    requires i < |ts|
    ensures f(ts[i]) <= Union(ts, f)
  {
    if i > 0 {
      UnionHas(ts[1..], i - 1, f);
    }
  }

  /** One thread's share, taken apart from the rest. */
  lemma Apart(ts: seq<Thread>, i: nat, f: Thread -> multiset<Check>)
    requires i < |ts| && f(Outside) == multiset{}
    ensures Union(ts, f) == Union(ts[i := Outside], f) + f(ts[i])
  {
    var us := ts[i := Outside];
    if i == 0 {
      assert us[1..] == ts[1..];
    } else {
      assert us[1..] == ts[1..][i - 1 := Outside];
      Apart(ts[1..], i - 1, f);
      Associate(f(ts[0]), Union(us[1..], f), f(ts[i]));
    }
  }

  lemma Associate(a: multiset<Check>, b: multiset<Check>, c: multiset<Check>)
    ensures a + (b + c) == (a + b) + c
  {
  }

  lemma Replaced(ts: seq<Thread>, i: nat, t: Thread, f: Thread -> multiset<Check>)
    requires i < |ts| && f(Outside) == multiset{}
    ensures Union(ts[i := t], f) == Union(ts[i := Outside], f) + f(t)
  {
    Apart(ts[i := t], i, f);
    assert ts[i := t][i := Outside] == ts[i := Outside];
  }

  /** Notifying changes no sum. */
  predicate Alike(ts: seq<Thread>, us: seq<Thread>) {
    |ts| == |us| && forall i :: 0 <= i < |ts| ==> ts[i] == us[i] || (ts[i].Waiting? && us[i].Waiting?)
  }

  lemma AlikeSum(ts: seq<Thread>, us: seq<Thread>, f: Thread -> nat)
    requires Alike(ts, us) && f(Waiting(true)) == f(Waiting(false))
    ensures Sum(ts, f) == Sum(us, f)
  {
    if ts != [] {
      assert ts[0].Waiting? ==> ts[0] == Waiting(true) || ts[0] == Waiting(false);
      assert us[0].Waiting? ==> us[0] == Waiting(true) || us[0] == Waiting(false);
      AlikeSum(ts[1..], us[1..], f);
    }
  }

  lemma AlikeUnion(ts: seq<Thread>, us: seq<Thread>, f: Thread -> multiset<Check>)
    requires Alike(ts, us) && f(Waiting(true)) == f(Waiting(false))
    ensures Union(ts, f) == Union(us, f)
  {
    if ts != [] {
      assert ts[0].Waiting? ==> ts[0] == Waiting(true) || ts[0] == Waiting(false);
      assert us[0].Waiting? ==> us[0] == Waiting(true) || us[0] == Waiting(false);
      AlikeUnion(ts[1..], us[1..], f);
    }
  }

  // ---- Steps ----

  function NotifyThread(ts: seq<Thread>, i: nat): (us: seq<Thread>)
    ensures Alike(ts, us)
  {
    if i < |ts| && ts[i].Waiting? then ts[i := Waiting(true)] else ts
  }

  /** notify_all on the workers' condition variable. */
  function NotifyWorkers(ts: seq<Thread>): (us: seq<Thread>)
    ensures Alike(ts, us) && (ts != [] ==> us[0] == ts[0])
  {
    seq(|ts|, i requires 0 <= i < |ts| => if i > 0 && ts[i].Waiting? then Waiting(true) else ts[i])
  }

  predicate WorkerAsleep(ts: seq<Thread>, i: nat) {
    0 < i < |ts| && ts[i] == Waiting(false)
  }

  /** Which steps the protocol allows. Only the master adds, and not while it is inside Wait; a
      notification goes to some sleeping worker if there is one; a wake-up may be spurious. */
  predicate Enabled(s: State, e: Event) {
    match e
    case AddEv(checks, lucky) =>
      s.threads != [] && s.threads[0].Outside? &&
      (|checks| == 1 && (exists w :: 0 < w < |s.threads| && WorkerAsleep(s.threads, w)) ==>
        WorkerAsleep(s.threads, lucky))
    case EnterEv(i) => i < |s.threads| && s.threads[i].Outside?
    case ExecEv(i, _) => i < |s.threads| && s.threads[i].Working? && s.threads[i].done < |s.threads[i].batch|
    case FinishEv(i) => i < |s.threads| && s.threads[i].Working? && s.threads[i].done == |s.threads[i].batch|
    case WakeEv(i) => i < |s.threads| && s.threads[i].Waiting?
  }

  function Wakes(ts: seq<Thread>, checks: seq<Check>, lucky: nat): (us: seq<Thread>)
    ensures Alike(ts, us) && (ts != [] && !ts[0].Waiting? ==> us[0] == ts[0])
  {
    if |checks| == 1 then NotifyThread(ts, lucky)
    else if |checks| > 1 then NotifyWorkers(ts)
    else ts
  }

  /** The rest of a critical section, run by thread `i` on the fields `sh` (src/checkqueue.h:91-119). */
  function Settle(s: State, i: nat, sh: Shared, batchSize: nat): (r: State)
    requires i < |s.threads|
    ensures |r.threads| == |s.threads|
  {
    var o := Top(sh, i == 0, batchSize);
    match o.decision
    case Return(_) => State(o.shared, s.threads[i := Outside], multiset{}, multiset{}, multiset{})
    case Block => s.(shared := o.shared, threads := s.threads[i := Waiting(false)])
    case Work(b, ok) => s.(shared := o.shared, threads := s.threads[i := Working(b, 0, ok)])
  }

  /** Executing one check of the batch, or skipping it after a failure (src/checkqueue.h:122-124). */
  function Exec(s: State, i: nat, result: bool): State
    requires Enabled(s, ExecEv(i, result))
  {
    var t := s.threads[i];
    var c := t.batch[t.done];
    if t.ok then
      s.(threads := s.threads[i := Working(t.batch, t.done + 1, result)],
         ran := s.ran + multiset{c},
         failed := if result then s.failed else s.failed + multiset{c})
    else s.(threads := s.threads[i := Working(t.batch, t.done + 1, false)])
  }

  /** The state after thread `i` hands in its batch: a worker that brings nTodo to zero notifies
      the master. */
  function HandedIn(s: State, i: nat): State
    requires Enabled(s, FinishEv(i))
  {
    var t := s.threads[i];
    var sh := Finish(s.shared, |t.batch|, t.ok);
    s.(shared := sh, threads := if sh.todo == 0 && i != 0 then NotifyThread(s.threads, 0) else s.threads)
  }

  function Next(s: State, e: Event, batchSize: nat): (r: State)
    requires Enabled(s, e)
    ensures |r.threads| == |s.threads|
  {
    match e
    case AddEv(checks, lucky) =>
      s.(shared := Added(s.shared, checks), threads := Wakes(s.threads, checks, lucky),
         added := s.added + multiset(checks))
    case EnterEv(i) => Settle(s, i, Enter(s.shared), batchSize)
    case ExecEv(i, result) => Exec(s, i, result)
    case FinishEv(i) => var h := HandedIn(s, i); Settle(h, i, h.shared, batchSize)
    case WakeEv(i) => Settle(s, i, Woken(s.shared), batchSize)
  }

  // ---- The invariant ----

  predicate Counts(s: State) {
    s.shared.total == Sum(s.threads, Present) &&
    s.shared.idle == Sum(s.threads, Asleep) &&
    s.shared.todo == |s.shared.queue| + |Union(s.threads, Held)|
  }

  predicate GoodBatch(t: Thread) {
    t.Working? ==> t.batch != [] && t.done <= |t.batch|
  }

  predicate Batches(ts: seq<Thread>) {
    forall i :: 0 <= i < |ts| ==> GoodBatch(ts[i])
  }

  predicate NotFailing(t: Thread) {
    t.Working? ==> t.ok
  }

  predicate AllFine(ts: seq<Thread>) {
    forall i :: 0 <= i < |ts| ==> NotFailing(ts[i])
  }

  function Unrun(s: State): multiset<Check> {
    multiset(s.shared.queue) + Union(s.threads, Rest)
  }

  predicate Ledger(s: State) {
    s.ran + Unrun(s) <= s.added &&
    Outstanding(s) <= s.added &&
    s.failed <= s.ran
  }

  /** As long as nothing failed, nothing was skipped; and the verdict is spread over fAllOk and
      the threads' own fOk. */
  predicate Verdict(s: State) {
    ((s.failed == multiset{}) <==> (s.shared.allOk && AllFine(s.threads))) &&
    (s.failed == multiset{} ==> s.added == s.ran + Unrun(s))
  }

  predicate MasterSafe(s: State) {
    s.threads != [] &&
    (s.threads[0].Waiting? ==> s.shared.queue == []) &&
    (s.threads[0] == Waiting(false) ==> s.shared.todo > 0)
  }

  predicate Inv(s: State) {
    Counts(s) && Batches(s.threads) && Ledger(s) && Verdict(s) && MasterSafe(s)
  }

  // ---- Small facts about the sums ----

  lemma RestWithinHeld(ts: seq<Thread>)
    ensures Union(ts, Rest) <= Union(ts, Held)
  {
    if ts != [] {
      RestWithinHeld(ts[1..]);
      var t := ts[0];
      if t.Working? && t.done <= |t.batch| {
        assert t.batch == t.batch[..t.done] + t.batch[t.done..];
      }
    }
  }

  lemma HeldNothing(ts: seq<Thread>, i: nat)
    requires Union(ts, Held) == multiset{} && Batches(ts) && i < |ts|
    ensures !ts[i].Working?
  {
    assert GoodBatch(ts[i]);
    if ts[i].Working? {
      BatchIsHeld(ts, i);
    }
  }

  lemma BatchIsHeld(ts: seq<Thread>, i: nat)
    requires i < |ts| && ts[i].Working? && ts[i].batch != []
    ensures Union(ts, Held) != multiset{}
  {
    UnionHas(ts, i, Held);
    assert ts[i].batch[0] in multiset(ts[i].batch);
  }

  lemma NobodyWorks(ts: seq<Thread>)
    requires |Union(ts, Held)| == 0 && Batches(ts)
    ensures AllFine(ts) && Union(ts, Rest) == multiset{}
  {
    RestWithinHeld(ts);
    forall i | 0 <= i < |ts| ensures NotFailing(ts[i]) {
      HeldNothing(ts, i);
    }
  }

  lemma SomeoneWorks(ts: seq<Thread>) returns (i: nat)
    requires |Union(ts, Held)| > 0
    ensures i < |ts| && ts[i].Working?
  {
    if ts[0].Working? {
      i := 0;
    } else {
      i := SomeoneWorks(ts[1..]);
      i := i + 1;
    }
  }

  lemma SplitBatch(q: seq<Check>, n: nat)
    requires n <= |q|
    ensures multiset(q) == multiset(q[..|q| - n]) + multiset(FromBack(q, n))
  {
    assert q == q[..|q| - n] + q[|q| - n..];
  }

  lemma ReplaceCounts(ts: seq<Thread>, i: nat, t: Thread)
    requires i < |ts|
    ensures Sum(ts[i := t], Present) == Sum(ts, Present) - Present(ts[i]) + Present(t)
    ensures Sum(ts[i := t], Asleep) == Sum(ts, Asleep) - Asleep(ts[i]) + Asleep(t)
  {
    SumUpdate(ts, i, t, Present);
    SumUpdate(ts, i, t, Asleep);
  }

  lemma NoBatch(ts: seq<Thread>, i: nat, t: Thread)
    requires i < |ts| && !t.Working?
    ensures Union(ts[i := t], Held) == Union(ts[i := Outside], Held)
    ensures Union(ts[i := t], Rest) == Union(ts[i := Outside], Rest)
  {
    Replaced(ts, i, t, Held);
    Replaced(ts, i, t, Rest);
  }

  /** A thread that was outside adds its share. */
  lemma Joined(ts: seq<Thread>, i: nat, t: Thread, f: Thread -> multiset<Check>)
    requires i < |ts| && ts[i].Outside? && f(Outside) == multiset{}
    ensures Union(ts[i := t], f) == Union(ts, f) + f(t)
  {
    assert ts[i := Outside] == ts;
    Replaced(ts, i, t, f);
  }

  lemma FreshShare(t: Thread)
    requires t.Working? && t.done == 0
    ensures Held(t) == multiset(t.batch) && Rest(t) == multiset(t.batch)
  {
    assert t.batch[0..] == t.batch;
  }

  lemma NewBatch(ts: seq<Thread>, i: nat, t: Thread)
    requires i < |ts| && ts[i].Outside? && t.Working? && t.done == 0
    ensures Union(ts[i := t], Held) == Union(ts, Held) + multiset(t.batch)
    ensures Union(ts[i := t], Rest) == Union(ts, Rest) + multiset(t.batch)
  {
    FreshShare(t);
    Joined(ts, i, t, Held);
    Joined(ts, i, t, Rest);
  }

  lemma DoneBatch(ts: seq<Thread>, i: nat)
    requires i < |ts| && ts[i].Working? && ts[i].done == |ts[i].batch|
    ensures Union(ts, Held) == Union(ts[i := Outside], Held) + multiset(ts[i].batch)
    ensures Union(ts, Rest) == Union(ts[i := Outside], Rest)
  {
    Apart(ts, i, Held);
    Apart(ts, i, Rest);
    assert ts[i].batch[ts[i].done..] == [];
  }

  lemma ReplaceGood(ts: seq<Thread>, i: nat, t: Thread)
    requires i < |ts| && Batches(ts) && GoodBatch(t)
    ensures Batches(ts[i := t])
  {
  }

  lemma ReplaceFine(ts: seq<Thread>, i: nat, t: Thread)
    requires i < |ts| && NotFailing(ts[i])
    ensures AllFine(ts[i := t]) <==> AllFine(ts) && NotFailing(t)
  {
    var us := ts[i := t];
    if AllFine(us) {
      assert us[i] == t;
      forall k | 0 <= k < |ts| ensures NotFailing(ts[k]) {
        assert k != i ==> us[k] == ts[k] && NotFailing(us[k]);
      }
    }
  }

  // ---- The rest of a critical section keeps the invariant ----

  lemma SettleReturn(m: State, s: State)
    requires Inv(m) && m.threads[0] == Outside
    requires m.shared.queue == [] && m.shared.todo == 0
    requires s == State(m.shared.(allOk := true), m.threads[0 := Outside], multiset{}, multiset{}, multiset{})
    ensures Inv(s)
  {
    assert m.threads[0 := Outside] == m.threads;
    NobodyWorks(m.threads);
  }

  lemma SettleBlock(m: State, i: nat, s: State)
    requires Inv(m) && i < |m.threads| && m.threads[i] == Outside
    requires m.shared.queue == [] && (i == 0 ==> m.shared.todo > 0)
    requires s == m.(shared := m.shared.(total := m.shared.total + 1, idle := m.shared.idle + 1),
                     threads := m.threads[i := Waiting(false)])
    ensures Inv(s)
  {
    ReplaceCounts(m.threads, i, Waiting(false));
    NoBatch(m.threads, i, Waiting(false));
    assert m.threads[i := Outside] == m.threads;
    ReplaceGood(m.threads, i, Waiting(false));
    ReplaceFine(m.threads, i, Waiting(false));
  }

  /** Moving checks from the queue into a batch keeps the ledger's sums. */
  lemma Moved(q: multiset<Check>, q1: multiset<Check>, b: multiset<Check>, u: multiset<Check>)
    requires q == q1 + b
    ensures q1 + (u + b) == q + u
  {
  }

  function Outstanding(s: State): multiset<Check> {
    multiset(s.shared.queue) + Union(s.threads, Held)
  }

  lemma WorkMoves(m: State, i: nat, n: nat, s: State)
    requires i < |m.threads| && m.threads[i] == Outside && n <= |m.shared.queue|
    requires s.shared.queue == m.shared.queue[..|m.shared.queue| - n]
    requires s.threads == m.threads[i := Working(FromBack(m.shared.queue, n), 0, m.shared.allOk)]
    ensures Outstanding(s) == Outstanding(m) && Unrun(s) == Unrun(m)
  {
    var t := s.threads[i];
    SplitBatch(m.shared.queue, n);
    NewBatch(m.threads, i, t);
    Moved(multiset(m.shared.queue), multiset(s.shared.queue), multiset(t.batch), Union(m.threads, Held));
    Moved(multiset(m.shared.queue), multiset(s.shared.queue), multiset(t.batch), Union(m.threads, Rest));
  }

  lemma OutstandingSize(s: State)
    ensures |Outstanding(s)| == |s.shared.queue| + |Union(s.threads, Held)|
  {
  }

  lemma WorkVerdict(m: State, i: nat, t: Thread, s: State)
    requires Ledger(m) && Verdict(m) && i < |m.threads| && m.threads[i] == Outside
    requires t.Working? && t.ok == m.shared.allOk && s.threads == m.threads[i := t]
    requires s.shared.allOk == m.shared.allOk && s.added == m.added && s.ran == m.ran && s.failed == m.failed
    requires Outstanding(s) == Outstanding(m) && Unrun(s) == Unrun(m)
    ensures Ledger(s) && Verdict(s)
  {
    ReplaceFine(m.threads, i, t);
  }

  lemma WorkCounts(m: State, i: nat, t: Thread, s: State)
    requires Counts(m) && Batches(m.threads) && i < |m.threads| && m.threads[i] == Outside
    requires t.Working? && GoodBatch(t) && s.threads == m.threads[i := t]
    requires s.shared.total == m.shared.total + 1 && s.shared.idle == m.shared.idle && s.shared.todo == m.shared.todo
    requires Outstanding(s) == Outstanding(m)
    ensures Counts(s) && Batches(s.threads)
  {
    OutstandingSize(m);
    OutstandingSize(s);
    ReplaceCounts(m.threads, i, t);
    ReplaceGood(m.threads, i, t);
  }

  lemma WorkMaster(m: State, i: nat, t: Thread, s: State)
    requires MasterSafe(m) && m.shared.queue != [] && i < |m.threads|
    requires t.Working? && s.threads == m.threads[i := t]
    ensures MasterSafe(s)
  {
  }

  lemma SettleWork(m: State, i: nat, sh: Shared, n: nat, s: State)
    requires Inv(m) && i < |m.threads| && m.threads[i] == Outside && sh == Enter(m.shared)
    requires Took(m, i, sh, n, s)
    ensures Inv(s)
  {
    WorkMoves(m, i, n, s);
    WorkVerdict(m, i, s.threads[i], s);
    WorkCounts(m, i, s.threads[i], s);
    WorkMaster(m, i, s.threads[i], s);
  }

  predicate Took(m: State, i: nat, sh: Shared, n: nat, s: State)
    requires i < |m.threads|
  {
    1 <= n <= |sh.queue| &&
    s == m.(shared := sh.(queue := sh.queue[..|sh.queue| - n]),
            threads := m.threads[i := Working(FromBack(sh.queue, n), 0, sh.allOk)])
  }

  function FoundNothing(m: State, i: nat, sh: Shared): State
    requires i < |m.threads|
  {
    if i == 0 && sh.todo == 0 then
      State(sh.(total := sh.total - 1, allOk := true), m.threads[0 := Outside], multiset{}, multiset{}, multiset{})
    else
      m.(shared := sh.(idle := sh.idle + 1), threads := m.threads[i := Waiting(false)])
  }

  /** Settle, case by case. */
  lemma SettleTakes(m: State, i: nat, sh: Shared, batchSize: nat) returns (n: nat)
    requires i < |m.threads| && sh.queue != []
    ensures Took(m, i, sh, n, Settle(m, i, sh, batchSize))
  {
    BatchFits(sh, batchSize);
    n := BatchCount(sh, batchSize);
  }

  lemma SettleFindsNothing(m: State, i: nat, sh: Shared, batchSize: nat)
    requires i < |m.threads| && sh.queue == []
    ensures Settle(m, i, sh, batchSize) == FoundNothing(m, i, sh)
  {
  }

  /** A thread that holds no batch and does not sleep enters the loop. */
  lemma SettleKeeps(m: State, i: nat, batchSize: nat)
    requires Inv(m) && i < |m.threads| && m.threads[i] == Outside
    ensures Inv(Settle(m, i, Enter(m.shared), batchSize))
  {
    SettleCases(m, i, Enter(m.shared), batchSize);
  }

  lemma SettleCases(m: State, i: nat, sh: Shared, batchSize: nat)
    requires Inv(m) && i < |m.threads| && m.threads[i] == Outside && sh == Enter(m.shared)
    ensures Inv(Settle(m, i, sh, batchSize))
  {
    if sh.queue != [] {
      var n := SettleTakes(m, i, sh, batchSize);
      SettleWork(m, i, sh, n, Settle(m, i, sh, batchSize));
    } else {
      SettleFindsNothing(m, i, sh, batchSize);
      SettleEmpty(m, i, sh, FoundNothing(m, i, sh));
    }
  }

  lemma SettleEmpty(m: State, i: nat, sh: Shared, s: State)
    requires Inv(m) && i < |m.threads| && m.threads[i] == Outside && sh == Enter(m.shared)
    requires sh.queue == [] && s == FoundNothing(m, i, sh)
    ensures Inv(s)
  {
    if i == 0 && m.shared.todo == 0 {
      SettleReturn(m, s);
    } else {
      SettleBlock(m, i, s);
    }
  }

  // ---- Leaving a batch or a sleep, as if to enter the loop anew ----

  function Leave(s: State, i: nat): State
    requires i < |s.threads|
  {
    s.(shared := s.shared.(total := s.shared.total - 1), threads := s.threads[i := Outside])
  }

  lemma Overwrite(ts: seq<Thread>, i: nat, t: Thread)
    requires i < |ts|
    ensures ts[i := Outside][i := t] == ts[i := t]
  {
  }

  lemma LeaveThenEnter(s: State, i: nat, batchSize: nat)
    requires i < |s.threads|
    ensures Settle(s, i, s.shared, batchSize) ==
            Settle(Leave(s, i), i, Enter(Leave(s, i).shared), batchSize)
  {
    var m := Leave(s, i);
    assert Enter(m.shared) == s.shared;
    match Top(s.shared, i == 0, batchSize).decision
    case Return(_) => Overwrite(s.threads, i, Outside);
    case Block => Overwrite(s.threads, i, Waiting(false));
    case Work(b, ok) => Overwrite(s.threads, i, Working(b, 0, ok));
  }

  lemma AwakeShares(ts: seq<Thread>, i: nat)
    requires i < |ts| && ts[i].Waiting?
    ensures Union(ts[i := Outside], Held) == Union(ts, Held) && Union(ts[i := Outside], Rest) == Union(ts, Rest)
    ensures AllFine(ts[i := Outside]) <==> AllFine(ts)
  {
    NoBatch(ts, i, ts[i]);
    assert ts[i := ts[i]] == ts;
    ReplaceFine(ts, i, Outside);
  }

  lemma AwakeCounts(s: State, i: nat, m: State)
    requires Counts(s) && Batches(s.threads) && i < |s.threads| && s.threads[i].Waiting?
    requires m == Leave(s.(shared := Woken(s.shared)), i)
    ensures Counts(m) && Batches(m.threads)
  {
    AwakeShares(s.threads, i);
    ReplaceCounts(s.threads, i, Outside);
    ReplaceGood(s.threads, i, Outside);
  }

  lemma LeaveAwake(s: State, i: nat)
    requires Inv(s) && i < |s.threads| && s.threads[i].Waiting?
    ensures Inv(Leave(s.(shared := Woken(s.shared)), i))
  {
    AwakeCounts(s, i, Leave(s.(shared := Woken(s.shared)), i));
    AwakeShares(s.threads, i);
  }

  /** Threads that differ in notifications only. */
  lemma AlikeSums(ts: seq<Thread>, us: seq<Thread>)
    requires Alike(ts, us)
    ensures Sum(ts, Present) == Sum(us, Present) && Sum(ts, Asleep) == Sum(us, Asleep)
    ensures Union(ts, Held) == Union(us, Held) && Union(ts, Rest) == Union(us, Rest)
    ensures Batches(ts) == Batches(us) && AllFine(ts) == AllFine(us)
  {
    AlikeSum(ts, us, Present);
    AlikeSum(ts, us, Asleep);
    AlikeUnion(ts, us, Held);
    AlikeUnion(ts, us, Rest);
    AlikeBatches(ts, us);
    AlikeBatches(us, ts);
  }

  lemma AlikeBatches(ts: seq<Thread>, us: seq<Thread>)
    requires Alike(ts, us)
    ensures Batches(ts) ==> Batches(us)
    ensures AllFine(ts) ==> AllFine(us)
  {
    if Batches(ts) {
      forall i | 0 <= i < |us| ensures GoodBatch(us[i]) {
        assert GoodBatch(ts[i]);
      }
    }
    if AllFine(ts) {
      forall i | 0 <= i < |us| ensures NotFailing(us[i]) {
        assert NotFailing(ts[i]);
      }
    }
  }

  /** The part of the invariant that notifications do not touch. */
  predicate Books(s: State) {
    Counts(s) && Batches(s.threads) && Ledger(s) && Verdict(s)
  }

  lemma NotifyKeepsBooks(s: State, us: seq<Thread>)
    requires Books(s) && Alike(s.threads, us)
    ensures Books(s.(threads := us))
  {
    AlikeSums(s.threads, us);
  }

  lemma FineApart(ts: seq<Thread>, i: nat)
    requires i < |ts|
    ensures AllFine(ts) <==> AllFine(ts[i := Outside]) && NotFailing(ts[i])
  {
    var us := ts[i := Outside];
    ReplaceFine(us, i, ts[i]);
    assert us[i := ts[i]] == ts;
  }

  lemma HandInMoves(s: State, i: nat)
    requires i < |s.threads| && s.threads[i].Working? && s.threads[i].done == |s.threads[i].batch|
    ensures Outstanding(Leave(s, i)) <= Outstanding(s) && Unrun(Leave(s, i)) == Unrun(s)
    ensures |Union(Leave(s, i).threads, Held)| == |Union(s.threads, Held)| - |s.threads[i].batch|
  {
    DoneBatch(s.threads, i);
  }

  lemma HandInKeepsBooks(s: State, i: nat)
    requires Books(s) && Enabled(s, FinishEv(i))
    ensures Books(Leave(s.(shared := Finish(s.shared, |s.threads[i].batch|, s.threads[i].ok)), i))
  {
    var t := s.threads[i];
    var h := s.(shared := Finish(s.shared, |t.batch|, t.ok));
    HandInMoves(h, i);
    ReplaceCounts(s.threads, i, Outside);
    ReplaceGood(s.threads, i, Outside);
    FineApart(s.threads, i);
  }

  lemma HandedInKeeps(s: State, i: nat)
    requires Inv(s) && Enabled(s, FinishEv(i))
    ensures Inv(Leave(HandedIn(s, i), i))
  {
    var t := s.threads[i];
    var sh := Finish(s.shared, |t.batch|, t.ok);
    HandInKeepsBooks(s, i);
    var m := Leave(s.(shared := sh), i);
    NotifyKeepsBooks(m, Leave(HandedIn(s, i), i).threads);
  }

  // ---- Executing a check ----

  lemma ExecHeld(s: State, i: nat, result: bool)
    requires Enabled(s, ExecEv(i, result))
    ensures Union(Exec(s, i, result).threads, Held) == Union(s.threads, Held)
  {
    Apart(s.threads, i, Held);
    Replaced(s.threads, i, Exec(s, i, result).threads[i], Held);
  }

  lemma ExecRest(ts: seq<Thread>, i: nat, u: Thread)
    requires i < |ts| && ts[i].Working? && ts[i].done < |ts[i].batch|
    requires u.Working? && u.batch == ts[i].batch && u.done == ts[i].done + 1
    ensures Union(ts, Rest) == Union(ts[i := u], Rest) + multiset{u.batch[ts[i].done]}
  {
    var t := ts[i];
    assert t.batch[t.done..] == [t.batch[t.done]] + t.batch[u.done..];
    assert Rest(t) == multiset{t.batch[t.done]} + Rest(u);
    Apart(ts, i, Rest);
    Replaced(ts, i, u, Rest);
  }

  lemma ExecMoves(s: State, i: nat, result: bool)
    requires Enabled(s, ExecEv(i, result))
    ensures Unrun(s) == Unrun(Exec(s, i, result)) + multiset{s.threads[i].batch[s.threads[i].done]}
    ensures Union(Exec(s, i, result).threads, Held) == Union(s.threads, Held)
  {
    ExecHeld(s, i, result);
    ExecRest(s.threads, i, Exec(s, i, result).threads[i]);
  }

  lemma ExecThread(s: State, i: nat, result: bool)
    requires Enabled(s, ExecEv(i, result)) && Counts(s) && Batches(s.threads)
    ensures Counts(Exec(s, i, result)) && Batches(Exec(s, i, result).threads)
  {
    var u := Exec(s, i, result).threads[i];
    ExecMoves(s, i, result);
    ReplaceCounts(s.threads, i, u);
    ReplaceGood(s.threads, i, u);
  }

  lemma ExecLedger(s: State, i: nat, result: bool)
    requires Enabled(s, ExecEv(i, result)) && Ledger(s)
    ensures Ledger(Exec(s, i, result))
  {
    ExecMoves(s, i, result);
    var t := s.threads[i];
    Shift(s.ran, Unrun(s), Unrun(Exec(s, i, result)), t.batch[t.done]);
  }

  lemma Shift(r: multiset<Check>, u: multiset<Check>, u1: multiset<Check>, c: Check)
    requires u == u1 + multiset{c}
    ensures (r + multiset{c}) + u1 == r + u && r + u1 <= r + u
  {
  }

  lemma ExecMaster(s: State, i: nat, result: bool)
    requires MasterSafe(s) && Enabled(s, ExecEv(i, result))
    ensures MasterSafe(Exec(s, i, result))
  {
  }

  lemma ExecFine(s: State, i: nat, result: bool)
    requires Enabled(s, ExecEv(i, result))
    ensures AllFine(Exec(s, i, result).threads) <==> AllFine(s.threads) && result
  {
    var s1 := Exec(s, i, result);
    FineApart(s.threads, i);
    FineApart(s1.threads, i);
    assert s1.threads[i := Outside] == s.threads[i := Outside];
  }

  lemma ExecFailed(s: State, i: nat, result: bool)
    requires Enabled(s, ExecEv(i, result))
    ensures Exec(s, i, result).failed == multiset{} <==> s.failed == multiset{} && (s.threads[i].ok ==> result)
  {
    if s.threads[i].ok && !result {
      assert s.threads[i].batch[s.threads[i].done] in Exec(s, i, result).failed;
    }
  }

  lemma ExecRan(s: State, i: nat, result: bool)
    requires Enabled(s, ExecEv(i, result)) && s.threads[i].ok
    ensures Exec(s, i, result).ran + Unrun(Exec(s, i, result)) == s.ran + Unrun(s)
  {
    ExecMoves(s, i, result);
    Shift(s.ran, Unrun(s), Unrun(Exec(s, i, result)), s.threads[i].batch[s.threads[i].done]);
  }

  lemma ExecVerdict(s: State, i: nat, result: bool)
    requires Enabled(s, ExecEv(i, result)) && Verdict(s)
    ensures Verdict(Exec(s, i, result))
  {
    ExecFine(s, i, result);
    ExecFailed(s, i, result);
    assert AllFine(s.threads) ==> NotFailing(s.threads[i]);
    if s.threads[i].ok {
      ExecRan(s, i, result);
    }
  }

  lemma ExecKeeps(s: State, i: nat, result: bool)
    requires Inv(s) && Enabled(s, ExecEv(i, result))
    ensures Inv(Exec(s, i, result))
  {
    ExecThread(s, i, result);
    ExecLedger(s, i, result);
    ExecVerdict(s, i, result);
    ExecMaster(s, i, result);
  }

  lemma AddKeeps(s: State, checks: seq<Check>, lucky: nat, batchSize: nat)
    requires Inv(s) && Enabled(s, AddEv(checks, lucky))
    ensures Inv(Next(s, AddEv(checks, lucky), batchSize))
  {
    AlikeSums(s.threads, Wakes(s.threads, checks, lucky));
  }

  // ---- Every step, every run ----

  predicate Section(e: Event) {
    e.EnterEv? || e.FinishEv? || e.WakeEv?
  }

  /** The state just before the top of the loop, with the thread counted out. */
  function Before(s: State, e: Event): (m: State)
    requires Enabled(s, e) && Section(e)
    ensures |m.threads| == |s.threads|
  {
    match e
    case EnterEv(i) => s
    case FinishEv(i) => Leave(HandedIn(s, i), i)
    case WakeEv(i) => Leave(s.(shared := Woken(s.shared)), i)
  }

  lemma BeforeKeeps(s: State, e: Event)
    requires Inv(s) && Enabled(s, e) && Section(e)
    ensures Inv(Before(s, e)) && Before(s, e).threads[e.i] == Outside
  {
    match e
    case EnterEv(i) =>
    case FinishEv(i) => HandedInKeeps(s, i);
    case WakeEv(i) => LeaveAwake(s, i);
  }

  lemma ThenSettles(s: State, e: Event, batchSize: nat)
    requires Enabled(s, e) && Section(e)
    ensures Next(s, e, batchSize) == Settle(Before(s, e), e.i, Enter(Before(s, e).shared), batchSize)
  {
    match e
    case EnterEv(i) =>
    case FinishEv(i) => LeaveThenEnter(HandedIn(s, i), i, batchSize);
    case WakeEv(i) => LeaveThenEnter(s.(shared := Woken(s.shared)), i, batchSize);
  }

  lemma StepKeeps(s: State, e: Event, batchSize: nat)
    requires Inv(s) && Enabled(s, e)
    ensures Inv(Next(s, e, batchSize))
  {
    match e
    case AddEv(checks, lucky) => AddKeeps(s, checks, lucky, batchSize);
    case ExecEv(i, result) => ExecKeeps(s, i, result);
    case _ =>
      BeforeKeeps(s, e);
      SettleKeeps(Before(s, e), e.i, batchSize);
      ThenSettles(s, e, batchSize);
  }

  predicate Legal(s: State, es: seq<Event>, batchSize: nat)
    decreases es
  {
    es == [] || (Enabled(s, es[0]) && Legal(Next(s, es[0], batchSize), es[1..], batchSize))
  }

  function After(s: State, es: seq<Event>, batchSize: nat): (r: State)
    requires Legal(s, es, batchSize)
    ensures |r.threads| == |s.threads|
    decreases es
  {
    if es == [] then s else After(Next(s, es[0], batchSize), es[1..], batchSize)
  }

  lemma InitHolds(n: nat)
    requires n > 0
    ensures Inv(Init(n))
  {
    NoOneIn(Init(n).threads);
  }

  lemma NoOneIn(ts: seq<Thread>)
    requires forall i :: 0 <= i < |ts| ==> ts[i] == Outside
    ensures Sum(ts, Present) == 0 && Sum(ts, Asleep) == 0
    ensures Union(ts, Held) == multiset{} && Union(ts, Rest) == multiset{}
  {
    if ts != [] {
      NoOneIn(ts[1..]);
    }
  }

  lemma {:induction false} KeepsGoing(s: State, es: seq<Event>, batchSize: nat)
    requires Inv(s) && Legal(s, es, batchSize)
    ensures Inv(After(s, es, batchSize))
    decreases es
  {
    if es != [] {
      StepKeeps(s, es[0], batchSize);
      KeepsGoing(Next(s, es[0], batchSize), es[1..], batchSize);
    }
  }

  /** The invariant holds after every interleaving of `n - 1` workers and the master. */
  lemma RunKeeps(n: nat, es: seq<Event>, batchSize: nat)
    requires n > 0 && Legal(Init(n), es, batchSize)
    ensures Inv(After(Init(n), es, batchSize))
  {
    InitHolds(n);
    KeepsGoing(Init(n), es, batchSize);
  }

  // ---- What the invariant gives ----

  lemma {:induction false} BusyOnes(ts: seq<Thread>)
    requires Batches(ts)
    ensures Sum(ts, Present) - Sum(ts, Asleep) == Sum(ts, Busy)
  {
    if ts != [] {
      assert GoodBatch(ts[0]);
      assert Batches(ts[1..]) by {
        forall i | 0 <= i < |ts| - 1 ensures GoodBatch(ts[1..][i]) {
          assert GoodBatch(ts[i + 1]);
        }
      }
      BusyOnes(ts[1..]);
    }
  }

  /** nTotal - nIdle is the number of threads holding a non-empty batch, and nTodo counts the
      queued checks and those in batches. */
  lemma CountersMean(n: nat, es: seq<Event>, batchSize: nat)
    requires n > 0 && Legal(Init(n), es, batchSize)
    ensures var s := After(Init(n), es, batchSize);
            s.shared.total - s.shared.idle == Sum(s.threads, Busy) &&
            s.shared.todo == |s.shared.queue| + |Union(s.threads, Held)|
  {
    RunKeeps(n, es, batchSize);
    BusyOnes(After(Init(n), es, batchSize).threads);
  }

  /** What thread `i` decides at the end of the critical section of an event. */
  function Decided(s: State, e: Event, batchSize: nat): Decision
    requires Enabled(s, e)
    requires Section(e)
  {
    match e
    case EnterEv(i) => Top(Enter(s.shared), i == 0, batchSize).decision
    case FinishEv(i) => Top(HandedIn(s, i).shared, i == 0, batchSize).decision
    case WakeEv(i) => Top(Woken(s.shared), i == 0, batchSize).decision
  }

  /** The state as it stands when the queue is found empty with nothing left to do. */
  lemma AllIsDone(m: State)
    requires Inv(m) && m.shared.queue == [] && m.shared.todo == 0
    ensures m.shared.allOk <==> m.failed == multiset{}
    ensures m.shared.allOk ==> m.ran == m.added
    ensures m.ran <= m.added && m.failed <= m.ran
  {
    NobodyWorks(m.threads);
  }

  lemma ReturnDecided(s: State, e: Event, batchSize: nat)
    requires Enabled(s, e) && Section(e) && Decided(s, e, batchSize).Return?
    ensures var m := Before(s, e);
            e.i == 0 && m.shared.queue == [] && m.shared.todo == 0 &&
            Decided(s, e, batchSize) == Return(m.shared.allOk)
  {
  }

  lemma RecordsKept(s: State, e: Event)
    requires Enabled(s, e) && Section(e)
    ensures var m := Before(s, e); m.added == s.added && m.ran == s.ran && m.failed == s.failed
  {
  }

  lemma ReturnResets(s: State, e: Event, batchSize: nat)
    requires Enabled(s, e) && Section(e) && Decided(s, e, batchSize).Return?
    ensures var t := Next(s, e, batchSize); t.added == multiset{} && t.threads[0] == Outside
  {
    ReturnDecided(s, e, batchSize);
    ThenSettles(s, e, batchSize);
  }

  /** Wait returns true only if exactly the checks added since the last return ran, each as often
      as it was added, and none returned false; it returns false only if one did. Either way the
      records start afresh and the queue is idle. */
  lemma WaitVerdict(n: nat, es: seq<Event>, e: Event, batchSize: nat)
    requires n > 0 && Legal(Init(n), es, batchSize)
    requires var s := After(Init(n), es, batchSize);
             Enabled(s, e) && Section(e) && Decided(s, e, batchSize).Return?
    ensures var s := After(Init(n), es, batchSize); var r := Decided(s, e, batchSize).result;
            (r <==> s.failed == multiset{}) && (r ==> s.ran == s.added) &&
            s.failed <= s.ran <= s.added && e.i == 0
    ensures var t := Next(After(Init(n), es, batchSize), e, batchSize);
            t.added == multiset{} && Quiet(t.shared) && t.threads[0] == Outside
  {
    RunKeeps(n, es, batchSize);
    var s := After(Init(n), es, batchSize);
    BeforeKeeps(s, e);
    ReturnDecided(s, e, batchSize);
    RecordsKept(s, e);
    AllIsDone(Before(s, e));
    ReturnResets(s, e, batchSize);
    StepKeeps(s, e, batchSize);
    IdleWhenUnused(Next(s, e, batchSize));
  }

  /** With nothing added since the last return, IsIdle answers true. */
  lemma IdleWhenUnused(s: State)
    requires Inv(s) && s.added == multiset{}
    ensures Quiet(s.shared)
  {
    OutstandingSize(s);
    assert |Outstanding(s)| == 0;
    BusyOnes(s.threads);
    NobodyWorks(s.threads);
    NotBusy(s.threads);
    assert s.failed == multiset{};
  }

  lemma NotBusy(ts: seq<Thread>)
    requires Batches(ts) && |Union(ts, Held)| == 0
    ensures Sum(ts, Busy) == 0
  {
    if ts != [] {
      HeldNothing(ts, 0);
      assert Batches(ts[1..]) by {
        forall i | 0 <= i < |ts| - 1 ensures GoodBatch(ts[1..][i]) {
          assert GoodBatch(ts[i + 1]);
        }
      }
      NotBusy(ts[1..]);
    }
  }

  /** The assert of CCheckQueueControl's constructor holds in every run, whenever the master has
      added nothing since its last Wait (src/checkqueue.h:183-190). */
  lemma ControlAssertHolds(n: nat, es: seq<Event>, batchSize: nat)
    requires n > 0 && Legal(Init(n), es, batchSize)
    requires After(Init(n), es, batchSize).added == multiset{}
    ensures Quiet(After(Init(n), es, batchSize).shared)
  {
    RunKeeps(n, es, batchSize);
    IdleWhenUnused(After(Init(n), es, batchSize));
  }

  // ---- Progress ----

  /** A step that does not depend on the master starting something or on a spurious wake-up. */
  predicate Progress(s: State, e: Event) {
    match e
    case AddEv(_, _) => false
    case EnterEv(i) => i != 0
    case ExecEv(_, _) => true
    case FinishEv(_) => true
    case WakeEv(i) => i < |s.threads| && s.threads[i] == Waiting(true)
  }

  predicate MasterOut(s: State) {
    s.threads != [] && s.threads[0].Outside?
  }

  /** While the master is inside Wait, some thread can go on: it is never left sleeping
      unsignalled with nothing outstanding, nor with work no one has taken. */
  lemma NeverStuck(n: nat, es: seq<Event>, batchSize: nat) returns (e: Event)
    requires n > 0 && Legal(Init(n), es, batchSize)
    requires !MasterOut(After(Init(n), es, batchSize))
    ensures Enabled(After(Init(n), es, batchSize), e) && Progress(After(Init(n), es, batchSize), e)
  {
    RunKeeps(n, es, batchSize);
    e := SomeoneGoesOn(After(Init(n), es, batchSize));
  }

  lemma SomeoneGoesOn(s: State) returns (e: Event)
    requires Inv(s) && !MasterOut(s)
    ensures Enabled(s, e) && Progress(s, e)
  {
    if s.threads[0] == Waiting(true) {
      return WakeEv(0);
    }
    var i := 0;
    if s.threads[0] == Waiting(false) {
      i := SomeoneWorks(s.threads);
    }
    assert GoodBatch(s.threads[i]);
    e := if s.threads[i].done < |s.threads[i].batch| then ExecEv(i, true) else FinishEv(i);
  }

  function Weight(t: Thread): nat {
    match t
    case Outside => 1
    case Waiting(notified) => if notified then 2 else 0
    case Working(b, done, _) => if done <= |b| then 3 + |b| - done else 3
  }

  function Measure(s: State): nat {
    4 * |s.shared.queue| + Sum(s.threads, Weight)
  }

  lemma SettleMeasure(m: State, i: nat, batchSize: nat)
    requires MasterSafe(m) && i < |m.threads| && m.threads[i] == Outside
    ensures var s := Settle(m, i, Enter(m.shared), batchSize);
            Measure(s) <= Measure(m) && (!s.threads[i].Outside? ==> Measure(s) < Measure(m))
  {
    var sh := Enter(m.shared);
    if sh.queue != [] {
      var n := SettleTakes(m, i, sh, batchSize);
      SumUpdate(m.threads, i, Working(FromBack(sh.queue, n), 0, sh.allOk), Weight);
    } else {
      SumUpdate(m.threads, i, Waiting(false), Weight);
      assert m.threads[i := Outside] == m.threads;
    }
  }

  lemma BeforeMeasure(s: State, e: Event)
    requires Enabled(s, e) && Section(e)
    ensures Measure(Before(s, e)) <= Measure(s) + if Progress(s, e) then 0 else 1
    ensures e.i == 0 && Progress(s, e) ==> Measure(Before(s, e)) < Measure(s)
    ensures e.WakeEv? && Progress(s, e) ==> Measure(Before(s, e)) < Measure(s)
  {
    match e
    case EnterEv(i) =>
    case FinishEv(i) =>
      var h := HandedIn(s, i);
      if s.threads[0].Waiting? {
        SumUpdate(s.threads, 0, Waiting(true), Weight);
      }
      SumUpdate(h.threads, i, Outside, Weight);
    case WakeEv(i) =>
      SumUpdate(s.threads, i, Outside, Weight);
  }

  lemma SettleStays(m: State, i: nat, sh: Shared, batchSize: nat)
    requires i < |m.threads| && (i != 0 || sh.todo > 0)
    ensures !Settle(m, i, sh, batchSize).threads[i].Outside?
  {
  }

  /** Whether thread `i` stays in the loop. */
  lemma StaysIn(s: State, e: Event, batchSize: nat)
    requires MasterSafe(s) && Enabled(s, e) && Section(e)
    requires e.i != 0 || s.threads[0] == Waiting(false)
    ensures !Next(s, e, batchSize).threads[e.i].Outside?
  {
    match e
    case EnterEv(i) => SettleStays(s, i, Enter(s.shared), batchSize);
    case FinishEv(i) => SettleStays(HandedIn(s, i), i, HandedIn(s, i).shared, batchSize);
    case WakeEv(i) => SettleStays(s, i, Woken(s.shared), batchSize);
  }

  lemma SectionMeasure(s: State, e: Event, batchSize: nat)
    requires Inv(s) && Enabled(s, e) && Section(e) && e != EnterEv(0)
    ensures Measure(Next(s, e, batchSize)) <= Measure(s)
    ensures Progress(s, e) ==> Measure(Next(s, e, batchSize)) < Measure(s)
  {
    BeforeKeeps(s, e);
    SectionSettles(s, e, Before(s, e), batchSize);
    BeforeMeasure(s, e);
    if e.i != 0 || s.threads[0] == Waiting(false) {
      StaysIn(s, e, batchSize);
    }
  }

  lemma SectionSettles(s: State, e: Event, m: State, batchSize: nat)
    requires Enabled(s, e) && Section(e) && m == Before(s, e)
    requires MasterSafe(m) && m.threads[e.i] == Outside
    ensures Measure(Next(s, e, batchSize)) <= Measure(m)
    ensures !Next(s, e, batchSize).threads[e.i].Outside? ==> Measure(Next(s, e, batchSize)) < Measure(m)
  {
    ThenSettles(s, e, batchSize);
    SettleMeasure(m, e.i, batchSize);
  }

  predicate MasterStarts(e: Event) {
    e.AddEv? || e == EnterEv(0)
  }

  lemma StepMeasure(s: State, e: Event, batchSize: nat)
    requires Inv(s) && Enabled(s, e) && !MasterStarts(e)
    ensures Measure(Next(s, e, batchSize)) <= Measure(s)
    ensures Progress(s, e) ==> Measure(Next(s, e, batchSize)) < Measure(s)
  {
    if e.ExecEv? {
      SumUpdate(s.threads, e.i, Exec(s, e.i, e.result).threads[e.i], Weight);
    } else {
      SectionMeasure(s, e, batchSize);
    }
  }

  function ProgressSteps(s: State, es: seq<Event>, batchSize: nat): nat
    requires Legal(s, es, batchSize)
    decreases es
  {
    if es == [] then 0
    else (if Progress(s, es[0]) then 1 else 0) + ProgressSteps(Next(s, es[0], batchSize), es[1..], batchSize)
  }

  /** Until the master starts something new, only boundedly many steps make progress; since one
      is always possible while the master is inside Wait, Wait returns. */
  lemma {:induction false} WaitEnds(s: State, es: seq<Event>, batchSize: nat)
    requires Inv(s) && Legal(s, es, batchSize)
    requires forall k :: 0 <= k < |es| ==> !MasterStarts(es[k])
    ensures ProgressSteps(s, es, batchSize) <= Measure(s)
    ensures ProgressSteps(s, es, batchSize) == Measure(s) ==> MasterOut(After(s, es, batchSize))
    decreases es
  {
    if es == [] {
      if Measure(s) == 0 && !MasterOut(s) {
        var e := SomeoneGoesOn(s);
        StepMeasure(s, e, batchSize);
      }
    } else {
      StepKeeps(s, es[0], batchSize);
      StepMeasure(s, es[0], batchSize);
      WaitEnds(Next(s, es[0], batchSize), es[1..], batchSize);
    }
  }
}
