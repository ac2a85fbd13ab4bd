/** The script-check queue (src/checkqueue.h): the critical sections of CCheckQueue as functions
    on its shared fields, and the object that runs them under its mutex. */
module CheckQueue {
  import opened Basics
  import Nonlinear

  /** A check, identified by a number; what it returns when run is given by an oracle. */
  type Check = nat

  /** The fields the mutex protects. */
  datatype Shared = Shared(queue: seq<Check>, idle: int, total: int, allOk: bool, todo: int)

  /** How a critical section of Loop ends: by returning, by blocking on the condition variable,
      or with a batch to work on. */
  datatype Decision = Return(result: bool) | Block | Work(batch: seq<Check>, ok: bool)

  datatype Outcome = Outcome(shared: Shared, decision: Decision)

  /** How many checks to take (src/checkqueue.h:110). */
  function BatchCount(s: Shared, batchSize: nat): int {
    Max(1, Min(batchSize, |s.queue| / Max(1, s.total + s.idle + 1)))
  }

  /** The last `n` checks, last one first. */
  function FromBack(q: seq<Check>, n: nat): (r: seq<Check>)
    requires n <= |q|
    ensures |r| == n && multiset(r) == multiset(q[|q| - n..])
    ensures forall i :: 0 <= i < n ==> r[i] == q[|q| - 1 - i]
  {
    if n == 0 then []
    else
      assert q[|q| - n..] == [q[|q| - n]] + q[|q| - (n - 1)..];
      FromBack(q, n - 1) + [q[|q| - n]]
  }

  /** A batch has at least one check, no more than are queued and no more than allowed. */
  lemma BatchFits(s: Shared, batchSize: nat)
    requires s.queue != []
    ensures 1 <= BatchCount(s, batchSize) <= |s.queue|
    ensures BatchCount(s, batchSize) <= Max(1, batchSize)
  {
    QuotientFits(|s.queue|, Max(1, s.total + s.idle + 1));
  }

  /** Within that limit it is what each thread can have: no batch of more than one check takes
      more than the thread's share, and a batch below the limit could not be larger. */
  lemma BatchShare(s: Shared, batchSize: nat)
    requires s.total + s.idle >= 0
    ensures var n := BatchCount(s, batchSize); var threads := s.total + s.idle + 1;
      && (n > 1 ==> n * threads <= |s.queue|)
      && (n < batchSize ==> |s.queue| < (n + 1) * threads)
  {
    var n, threads := BatchCount(s, batchSize), s.total + s.idle + 1;
    var q := |s.queue| / threads;
    Nonlinear.DivMod(|s.queue|, threads);
    Nonlinear.MulAdd(q, 1, threads);
    if n > 1 {
      Nonlinear.MulLe(n, q, threads);
    }
    if n < batchSize {
      Nonlinear.MulLe(q + 1, n + 1, threads);
    }
  }

  lemma QuotientFits(n: nat, d: int)
    requires d >= 1
    ensures 0 <= n / d <= n
  {
  }

  /** The loop on an empty queue and the choice of a batch (src/checkqueue.h:91-119). */
  function Top(s: Shared, master: bool, batchSize: nat): Outcome {
    if s.queue == [] then
      if master && s.todo == 0 then Outcome(s.(total := s.total - 1, allOk := true), Return(s.allOk))
      else Outcome(s.(idle := s.idle + 1), Block)
    else
      BatchFits(s, batchSize);
      var n := BatchCount(s, batchSize);
      Outcome(s.(queue := s.queue[..|s.queue| - n]), Work(FromBack(s.queue, n), s.allOk))
  }

  /** Entering the loop (src/checkqueue.h:86-89). */
  function Enter(s: Shared): Shared {
    s.(total := s.total + 1)
  }

  /** Handing in a finished batch (src/checkqueue.h:80-82). */
  function Finish(s: Shared, count: nat, ok: bool): Shared {
    s.(allOk := s.allOk && ok, todo := s.todo - count)
  }

  function Woken(s: Shared): Shared {
    s.(idle := s.idle - 1)
  }

  /** src/checkqueue.h:146-158 */
  function Added(s: Shared, checks: seq<Check>): Shared {
    s.(queue := s.queue + checks, todo := s.todo + |checks|)
  }

  class Queue {
    var queue: seq<Check>
    var idle: int
    var total: int
    var allOk: bool
    var todo: int
    const batchSize: nat

    ghost function Abs(): Shared
      reads this
    {
      Shared(queue, idle, total, allOk, todo)
    }

    constructor (batchSize: nat)
      ensures Abs() == Shared([], 0, 0, true, 0) && this.batchSize == batchSize
    {
      this.batchSize := batchSize;
      queue, idle, total, allOk, todo := [], 0, 0, true, 0;
    }

    /** The checks are moved over one by one; the result says how many waiting workers to wake. */
    method Add(checks: seq<Check>) returns (wakeOne: bool, wakeAll: bool)
      modifies this
      ensures Abs() == Added(old(Abs()), checks)
      ensures wakeOne == (|checks| == 1) && wakeAll == (|checks| > 1)
    {
      ghost var q := queue;
      for i := 0 to |checks|
        invariant Abs() == old(Abs()).(queue := q + checks[..i])
      {
        queue := queue + [checks[i]];
      }
      assert q + checks[..|checks|] == q + checks;
      todo := todo + |checks|;
      wakeOne := |checks| == 1;
      wakeAll := |checks| > 1;
    }

    /** The critical section a thread runs when it enters the loop, hands in `count` checks
        with the verdict `ok`, or wakes up (src/checkqueue.h:78-120). */
    method EnterLoop(master: bool) returns (d: Decision)
      modifies this
      ensures Outcome(Abs(), d) == Top(Enter(old(Abs())), master, batchSize)
    {
      CountIn();
      d := LoopTop(master);
    }

    method CountIn()
      modifies this
      ensures Abs() == Enter(old(Abs()))
    {
      total := total + 1;
    }

    method FinishBatch(master: bool, count: nat, ok: bool) returns (d: Decision, wakeMaster: bool)
      modifies this
      ensures Outcome(Abs(), d) == Top(Finish(old(Abs()), count, ok), master, batchSize)
      ensures wakeMaster == (Finish(old(Abs()), count, ok).todo == 0 && !master)
    {
      wakeMaster := HandIn(master, count, ok);
      d := LoopTop(master);
    }

    /** src/checkqueue.h:80-84 */
    method HandIn(master: bool, count: nat, ok: bool) returns (wakeMaster: bool)
      modifies this
      ensures Abs() == Finish(old(Abs()), count, ok)
      ensures wakeMaster == (Abs().todo == 0 && !master)
    {
      allOk := allOk && ok;
      todo := todo - count;
      wakeMaster := todo == 0 && !master;
    }

    method WakeUp(master: bool) returns (d: Decision)
      modifies this
      ensures Outcome(Abs(), d) == Top(Woken(old(Abs())), master, batchSize)
    {
      Rouse();
      d := LoopTop(master);
    }

    method Rouse()
      modifies this
      ensures Abs() == Woken(old(Abs()))
    {
      idle := idle - 1;
    }

    method LoopTop(master: bool) returns (d: Decision)
      modifies this
      ensures Outcome(Abs(), d) == Top(old(Abs()), master, batchSize)
    {
      if |queue| == 0 {
        if master && todo == 0 {
          total := total - 1;
          d := Return(allOk);
          allOk := true;
        } else {
          idle := idle + 1;
          d := Block;
        }
      } else {
        BatchFits(Abs(), batchSize);
        var n := ChooseCount();
        var batch := TakeBack(n);
        d := Work(batch, allOk);
      }
    }

    /** src/checkqueue.h:110 */
    method ChooseCount() returns (n: int)
      ensures n == BatchCount(Abs(), batchSize)
    {
      var d := Max(1, total + idle + 1);
      n := Max(1, Min(batchSize, |queue| / d));
    }

    /** src/checkqueue.h:111-117 */
    method TakeBack(n: nat) returns (batch: seq<Check>)
      requires n <= |queue|
      modifies this`queue
      ensures batch == FromBack(old(queue), n) && queue == old(queue)[..|old(queue)| - n]
    {
      ghost var q := queue;
      batch := [];
      for i := 0 to n
        invariant |queue| == |q| - i && queue == q[..|q| - i] && batch == FromBack(q, i)
      {
        batch := batch + [queue[|queue| - 1]];
        queue := queue[..|queue| - 1];
      }
    }

    /** src/checkqueue.h:164-168 */
    method IsIdle() returns (r: bool)
      ensures r == Quiet(Abs())
    {
      r := total == idle && todo == 0 && allOk;
    }
  }

  predicate Quiet(s: Shared) {
    s.total == s.idle && s.todo == 0 && s.allOk
  }
}
