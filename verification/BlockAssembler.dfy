/** The selection loop itself, on the structures it updates in place (src/miner.cpp:203-377). */
module BlockAssembler {
  import opened BlockAssembly
  import opened BlockCollect
  import opened BlockTrace
  import opened BlockChoice
  import SetFacts

  class Assembler {
    const pool: Pool
    const env: Env
    var view: View
    var block: seq<Tx>
    var size: nat
    var sigops: nat
    var fees: int
    var byFee: bool
    var heap: seq<TxId>
    var waiting: map<TxId, set<TxId>>
    var dependers: map<TxId, seq<TxId>>
    ghost var popped: set<TxId>
    /** One look for each transaction taken off the heap. */
    ghost var log: seq<Look>
    /** Whether the loop has read an orphan that was removed before; the source then reads freed memory. */
    var followed: bool

    ghost function Abs(): State
      reads this
    {
      State(view, block, size, sigops, fees, byFee, heap, waiting, dependers, popped, followed)
    }

    ghost predicate Valid()
      reads this
    {
      WellFormed(pool) && Inv(pool, Abs(), env)
    }

    /** The looks taken so far are those of a selection that has come to this state. */
    ghost predicate Logged()
      reads this
    {
      Traced(pool, env, Abs(), log)
    }

    /** The sums of src/miner.cpp:286-289 and the bookkeeping of src/miner.cpp:203-283. */
    constructor (pool: Pool, env: Env)
      requires WellFormed(pool)
      ensures Valid() && this.pool == pool && this.env == env && block == []
      ensures Logged() && log == []
    {
      this.pool, this.env := pool, env;
      view, block, size, sigops, fees := pool.view, [], HEADER_SIZE, HEADER_SIGOPS, 0;
      byFee := env.prioritySize == 0;
      heap, waiting, dependers, popped, followed := [], map[], map[], {}, false;
      log := [];
      new;
      Collect();
    }

    /** Going through the mempool (src/miner.cpp:210-283). */
    method Collect()
      requires WellFormed(pool) && heap == [] && waiting == map[] && dependers == map[] && popped == {} && !followed
      requires view == pool.view && block == [] && size == HEADER_SIZE && sigops == HEADER_SIGOPS && fees == 0
      modifies this`heap, this`waiting, this`dependers
      ensures Valid()
    {
      var todo := pool.txs.Keys;
      ghost var done: set<TxId> := {};
      while todo != {}
        invariant done + todo == pool.txs.Keys && done !! todo
        invariant Waits(pool, done, waiting) && WaitsFor(pool, waiting)
        invariant Registers(pool, done, dependers) && Heaps(pool, done, heap)
        decreases todo
      {
        var id :| id in todo;
        if id in pool.final {
          CollectOne(pool.txs[id], done);
        } else {
          HeapsStep(pool, done, heap, pool.txs[id]);
        }
        todo := todo - {id};
        done := done + {id};
      }
      assert done == pool.txs.Keys;
      Collected();
    }

    lemma Collected()
      requires WellFormed(pool) && popped == {} && !followed
      requires view == pool.view && block == [] && size == HEADER_SIZE && sigops == HEADER_SIGOPS && fees == 0
      requires Waits(pool, pool.txs.Keys, waiting) && WaitsFor(pool, waiting)
      requires Registers(pool, pool.txs.Keys, dependers) && Heaps(pool, pool.txs.Keys, heap)
      ensures Inv(pool, Abs(), env)
    {
      RegistersAll(pool, dependers);
      assert Ids([]) == {};
    }

    /** One transaction: it becomes an orphan as soon as an input has to wait
        (src/miner.cpp:217-282). */
    method CollectOne(t: Tx, ghost done: set<TxId>)
      requires t.id in pool.txs && pool.txs[t.id] == t && t.id in pool.final && t.id !in done
      requires Waits(pool, done, waiting) && WaitsFor(pool, waiting)
      requires Registers(pool, done, dependers) && Heaps(pool, done, heap)
      modifies this`heap, this`waiting, this`dependers
      ensures Waits(pool, done + {t.id}, waiting) && WaitsFor(pool, waiting)
      ensures Registers(pool, done + {t.id}, dependers) && Heaps(pool, done + {t.id}, heap)
    {
      HeapsStep(pool, done, heap, t);
      RegistersStep(pool, done, dependers, t);
      var missing, deps := RegisterInputs(t);
      if missing {
        return;
      }
      if deps != {} {
        waiting := waiting[t.id := deps];
      } else {
        heap := heap + [t.id];
      }
    }

    /** A missing input ends the matter; what was registered before it stays registered
        (src/miner.cpp:222-251). */
    method RegisterInputs(t: Tx) returns (missing: bool, deps: set<TxId>)
      modifies this`dependers
      ensures missing <==> !Connects(pool, t)
      ensures dependers == Register(pool, old(dependers), t, FirstMissing(pool, t))
      ensures missing ==> (dependers == old(dependers) <==> MissesFirst(pool, t))
      ensures !missing ==> deps == Deps(pool, t)
    {
      deps := {};
      ghost var before := dependers;
      LeavesNothing(pool, before, t);
      var n := 0;
      while n < |t.inputs|
        invariant n <= FirstMissing(pool, t)
        invariant dependers == Register(pool, before, t, n) && deps == DepsUpTo(pool, t, n)
      {
        DepsStep(pool, t, n);
        var h := t.inputs[n].txid;
        if !HaveCoins(pool.view, h) {
          if h !in pool.txs {
            return true, {};
          }
          dependers := dependers[h := (if h in dependers then dependers[h] else []) + [t.id]];
          deps := deps + {h};
        }
        n := n + 1;
      }
      missing := false;
    }

    /** Position of the best transaction on the heap in the current order. */
    method Front() returns (k: nat)
      requires heap != []
      ensures k < |heap| && forall j :: 0 <= j < |heap| ==> NotBetter(env, byFee, heap[j], heap[k])
    {
      k := 0;
      for n := 1 to |heap|
        invariant k < n && forall j :: 0 <= j < n ==> NotBetter(env, byFee, heap[j], heap[k])
      {
        if Less(env, byFee, heap[k], heap[n]) {
          k := n;
        }
      }
    }

    /** The orphans registered under `h` lose that dependency; those left with none go onto the
        heap (src/miner.cpp:365-376). An entry that is no orphan any more is a removed one. */
    method ReleaseDependers(h: TxId)
      modifies this`heap, this`waiting, this`followed
      ensures followed == (old(followed) || FollowsStray(old(Abs()), h))
      ensures var r := Release(old(waiting), old(heap), DependersOf(old(Abs()), h), h);
              waiting == r.waiting && heap == r.heap
    {
      if h in dependers {
        ReleaseAll(dependers[h], h);
      }
    }

    /** The loop over the dependers of `h`. */
    method ReleaseAll(ds: seq<TxId>, h: TxId)
      modifies this`heap, this`waiting, this`followed
      ensures followed == (old(followed) || StrayIn(old(waiting), ds))
      ensures var r := Release(old(waiting), old(heap), ds, h); waiting == r.waiting && heap == r.heap
    {
      ghost var w, hp, f := waiting, heap, followed;
      for k := 0 to |ds|
        invariant var r := Release(w, hp, ds[..k], h); waiting == r.waiting && heap == r.heap
        invariant followed == (f || StrayIn(w, ds[..k]))
      {
        assert ds[..k + 1][..k] == ds[..k];
        StrayNext(w, ds, k);
        ReleaseNext(ds[k], h);
      }
      assert ds[..|ds|] == ds;
    }

    method ReleaseNext(o: TxId, h: TxId)
      modifies this`heap, this`waiting, this`followed
      ensures followed == (old(followed) || o !in old(waiting))
      ensures o !in old(waiting) || old(waiting)[o] == {} ==> waiting == old(waiting) && heap == old(heap)
      ensures o in old(waiting) && old(waiting)[o] != {} ==>
        waiting == old(waiting)[o := old(waiting)[o] - {h}] &&
        heap == if old(waiting)[o] - {h} == {} then old(heap) + [o] else old(heap)
    {
      if o !in waiting {
        followed := true;
      } else if waiting[o] != {} {
        waiting := waiting[o := waiting[o] - {h}];
        if waiting[o] == {} {
          heap := heap + [o];
        }
      }
    }

    /** src/miner.cpp:348-376 */
    method Add(t: Tx, txSigops: nat)
      modifies this
      ensures Abs() == Include(old(Abs()), t, txSigops)
    {
      Append(t, txSigops);
      ReleaseDependers(t.id);
    }

    method Append(t: Tx, txSigops: nat)
      modifies this`fees, this`view, this`block, this`size, this`sigops
      ensures fees == old(fees) + Fee(old(view), t) && view == Apply(old(view), t)
      ensures block == old(block) + [t] && size == old(size) + t.size && sigops == old(sigops) + txSigops
    {
      fees := fees + ValueIn(view, t.inputs) - SumOf(t.outs);
      view := Apply(view, t);
      block := block + [t];
      size := size + t.size;
      sigops := sigops + txSigops;
    }

    /** What happens to a transaction taken off the heap (src/miner.cpp:303-376). */
    method Consider(t: Tx)
      modifies this
      ensures Abs() == Process(old(Abs()), t, env)
    {
      if size + t.size >= env.maxSize {
        return;
      }
      if sigops + t.sigops >= MAX_BLOCK_SIGOPS {
        return;
      }
      if byFee && env.free(t.id) && size + t.size >= env.minSize {
        return;
      }
      if !byFee && (size + t.size >= env.prioritySize || !env.allowFree(env.priority(t.id))) {
        byFee := true;
      }
      if !HaveInputs(view, t) {
        return;
      }
      var txSigops := t.sigops + env.p2shSigops(t, view);
      if sigops + txSigops >= MAX_BLOCK_SIGOPS {
        return;
      }
      if !env.check(t, view) {
        return;
      }
      Add(t, txSigops);
    }

    /** The loop of src/miner.cpp:294-377. It ends, since no transaction comes off the heap twice;
        what the source does once it has read a removed orphan is undefined, so it ends there too. */
    method Select()
      requires Valid() && Logged()
      modifies this
      ensures Valid() && Logged() && (followed || heap == [])
    {
      while heap != [] && !followed
        invariant Valid() && Logged()
        decreases |pool.final - popped|
      {
        Turn();
      }
    }

    /** The best transaction is taken off and looked at. It is put in if and only if there is no
        reason to leave it out; nothing on the heap is better in the order in force. */
    method Turn()
      requires Valid() && Logged() && heap != [] && !followed
      modifies this
      ensures Valid() && Logged() && |pool.final - popped| < |pool.final - old(popped)|
      ensures exists i :: i in old(heap) && TurnedTo(pool, env, old(Abs()), Abs(), i)
    {
      var k := Front();
      OneTurn(pool, Abs(), env, k, log);
      TurnShrinks(pool.final, popped, heap[k]);
      LookAt(k);
    }

    method LookAt(k: nat)
      requires k < |heap| && heap[k] in pool.txs
      modifies this
      ensures Abs() == Process(Pop(old(Abs()), k), pool.txs[old(heap)[k]], env)
      ensures log == old(log) + [Look(old(heap)[k], |old(block)|, old(byFee))]
    {
      ghost var more := log + [Look(heap[k], |block|, byFee)];
      var t := TakeOff(k);
      Consider(t);
      log := more;
    }

    method TakeOff(k: nat) returns (t: Tx)
      requires k < |heap| && heap[k] in pool.txs
      modifies this`heap, this`popped
      ensures Abs() == Pop(old(Abs()), k) && t == pool.txs[old(heap)[k]]
    {
      t := pool.txs[heap[k]];
      popped := popped + {heap[k]};
      heap := heap[..k] + heap[k + 1..];
    }
  }

  /** From `s` to `t` the transaction `i` was looked at. */
  ghost predicate TurnedTo(p: Pool, e: Env, s: State, t: State, i: TxId) {
    && i in p.txs
    && (forall j :: 0 <= j < |s.heap| ==> NotBetter(e, s.byFee, s.heap[j], i))
    && t.block == (if LeftOut(p, e, s.block, s.byFee, p.txs[i]) then s.block else s.block + [p.txs[i]])
    && t.byFee == (s.byFee || SwitchesHere(p, e, s.block, s.byFee, p.txs[i]))
  }

  lemma OneTurn(p: Pool, s: State, e: Env, k: nat, log: seq<Look>)
    requires WellFormed(p) && Inv(p, s, e) && Traced(p, e, s, log) && !s.followed && k < |s.heap|
    requires forall j :: 0 <= j < |s.heap| ==> NotBetter(e, s.byFee, s.heap[j], s.heap[k])
    ensures s.heap[k] in p.txs && s.heap[k] in p.final && s.heap[k] !in s.popped
    ensures var t := Process(Pop(s, k), p.txs[s.heap[k]], e);
      && Inv(p, t, e) && Traced(p, e, t, log + [Look(s.heap[k], |s.block|, s.byFee)])
      && t.popped == s.popped + {s.heap[k]} && TurnedTo(p, e, s, t, s.heap[k])
  {
    TurnKeeps(p, s, e, k);
    TracedTurn(p, s, e, k, log);
    PopKeeps(p, s, e, k);
    ProcessOutcome(p, Pop(s, k), p.txs[s.heap[k]], e);
  }

  lemma StrayNext(waiting: map<TxId, set<TxId>>, ds: seq<TxId>, k: nat)
    requires k < |ds|
    ensures StrayIn(waiting, ds[..k + 1]) <==> StrayIn(waiting, ds[..k]) || ds[k] !in waiting
  {
    if j :| 0 <= j < k && ds[..k][j] !in waiting {
      assert ds[..k + 1][j] !in waiting;
    }
    assert ds[..k + 1][k] == ds[k];
  }

  /** The order of the heap (src/miner.cpp:67-86). */
  predicate Less(env: Env, byFee: bool, a: TxId, b: TxId) {
    if byFee then
      if env.feeRate(a) == env.feeRate(b) then env.priority(a) < env.priority(b)
      else env.feeRate(a) < env.feeRate(b)
    else if env.priority(a) == env.priority(b) then env.feeRate(a) < env.feeRate(b)
    else env.priority(a) < env.priority(b)
  }

  lemma TurnShrinks(all: set<TxId>, popped: set<TxId>, x: TxId)
    requires x in all && x !in popped
    ensures |all - (popped + {x})| < |all - popped|
  {
    assert all - (popped + {x}) == (all - popped) - {x};
    SetFacts.CardinalityRemove(all - popped, x);
  }

  /** The block that is assembled from a pool, as it stands when the selection is complete or, with
      `followed`, when the source reads an orphan it has removed. The latter happens exactly when
      a transaction is put in under which one that was passed over is still registered. When it
      does not happen, a transaction whose parents are in is missing only for a reason, and without
      limits in the way nothing is. With no room for priorities the order is that of fee rates. */
  method CreateNewBlock(pool: Pool, env: Env)
    returns (block: seq<Tx>, fees: int, size: nat, sigops: nat, followed: bool, ghost log: seq<Look>)
    requires WellFormed(pool)
    ensures Connected(pool.view, block) && fees == FeesOf(pool.view, block)
    ensures size == HEADER_SIZE + SizeOf(block) && sigops == HEADER_SIGOPS + SigopsOf(pool.view, block, env)
    ensures block != [] ==> size < env.maxSize && sigops < MAX_BLOCK_SIGOPS
    ensures forall i :: 0 <= i < |block| ==> IsMember(pool, block[i])
    ensures forall i, j :: 0 <= i < j < |block| ==> block[i].id != block[j].id
    ensures forall i, h :: 0 <= i < |block| && h in Deps(pool, block[i]) ==>
      exists j :: 0 <= j < i && block[j].id == h
    ensures followed <==> exists i :: 0 <= i < |block| && HasStray(pool, block[i].id)
    ensures forall i :: 0 <= i < |block| - 1 ==> !HasStray(pool, block[i].id)
    ensures Trace(pool, env, block, log) && (!followed ==> Complete(pool, block, log))
    ensures !followed ==> forall i :: Ready(pool, block, i) && i !in Ids(block) ==>
      exists n: nat, byFee :: LeftOutAt(pool, env, block, n, byFee, i)
    ensures !followed && Sound(pool) ==> forall bound, a, rank ::
      Unlimited(pool, env, bound) && Supported(pool, a, rank) ==> a <= Ids(block)
    ensures env.prioritySize == 0 ==> forall i, j :: 0 <= i < j < |block| && Ready(pool, block[..i], block[j].id) ==>
      env.feeRate(block[j].id) <= env.feeRate(block[i].id)
  {
    var a := new Assembler(pool, env);
    a.Select();
    block, fees, size, sigops, followed := a.block, a.fees, a.size, a.sigops, a.followed;
    log := a.log;
    Members(pool, a.Abs(), env);
    Parents(pool, a.Abs(), env);
    FollowedMeans(pool, a.Abs());
    if !followed {
      TracedComplete(pool, a.Abs(), env, log);
    }
    Choices(pool, env, block, log, followed);
  }

  /** What the trace of the whole selection says about the block. */
  lemma Choices(p: Pool, e: Env, block: seq<Tx>, log: seq<Look>, followed: bool)
    requires WellFormed(p) && Trace(p, e, block, log) && (!followed ==> Complete(p, block, log))
    requires forall i :: 0 <= i < |block| ==> IsMember(p, block[i])
    requires forall i, j :: 0 <= i < j < |block| ==> block[i].id != block[j].id
    ensures !followed ==> forall i :: Ready(p, block, i) && i !in Ids(block) ==>
      exists n: nat, byFee :: LeftOutAt(p, e, block, n, byFee, i)
    ensures !followed && Sound(p) ==> forall bound, a, rank ::
      Unlimited(p, e, bound) && Supported(p, a, rank) ==> a <= Ids(block)
    ensures e.prioritySize == 0 ==> forall i, j :: 0 <= i < j < |block| && Ready(p, block[..i], block[j].id) ==>
      e.feeRate(block[j].id) <= e.feeRate(block[i].id)
  {
    if !followed {
      forall i | Ready(p, block, i) && i !in Ids(block)
        ensures exists n: nat, byFee :: LeftOutAt(p, e, block, n, byFee, i)
      {
        MissingForAReason(p, e, block, log, i);
      }
    }
    if !followed && Sound(p) {
      assert Chosen(p, block);
      forall bound, a, rank | Unlimited(p, e, bound) && Supported(p, a, rank) ensures a <= Ids(block) {
        EverythingGoesIn(p, e, block, log, bound, a, rank);
      }
    }
    if e.prioritySize == 0 {
      forall i, j | 0 <= i < j < |block| && Ready(p, block[..i], block[j].id)
        ensures e.feeRate(block[j].id) <= e.feeRate(block[i].id)
      {
        OrderedByFee(p, e, block, log, i, j);
      }
    }
  }

  lemma FollowedMeans(p: Pool, s: State)
    requires FollowRight(p, s)
    ensures s.followed <==> exists i :: 0 <= i < |s.block| && HasStray(p, s.block[i].id)
    ensures forall i :: 0 <= i < |s.block| - 1 ==> !HasStray(p, s.block[i].id)
  {
    if s.followed {
      assert HasStray(p, s.block[|s.block| - 1].id);
    }
  }

  predicate IsMember(p: Pool, t: Tx) {
    t.id in p.final && t.id in p.txs && t == p.txs[t.id] && Connects(p, t)
  }

  lemma Members(p: Pool, s: State, e: Env)
    requires Inv(p, s, e)
    ensures forall i :: 0 <= i < |s.block| ==> IsMember(p, s.block[i])
    ensures forall i, j :: 0 <= i < j < |s.block| ==> s.block[i].id != s.block[j].id
  {
    forall i | 0 <= i < |s.block| ensures Ready(p, s.block, s.block[i].id) {
      assert s.block[i].id in Ids(s.block);
      assert s.block[i].id in s.popped;
    }
  }

  lemma Parents(p: Pool, s: State, e: Env)
    requires Inv(p, s, e)
    ensures forall i, h :: 0 <= i < |s.block| && h in Deps(p, s.block[i]) ==>
      exists j :: 0 <= j < i && s.block[j].id == h
  {
    forall i, h | 0 <= i < |s.block| && h in Deps(p, s.block[i])
      ensures exists j :: 0 <= j < i && s.block[j].id == h
    {
      ParentsFirst(p, s, e, i, h);
    }
  }
}
