/** What the trace of a selection says about the block: why a transaction is missing from it, in
    which order transactions stand, and when everything goes in. */
module BlockChoice {
  import opened Basics
  import opened BlockAssembly
  import opened BlockTrace
  import SetFacts

  // ---- Why a transaction is missing ----

  ghost predicate LeftOutAt(p: Pool, e: Env, block: seq<Tx>, n: nat, byFee: bool, i: TxId) {
    n <= |block| && i in p.txs && LeftOut(p, e, block[..n], byFee, p.txs[i])
  }

  lemma PutInOrLeftOut(p: Pool, e: Env, block: seq<Tx>, l: Look)
    requires WellFormed(p) && Outcome(p, e, block, l)
    ensures l.id in Ids(block) || LeftOutAt(p, e, block, l.after, l.byFee, l.id)
  {
  }

  lemma WhereLooked(log: seq<Look>, i: TxId) returns (k: nat)
    requires i in LookedAt(log)
    ensures k < |log| && log[k].id == i
  {
    k :| 0 <= k < |log| && log[k].id == i;
  }

  /** A final transaction that connects and whose pool parents are all in the block is missing only
      if one of the reasons held for it after some number of the block's transactions. */
  lemma MissingForAReason(p: Pool, e: Env, block: seq<Tx>, log: seq<Look>, i: TxId)
    requires WellFormed(p) && Outcomes(p, e, block, log) && Complete(p, block, log)
    requires Ready(p, block, i) && i !in Ids(block)
    ensures exists n: nat, byFee :: LeftOutAt(p, e, block, n, byFee, i)
  {
    var k := WhereLooked(log, i);
    PutInOrLeftOut(p, e, block, log[k]);
  }

  // ---- The order in the block ----

  lemma {:induction false} FeesFromTheStart(p: Pool, e: Env, block: seq<Tx>, log: seq<Look>, k: nat)
    requires k <= |log| && e.prioritySize == 0
    ensures ByFeeAfter(p, e, block, log, k)
  {
    if k > 0 { FeesFromTheStart(p, e, block, log, k - 1); }
  }

  /** The look that put a transaction in. */
  lemma LookFor(p: Pool, e: Env, block: seq<Tx>, log: seq<Look>, i: nat) returns (k: nat)
    requires WellFormed(p) && Trace(p, e, block, log) && i < |block|
    requires forall a, b :: 0 <= a < b < |block| ==> block[a].id != block[b].id
    ensures k < |log| && log[k].id == block[i].id && log[k].after == i
  {
    assert block[i].id in Ids(block);
    k :| 0 <= k < |log| && log[k].id == block[i].id;
    assert Outcome(p, e, block, log[k]);
    assert block[log[k].after].id == block[i].id;
  }

  lemma DifferentLooks(p: Pool, e: Env, block: seq<Tx>, log: seq<Look>, x: nat, m: nat)
    requires Advances(p, e, block, log) && x < |log| && m < |log| && log[x].after != log[m].after
    ensures log[x].id != log[m].id
  {
    if x < m {
      assert log[x].id != log[m].id;
    } else {
      assert log[m].id != log[x].id;
    }
  }

  /** With no room kept for priorities, a transaction stands before all others that were ready at
      that point and have a smaller fee rate. */
  lemma OrderedByFee(p: Pool, e: Env, block: seq<Tx>, log: seq<Look>, i: nat, j: nat)
    requires WellFormed(p) && Trace(p, e, block, log) && e.prioritySize == 0 && i < j < |block|
    requires forall a, b :: 0 <= a < b < |block| ==> block[a].id != block[b].id
    requires Ready(p, block[..i], block[j].id)
    ensures e.feeRate(block[j].id) <= e.feeRate(block[i].id)
    ensures e.feeRate(block[j].id) == e.feeRate(block[i].id) ==> e.priority(block[j].id) <= e.priority(block[i].id)
  {
    var k := LookFor(p, e, block, log, i);
    var m := LookFor(p, e, block, log, j);
    FeesFromTheStart(p, e, block, log, k);
    forall x | 0 <= x < k ensures log[..k][x].id != block[j].id {
      assert log[x].after <= log[k].after;
      DifferentLooks(p, e, block, log, x, m);
    }
    assert InTurn(p, e, block, log, k);
  }

  // ---- When everything goes in ----

  ghost function SumOver(s: set<TxId>, f: TxId -> nat): nat {
    if s == {} then 0
    else
      var x :| x in s;
      f(x) + SumOver(s - {x}, f)
  }

  lemma {:induction false} SumSplits(s: set<TxId>, f: TxId -> nat, x: TxId)
    requires x in s
    ensures SumOver(s, f) == f(x) + SumOver(s - {x}, f)
    decreases s
  {
    var y :| y in s && SumOver(s, f) == f(y) + SumOver(s - {y}, f);
    if x != y {
      SumSplits(s - {y}, f, x);
      SumSplits(s - {x}, f, y);
      assert s - {y} - {x} == s - {x} - {y};
    }
  }

  lemma {:induction false} SumMonotone(a: set<TxId>, b: set<TxId>, f: TxId -> nat)
    requires a <= b
    ensures SumOver(a, f) <= SumOver(b, f)
    decreases a
  {
    if a != {} {
      var x :| x in a;
      SumSplits(a, f, x);
      SumSplits(b, f, x);
      SumMonotone(a - {x}, b - {x}, f);
    }
  }

  function SizeIn(p: Pool): TxId -> nat {
    i => if i in p.txs then p.txs[i].size else 0
  }

  /** `bound` is what a transaction can add to the signature operations in any view. */
  ghost predicate Bounds(p: Pool, e: Env, bound: TxId -> nat) {
    forall i, v :: i in p.final && i in p.txs ==> p.txs[i].sigops + e.p2shSigops(p.txs[i], v) <= bound(i)
  }

  /** All final transactions together stay below both limits, none is free and every check
      passes. */
  ghost predicate Unlimited(p: Pool, e: Env, bound: TxId -> nat) {
    && Bounds(p, e, bound)
    && HEADER_SIZE + SumOver(p.final, SizeIn(p)) < e.maxSize
    && HEADER_SIGOPS + SumOver(p.final, bound) < MAX_BLOCK_SIGOPS
    && (forall i :: i in p.final ==> !e.free(i))
    && (forall i, v :: i in p.final && i in p.txs ==> e.check(p.txs[i], v))
  }

  /** Every input of a final transaction is an unspent output of the chain, or an output of a
      transaction in the pool that is not in the chain; no two final ones spend the same. */
  ghost predicate Sound(p: Pool) {
    && NotInChain(p)
    && (forall i, n :: i in p.final && i in p.txs && 0 <= n < |p.txs[i].inputs| ==> Provided(p, p.txs[i].inputs[n]))
    && (forall i, j :: i in p.final && j in p.final && i in p.txs && j in p.txs && i != j ==>
          Spent(p.txs[i]) !! Spent(p.txs[j]))
  }

  predicate Provided(p: Pool, o: Outpoint) {
    o in p.view || (o.txid in p.txs && o.n < |p.txs[o.txid].outs|)
  }

  /** Different transactions of the pool that may go in. */
  ghost predicate Chosen(p: Pool, ts: seq<Tx>) {
    && (forall k :: 0 <= k < |ts| ==> ts[k].id in p.final && ts[k].id in p.txs && ts[k] == p.txs[ts[k].id])
    && (forall k, m :: 0 <= k < m < |ts| ==> ts[k].id != ts[m].id)
  }

  lemma LastIsNew(ts: seq<Tx>)
    requires ts != [] && forall k, m :: 0 <= k < m < |ts| ==> ts[k].id != ts[m].id
    ensures var front, t := ts[..|ts| - 1], ts[|ts| - 1];
      t.id !in Ids(front) && Ids(ts) == Ids(front) + {t.id} && Ids(ts) - {t.id} == Ids(front)
  {
    var front, t := ts[..|ts| - 1], ts[|ts| - 1];
    assert ts == front + [t];
    IdsGrow(front, t);
    forall k | 0 <= k < |front| ensures front[k].id != t.id {
      assert ts[k].id != ts[|ts| - 1].id;
    }
  }

  lemma {:induction false} ChosenSums(p: Pool, e: Env, ts: seq<Tx>, bound: TxId -> nat)
    requires Chosen(p, ts) && Bounds(p, e, bound)
    ensures SizeOf(ts) == SumOver(Ids(ts), SizeIn(p))
    ensures SigopsOf(p.view, ts, e) <= SumOver(Ids(ts), bound)
  {
    if ts == [] {
      assert Ids(ts) == {};
    } else {
      var front, t := ts[..|ts| - 1], ts[|ts| - 1];
      LastIsNew(ts);
      ChosenSums(p, e, front, bound);
      SumSplits(Ids(ts), SizeIn(p), t.id);
      SumSplits(Ids(ts), bound, t.id);
    }
  }

  lemma ThereIsRoom(p: Pool, e: Env, ts: seq<Tx>, t: Tx, bound: TxId -> nat)
    requires Unlimited(p, e, bound) && Chosen(p, ts + [t])
    ensures SizeWith(ts, t) < e.maxSize
    ensures SigopsWith(p, e, ts, t) + e.p2shSigops(t, ApplyAll(p.view, ts)) < MAX_BLOCK_SIGOPS
  {
    var all := ts + [t];
    assert all[..|all| - 1] == ts;
    ChosenSums(p, e, all, bound);
    forall i | i in Ids(all) ensures i in p.final {
    }
    SumMonotone(Ids(all), p.final, SizeIn(p));
    SumMonotone(Ids(all), p.final, bound);
  }

  /** An output that is there or created, and that nothing spends, is there in the end. */
  lemma {:induction false} StaysAvailable(v: View, ts: seq<Tx>, o: Outpoint)
    requires o in v || exists k :: 0 <= k < |ts| && o in Outputs(ts[k])
    requires forall k :: 0 <= k < |ts| ==> o !in Spent(ts[k])
    ensures o in ApplyAll(v, ts)
  {
    if ts != [] && o !in Outputs(ts[|ts| - 1]) {
      var front := ts[..|ts| - 1];
      if o !in v {
        var k :| 0 <= k < |ts| && o in Outputs(ts[k]);
        assert front[k] == ts[k];
      }
      assert o !in Spent(ts[|ts| - 1]);
      StaysAvailable(v, front, o);
    }
  }

  lemma InputsAreThere(p: Pool, ts: seq<Tx>, t: Tx)
    requires WellFormed(p) && Sound(p) && Chosen(p, ts + [t]) && Ready(p, ts, t.id)
    ensures HaveInputs(ApplyAll(p.view, ts), t)
  {
    var all := ts + [t];
    assert all[|ts|] == t;
    forall k | 0 <= k < |ts| ensures ts[k].id in p.txs && ts[k] == p.txs[ts[k].id] && ts[k].id in p.final {
      assert all[k] == ts[k];
    }
    forall n | 0 <= n < |t.inputs| ensures t.inputs[n] in ApplyAll(p.view, ts) {
      var o := t.inputs[n];
      assert Provided(p, p.txs[t.id].inputs[n]);
      if o !in p.view {
        ParentIsThere(p, ts, t, n);
      }
      forall k | 0 <= k < |ts| ensures o !in Spent(ts[k]) {
        assert all[k] == ts[k] && all[k].id != all[|ts|].id;
        assert o in Spent(p.txs[t.id]);
      }
      StaysAvailable(p.view, ts, o);
    }
  }

  lemma ParentIsThere(p: Pool, ts: seq<Tx>, t: Tx, n: nat)
    requires WellFormed(p) && Sound(p) && Ready(p, ts, t.id) && p.txs[t.id] == t && n < |t.inputs|
    requires forall k :: 0 <= k < |ts| ==> ts[k].id in p.txs && ts[k] == p.txs[ts[k].id]
    requires t.inputs[n] !in p.view && Provided(p, t.inputs[n])
    ensures exists k :: 0 <= k < |ts| && t.inputs[n] in Outputs(ts[k])
  {
    var o := t.inputs[n];
    assert o.txid in p.txs && !HaveCoins(p.view, o.txid);
    assert o.txid in Deps(p, t);
    var k :| 0 <= k < |ts| && ts[k].id == o.txid;
    assert o in Outputs(ts[k]);
  }

  /** Final transactions that connect, with all their pool ancestors, which `rank` orders. */
  ghost predicate Supported(p: Pool, a: set<TxId>, rank: TxId -> nat) {
    forall i :: i in a ==>
      && i in p.final && i in p.txs && Connects(p, p.txs[i])
      && forall h :: h in Deps(p, p.txs[i]) ==> h in a && rank(h) < rank(i)
  }

  lemma LookedPutsIn(p: Pool, e: Env, block: seq<Tx>, l: Look, bound: TxId -> nat)
    requires WellFormed(p) && Sound(p) && Unlimited(p, e, bound) && Chosen(p, block) && Outcome(p, e, block, l)
    ensures l.id in Ids(block)
  {
    var before, t := block[..l.after], p.txs[l.id];
    if LeftOut(p, e, before, l.byFee, t) {
      NotYetChosen(p, block, l);
      ThereIsRoom(p, e, before, t, bound);
      InputsAreThere(p, before, t);
      assert false;
    }
  }

  lemma NotYetChosen(p: Pool, block: seq<Tx>, l: Look)
    requires WellFormed(p) && Chosen(p, block) && l.after <= |block| && l.id !in Ids(block)
    requires l.id in p.final && l.id in p.txs
    ensures Chosen(p, block[..l.after] + [p.txs[l.id]])
  {
    forall k | 0 <= k < l.after ensures block[k].id != l.id {
      assert block[k].id in Ids(block);
    }
  }

  lemma {:induction false} GoesIn(p: Pool, e: Env, block: seq<Tx>, log: seq<Look>, bound: TxId -> nat,
                                  a: set<TxId>, rank: TxId -> nat, i: TxId)
    requires WellFormed(p) && Sound(p) && Unlimited(p, e, bound) && Chosen(p, block)
    requires Trace(p, e, block, log) && Complete(p, block, log) && Supported(p, a, rank) && i in a
    ensures i in Ids(block)
    decreases rank(i)
  {
    forall h | h in Deps(p, p.txs[i]) ensures h in Ids(block) {
      GoesIn(p, e, block, log, bound, a, rank, h);
    }
    assert Ready(p, block, i);
    assert i in LookedAt(log);
    var k :| 0 <= k < |log| && log[k].id == i;
    LookedPutsIn(p, e, block, log[k], bound);
  }

  /** Without limits in the way, and with sound inputs, every final transaction goes in that
      connects and whose pool ancestors do. */
  lemma EverythingGoesIn(p: Pool, e: Env, block: seq<Tx>, log: seq<Look>, bound: TxId -> nat,
                         a: set<TxId>, rank: TxId -> nat)
    requires WellFormed(p) && Sound(p) && Unlimited(p, e, bound) && Chosen(p, block)
    requires Trace(p, e, block, log) && Complete(p, block, log) && Supported(p, a, rank)
    ensures a <= Ids(block)
  {
    forall i | i in a ensures i in Ids(block) {
      GoesIn(p, e, block, log, bound, a, rank, i);
    }
  }
}
