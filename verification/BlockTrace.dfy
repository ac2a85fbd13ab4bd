/** The selection of transactions as a list of looks, one for each transaction taken off the heap
    (src/miner.cpp:294-377): which one is looked at, whether it is put in, and in which order. */
module BlockTrace {
  import opened Basics
  import opened BlockAssembly
  import SetFacts

  /** The transaction looked at, how many were in the block then, and whether fee rates came first. */
  datatype Look = Look(id: TxId, after: nat, byFee: bool)

  function SizeWith(before: seq<Tx>, t: Tx): nat {
    HEADER_SIZE + SizeOf(before) + t.size
  }

  function SigopsWith(p: Pool, e: Env, before: seq<Tx>, t: Tx): nat {
    HEADER_SIGOPS + SigopsOf(p.view, before, e) + t.sigops
  }

  /** The reasons that are found before the inputs are looked at: the size limit, the limit on
      signature operations, and being free past the minimum size in fee order. */
  predicate TurnedDown(p: Pool, e: Env, before: seq<Tx>, byFee: bool, t: Tx) {
    || SizeWith(before, t) >= e.maxSize
    || SigopsWith(p, e, before, t) >= MAX_BLOCK_SIGOPS
    || (byFee && e.free(t.id) && SizeWith(before, t) >= e.minSize)
  }

  /** All reasons: also an input that is not there, too many signature operations with those
      behind script hashes, and a failed check. */
  predicate LeftOut(p: Pool, e: Env, before: seq<Tx>, byFee: bool, t: Tx) {
    var view := ApplyAll(p.view, before);
    || TurnedDown(p, e, before, byFee, t)
    || (exists i :: 0 <= i < |t.inputs| && t.inputs[i] !in view)
    || SigopsWith(p, e, before, t) + e.p2shSigops(t, view) >= MAX_BLOCK_SIGOPS
    || !e.check(t, view)
  }

  /** Fee rates come first from here on: at the start, if no room is kept for priorities; else once
      a transaction that is not turned down reaches the end of that room, or has a priority that
      does not go in free of charge. */
  predicate SwitchesHere(p: Pool, e: Env, before: seq<Tx>, byFee: bool, t: Tx) {
    !TurnedDown(p, e, before, byFee, t) &&
    (SizeWith(before, t) >= e.prioritySize || !e.allowFree(e.priority(t.id)))
  }

  /** `j` has no greater fee rate than `i`, and with equal ones no greater priority; or the other
      way round. */
  predicate NotBetter(e: Env, byFee: bool, j: TxId, i: TxId) {
    if byFee then
      e.feeRate(j) <= e.feeRate(i) && (e.feeRate(j) == e.feeRate(i) ==> e.priority(j) <= e.priority(i))
    else
      e.priority(j) <= e.priority(i) && (e.priority(j) == e.priority(i) ==> e.feeRate(j) <= e.feeRate(i))
  }

  function LookedAt(log: seq<Look>): set<TxId> {
    set k | 0 <= k < |log| :: log[k].id
  }

  /** A transaction looked at is ready, and is put in at once or never. */
  ghost predicate Outcome(p: Pool, e: Env, block: seq<Tx>, l: Look) {
    && l.after <= |block| && Ready(p, block[..l.after], l.id)
    && (if LeftOut(p, e, block[..l.after], l.byFee, p.txs[l.id]) then l.id !in Ids(block)
        else l.after < |block| && block[l.after] == p.txs[l.id])
  }

  /** Of all that were ready and not looked at before, none is better. */
  ghost predicate InTurn(p: Pool, e: Env, block: seq<Tx>, log: seq<Look>, k: nat)
    requires k < |log| && log[k].after <= |block|
  {
    forall j :: Ready(p, block[..log[k].after], j) && j !in LookedAt(log[..k]) ==>
      NotBetter(e, log[k].byFee, j, log[k].id)
  }

  predicate Switched(p: Pool, e: Env, block: seq<Tx>, l: Look) {
    l.id in p.txs && l.after <= |block| && SwitchesHere(p, e, block[..l.after], l.byFee, p.txs[l.id])
  }

  /** The order after `k` looks. */
  function ByFeeAfter(p: Pool, e: Env, block: seq<Tx>, log: seq<Look>, k: nat): bool
    requires k <= |log|
  {
    if k == 0 then e.prioritySize == 0
    else ByFeeAfter(p, e, block, log, k - 1) || Switched(p, e, block, log[k - 1])
  }

  ghost predicate Outcomes(p: Pool, e: Env, block: seq<Tx>, log: seq<Look>) {
    forall k :: 0 <= k < |log| ==> Outcome(p, e, block, log[k])
  }

  /** No look after one that put a transaction in goes by the block from before. */
  predicate Advances(p: Pool, e: Env, block: seq<Tx>, log: seq<Look>) {
    && (forall k, m :: 0 <= k < m < |log| ==> log[k].after <= log[m].after && log[k].id != log[m].id)
    && (forall k, m :: 0 <= k < m < |log| && log[k].id in Ids(block) ==> log[k].after < log[m].after)
  }

  /** The order at every look is the one after the looks before. */
  predicate Flags(p: Pool, e: Env, block: seq<Tx>, log: seq<Look>) {
    forall k :: 0 <= k < |log| ==> log[k].byFee == ByFeeAfter(p, e, block, log, k)
  }

  /** The whole selection up to some point. */
  ghost predicate Trace(p: Pool, e: Env, block: seq<Tx>, log: seq<Look>) {
    && Outcomes(p, e, block, log) && Advances(p, e, block, log)
    && (forall k :: 0 <= k < |log| ==> log[k].after <= |block| && InTurn(p, e, block, log, k))
    && Flags(p, e, block, log) && Ids(block) <= LookedAt(log)
  }

  /** Nothing that is ready was left unlooked at. */
  ghost predicate Complete(p: Pool, block: seq<Tx>, log: seq<Look>) {
    forall i :: Ready(p, block, i) ==> i in LookedAt(log)
  }

  // ---- One more look ----

  lemma FirstReasons(p: Pool, s: State, t: Tx, e: Env)
    requires TotalsRight(p, s, e)
    ensures FirstLook(s, t, e) <==> !TurnedDown(p, e, s.block, s.byFee, t)
    ensures s.size + t.size == SizeWith(s.block, t) && s.sigops + t.sigops == SigopsWith(p, e, s.block, t)
  {
  }

  lemma AllReasons(p: Pool, s: State, t: Tx, e: Env)
    requires TotalsRight(p, s, e)
    ensures FirstLook(s, t, e) && SecondLook(s, t, e) <==> !LeftOut(p, e, s.block, s.byFee, t)
  {
    FirstReasons(p, s, t, e);
  }

  /** What a turn does, in terms of the reasons. */
  lemma ProcessOutcome(p: Pool, s: State, t: Tx, e: Env)
    requires TotalsRight(p, s, e)
    ensures Process(s, t, e).block == if LeftOut(p, e, s.block, s.byFee, t) then s.block else s.block + [t]
    ensures Process(s, t, e).byFee == (s.byFee || SwitchesHere(p, e, s.block, s.byFee, t))
  {
    FirstReasons(p, s, t, e);
    AllReasons(p, s, t, e);
  }

  lemma {:induction false} ByFeeStable(p: Pool, e: Env, block: seq<Tx>, more: seq<Tx>, log: seq<Look>, l: Look, k: nat)
    requires k <= |log| && block <= more && forall m :: 0 <= m < k ==> log[m].after <= |block|
    ensures ByFeeAfter(p, e, more, log + [l], k) == ByFeeAfter(p, e, block, log, k)
  {
    if k > 0 {
      ByFeeStable(p, e, block, more, log, l, k - 1);
      assert more[..log[k - 1].after] == block[..log[k - 1].after];
    }
  }

  lemma LookedAtMore(log: seq<Look>, l: Look)
    ensures LookedAt(log + [l]) == LookedAt(log) + {l.id}
  {
    assert (log + [l])[|log|] == l;
    forall k | 0 <= k < |log| ensures (log + [l])[k] == log[k] {}
  }

  lemma OutcomeStable(p: Pool, e: Env, block: seq<Tx>, more: seq<Tx>, l: Look)
    requires Outcome(p, e, block, l) && block <= more && (l.id in Ids(more) ==> l.id in Ids(block))
    ensures Outcome(p, e, more, l)
  {
    assert more[..l.after] == block[..l.after];
  }

  lemma InTurnStable(p: Pool, e: Env, block: seq<Tx>, more: seq<Tx>, log: seq<Look>, l: Look, k: nat)
    requires k < |log| && log[k].after <= |block| && block <= more && InTurn(p, e, block, log, k)
    ensures InTurn(p, e, more, log + [l], k)
  {
    assert more[..log[k].after] == block[..log[k].after];
    assert (log + [l])[..k] == log[..k];
  }

  /** The block after a look at `t` with `before` in it. */
  ghost predicate Extends(p: Pool, e: Env, before: seq<Tx>, byFee: bool, t: Tx, more: seq<Tx>) {
    more == if LeftOut(p, e, before, byFee, t) then before else before + [t]
  }

  lemma NewIds(p: Pool, e: Env, before: seq<Tx>, byFee: bool, t: Tx, more: seq<Tx>)
    requires Extends(p, e, before, byFee, t, more)
    ensures before <= more && Ids(more) <= Ids(before) + {t.id} && Ids(before) <= Ids(more)
  {
    IdsGrow(before, t);
  }

  lemma NextOutcomes(p: Pool, e: Env, block: seq<Tx>, log: seq<Look>, byFee: bool, t: Tx, more: seq<Tx>)
    requires Outcomes(p, e, block, log) && t.id in p.txs && p.txs[t.id] == t && t.id !in LookedAt(log)
    requires Ready(p, block, t.id) && Ids(block) <= LookedAt(log) && Extends(p, e, block, byFee, t, more)
    ensures Outcomes(p, e, more, log + [Look(t.id, |block|, byFee)])
  {
    var l := Look(t.id, |block|, byFee);
    NewIds(p, e, block, byFee, t, more);
    assert more[..|block|] == block;
    forall k | 0 <= k < |log| ensures Outcome(p, e, more, log[k]) {
      assert log[k].id in LookedAt(log);
      OutcomeStable(p, e, block, more, log[k]);
    }
    assert Outcome(p, e, more, l);
  }

  lemma NextAdvances(p: Pool, e: Env, block: seq<Tx>, log: seq<Look>, byFee: bool, t: Tx, more: seq<Tx>)
    requires Outcomes(p, e, block, log) && Advances(p, e, block, log) && t.id !in LookedAt(log)
    requires Extends(p, e, block, byFee, t, more)
    ensures Advances(p, e, more, log + [Look(t.id, |block|, byFee)])
  {
    NewIds(p, e, block, byFee, t, more);
    forall k | 0 <= k < |log|
      ensures log[k].id != t.id && log[k].after <= |block| && (log[k].id in Ids(more) ==> log[k].after < |block|)
    {
      assert log[k].id in LookedAt(log);
      assert Outcome(p, e, block, log[k]);
    }
  }

  /** One more look at the best of the transactions that are ready. */
  lemma NextTrace(p: Pool, e: Env, block: seq<Tx>, log: seq<Look>, byFee: bool, t: Tx, more: seq<Tx>)
    requires Trace(p, e, block, log) && byFee == ByFeeAfter(p, e, block, log, |log|)
    requires t.id in p.txs && p.txs[t.id] == t && t.id !in LookedAt(log) && Extends(p, e, block, byFee, t, more)
    requires Ready(p, block, t.id)
    requires forall j :: Ready(p, block, j) && j !in LookedAt(log) ==> NotBetter(e, byFee, j, t.id)
    ensures Trace(p, e, more, log + [Look(t.id, |block|, byFee)])
    ensures ByFeeAfter(p, e, more, log + [Look(t.id, |block|, byFee)], |log| + 1) ==
            (byFee || SwitchesHere(p, e, block, byFee, t))
  {
    var l := Look(t.id, |block|, byFee);
    NewIds(p, e, block, byFee, t, more);
    NextOutcomes(p, e, block, log, byFee, t, more);
    NextAdvances(p, e, block, log, byFee, t, more);
    LookedAtMore(log, l);
    NextInTurn(p, e, block, log, l, more);
    Before(p, e, block, log);
    NextFlags(p, e, block, log, l, more);
    FlagStays(p, e, block, more, log, l, |log|);
    LastFlag(p, e, block, more, log + [l], |log|);
  }

  lemma NextInTurn(p: Pool, e: Env, block: seq<Tx>, log: seq<Look>, l: Look, more: seq<Tx>)
    requires Outcomes(p, e, block, log) && block <= more && l.after == |block|
    requires forall k :: 0 <= k < |log| ==> log[k].after <= |block| && InTurn(p, e, block, log, k)
    requires forall j :: Ready(p, block, j) && j !in LookedAt(log) ==> NotBetter(e, l.byFee, j, l.id)
    ensures var logs := log + [l];
      forall k :: 0 <= k < |logs| ==> logs[k].after <= |more| && InTurn(p, e, more, logs, k)
  {
    var logs := log + [l];
    assert more[..|block|] == block && logs[..|log|] == log;
    forall k | 0 <= k < |logs| ensures logs[k].after <= |more| && InTurn(p, e, more, logs, k) {
      if k < |log| {
        assert Outcome(p, e, block, log[k]);
        InTurnStable(p, e, block, more, log, l, k);
      }
    }
  }

  lemma Before(p: Pool, e: Env, block: seq<Tx>, log: seq<Look>)
    requires Outcomes(p, e, block, log)
    ensures forall m :: 0 <= m < |log| ==> log[m].after <= |block|
  {
    forall m | 0 <= m < |log| ensures log[m].after <= |block| {
      assert Outcome(p, e, block, log[m]);
    }
  }

  lemma FlagStays(p: Pool, e: Env, block: seq<Tx>, more: seq<Tx>, log: seq<Look>, l: Look, k: nat)
    requires block <= more && (forall m :: 0 <= m < |log| ==> log[m].after <= |block|) && k <= |log|
    requires Flags(p, e, block, log) && l.byFee == ByFeeAfter(p, e, block, log, |log|)
    ensures (log + [l])[k].byFee == ByFeeAfter(p, e, more, log + [l], k)
  {
    ByFeeStable(p, e, block, more, log, l, k);
    assert k < |log| ==> log[k].byFee == ByFeeAfter(p, e, block, log, k);
  }

  lemma NextFlags(p: Pool, e: Env, block: seq<Tx>, log: seq<Look>, l: Look, more: seq<Tx>)
    requires block <= more && (forall m :: 0 <= m < |log| ==> log[m].after <= |block|)
    requires Flags(p, e, block, log) && l.byFee == ByFeeAfter(p, e, block, log, |log|)
    ensures Flags(p, e, more, log + [l])
  {
    var logs := log + [l];
    forall k | 0 <= k < |logs| ensures logs[k].byFee == ByFeeAfter(p, e, more, logs, k) {
      FlagStays(p, e, block, more, log, l, k);
    }
  }

  lemma LastFlag(p: Pool, e: Env, block: seq<Tx>, more: seq<Tx>, logs: seq<Look>, k: nat)
    requires k < |logs| && block <= more && logs[k].after == |block| && logs[k].id in p.txs
    ensures ByFeeAfter(p, e, more, logs, k + 1) ==
            (ByFeeAfter(p, e, more, logs, k) || SwitchesHere(p, e, block, logs[k].byFee, p.txs[logs[k].id]))
  {
    assert more[..|block|] == block;
  }

  // ---- The trace of the loop ----

  /** The trace goes with the state of the selection. */
  ghost predicate Traced(p: Pool, e: Env, s: State, log: seq<Look>) {
    Trace(p, e, s.block, log) && LookedAt(log) == s.popped && s.byFee == ByFeeAfter(p, e, s.block, log, |log|)
  }

  lemma TracedTurn(p: Pool, s: State, e: Env, k: nat, log: seq<Look>)
    requires WellFormed(p) && Inv(p, s, e) && Traced(p, e, s, log) && k < |s.heap| && s.heap[k] in p.txs
    requires forall j :: 0 <= j < |s.heap| ==> NotBetter(e, s.byFee, s.heap[j], s.heap[k])
    ensures Traced(p, e, Process(Pop(s, k), p.txs[s.heap[k]], e), log + [Look(s.heap[k], |s.block|, s.byFee)])
  {
    var t := p.txs[s.heap[k]];
    PopHeap(p, s, k);
    ProcessOutcome(p, Pop(s, k), t, e);
    HeapHasTheReady(p, s, e, s.heap[k]);
    NextTrace(p, e, s.block, log, s.byFee, t, Process(Pop(s, k), t, e).block);
    LookedAtMore(log, Look(t.id, |s.block|, s.byFee));
    ProcessPopped(Pop(s, k), t, e);
  }

  lemma HeapHasTheReady(p: Pool, s: State, e: Env, i: TxId)
    requires HeapRight(p, s) && forall j :: 0 <= j < |s.heap| ==> NotBetter(e, s.byFee, s.heap[j], i)
    ensures forall j :: Ready(p, s.block, j) && j !in s.popped ==> NotBetter(e, s.byFee, j, i)
  {
    forall j | Ready(p, s.block, j) && j !in s.popped ensures NotBetter(e, s.byFee, j, i) {
      assert j in InHeap(s.heap);
    }
  }

  lemma ProcessPopped(s: State, t: Tx, e: Env)
    ensures Process(s, t, e).popped == s.popped
  {
  }

  lemma TracedComplete(p: Pool, s: State, e: Env, log: seq<Look>)
    requires Inv(p, s, e) && Traced(p, e, s, log) && s.heap == []
    ensures Complete(p, s.block, log)
  {
    forall i | Ready(p, s.block, i) ensures i in LookedAt(log) {
      assert i in InHeap(s.heap) || i in s.popped;
    }
  }
}
