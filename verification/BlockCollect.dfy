/** Sorting the mempool into ready transactions and orphans (src/miner.cpp:203-283). */
module BlockCollect {
  import opened BlockAssembly
  import SetFacts

  /** The orphan `t` registered under the dependencies among its first `n` inputs, once per input. */
  function Register(p: Pool, d: map<TxId, seq<TxId>>, t: Tx, n: nat): map<TxId, seq<TxId>>
    requires n <= |t.inputs|
  {
    if n == 0 then d
    else
      var r := Register(p, d, t, n - 1);
      var h := t.inputs[n - 1].txid;
      if HaveCoins(p.view, h) then r
      else r[h := (if h in r then r[h] else []) + [t.id]]
  }

  lemma DepsStep(p: Pool, t: Tx, n: nat)
    requires n < |t.inputs|
    ensures DepsUpTo(p, t, n + 1) ==
            DepsUpTo(p, t, n) + if HaveCoins(p.view, t.inputs[n].txid) then {} else {t.inputs[n].txid}
  {
  }

  lemma {:induction false} RegisterAt(p: Pool, d: map<TxId, seq<TxId>>, t: Tx, n: nat, h: TxId, o: TxId)
    requires n <= |t.inputs|
    ensures o in At(Register(p, d, t, n), h) <==> o in At(d, h) || (o == t.id && h in DepsUpTo(p, t, n))
  {
    if n > 0 {
      RegisterAt(p, d, t, n - 1, h, o);
      DepsStep(p, t, n - 1);
    }
  }

  /** Every registration makes a list longer. */
  lemma {:induction false} RegisterGrows(p: Pool, d: map<TxId, seq<TxId>>, t: Tx, n: nat, h: TxId)
    requires n <= |t.inputs|
    ensures |At(Register(p, d, t, n), h)| >= |At(d, h)|
    ensures h in DepsUpTo(p, t, n) ==> |At(Register(p, d, t, n), h)| > |At(d, h)|
  {
    if n > 0 {
      RegisterGrows(p, d, t, n - 1, h);
      DepsStep(p, t, n - 1);
    }
  }

  lemma {:induction false} RegisterNothing(p: Pool, d: map<TxId, seq<TxId>>, t: Tx, n: nat)
    requires n <= |t.inputs| && forall i :: 0 <= i < n ==> HaveCoins(p.view, t.inputs[i].txid)
    ensures Register(p, d, t, n) == d
  {
    if n > 0 {
      RegisterNothing(p, d, t, n - 1);
    }
  }

  /** A transaction that is passed over leaves no registration behind if and only if every input
      before its first missing one is in the chain. */
  lemma LeavesNothing(p: Pool, d: map<TxId, seq<TxId>>, t: Tx)
    ensures Register(p, d, t, FirstMissing(p, t)) == d <==> MissesFirst(p, t)
  {
    var n := FirstMissing(p, t);
    if MissesFirst(p, t) {
      RegisterNothing(p, d, t, n);
    } else {
      var i :| 0 <= i < n && !HaveCoins(p.view, t.inputs[i].txid);
      assert t.inputs[i].txid in DepsUpTo(p, t, n);
      RegisterGrows(p, d, t, n, t.inputs[i].txid);
    }
  }

  /** The bookkeeping after the transactions `done` have been gone through. */
  ghost predicate Waits(p: Pool, done: set<TxId>, waiting: map<TxId, set<TxId>>) {
    forall i :: i in waiting <==> i in done && IsOrphan(p, i)
  }

  ghost predicate WaitsFor(p: Pool, waiting: map<TxId, set<TxId>>) {
    forall i :: i in waiting && i in p.txs ==> waiting[i] == Deps(p, p.txs[i])
  }

  ghost predicate Registers(p: Pool, done: set<TxId>, d: map<TxId, seq<TxId>>) {
    forall h, o :: o in At(d, h) <==> o in done && IsRegistered(p, h, o)
  }

  ghost predicate Heaps(p: Pool, done: set<TxId>, heap: seq<TxId>) {
    SetFacts.Distinct(heap) &&
    forall i :: i in InHeap(heap) <==>
      i in done && i in p.final && i in p.txs && Connects(p, p.txs[i]) && Deps(p, p.txs[i]) == {}
  }

  lemma RegistersStep(p: Pool, done: set<TxId>, d: map<TxId, seq<TxId>>, t: Tx)
    requires Registers(p, done, d) && t.id in p.txs && p.txs[t.id] == t && t.id in p.final && t.id !in done
    ensures Registers(p, done + {t.id}, Register(p, d, t, FirstMissing(p, t)))
  {
    var r := Register(p, d, t, FirstMissing(p, t));
    forall h, o ensures o in At(r, h) <==> o in done + {t.id} && IsRegistered(p, h, o) {
      RegisterAt(p, d, t, FirstMissing(p, t), h, o);
    }
  }

  lemma RegistersAll(p: Pool, d: map<TxId, seq<TxId>>)
    requires WellFormed(p) && Registers(p, p.txs.Keys, d)
    ensures Registered(p, d)
  {
  }

  lemma HeapsStep(p: Pool, done: set<TxId>, heap: seq<TxId>, t: Tx)
    requires Heaps(p, done, heap) && t.id in p.txs && p.txs[t.id] == t && t.id !in done
    ensures t.id in p.final && Connects(p, t) && Deps(p, t) == {} ==> Heaps(p, done + {t.id}, heap + [t.id])
    ensures t.id !in p.final || !Connects(p, t) || Deps(p, t) != {} ==> Heaps(p, done + {t.id}, heap)
  {
    HeapGrows(heap, t.id);
    assert t.id !in InHeap(heap);
    assert t.id !in heap;
  }
}
