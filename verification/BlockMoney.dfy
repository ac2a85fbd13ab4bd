/** What a block does to the unspent outputs as a whole: the fees are all that is lost. */
module BlockMoney {
  import opened Basics
  import opened BlockAssembly

  /** The value of all unspent outputs. */
  ghost function Worth(v: View): int
    decreases v.Keys
  {
    if v.Keys == {} then 0
    else
      var o :| o in v.Keys;
      v[o] + Worth(v - {o})
  }

  lemma {:induction false} WorthSplits(v: View, o: Outpoint)
    requires o in v
    ensures Worth(v) == v[o] + Worth(v - {o})
    decreases v.Keys
  {
    var x :| x in v.Keys && Worth(v) == v[x] + Worth(v - {x});
    if x != o {
      WorthSplits(v - {x}, o);
      WorthSplits(v - {o}, x);
      assert v - {x} - {o} == v - {o} - {x};
    }
  }

  lemma WorthPut(v: View, o: Outpoint, value: int)
    requires o !in v
    ensures Worth(v[o := value]) == Worth(v) + value
  {
    WorthSplits(v[o := value], o);
    assert v[o := value] - {o} == v;
  }

  predicate DistinctInputs(t: Tx) {
    forall i, j :: 0 <= i < j < |t.inputs| ==> t.inputs[i] != t.inputs[j]
  }

  function SpentUpTo(t: Tx, n: nat): set<Outpoint>
    requires n <= |t.inputs|
  {
    set i | 0 <= i < n :: t.inputs[i]
  }

  lemma {:induction false} WorthSpent(v: View, t: Tx, n: nat)
    requires n <= |t.inputs| && DistinctInputs(t) && HaveInputs(v, t)
    ensures Worth(v - SpentUpTo(t, n)) == Worth(v) - ValueIn(v, t.inputs[..n])
  {
    if n == 0 {
      assert v - SpentUpTo(t, 0) == v;
    } else {
      var o := t.inputs[n - 1];
      WorthSpent(v, t, n - 1);
      assert SpentUpTo(t, n) == SpentUpTo(t, n - 1) + {o};
      WorthSplits(v - SpentUpTo(t, n - 1), o);
      assert v - SpentUpTo(t, n) == v - SpentUpTo(t, n - 1) - {o};
      assert t.inputs[..n][..n - 1] == t.inputs[..n - 1];
    }
  }

  function OutputsUpTo(t: Tx, n: nat): View
    requires n <= |t.outs|
  {
    map o | o in (set i | 0 <= i < n :: Outpoint(t.id, i)) :: t.outs[o.n]
  }

  lemma OutputsStep(v: View, t: Tx, n: nat)
    requires 0 < n <= |t.outs| && forall o :: o in v ==> o.txid != t.id
    ensures var w := v + OutputsUpTo(t, n - 1); var o := Outpoint(t.id, n - 1);
      o !in w && v + OutputsUpTo(t, n) == w[o := t.outs[n - 1]]
  {
    var w, o := v + OutputsUpTo(t, n - 1), Outpoint(t.id, n - 1);
    var next := OutputsUpTo(t, n);
    assert next.Keys == OutputsUpTo(t, n - 1).Keys + {o};
    assert v + next == w[o := t.outs[n - 1]];
  }

  lemma {:induction false} WorthCreated(v: View, t: Tx, n: nat)
    requires n <= |t.outs| && forall o :: o in v ==> o.txid != t.id
    ensures Worth(v + OutputsUpTo(t, n)) == Worth(v) + SumOf(t.outs[..n])
  {
    if n == 0 {
      assert v + OutputsUpTo(t, 0) == v;
    } else {
      WorthCreated(v, t, n - 1);
      OutputsStep(v, t, n);
      WorthPut(v + OutputsUpTo(t, n - 1), Outpoint(t.id, n - 1), t.outs[n - 1]);
      assert t.outs[..n][..n - 1] == t.outs[..n - 1];
    }
  }

  /** One transaction with available inputs and a new id costs exactly its fee. */
  lemma WorthApplied(v: View, t: Tx)
    requires HaveInputs(v, t) && DistinctInputs(t) && forall o :: o in v ==> o.txid != t.id
    ensures Worth(Apply(v, t)) == Worth(v) - Fee(v, t)
  {
    WorthSpent(v, t, |t.inputs|);
    assert t.inputs[..|t.inputs|] == t.inputs && SpentUpTo(t, |t.inputs|) == Spent(t);
    WorthCreated(v - Spent(t), t, |t.outs|);
    assert t.outs[..|t.outs|] == t.outs && OutputsUpTo(t, |t.outs|) == Outputs(t);
  }

  /** The outputs after some transactions are those from before and theirs. */
  lemma {:induction false} IdsInView(v: View, ts: seq<Tx>, o: Outpoint)
    requires o in ApplyAll(v, ts)
    ensures o in v || exists k :: 0 <= k < |ts| && ts[k].id == o.txid
  {
    ComesFrom(v, ts, o);
  }

  /** A block whose transactions are connected, have distinct ids that are not in the chain, and
      spend no output twice themselves takes exactly its fees from the unspent outputs. */
  lemma {:induction false} FeesAreAllThatIsLost(v: View, ts: seq<Tx>)
    requires Connected(v, ts) && forall i :: 0 <= i < |ts| ==> DistinctInputs(ts[i]) && !HaveCoins(v, ts[i].id)
    requires forall i, j :: 0 <= i < j < |ts| ==> ts[i].id != ts[j].id
    ensures Worth(ApplyAll(v, ts)) == Worth(v) - FeesOf(v, ts)
  {
    if ts != [] {
      var front, t := ts[..|ts| - 1], ts[|ts| - 1];
      ConnectedFront(v, ts);
      FeesAreAllThatIsLost(v, front);
      forall o | o in ApplyAll(v, front) ensures o.txid != t.id {
        IdsInView(v, front, o);
      }
      WorthApplied(ApplyAll(v, front), t);
    }
  }

  lemma ConnectedFront(v: View, ts: seq<Tx>)
    requires ts != [] && Connected(v, ts)
    ensures Connected(v, ts[..|ts| - 1]) && HaveInputs(ApplyAll(v, ts[..|ts| - 1]), ts[|ts| - 1])
  {
    var front := ts[..|ts| - 1];
    forall i | 0 <= i < |front| ensures HaveInputs(ApplyAll(v, front[..i]), front[i]) {
      assert front[..i] == ts[..i];
    }
  }
}
