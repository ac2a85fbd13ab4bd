/** A pool on which the selection of transactions reads an orphan it has removed
    (src/miner.cpp:222-251, 365-376). */
module BlockStray {
  import opened Basics
  import opened BlockAssembly
  import SetFacts

  const PARENT: Tx := Tx(1, [Outpoint(0, 0)], [5], 100, 0)

  /** Its first input waits for the parent, its second is nowhere to be found. */
  const CHILD: Tx := Tx(2, [Outpoint(1, 0), Outpoint(7, 0)], [5], 100, 0)

  const STRAY_POOL: Pool := Pool(map[1 := PARENT, 2 := CHILD], {1, 2}, map[Outpoint(0, 0) := 5])

  /** The state after the mempool has been gone through. */
  const COLLECTED: State :=
    State(STRAY_POOL.view, [], HEADER_SIZE, HEADER_SIGOPS, 0, false, [1], map[], map[1 := [2]], {}, false)

  lemma ChainView()
    ensures HaveCoins(STRAY_POOL.view, 0) && !HaveCoins(STRAY_POOL.view, 1) && !HaveCoins(STRAY_POOL.view, 7)
  {
    assert Outpoint(0, 0) in STRAY_POOL.view;
  }

  lemma ParentConnects()
    ensures Connects(STRAY_POOL, PARENT) && Deps(STRAY_POOL, PARENT) == {} && Registrations(STRAY_POOL, PARENT) == {}
  {
    ChainView();
  }

  lemma ChildIsPassedOver()
    ensures FirstMissing(STRAY_POOL, CHILD) == 1 && !Connects(STRAY_POOL, CHILD) && !MissesFirst(STRAY_POOL, CHILD)
    ensures Registrations(STRAY_POOL, CHILD) == {1}
  {
    ChainView();
    assert Missing(STRAY_POOL, CHILD.inputs[1].txid) && !Missing(STRAY_POOL, CHILD.inputs[0].txid);
    var n := FirstMissing(STRAY_POOL, CHILD);
    assert n == 1;
    assert CHILD.inputs[0].txid in DepsUpTo(STRAY_POOL, CHILD, 1);
  }

  /** Every limit is wide and no check fails. */
  ghost predicate Lenient(e: Env) {
    e.maxSize > 2000 && (forall i :: !e.free(i)) && (forall t, v :: e.p2shSigops(t, v) == 0 && e.check(t, v))
  }

  /** The collected state is as it should be, and putting the parent in reads the child's removed
      orphan. */
  lemma StrayIsRead(e: Env)
    requires Lenient(e)
    ensures WellFormed(STRAY_POOL) && HasStray(STRAY_POOL, 1) && Inv(STRAY_POOL, COLLECTED, e)
    ensures Process(Pop(COLLECTED, 0), PARENT, e).followed
  {
    ParentConnects();
    ChildIsPassedOver();
    assert STRAY_POOL.txs[1] == PARENT && STRAY_POOL.txs[2] == CHILD;
    CollectedBooks();
    assert Registered(STRAY_POOL, COLLECTED.dependers);
    FirstTurn(e);
  }

  lemma CollectedBooks()
    requires Connects(STRAY_POOL, PARENT) && Deps(STRAY_POOL, PARENT) == {} && Registrations(STRAY_POOL, PARENT) == {}
    requires !Connects(STRAY_POOL, CHILD) && Registrations(STRAY_POOL, CHILD) == {1}
    ensures WaitsRight(STRAY_POOL, COLLECTED) && WaitSets(STRAY_POOL, COLLECTED)
    ensures Registered(STRAY_POOL, COLLECTED.dependers) && HeapRight(STRAY_POOL, COLLECTED)
    ensures HasStray(STRAY_POOL, 1)
  {
    var p := STRAY_POOL;
    assert p.txs[1] == PARENT && p.txs[2] == CHILD;
    assert InHeap([1]) == {1} by { assert [1][0] == 1; }
    assert Ids([]) == {};
    forall h, o ensures o in At(COLLECTED.dependers, h) <==> IsRegistered(p, h, o) {
    }
  }

  lemma FirstTurn(e: Env)
    requires Lenient(e)
    ensures Process(Pop(COLLECTED, 0), PARENT, e).followed
  {
    var s := Pop(COLLECTED, 0);
    assert PARENT.inputs[0] in s.view;
    assert DependersOf(s, 1)[0] !in s.waiting;
  }
}
