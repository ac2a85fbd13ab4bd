/** The two sweeps of the consistency check over the slots of the address manager's tables
    (src/addrman.cpp:419-446), slot by slot. */
module AddrManSweep {
  import opened AddrManState
  import opened SetFacts

  /** Slots are visited bucket by bucket; (n, i) is the next one. */
  predicate Visited(slot: Slot, n: nat, i: nat) {
    slot.0 < n || (slot.0 == n && slot.1 < i)
  }

  // ---- The tried table ----

  function OwnSlot(s: State, id: int): Slot
    requires id in s.infos
  {
    TriedSlot(s.h, s.key, s.infos[id].service)
  }

  /** An occupied slot holds a tried entry whose slot it is. */
  predicate TriedCellOk(s: State, slot: Slot) {
    var id := At(s.triedTable, slot);
    id != EMPTY ==> id in s.infos && s.infos[id].inTried && OwnSlot(s, id) == slot
  }

  ghost predicate TriedCellsOk(s: State, n: nat, i: nat) {
    forall slot: Slot :: Visited(slot, n, i) && slot.1 < BUCKET_SIZE ==> TriedCellOk(s, slot)
  }

  /** The entry sits in its own slot. */
  predicate AtHome(s: State, id: int)
    requires id in s.infos
  {
    id != EMPTY && At(s.triedTable, OwnSlot(s, id)) == id
  }

  /** `left` are the tried ids not found in a slot visited so far. */
  ghost predicate TriedLeft(s: State, left: set<int>, n: nat, i: nat) {
    forall id :: id in left <==>
      id in s.infos && s.infos[id].inTried && !(Visited(OwnSlot(s, id), n, i) && AtHome(s, id))
  }

  /** What the check says of one occupied tried slot. */
  function TriedCode(h: Hasher, key: Key, infos: map<int, Info>, left: set<int>, id: int, n: nat, i: nat): int {
    if id !in left || id !in infos then -11
    else if TriedBucket(h, key, infos[id].service) != n then -17
    else if Position(h, key, false, n, infos[id].service) != i then -18
    else 0
  }

  lemma TriedCellEmpty(s: State, left: set<int>, n: nat, i: nat)
    requires TriedLeft(s, left, n, i) && TriedCellsOk(s, n, i) && At(s.triedTable, (n, i)) == EMPTY
    ensures TriedLeft(s, left, n, i + 1) && TriedCellsOk(s, n, i + 1)
  {
    forall slot: Slot | Visited(slot, n, i + 1) && slot.1 < BUCKET_SIZE ensures TriedCellOk(s, slot) {
      if slot != (n, i) {
        assert Visited(slot, n, i);
      }
    }
    forall id | id in s.infos && s.infos[id].inTried
      ensures Visited(OwnSlot(s, id), n, i + 1) && AtHome(s, id) <==> Visited(OwnSlot(s, id), n, i) && AtHome(s, id)
    {
    }
  }

  /** The code tells exactly whether an occupied slot is in order, and the id is then crossed out. */
  lemma TriedCellFull(s: State, left: set<int>, n: nat, i: nat)
    requires TriedLeft(s, left, n, i) && TriedCellsOk(s, n, i) && At(s.triedTable, (n, i)) != EMPTY
    ensures var id := At(s.triedTable, (n, i)); var code := TriedCode(s.h, s.key, s.infos, left, id, n, i);
            (code == 0 <==> TriedCellOk(s, (n, i))) &&
            (code == 0 ==> TriedLeft(s, left - {id}, n, i + 1) && TriedCellsOk(s, n, i + 1))
  {
    var id := At(s.triedTable, (n, i));
    if TriedCode(s.h, s.key, s.infos, left, id, n, i) == 0 {
      forall slot: Slot | Visited(slot, n, i + 1) && slot.1 < BUCKET_SIZE ensures TriedCellOk(s, slot) {
        if slot != (n, i) {
          assert Visited(slot, n, i);
        }
      }
      forall x | x in s.infos && s.infos[x].inTried && x != id
        ensures Visited(OwnSlot(s, x), n, i + 1) && AtHome(s, x) <==> Visited(OwnSlot(s, x), n, i) && AtHome(s, x)
      {
      }
    }
  }

  lemma TriedNextBucket(s: State, left: set<int>, n: nat)
    requires TriedLeft(s, left, n, BUCKET_SIZE)
    ensures TriedLeft(s, left, n + 1, 0)
  {
  }

  lemma TriedNextCells(s: State, n: nat)
    ensures TriedCellsOk(s, n, BUCKET_SIZE) <==> TriedCellsOk(s, n + 1, 0)
  {
    if TriedCellsOk(s, n, BUCKET_SIZE) {
      forall slot: Slot | Visited(slot, n + 1, 0) && slot.1 < BUCKET_SIZE ensures TriedCellOk(s, slot) {
        assert Visited(slot, n, BUCKET_SIZE);
      }
    }
    if TriedCellsOk(s, n + 1, 0) {
      forall slot: Slot | Visited(slot, n, BUCKET_SIZE) && slot.1 < BUCKET_SIZE ensures TriedCellOk(s, slot) {
        assert Visited(slot, n + 1, 0);
      }
    }
  }

  /** All tables fit the arrays they are kept in. */
  ghost predicate TablesFit(s: State) {
    (forall slot: Slot :: slot in s.triedTable ==> slot.0 < TRIED_BUCKET_COUNT && slot.1 < BUCKET_SIZE) &&
    (forall slot: Slot :: slot in s.newTable ==> slot.0 < NEW_BUCKET_COUNT && slot.1 < BUCKET_SIZE)
  }

  ghost predicate TriedGood(s: State) {
    TriedSlotsOk(s) && forall id :: id in s.infos && s.infos[id].inTried ==> id != EMPTY
  }

  lemma TriedCellsMean(s: State)
    requires TablesFit(s)
    ensures TriedCellsOk(s, TRIED_BUCKET_COUNT, 0) <==>
            forall slot: Slot :: slot in s.triedTable ==> TriedCellOk(s, slot)
  {
    if TriedCellsOk(s, TRIED_BUCKET_COUNT, 0) {
      forall slot: Slot | slot in s.triedTable ensures TriedCellOk(s, slot) {
        assert Visited(slot, TRIED_BUCKET_COUNT, 0);
      }
    }
  }

  /** Nothing wrong in any slot and nothing left over: the tried table is as it should be. */
  lemma TriedSweepMeans(s: State, left: set<int>)
    requires TablesFit(s) && TriedCellsOk(s, TRIED_BUCKET_COUNT, 0) && TriedLeft(s, left, TRIED_BUCKET_COUNT, 0)
    ensures left == {} <==> TriedGood(s)
  {
    TriedCellsMean(s);
    if left == {} {
      forall slot: Slot | slot in s.triedTable && s.triedTable[slot] != EMPTY ensures TriedCellOk(s, slot) {}
      forall id | id in s.infos && s.infos[id].inTried ensures AtHome(s, id) {
        assert id !in left;
      }
    }
    if TriedGood(s) && |left| > 0 {
      var id := PickOne(left);
    }
  }

  lemma TriedGoodCells(s: State)
    requires TablesFit(s) && TriedGood(s)
    ensures TriedCellsOk(s, TRIED_BUCKET_COUNT, 0)
  {
    forall slot: Slot | slot in s.triedTable ensures TriedCellOk(s, slot) {}
    TriedCellsMean(s);
  }

  // ---- The new table ----

  /** An occupied slot holds an untried entry at that entry's position. */
  predicate NewCellOk(s: State, slot: Slot) {
    var id := At(s.newTable, slot);
    id != EMPTY ==> id in s.infos && !s.infos[id].inTried && NewSlot(s.h, s.key, slot.0, s.infos[id].service) == slot
  }

  /** The buckets holding `id` in a slot visited so far. */
  function HoldingTo(s: State, id: int, n: nat, i: nat): set<nat>
    requires id in s.infos
  {
    set b | b in Holding(s.h, s.key, s.newTable, s.infos[id].service, id) && id != EMPTY
            && Visited(NewSlot(s.h, s.key, b, s.infos[id].service), n, i)
  }

  predicate IsUntried(s: State, id: int) {
    id in s.infos && !s.infos[id].inTried
  }

  /** No slot visited so far is out of order, and no entry has been found more often than it is
      referenced. */
  ghost predicate NewPasses(s: State, n: nat, i: nat) {
    (forall slot: Slot :: Visited(slot, n, i) && slot.0 < NEW_BUCKET_COUNT && slot.1 < BUCKET_SIZE ==>
      NewCellOk(s, slot)) &&
    (forall id :: IsUntried(s, id) ==> |HoldingTo(s, id, n, i)| <= s.infos[id].refCount)
  }

  /** `left` counts the references not found yet. */
  ghost predicate NewLeft(s: State, left: map<int, int>, n: nat, i: nat) {
    (forall id :: id in left ==> IsUntried(s, id) && left[id] == s.infos[id].refCount - |HoldingTo(s, id, n, i)| > 0) &&
    (forall id :: IsUntried(s, id) && id !in left ==> s.infos[id].refCount <= |HoldingTo(s, id, n, i)|)
  }

  function Lowered(left: map<int, int>, id: int): map<int, int>
    requires id in left
  {
    if left[id] == 1 then left - {id} else left[id := left[id] - 1]
  }

  /** What the check says of one occupied new slot. */
  function NewCode(h: Hasher, key: Key, infos: map<int, Info>, left: map<int, int>, id: int, n: nat, i: nat): int {
    if id !in left || id !in infos then -12
    else if Position(h, key, true, n, infos[id].service) != i then -19
    else 0
  }

  /** An entry not in the slot is found no more often with it. */
  lemma OtherCell(s: State, id: int, n: nat, i: nat)
    requires id in s.infos && (At(s.newTable, (n, i)) != id || id == EMPTY)
    ensures HoldingTo(s, id, n, i + 1) == HoldingTo(s, id, n, i)
  {
    forall b | b in HoldingTo(s, id, n, i + 1) ensures b in HoldingTo(s, id, n, i) {
      assert At(s.newTable, NewSlot(s.h, s.key, b, s.infos[id].service)) == id;
    }
  }

  lemma OwnCell(s: State, id: int, n: nat, i: nat)
    requires id in s.infos && n < NEW_BUCKET_COUNT && At(s.newTable, (n, i)) == id != EMPTY
    requires NewSlot(s.h, s.key, n, s.infos[id].service) == (n, i)
    ensures HoldingTo(s, id, n, i + 1) == HoldingTo(s, id, n, i) + {n}
    ensures |HoldingTo(s, id, n, i + 1)| == |HoldingTo(s, id, n, i)| + 1
  {
    forall b | b in HoldingTo(s, id, n, i + 1) && b != n ensures b in HoldingTo(s, id, n, i) {
    }
    assert HoldingTo(s, id, n, i + 1) == HoldingTo(s, id, n, i) + {n};
    CardinalityAdd(HoldingTo(s, id, n, i), n);
  }

  lemma NewCellEmpty(s: State, left: map<int, int>, n: nat, i: nat)
    requires NewLeft(s, left, n, i) && NewPasses(s, n, i) && At(s.newTable, (n, i)) == EMPTY
    ensures NewLeft(s, left, n, i + 1) && NewPasses(s, n, i + 1)
  {
    forall id | id in s.infos ensures HoldingTo(s, id, n, i + 1) == HoldingTo(s, id, n, i) {
      OtherCell(s, id, n, i);
    }
    CellsSoFar(s, n, i);
  }

  lemma CellsSoFar(s: State, n: nat, i: nat)
    requires NewPasses(s, n, i) && NewCellOk(s, (n, i))
    ensures forall slot: Slot :: Visited(slot, n, i + 1) && slot.0 < NEW_BUCKET_COUNT && slot.1 < BUCKET_SIZE ==>
      NewCellOk(s, slot)
  {
    forall slot: Slot | Visited(slot, n, i + 1) && slot.0 < NEW_BUCKET_COUNT && slot.1 < BUCKET_SIZE
      ensures NewCellOk(s, slot)
    {
      if slot != (n, i) {
        assert Visited(slot, n, i);
      }
    }
  }

  /** An occupied slot that is in order. */
  lemma NewCellCounts(s: State, left: map<int, int>, n: nat, i: nat)
    requires NewLeft(s, left, n, i) && NewPasses(s, n, i) && n < NEW_BUCKET_COUNT
    requires At(s.newTable, (n, i)) != EMPTY && NewCellOk(s, (n, i))
    ensures var id := At(s.newTable, (n, i));
            id in left <==> NewPasses(s, n, i + 1)
    ensures var id := At(s.newTable, (n, i));
            id in left ==> NewLeft(s, Lowered(left, id), n, i + 1)
  {
    var id := At(s.newTable, (n, i));
    OwnCell(s, id, n, i);
    CellsSoFar(s, n, i);
    forall x | x in s.infos && x != id ensures HoldingTo(s, x, n, i + 1) == HoldingTo(s, x, n, i) {
      OtherCell(s, x, n, i);
    }
  }

  /** The code tells exactly whether the sweep still passes with an occupied slot. */
  lemma NewCellFull(s: State, left: map<int, int>, n: nat, i: nat)
    requires NewLeft(s, left, n, i) && NewPasses(s, n, i) && n < NEW_BUCKET_COUNT && i < BUCKET_SIZE
    requires At(s.newTable, (n, i)) != EMPTY
    ensures var id := At(s.newTable, (n, i)); var code := NewCode(s.h, s.key, s.infos, left, id, n, i);
            (code == 0 <==> NewPasses(s, n, i + 1)) &&
            (code == 0 ==> id in left && NewLeft(s, Lowered(left, id), n, i + 1))
  {
    if NewCellOk(s, (n, i)) {
      NewCellCounts(s, left, n, i);
    } else {
      assert Visited((n, i), n, i + 1);
    }
  }

  /** What passes with more slots visited passes with fewer. */
  lemma NewPassesEarlier(s: State, n: nat, i: nat, m: nat, j: nat)
    requires NewPasses(s, m, j) && (n < m || (n == m && i <= j))
    ensures NewPasses(s, n, i)
  {
    forall slot: Slot | Visited(slot, n, i) && slot.0 < NEW_BUCKET_COUNT && slot.1 < BUCKET_SIZE
      ensures NewCellOk(s, slot)
    {
      assert Visited(slot, m, j);
    }
    forall id | IsUntried(s, id) ensures |HoldingTo(s, id, n, i)| <= s.infos[id].refCount {
      SubsetCardinality(HoldingTo(s, id, n, i), HoldingTo(s, id, m, j));
    }
  }

  lemma SameHolding(s: State, id: int, n: nat)
    requires id in s.infos
    ensures HoldingTo(s, id, n + 1, 0) == HoldingTo(s, id, n, BUCKET_SIZE)
  {
  }

  lemma NewNextBucket(s: State, left: map<int, int>, n: nat)
    requires NewLeft(s, left, n, BUCKET_SIZE) && NewPasses(s, n, BUCKET_SIZE)
    ensures NewLeft(s, left, n + 1, 0) && NewPasses(s, n + 1, 0)
  {
    forall id | id in s.infos ensures HoldingTo(s, id, n + 1, 0) == HoldingTo(s, id, n, BUCKET_SIZE) {
      SameHolding(s, id, n);
    }
    forall slot: Slot | Visited(slot, n + 1, 0) && slot.0 < NEW_BUCKET_COUNT && slot.1 < BUCKET_SIZE
      ensures NewCellOk(s, slot)
    {
      assert Visited(slot, n, BUCKET_SIZE);
    }
  }

  // ---- What a clean sweep of the new table means ----

  ghost predicate NewGood(s: State) {
    NewSlotsOk(s) &&
    forall id :: IsUntried(s, id) ==>
      id != EMPTY && s.infos[id].refCount == |Holding(s.h, s.key, s.newTable, s.infos[id].service, id)|
  }

  lemma AllHolding(s: State, id: int)
    requires id in s.infos && id != EMPTY
    ensures HoldingTo(s, id, NEW_BUCKET_COUNT, 0) == Holding(s.h, s.key, s.newTable, s.infos[id].service, id)
  {
  }

  /** The mark of an empty slot is never found as an id. */
  lemma EmptyNeverFound(s: State, n: nat, i: nat)
    requires EMPTY in s.infos
    ensures HoldingTo(s, EMPTY, n, i) == {}
  {
  }

  lemma NoHolding(s: State, id: int)
    requires id in s.infos
    ensures HoldingTo(s, id, 0, 0) == {}
  {
  }

  /** Before the sweep nothing has been found. */
  lemma NewSweepStarts(s: State, news: map<int, int>)
    requires news == map id | id in s.infos && !s.infos[id].inTried :: s.infos[id].refCount
    requires forall id :: IsUntried(s, id) ==> s.infos[id].refCount >= 1
    ensures NewLeft(s, news, 0, 0) && NewPasses(s, 0, 0)
  {
    forall id | id in s.infos ensures HoldingTo(s, id, 0, 0) == {} {
      NoHolding(s, id);
    }
  }

  lemma NewGoodPasses(s: State)
    requires TablesFit(s) && NewGood(s)
    ensures NewPasses(s, NEW_BUCKET_COUNT, 0)
  {
    forall id | IsUntried(s, id) ensures |HoldingTo(s, id, NEW_BUCKET_COUNT, 0)| <= s.infos[id].refCount {
      AllHolding(s, id);
    }
    forall slot: Slot | slot.0 < NEW_BUCKET_COUNT && slot.1 < BUCKET_SIZE ensures NewCellOk(s, slot) {
      if At(s.newTable, slot) != EMPTY {
        assert slot in s.newTable;
      }
    }
  }

  lemma NewSweepMeans(s: State, left: map<int, int>)
    requires TablesFit(s) && NewPasses(s, NEW_BUCKET_COUNT, 0) && NewLeft(s, left, NEW_BUCKET_COUNT, 0)
    requires forall id :: IsUntried(s, id) ==> s.infos[id].refCount >= 1
    ensures left.Keys == {} <==> NewGood(s)
  {
    if EMPTY in s.infos {
      EmptyNeverFound(s, NEW_BUCKET_COUNT, 0);
    }
    if left.Keys == {} {
      forall slot: Slot | slot in s.newTable && s.newTable[slot] != EMPTY ensures NewCellOk(s, slot) {
        assert Visited(slot, NEW_BUCKET_COUNT, 0);
      }
      forall id | IsUntried(s, id)
        ensures id != EMPTY && s.infos[id].refCount == |Holding(s.h, s.key, s.newTable, s.infos[id].service, id)|
      {
        assert id !in left.Keys;
        assert |HoldingTo(s, id, NEW_BUCKET_COUNT, 0)| == s.infos[id].refCount;
        if id != EMPTY {
          AllHolding(s, id);
        }
      }
    }
    if NewGood(s) && |left.Keys| > 0 {
      var id := PickOne(left.Keys);
      AllHolding(s, id);
    }
  }
}
