/** What each elementary step of the address manager does to the structural invariant. */
module AddrManInvariant {
  import opened AddrManState
  import opened SetFacts

  /** In a linked state the buckets holding `id` are all its slots: any slot with `id` counts. */
  lemma HeldByBucket(s: State, slot: Slot)
    requires NewSlotsOk(s) && At(s.newTable, slot) != EMPTY
    ensures var id := At(s.newTable, slot);
      id in s.infos && slot.0 in Holding(s.h, s.key, s.newTable, s.infos[id].service, id)
  {
  }

  // ---- steps that leave part of the state alone ----

  /** Two entry maps that differ in neither identity, table nor reference count. */
  ghost predicate SameEntries(a: map<int, Info>, b: map<int, Info>) {
    && a.Keys == b.Keys
    && forall id :: id in a ==>
         && b[id].service == a[id].service && b[id].inTried == a[id].inTried
         && b[id].refCount == a[id].refCount
  }

  /** Two entry maps that differ in neither address nor position. */
  ghost predicate SameLinks(a: map<int, Info>, b: map<int, Info>) {
    && a.Keys == b.Keys
    && forall id :: id in a ==> b[id].service == a[id].service && b[id].randomPos == a[id].randomPos
  }

  ghost predicate SameTables(s: State, t: State) {
    t.h == s.h && t.key == s.key && t.newTable == s.newTable && t.triedTable == s.triedTable
  }

  lemma FrameOrder(s: State, t: State)
    requires OrderOk(s) && SameLinks(s.infos, t.infos) && t.order == s.order
    ensures OrderOk(t)
  {
  }

  lemma FrameAddresses(s: State, t: State)
    requires AddressesOk(s) && t.idOf == s.idOf
    requires SameLinks(s.infos, t.infos) || SameEntries(s.infos, t.infos)
    ensures AddressesOk(t)
  {
  }

  lemma FrameNewSlots(s: State, t: State)
    requires NewSlotsOk(s) && SameEntries(s.infos, t.infos) && SameTables(s, t)
    ensures NewSlotsOk(t)
  {
  }

  lemma FrameTriedSlots(s: State, t: State)
    requires TriedSlotsOk(s) && SameEntries(s.infos, t.infos) && SameTables(s, t)
    ensures TriedSlotsOk(t)
  {
  }

  lemma FrameRefCounts(s: State, t: State, pending: set<int>)
    requires RefCountsOk(s, pending) && SameEntries(s.infos, t.infos) && SameTables(s, t) && t.nextId == s.nextId
    ensures RefCountsOk(t, pending)
  {
  }

  lemma FrameIds(s: State, t: State)
    requires SameEntries(s.infos, t.infos)
    ensures NewIds(t) == NewIds(s) && TriedIds(t) == TriedIds(s)
  {
    forall id | id in s.infos.Keys ensures id in NewIds(t) <==> id in NewIds(s) {
      assert id in t.infos.Keys;
    }
    forall id | id in s.infos.Keys ensures id in TriedIds(t) <==> id in TriedIds(s) {
      assert id in t.infos.Keys;
    }
  }

  /** Updating an entry's statistics changes nothing the invariant looks at. */
  lemma SameEntriesKeeps(s: State, t: State, pending: set<int>)
    requires Linked(s, pending) && SameEntries(s.infos, t.infos) && SameTables(s, t)
    requires t.idOf == s.idOf && t.nextId == s.nextId && OrderOk(t)
    ensures Linked(t, pending)
    ensures NewIds(t) == NewIds(s) && TriedIds(t) == TriedIds(s)
  {
    FrameAddresses(s, t);
    FrameNewSlots(s, t);
    FrameTriedSlots(s, t);
    FrameRefCounts(s, t, pending);
    FrameIds(s, t);
  }

  // ---- Swap, Create, Delete ----

  lemma SwapOrder(s: State, i: nat, j: nat)
    requires OrderOk(s) && i < |s.order| && j < |s.order|
    ensures OrderOk(Swap(s, i, j))
  {
    if i != j {
      var t := Swap(s, i, j);
      var id1, id2 := s.order[i], s.order[j];
      assert id1 != id2;
      assert t.order == s.order[i := id2][j := id1];
      forall id | id in t.infos
        ensures 0 <= t.infos[id].randomPos < |t.order| && t.order[t.infos[id].randomPos] == id
      {
        assert id in s.infos;
      }
      forall k | 0 <= k < |t.order|
        ensures t.order[k] in t.infos && t.infos[t.order[k]].randomPos == k
      {
        assert s.order[k] in s.infos;
      }
    }
  }

  lemma CreateLinks(s: State, a: Address, source: NetAddr)
    requires OrderOk(s) && AddressesOk(s) && a.service.ip !in s.idOf && s.nextId !in s.infos
    ensures OrderOk(Create(s, a, source)) && AddressesOk(Create(s, a, source))
  {
  }

  lemma CreateTables(s: State, a: Address, source: NetAddr, pending: set<int>)
    requires NewSlotsOk(s) && TriedSlotsOk(s) && RefCountsOk(s, pending) && 0 <= s.nextId
    ensures var t := Create(s, a, source);
      NewSlotsOk(t) && TriedSlotsOk(t) && RefCountsOk(t, pending + {s.nextId})
  {
    assert s.nextId !in s.infos;
    assert Holding(s.h, s.key, s.newTable, a.service, s.nextId) == {};
  }

  lemma CreateIds(s: State, a: Address, source: NetAddr)
    requires s.nextId !in s.infos
    ensures NewIds(Create(s, a, source)) == NewIds(s) + {s.nextId}
    ensures TriedIds(Create(s, a, source)) == TriedIds(s)
  {
  }

  lemma NextIdFree(s: State, pending: set<int>)
    requires RefCountsOk(s, pending)
    ensures s.nextId !in s.infos
  {
  }

  lemma CreateKeeps(s: State, a: Address, source: NetAddr, pending: set<int>)
    requires Linked(s, pending) && a.service.ip !in s.idOf
    ensures s.nextId !in s.infos
    ensures Linked(Create(s, a, source), pending + {s.nextId})
    ensures NewIds(Create(s, a, source)) == NewIds(s) + {s.nextId}
    ensures TriedIds(Create(s, a, source)) == TriedIds(s)
  {
    NextIdFree(s, pending);
    CreateIds(s, a, source);
    CreateLinks(s, a, source);
    CreateTables(s, a, source, pending);
  }

  /** `t` is `s` without the entry `id`, up to positions. */
  ghost predicate Removed(s: State, t: State, id: int) {
    && id in s.infos
    && SameEntries(s.infos - {id}, t.infos)
    && t.idOf == s.idOf - {s.infos[id].service.ip}
    && SameTables(s, t) && t.nextId == s.nextId
  }

  lemma DropOrder(s: State, id: int)
    requires OrderOk(s) && id in s.infos && s.infos[id].randomPos == |s.order| - 1
    ensures OrderOk(Drop(s, id))
  {
  }

  lemma SwapToLast(s: State, t: State, id: int)
    requires OrderOk(s) && id in s.infos && t == Swap(s, s.infos[id].randomPos, |s.order| - 1)
    ensures OrderOk(t) && id in t.infos && t.infos[id].randomPos == |t.order| - 1
  {
    SwapOrder(s, s.infos[id].randomPos, |s.order| - 1);
  }

  lemma DeleteOrder(s: State, id: int)
    requires OrderOk(s) && id in s.infos
    ensures OrderOk(Delete(s, id))
  {
    var s1 := Swap(s, s.infos[id].randomPos, |s.order| - 1);
    SwapToLast(s, s1, id);
    DropOrder(s1, id);
  }

  lemma DeleteShape(s: State, id: int)
    requires OrderOk(s) && id in s.infos
    ensures Removed(s, Delete(s, id), id)
  {
  }

  lemma RemovedAddresses(s: State, t: State, id: int)
    requires AddressesOk(s) && Removed(s, t, id)
    ensures AddressesOk(t)
  {
  }

  lemma RemovedTables(s: State, t: State, id: int, pending: set<int>)
    requires NewSlotsOk(s) && TriedSlotsOk(s) && RefCountsOk(s, pending)
    requires Removed(s, t, id) && id in pending && !s.infos[id].inTried
    ensures NewSlotsOk(t) && TriedSlotsOk(t) && RefCountsOk(t, pending - {id})
  {
    assert Holding(s.h, s.key, s.newTable, s.infos[id].service, id) == {};
    forall slot: Slot | slot in s.newTable ensures s.newTable[slot] != id {
      if s.newTable[slot] == id { HeldByBucket(s, slot); }
    }
  }

  lemma RemovedIds(s: State, t: State, id: int)
    requires Removed(s, t, id) && !s.infos[id].inTried
    ensures NewIds(t) == NewIds(s) - {id} && TriedIds(t) == TriedIds(s)
  {
    forall x | x in NewIds(t) + TriedIds(t) ensures x in s.infos && x != id {
      assert x in (s.infos - {id}).Keys;
    }
    forall x | x in s.infos && x != id ensures x in t.infos {
      assert x in (s.infos - {id}).Keys;
    }
  }

  lemma RemovedKeeps(s: State, t: State, id: int, pending: set<int>)
    requires Linked(s, pending) && Removed(s, t, id) && id in pending && !s.infos[id].inTried && OrderOk(t)
    ensures Linked(t, pending - {id})
    ensures NewIds(t) == NewIds(s) - {id} && TriedIds(t) == TriedIds(s)
  {
    RemovedAddresses(s, t, id);
    RemovedTables(s, t, id, pending);
    RemovedIds(s, t, id);
  }

  lemma DeleteKeeps(s: State, id: int, pending: set<int>)
    requires Linked(s, pending) && id in s.infos && id in pending && !s.infos[id].inTried
    ensures Linked(Delete(s, id), pending - {id})
    ensures NewIds(Delete(s, id)) == NewIds(s) - {id} && TriedIds(Delete(s, id)) == TriedIds(s)
  {
    DeleteOrder(s, id);
    DeleteShape(s, id);
    RemovedKeeps(s, Delete(s, id), id, pending);
  }

  // ---- steps on the two tables ----

  /** Writing a slot that `id` neither loses nor gains leaves the buckets holding `id` alone. */
  lemma HoldingOther(h: Hasher, key: Key, t: Table, slot: Slot, v: int, svc: Service, id: int)
    requires At(t, slot) != id && v != id
    ensures Holding(h, key, t[slot := v], svc, id) == Holding(h, key, t, svc, id)
  {
  }

  lemma HoldingPut(h: Hasher, key: Key, t: Table, slot: Slot, svc: Service, id: int)
    requires slot == NewSlot(h, key, slot.0, svc) && slot.0 < NEW_BUCKET_COUNT && At(t, slot) != id
    ensures |Holding(h, key, t[slot := id], svc, id)| == |Holding(h, key, t, svc, id)| + 1
  {
    assert Holding(h, key, t[slot := id], svc, id) == Holding(h, key, t, svc, id) + {slot.0};
    CardinalityAdd(Holding(h, key, t, svc, id), slot.0);
  }

  lemma HoldingClear(h: Hasher, key: Key, t: Table, slot: Slot, svc: Service, id: int)
    requires slot == NewSlot(h, key, slot.0, svc) && slot.0 < NEW_BUCKET_COUNT && At(t, slot) == id && id != EMPTY
    ensures |Holding(h, key, t[slot := EMPTY], svc, id)| == |Holding(h, key, t, svc, id)| - 1
  {
    assert Holding(h, key, t[slot := EMPTY], svc, id) == Holding(h, key, t, svc, id) - {slot.0};
    CardinalityRemove(Holding(h, key, t, svc, id), slot.0);
  }

  /** Changing one reference count leaves addresses, positions and the division into tables alone. */
  lemma RecountedLinks(s: State, t: State, id: int, count: int)
    requires OrderOk(s) && AddressesOk(s) && id in s.infos && t.order == s.order && t.idOf == s.idOf
    requires t.infos == s.infos[id := s.infos[id].(refCount := count)]
    ensures OrderOk(t) && AddressesOk(t)
    ensures NewIds(t) == NewIds(s) && TriedIds(t) == TriedIds(s)
  {
    assert SameLinks(s.infos, t.infos);
    FrameOrder(s, t);
    FrameAddresses(s, t);
  }

  /** `t` is `s` with the new slot `slot` given to the entry `id`. */
  ghost predicate Referenced(s: State, t: State, id: int, slot: Slot) {
    && id in s.infos
    && t.infos == s.infos[id := s.infos[id].(refCount := s.infos[id].refCount + 1)]
    && t.newTable == s.newTable[slot := id]
    && t.h == s.h && t.key == s.key && t.nextId == s.nextId && t.triedTable == s.triedTable
    && t.order == s.order && t.idOf == s.idOf
  }

  ghost predicate CanReference(s: State, id: int, slot: Slot) {
    && id in s.infos && id != EMPTY && !s.infos[id].inTried
    && slot.0 < NEW_BUCKET_COUNT && slot == NewSlot(s.h, s.key, slot.0, s.infos[id].service)
    && At(s.newTable, slot) == EMPTY
  }

  lemma ReferencedSlots(s: State, t: State, id: int, slot: Slot)
    requires NewSlotsOk(s) && TriedSlotsOk(s) && Referenced(s, t, id, slot) && CanReference(s, id, slot)
    ensures NewSlotsOk(t) && TriedSlotsOk(t)
  {
  }

  lemma ReferencedCounts(s: State, t: State, id: int, slot: Slot, pending: set<int>)
    requires RefCountsOk(s, pending) && Referenced(s, t, id, slot) && CanReference(s, id, slot)
    requires s.infos[id].refCount < NEW_BUCKETS_PER_ADDRESS
    ensures RefCountsOk(t, pending - {id})
  {
    HoldingPut(s.h, s.key, s.newTable, slot, s.infos[id].service, id);
    forall x | x in t.infos && x != id
      ensures t.infos[x] == s.infos[x]
      ensures Holding(t.h, t.key, t.newTable, t.infos[x].service, x)
           == Holding(s.h, s.key, s.newTable, s.infos[x].service, x)
    {
      assert x in s.infos;
      HoldingOther(s.h, s.key, s.newTable, slot, id, s.infos[x].service, x);
    }
  }

  lemma ReferencedKeeps(s: State, t: State, id: int, slot: Slot, pending: set<int>)
    requires Linked(s, pending) && Referenced(s, t, id, slot) && CanReference(s, id, slot)
    requires s.infos[id].refCount < NEW_BUCKETS_PER_ADDRESS
    ensures Linked(t, pending - {id})
    ensures NewIds(t) == NewIds(s) && TriedIds(t) == TriedIds(s)
  {
    RecountedLinks(s, t, id, s.infos[id].refCount + 1);
    ReferencedSlots(s, t, id, slot);
    ReferencedCounts(s, t, id, slot, pending);
  }

  /** `t` is `s` with the occupied new slot `slot` emptied. */
  ghost predicate Unreferenced(s: State, t: State, id: int, slot: Slot) {
    && id in s.infos && id == At(s.newTable, slot) && id != EMPTY
    && t.infos == s.infos[id := s.infos[id].(refCount := s.infos[id].refCount - 1)]
    && t.newTable == s.newTable[slot := EMPTY]
    && t.h == s.h && t.key == s.key && t.nextId == s.nextId && t.triedTable == s.triedTable
    && t.order == s.order && t.idOf == s.idOf
  }

  lemma UnreferencedSlots(s: State, t: State, id: int, slot: Slot)
    requires NewSlotsOk(s) && TriedSlotsOk(s) && Unreferenced(s, t, id, slot)
    ensures NewSlotsOk(t) && TriedSlotsOk(t)
  {
  }

  lemma UnreferencedCounts(s: State, t: State, id: int, slot: Slot, pending: set<int>)
    requires NewSlotsOk(s) && RefCountsOk(s, pending) && Unreferenced(s, t, id, slot)
    ensures id !in pending && !s.infos[id].inTried && s.infos[id].refCount >= 1
    ensures RefCountsOk(t, if t.infos[id].refCount == 0 then pending + {id} else pending)
  {
    HoldingClear(s.h, s.key, s.newTable, slot, s.infos[id].service, id);
    HeldByBucket(s, slot);
    forall x | x in t.infos && x != id
      ensures t.infos[x] == s.infos[x]
      ensures Holding(t.h, t.key, t.newTable, t.infos[x].service, x)
           == Holding(s.h, s.key, s.newTable, s.infos[x].service, x)
    {
      assert x in s.infos;
      HoldingOther(s.h, s.key, s.newTable, slot, EMPTY, s.infos[x].service, x);
    }
  }

  lemma UnreferencedKeeps(s: State, t: State, id: int, slot: Slot, pending: set<int>)
    requires Linked(s, pending) && Unreferenced(s, t, id, slot)
    ensures id !in pending && !s.infos[id].inTried && s.infos[id].refCount >= 1
    ensures Linked(t, if t.infos[id].refCount == 0 then pending + {id} else pending)
    ensures NewIds(t) == NewIds(s) && TriedIds(t) == TriedIds(s)
  {
    RecountedLinks(s, t, id, s.infos[id].refCount - 1);
    UnreferencedSlots(s, t, id, slot);
    UnreferencedCounts(s, t, id, slot, pending);
  }

  /** `t` is `s` with `id` moved from the tried table to neither table, or back. */
  ghost predicate Retabled(s: State, t: State, id: int, slot: Slot, inTried: bool) {
    && id in s.infos && s.infos[id].inTried != inTried
    && slot == TriedSlot(s.h, s.key, s.infos[id].service)
    && t.infos == s.infos[id := s.infos[id].(inTried := inTried)]
    && t.triedTable == s.triedTable[slot := if inTried then id else EMPTY]
    && t.h == s.h && t.key == s.key && t.nextId == s.nextId && t.newTable == s.newTable
    && t.order == s.order && t.idOf == s.idOf
  }

  lemma RetabledNewSlots(s: State, t: State, id: int, slot: Slot, inTried: bool, pending: set<int>)
    requires NewSlotsOk(s) && RefCountsOk(s, pending) && Retabled(s, t, id, slot, inTried)
    requires inTried ==> id in pending
    ensures NewSlotsOk(t)
  {
    assert Holding(s.h, s.key, s.newTable, s.infos[id].service, id) == {};
    forall nslot: Slot | nslot in s.newTable ensures s.newTable[nslot] != EMPTY ==> s.newTable[nslot] != id {
      if s.newTable[nslot] == id && id != EMPTY { HeldByBucket(s, nslot); }
    }
  }

  lemma RetabledTriedSlots(s: State, t: State, id: int, slot: Slot, inTried: bool)
    requires TriedSlotsOk(s) && Retabled(s, t, id, slot, inTried) && id != EMPTY
    requires inTried ==> At(s.triedTable, slot) == EMPTY && EMPTY !in s.infos
    ensures TriedSlotsOk(t)
  {
    forall x | x in t.infos && t.infos[x].inTried
      ensures At(t.triedTable, TriedSlot(t.h, t.key, t.infos[x].service)) == x
    {
      if x != id { assert At(s.triedTable, TriedSlot(s.h, s.key, s.infos[x].service)) == x; }
    }
  }

  lemma RetabledCounts(s: State, t: State, id: int, slot: Slot, inTried: bool, pending: set<int>)
    requires RefCountsOk(s, pending) && Retabled(s, t, id, slot, inTried)
    requires inTried ==> id in pending
    ensures RefCountsOk(t, if inTried then pending - {id} else pending + {id})
  {
  }

  lemma RetabledIds(s: State, t: State, id: int, slot: Slot, inTried: bool)
    requires Retabled(s, t, id, slot, inTried)
    ensures if inTried then
        NewIds(t) == NewIds(s) - {id} && TriedIds(t) == TriedIds(s) + {id} && id in NewIds(s) && id !in TriedIds(s)
      else
        NewIds(t) == NewIds(s) + {id} && TriedIds(t) == TriedIds(s) - {id} && id !in NewIds(s) && id in TriedIds(s)
  {
    assert t.infos.Keys == s.infos.Keys;
  }

  lemma RetabledKeeps(s: State, t: State, id: int, slot: Slot, inTried: bool, pending: set<int>)
    requires Linked(s, pending) && Retabled(s, t, id, slot, inTried)
    requires inTried ==> id in pending && At(s.triedTable, slot) == EMPTY
    ensures Linked(t, if inTried then pending - {id} else pending + {id})
  {
    assert SameLinks(s.infos, t.infos);
    FrameOrder(s, t);
    FrameAddresses(s, t);
    RetabledNewSlots(s, t, id, slot, inTried, pending);
    RetabledTriedSlots(s, t, id, slot, inTried);
    RetabledCounts(s, t, id, slot, inTried, pending);
  }

  // ---- leaving every new bucket at once ----

  lemma LeaveNewSlots(s: State, id: int)
    requires NewSlotsOk(s) && TriedSlotsOk(s) && id in s.infos
    ensures NewSlotsOk(LeaveNew(s, id)) && TriedSlotsOk(LeaveNew(s, id))
  {
  }

  lemma LeaveNewHolding(s: State, id: int, x: int)
    requires NewSlotsOk(s) && id in s.infos && id != EMPTY && x in s.infos && x != EMPTY
    ensures var t := LeaveNew(s, id);
      Holding(t.h, t.key, t.newTable, s.infos[x].service, x)
        == if x == id then {} else Holding(s.h, s.key, s.newTable, s.infos[x].service, x)
  {
    var t := LeaveNew(s, id);
    forall b: nat | b < NEW_BUCKET_COUNT
      ensures At(t.newTable, NewSlot(s.h, s.key, b, s.infos[x].service)) == x
        <==> x != id && At(s.newTable, NewSlot(s.h, s.key, b, s.infos[x].service)) == x
    {
      var slot := NewSlot(s.h, s.key, b, s.infos[x].service);
      assert slot in t.newTable <==> slot in s.newTable;
    }
  }

  lemma LeaveNewCounts(s: State, id: int, pending: set<int>)
    requires NewSlotsOk(s) && RefCountsOk(s, pending) && id in s.infos && !s.infos[id].inTried
    ensures RefCountsOk(LeaveNew(s, id), pending + {id})
  {
    var t := LeaveNew(s, id);
    forall x | x in t.infos
      ensures x != id ==> t.infos[x] == s.infos[x]
      ensures Holding(t.h, t.key, t.newTable, t.infos[x].service, x)
        == if x == id then {} else Holding(s.h, s.key, s.newTable, s.infos[x].service, x)
    {
      LeaveNewHolding(s, id, x);
    }
  }

  lemma LeaveNewKeeps(s: State, id: int, pending: set<int>)
    requires Linked(s, pending) && id in s.infos && !s.infos[id].inTried
    ensures Linked(LeaveNew(s, id), pending + {id})
    ensures NewIds(LeaveNew(s, id)) == NewIds(s) && TriedIds(LeaveNew(s, id)) == TriedIds(s)
  {
    var t := LeaveNew(s, id);
    RecountedLinks(s, t, id, t.infos[id].refCount);
    LeaveNewSlots(s, id);
    LeaveNewCounts(s, id, pending);
  }
}
