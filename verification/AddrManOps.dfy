/** The address manager's public operations as functions on its state, and the proof that
    every run of them keeps the whole invariant. */
module AddrManOps {
  import opened Basics
  import opened Bits
  import opened AddrManState
  import opened SetFacts
  import opened AddrManInvariant

  lemma InitialConsistent(h: Hasher, key: Key)
    ensures Consistent(Initial(h, key)) && TimesOk(Initial(h, key))
  {
  }

  /** Clearing a consistent manager gives a consistent one if and only if it held no entries. */
  lemma ClearedConsistent(s: State, key: Key)
    requires Consistent(s)
    ensures Consistent(Cleared(s, key)) <==> s.infos == map[]
    ensures s.infos == map[] ==> Cleared(s, key) == Initial(s.h, key)
  {
    var t := Cleared(s, key);
    if s.infos == map[] {
      assert s.idOf == map[];
      InitialConsistent(s.h, key);
    }
    if Consistent(t) && |s.infos.Keys| > 0 {
      var id := PickOne(s.infos.Keys);
    }
  }

  /** The assertion of ClearNew: an occupied slot's entry has a positive reference count. */
  lemma OccupantIsReferenced(s: State, slot: Slot, pending: set<int>)
    requires NewSlotsOk(s) && RefCountsOk(s, pending) && At(s.newTable, slot) != EMPTY
    ensures At(s.newTable, slot) in s.infos && s.infos[At(s.newTable, slot)].refCount > 0
  {
    HeldByBucket(s, slot);
  }

  // ---- clearing a new slot and evicting from the tried table ----

  /** Entries other than `except` survive with the same service, table and reference count. */
  ghost predicate OthersKept(s: State, t: State, except: int) {
    && t.h == s.h && t.key == s.key && t.nextId == s.nextId
    && forall x :: x in s.infos && x != except ==>
         && x in t.infos && t.infos[x].service == s.infos[x].service
         && t.infos[x].inTried == s.infos[x].inTried && t.infos[x].refCount == s.infos[x].refCount
  }

  lemma ClearNewStep(s: State, slot: Slot) returns (s1: State)
    requires OrderOk(s) && NewSlotsOk(s) && At(s.newTable, slot) != EMPTY
    ensures var id := At(s.newTable, slot);
      && Unreferenced(s, s1, id, slot) && s1.newCount == s.newCount && s1.triedCount == s.triedCount
      && OrderOk(s1)
      && ClearNew(s, slot) == if s1.infos[id].refCount == 0 then Delete(s1, id) else s1
  {
    var id := At(s.newTable, slot);
    s1 := s.(infos := s.infos[id := s.infos[id].(refCount := s.infos[id].refCount - 1)],
             newTable := s.newTable[slot := EMPTY]);
    assert SameLinks(s.infos, s1.infos);
    FrameOrder(s, s1);
  }

  lemma DeleteOthers(s: State, id: int)
    requires OrderOk(s) && id in s.infos
    ensures OthersKept(s, Delete(s, id), id) && SameTables(s, Delete(s, id))
    ensures Delete(s, id).newCount == s.newCount - 1 && Delete(s, id).triedCount == s.triedCount
  {
    DeleteShape(s, id);
    forall x | x in s.infos && x != id ensures x in Delete(s, id).infos {
      assert x in (s.infos - {id}).Keys;
    }
  }

  lemma ClearNewOthers(s: State, slot: Slot)
    requires OrderOk(s) && NewSlotsOk(s)
    ensures var t := ClearNew(s, slot);
      OthersKept(s, t, At(s.newTable, slot)) && At(t.newTable, slot) == EMPTY && t.triedTable == s.triedTable
  {
    var id := At(s.newTable, slot);
    if id != EMPTY {
      var s1 := ClearNewStep(s, slot);
      if s1.infos[id].refCount == 0 {
        DeleteOthers(s1, id);
      }
    }
  }

  /** Deleting a pending entry: it leaves the pending set and the new counter together. */
  lemma DeletePending(s: State, id: int, pending: set<int>, uncounted: nat)
    requires Linked(s, pending + {id}) && Counted(s, uncounted) && id in s.infos && !s.infos[id].inTried
    requires id !in pending
    ensures Linked(Delete(s, id), pending) && Counted(Delete(s, id), uncounted)
  {
    DeleteKeeps(s, id, pending + {id});
    DeleteOthers(s, id);
    assert pending + {id} - {id} == pending;
    CardinalityRemove(NewIds(s), id);
  }

  lemma ClearNewKeeps(s: State, slot: Slot, pending: set<int>, uncounted: nat)
    requires Linked(s, pending) && Counted(s, uncounted)
    ensures Linked(ClearNew(s, slot), pending) && Counted(ClearNew(s, slot), uncounted)
  {
    var id := At(s.newTable, slot);
    if id != EMPTY {
      var s1 := ClearNewStep(s, slot);
      UnreferencedKeeps(s, s1, id, slot, pending);
      if s1.infos[id].refCount == 0 {
        DeletePending(s1, id, pending, uncounted);
      }
    }
  }

  /** The entry in the tried slot goes back to the new bucket of its own source, evicting
      whatever is there (src/addrman.cpp:174-194). */
  ghost function Evict(s: State, slot: Slot, pending: set<int>): State
    requires Linked(s, pending) && At(s.triedTable, slot) != EMPTY
  {
    var id := At(s.triedTable, slot);
    var i := s.infos[id];
    var s1 := LeaveTried(s, slot);
    var nslot := NewSlot(s.h, s.key, NewBucket(s.h, s.key, i.service, i.source), i.service);
    assert Retabled(s, s1, id, slot, false);
    RetabledKeeps(s, s1, id, slot, false, pending);
    assert At(s1.newTable, nslot) != id by { PendingHasNoSlot(s1, id, pending + {id}, nslot); }
    ClearNewOthers(s1, nslot);
    EnterNew(ClearNew(s1, nslot), id, nslot)
  }

  lemma PendingHasNoSlot(s: State, id: int, pending: set<int>, slot: Slot)
    requires NewSlotsOk(s) && RefCountsOk(s, pending) && id in s.infos && (id in pending || s.infos[id].inTried)
    ensures At(s.newTable, slot) != id
  {
    assert Holding(s.h, s.key, s.newTable, s.infos[id].service, id) == {};
    if At(s.newTable, slot) == id { HeldByBucket(s, slot); }
  }

  lemma LeaveTriedKeeps(s: State, slot: Slot, pending: set<int>, uncounted: nat)
    requires Linked(s, pending) && Counted(s, uncounted) && At(s.triedTable, slot) != EMPTY
    ensures var id := At(s.triedTable, slot); var t := LeaveTried(s, slot);
      Linked(t, pending + {id}) && Counted(t, uncounted + 1) && OthersKept(s, t, id)
  {
    var id := At(s.triedTable, slot);
    var t := LeaveTried(s, slot);
    assert Retabled(s, t, id, slot, false);
    RetabledKeeps(s, t, id, slot, false, pending);
    RetabledIds(s, t, id, slot, false);
    CardinalityAdd(NewIds(s), id);
    CardinalityRemove(TriedIds(s), id);
  }

  lemma EnterNewKeeps(s: State, id: int, slot: Slot, pending: set<int>, uncounted: nat)
    requires Linked(s, pending + {id}) && Counted(s, uncounted + 1) && CanReference(s, id, slot) && id !in pending
    ensures Linked(EnterNew(s, id, slot), pending) && Counted(EnterNew(s, id, slot), uncounted)
  {
    var t := EnterNew(s, id, slot);
    assert s.infos[id].refCount == 0;
    assert Referenced(s, t, id, slot);
    ReferencedKeeps(s, t, id, slot, pending + {id});
    assert pending + {id} - {id} == pending;
  }

  lemma EvictKeeps(s: State, slot: Slot, pending: set<int>, uncounted: nat)
    requires Linked(s, pending) && Counted(s, uncounted) && At(s.triedTable, slot) != EMPTY
    requires At(s.triedTable, slot) !in pending
    ensures var t := Evict(s, slot, pending);
      Linked(t, pending) && Counted(t, uncounted) && At(t.triedTable, slot) == EMPTY
  {
    var id := At(s.triedTable, slot);
    var i := s.infos[id];
    var s1 := LeaveTried(s, slot);
    var nslot := NewSlot(s.h, s.key, NewBucket(s.h, s.key, i.service, i.source), i.service);
    LeaveTriedKeeps(s, slot, pending, uncounted);
    PendingHasNoSlot(s1, id, pending + {id}, nslot);
    ClearNewKeeps(s1, nslot, pending + {id}, uncounted + 1);
    ClearNewOthers(s1, nslot);
    EnterNewKeeps(ClearNew(s1, nslot), id, nslot, pending, uncounted);
  }

  /** An eviction never touches a pending entry. */
  lemma EvictSparesPending(s: State, slot: Slot, pending: set<int>, x: int)
    requires Linked(s, pending) && At(s.triedTable, slot) != EMPTY
    requires x in pending && x in s.infos && !s.infos[x].inTried
    ensures var t := Evict(s, slot, pending);
      && x in t.infos && t.infos[x].service == s.infos[x].service && !t.infos[x].inTried
      && t.h == s.h && t.key == s.key && t.nextId == s.nextId && At(t.triedTable, slot) == EMPTY
  {
    var id := At(s.triedTable, slot);
    var i := s.infos[id];
    var s1 := LeaveTried(s, slot);
    var nslot := NewSlot(s.h, s.key, NewBucket(s.h, s.key, i.service, i.source), i.service);
    assert Retabled(s, s1, id, slot, false);
    RetabledKeeps(s, s1, id, slot, false, pending);
    PendingHasNoSlot(s1, id, pending + {id}, nslot);
    PendingHasNoSlot(s1, x, pending + {id}, nslot);
    ClearNewOthers(s1, nslot);
  }

  function Below(s: set<nat>, n: nat): set<nat> {
    set b | b in s && b < n
  }

  lemma BelowNext(s: set<nat>, n: nat)
    ensures |Below(s, n + 1)| == |Below(s, n)| + if n in s then 1 else 0
  {
    if n in s {
      assert Below(s, n + 1) == Below(s, n) + {n};
    } else {
      assert Below(s, n + 1) == Below(s, n);
    }
  }

  /** `LeaveNew` after the first `n` buckets, before the counter changes. */
  function LeaveNewBelow(s: State, id: int, n: nat): State
    requires id in s.infos
  {
    var i := s.infos[id];
    var held := Holding(s.h, s.key, s.newTable, i.service, id);
    s.(infos := s.infos[id := i.(refCount := i.refCount - |Below(held, n)|)],
       newTable := map slot: Slot | slot in s.newTable ::
         if slot.0 < n && slot.0 in held && slot == NewSlot(s.h, s.key, slot.0, i.service) then EMPTY
         else s.newTable[slot])
  }

  /** Takes `id` out of one slot if it is there (src/addrman.cpp:158-162). */
  function LeaveOne(s: State, id: int, slot: Slot): State
    requires id in s.infos
  {
    if At(s.newTable, slot) == id then
      s.(infos := s.infos[id := s.infos[id].(refCount := s.infos[id].refCount - 1)],
         newTable := s.newTable[slot := EMPTY])
    else s
  }

  /** The loop of MakeTried over the first `n` new buckets. */
  function LeaveUpTo(s: State, id: int, n: nat): (t: State)
    requires id in s.infos
    ensures id in t.infos && t.infos[id].service == s.infos[id].service && t.h == s.h && t.key == s.key
  {
    if n == 0 then s
    else
      var t := LeaveUpTo(s, id, n - 1);
      LeaveOne(t, id, NewSlot(t.h, t.key, n - 1, t.infos[id].service))
  }

  lemma LeaveNewAtZero(s: State, id: int)
    requires id in s.infos
    ensures LeaveNewBelow(s, id, 0) == s
  {
    var held := Holding(s.h, s.key, s.newTable, s.infos[id].service, id);
    assert Below(held, 0) == {};
    assert LeaveNewBelow(s, id, 0).newTable == s.newTable;
    assert LeaveNewBelow(s, id, 0).infos == s.infos;
  }

  lemma {:induction false} LeaveUpToBelow(s: State, id: int, n: nat)
    requires id in s.infos && id != EMPTY && n <= NEW_BUCKET_COUNT
    ensures LeaveUpTo(s, id, n) == LeaveNewBelow(s, id, n)
  {
    if n == 0 {
      LeaveNewAtZero(s, id);
    } else {
      LeaveUpToBelow(s, id, n - 1);
      LeaveNewNext(s, id, n - 1, n);
      LeaveUpToNext(s, id, n, LeaveNewBelow(s, id, n - 1), LeaveNewBelow(s, id, n));
    }
  }

  lemma LeaveUpToNext(s: State, id: int, n: nat, t: State, u: State)
    requires id in s.infos && n > 0 && t == LeaveUpTo(s, id, n - 1)
    requires u == LeaveOne(t, id, NewSlot(s.h, s.key, n - 1, s.infos[id].service))
    ensures LeaveUpTo(s, id, n) == u
  {
  }

  lemma LeaveUpToEnd(s: State, id: int, n: nat)
    requires id in s.infos && id != EMPTY && n == NEW_BUCKET_COUNT
    ensures LeaveUpTo(s, id, n).(newCount := s.newCount - 1) == LeaveNew(s, id)
  {
    LeaveUpToBelow(s, id, n);
    var held := Holding(s.h, s.key, s.newTable, s.infos[id].service, id);
    assert Below(held, n) == held;
    assert LeaveNewBelow(s, id, n).newTable == LeaveNew(s, id).newTable;
  }

  lemma LeaveNewNext(s: State, id: int, n: nat, next: nat)
    requires id in s.infos && id != EMPTY && n < NEW_BUCKET_COUNT && next == n + 1
    ensures LeaveNewBelow(s, id, next) ==
      LeaveOne(LeaveNewBelow(s, id, n), id, NewSlot(s.h, s.key, n, s.infos[id].service))
  {
    var held := Holding(s.h, s.key, s.newTable, s.infos[id].service, id);
    BelowNext(held, n);
    var t, u := LeaveNewBelow(s, id, n), LeaveNewBelow(s, id, n + 1);
    var slot := NewSlot(s.h, s.key, n, s.infos[id].service);
    if n in held {
      assert u.newTable == t.newTable[slot := EMPTY];
    } else {
      assert u.newTable == t.newTable;
    }
  }

  // ---- moving an entry from the new table to the tried table ----

  /** Frees the tried slot `slot`, evicting its entry if it has one. */
  ghost function FreeTried(s: State, slot: Slot, pending: set<int>): State
    requires Linked(s, pending)
  {
    if At(s.triedTable, slot) == EMPTY then s else Evict(s, slot, pending)
  }

  /** src/addrman.cpp:154-200 */
  ghost function MakeTried(s: State, id: int): State
    requires Linked(s, {}) && id in s.infos && !s.infos[id].inTried
  {
    var slot := TriedSlot(s.h, s.key, s.infos[id].service);
    LeaveNewKeeps(s, id, {});
    var s1 := LeaveNew(s, id);
    var s2 := FreeTried(s1, slot, {id});
    assert id in s2.infos by { if At(s1.triedTable, slot) != EMPTY { EvictSparesPending(s1, slot, {id}, id); } }
    EnterTried(s2, id, slot)
  }

  /** After leaving the new buckets the entry has no references left (the assertion at
      src/addrman.cpp:166) and survives the eviction that follows. */
  lemma LeaveNewReady(s: State, id: int)
    requires Linked(s, {}) && id in s.infos && !s.infos[id].inTried
    ensures var t := LeaveNew(s, id); var slot := TriedSlot(s.h, s.key, s.infos[id].service);
      && Linked(t, {id}) && t.infos[id].refCount == 0 && id in FreeTried(t, slot, {id}).infos
      && At(FreeTried(t, slot, {id}).triedTable, slot) == EMPTY
  {
    LeaveNewKeeps(s, id, {});
    assert {} + {id} == {id};
    var t := LeaveNew(s, id);
    var slot := TriedSlot(s.h, s.key, s.infos[id].service);
    if At(t.triedTable, slot) != EMPTY {
      EvictSparesPending(t, slot, {id}, id);
    }
  }

  lemma LeaveNewCounted(s: State, id: int)
    requires Consistent(s) && id in s.infos && !s.infos[id].inTried
    ensures var t := LeaveNew(s, id);
      && Linked(t, {id}) && Counted(t, 1) && t.infos[id].service == s.infos[id].service && !t.infos[id].inTried
      && t.triedTable == s.triedTable && t.h == s.h && t.key == s.key
  {
    LeaveNewKeeps(s, id, {});
    assert {} + {id} == {id};
  }

  lemma EnterTriedKeeps(s: State, id: int, slot: Slot)
    requires Linked(s, {id}) && Counted(s, 1) && id in s.infos && !s.infos[id].inTried
    requires slot == TriedSlot(s.h, s.key, s.infos[id].service) && At(s.triedTable, slot) == EMPTY
    ensures Consistent(EnterTried(s, id, slot))
  {
    var t := EnterTried(s, id, slot);
    assert Retabled(s, t, id, slot, true);
    RetabledKeeps(s, t, id, slot, true, {id});
    assert {id} - {id} == {};
    EnterTriedCounts(s, t, id, slot);
  }

  lemma EnterTriedCounts(s: State, t: State, id: int, slot: Slot)
    requires Counted(s, 1) && Retabled(s, t, id, slot, true)
    requires t.newCount == s.newCount && t.triedCount == s.triedCount + 1
    ensures Counted(t, 0)
  {
    RetabledIds(s, t, id, slot, true);
    CardinalityRemove(NewIds(s), id);
    CardinalityAdd(TriedIds(s), id);
  }

  lemma MakeTriedKeeps(s: State, id: int)
    requires Consistent(s) && id in s.infos && !s.infos[id].inTried
    ensures Consistent(MakeTried(s, id))
  {
    var slot := TriedSlot(s.h, s.key, s.infos[id].service);
    var s1 := LeaveNew(s, id);
    LeaveNewCounted(s, id);
    if At(s1.triedTable, slot) != EMPTY {
      EvictKeeps(s1, slot, {id}, 1);
      EvictSparesPending(s1, slot, {id}, id);
    }
    EnterTriedKeeps(FreeTried(s1, slot, {id}), id, slot);
  }

  // ---- the public operations ----

  const TWO32 := 0x1_0000_0000

  /** Conversion of a 64-bit time to the 32-bit unsigned `nTime` field. */
  function ToU32(x: int): (r: nat)
    ensures r < TWO32
    ensures 0 <= x < TWO32 ==> r == x
  {
    x % TWO32
  }

  /** GetRandInt(max): a random draw, where one outside the range asked for counts as 0. */
  function Draw(rnd: nat, max: nat): (r: nat)
    requires max > 0
    ensures r < max
    ensures rnd < max ==> r == rnd
  {
    if rnd < max then rnd else 0
  }

  /** The entry for exactly this address and port, if any. */
  predicate Known(s: State, svc: Service) {
    svc.ip in s.idOf && s.idOf[svc.ip] in s.infos && s.infos[s.idOf[svc.ip]].service == svc
  }

  function Touch(s: State, id: int, i: Info): State {
    s.(infos := s.infos[id := i])
  }

  /** Recording a successful connection (src/addrman.cpp:217-222). */
  function Succeeded(s: State, id: int, time: int): State
    requires id in s.infos
  {
    Touch(s, id, s.infos[id].(lastSuccess := time, lastTry := time, attempts := 0))
  }

  lemma TouchKeeps(s: State, id: int, i: Info, pending: set<int>)
    requires Linked(s, pending) && id in s.infos
    requires i.service == s.infos[id].service && i.inTried == s.infos[id].inTried
    requires i.refCount == s.infos[id].refCount && i.randomPos == s.infos[id].randomPos
    ensures Linked(Touch(s, id, i), pending)
    ensures NewIds(Touch(s, id, i)) == NewIds(s) && TriedIds(Touch(s, id, i)) == TriedIds(s)
  {
    var t := Touch(s, id, i);
    assert SameLinks(s.infos, t.infos) && SameEntries(s.infos, t.infos);
    FrameOrder(s, t);
    SameEntriesKeeps(s, t, pending);
  }

  /** src/addrman.cpp:202-249. The search for a bucket holding the entry starts at a random
      bucket; only whether one exists matters. */
  ghost function Good(s: State, svc: Service, time: int): State
    requires Consistent(s)
  {
    if !Known(s, svc) then s else
      var id := s.idOf[svc.ip];
      var s1 := Succeeded(s, id, time);
      if s1.infos[id].inTried || Holding(s1.h, s1.key, s1.newTable, svc, id) == {} then s1
      else
        TouchKeeps(s, id, s1.infos[id], {});
        MakeTried(s1, id)
  }

  function Attempted(i: Info, time: int): Info {
    i.(lastTry := time, attempts := i.attempts + 1)
  }

  /** src/addrman.cpp:319-336 */
  function Attempt(s: State, svc: Service, time: int): State {
    if !Known(s, svc) then s else
      var id := s.idOf[svc.ip];
      Touch(s, id, Attempted(s.infos[id], time))
  }

  /** src/addrman.cpp:476-494 */
  function Connected(s: State, svc: Service, time: int): State {
    if !Known(s, svc) then s else
      var id := s.idOf[svc.ip];
      if time - s.infos[id].time > 20 * 60 then Touch(s, id, s.infos[id].(time := ToU32(time))) else s
  }

  /** What a repeated announcement does to a known entry (src/addrman.cpp:261-268). */
  function Refreshed(h: Hasher, i: Info, a: Address, penalty: int, now: int): Info {
    var interval := if now - a.time < DAY then 60 * 60 else DAY;
    var i1 := if a.time != 0 && (i.time == 0 || i.time < a.time - interval - penalty)
              then i.(time := ToU32(Max(0, a.time - penalty))) else i;
    i1.(services := h.bitOr(i1.services, a.services))
  }

  /** Whether a repeated announcement may add a reference (src/addrman.cpp:270-287). */
  predicate MayAddReference(i: Info, a: Address, rnd: nat) {
    && a.time != 0 && !(i.time != 0 && a.time <= i.time)
    && !i.inTried
    && i.refCount != NEW_BUCKETS_PER_ADDRESS
    && (i.refCount > 0 ==> Draw(rnd, Pow2(i.refCount)) == 0)
  }

  /** Whether the entry `id` takes over the new slot `slot` (src/addrman.cpp:297-305). */
  predicate TakesSlot(s: State, id: int, slot: Slot, now: int)
    requires NewSlotsOk(s) && id in s.infos
  {
    var there := At(s.newTable, slot);
    there == EMPTY || IsTerrible(s.infos[there], now) || (s.infos[there].refCount > 1 && s.infos[id].refCount == 0)
  }

  ghost function Pending(s: State, id: int): set<int>
    requires id in s.infos
  {
    if s.infos[id].refCount == 0 then {id} else {}
  }

  function AddReference(s: State, id: int, slot: Slot): State
    requires id in s.infos
  {
    s.(infos := s.infos[id := s.infos[id].(refCount := s.infos[id].refCount + 1)],
       newTable := s.newTable[slot := id])
  }

  /** Placing the entry `id` in the new bucket of `source` (src/addrman.cpp:295-315). */
  ghost function Place(s: State, id: int, source: NetAddr, now: int): State
    requires id in s.infos && OrderOk(s) && NewSlotsOk(s)
  {
    var svc := s.infos[id].service;
    var slot := NewSlot(s.h, s.key, NewBucket(s.h, s.key, svc, source), svc);
    if At(s.newTable, slot) == id then s
    else if TakesSlot(s, id, slot, now) then
      ClearNewOthers(s, slot);
      AddReference(ClearNew(s, slot), id, slot)
    else if s.infos[id].refCount == 0 then Delete(s, id)
    else s
  }

  lemma AddReferenceKeeps(s: State, id: int, slot: Slot)
    requires id in s.infos && Linked(s, Pending(s, id)) && Counted(s, 0) && CanReference(s, id, slot)
    requires s.infos[id].refCount < NEW_BUCKETS_PER_ADDRESS
    ensures Consistent(AddReference(s, id, slot))
  {
    var t := AddReference(s, id, slot);
    assert Referenced(s, t, id, slot);
    ReferencedKeeps(s, t, id, slot, Pending(s, id));
    assert Pending(s, id) - {id} == {};
  }

  /** The entry `id` takes over a new slot, whoever is there. */
  lemma TakenKeeps(s: State, id: int, slot: Slot)
    requires id in s.infos && Linked(s, Pending(s, id)) && Counted(s, 0) && !s.infos[id].inTried
    requires s.infos[id].refCount < NEW_BUCKETS_PER_ADDRESS && At(s.newTable, slot) != id
    requires slot.0 < NEW_BUCKET_COUNT && slot == NewSlot(s.h, s.key, slot.0, s.infos[id].service)
    ensures id in ClearNew(s, slot).infos && Consistent(AddReference(ClearNew(s, slot), id, slot))
  {
    ClearNewOthers(s, slot);
    ClearNewKeeps(s, slot, Pending(s, id), 0);
    AddReferenceKeeps(ClearNew(s, slot), id, slot);
  }

  lemma PlaceKeeps(s: State, id: int, source: NetAddr, now: int)
    requires id in s.infos && Linked(s, Pending(s, id)) && Counted(s, 0) && !s.infos[id].inTried
    requires s.infos[id].refCount < NEW_BUCKETS_PER_ADDRESS
    ensures Consistent(Place(s, id, source, now))
  {
    var svc := s.infos[id].service;
    var slot := NewSlot(s.h, s.key, NewBucket(s.h, s.key, svc, source), svc);
    if At(s.newTable, slot) == id {
      if s.infos[id].refCount == 0 { PendingHasNoSlot(s, id, {id}, slot); }
    } else if TakesSlot(s, id, slot, now) {
      TakenKeeps(s, id, slot);
    } else if s.infos[id].refCount == 0 {
      assert {} + {id} == {id};
      DeletePending(s, id, {}, 0);
    }
  }

  /** A new entry with its penalised time, counted but in no bucket yet (src/addrman.cpp:289-292). */
  function Created(s: State, a: Address, source: NetAddr, penalty: int): State {
    Create(s, a.(time := ToU32(Max(0, a.time - penalty))), source).(newCount := s.newCount + 1)
  }

  lemma RecountKeeps(s: State, newCount: int, pending: set<int>)
    requires Linked(s, pending)
    ensures Linked(s.(newCount := newCount), pending)
    ensures NewIds(s.(newCount := newCount)) == NewIds(s) && TriedIds(s.(newCount := newCount)) == TriedIds(s)
  {
    var t := s.(newCount := newCount);
    FrameOrder(s, t);
    SameEntriesKeeps(s, t, pending);
  }

  lemma CreatedKeeps(s: State, a: Address, source: NetAddr, penalty: int)
    requires Consistent(s) && a.service.ip !in s.idOf
    ensures var t := Created(s, a, source, penalty);
      Linked(t, {s.nextId}) && Counted(t, 0) && s.nextId !in s.infos
  {
    var a' := a.(time := ToU32(Max(0, a.time - penalty)));
    CreateKeeps(s, a', source, {});
    assert {} + {s.nextId} == {s.nextId};
    RecountKeeps(Create(s, a', source), s.newCount + 1, {s.nextId});
    CardinalityAdd(NewIds(s), s.nextId);
  }

  lemma TouchUsable(s: State, id: int, i: Info)
    requires OrderOk(s) && NewSlotsOk(s) && id in s.infos
    requires i.service == s.infos[id].service && i.inTried == s.infos[id].inTried
    requires i.refCount == s.infos[id].refCount && i.randomPos == s.infos[id].randomPos
    ensures OrderOk(Touch(s, id, i)) && NewSlotsOk(Touch(s, id, i))
  {
    var t := Touch(s, id, i);
    assert SameLinks(s.infos, t.infos) && SameEntries(s.infos, t.infos);
    FrameOrder(s, t);
    FrameNewSlots(s, t);
  }

  lemma TouchCounts(s: State, id: int, i: Info)
    requires RefCountsOk(s, {}) && id in s.infos
    requires i.service == s.infos[id].service && i.inTried == s.infos[id].inTried
    requires i.refCount == s.infos[id].refCount
    ensures RefCountsOk(Touch(s, id, i), {})
  {
    FrameRefCounts(s, Touch(s, id, i), {});
  }

  lemma CreatedRefCounts(s: State, a: Address, source: NetAddr, penalty: int)
    requires NewSlotsOk(s) && TriedSlotsOk(s) && RefCountsOk(s, {}) && 0 <= s.nextId
    ensures RefCountsOk(Created(s, a, source, penalty), {s.nextId})
  {
    var a' := a.(time := ToU32(Max(0, a.time - penalty)));
    CreateTables(s, a', source, {});
    assert {} + {s.nextId} == {s.nextId};
    FrameRefCounts(Create(s, a', source), Created(s, a, source, penalty), {s.nextId});
  }

  lemma CreatedUsable(s: State, a: Address, source: NetAddr, penalty: int)
    requires OrderOk(s) && NewSlotsOk(s) && s.nextId !in s.infos
    ensures OrderOk(Created(s, a, source, penalty)) && NewSlotsOk(Created(s, a, source, penalty))
  {
  }

  /** src/addrman.cpp:251-317. `now` and `now2` are the two clock readings. */
  ghost function Add(s: State, a: Address, source: NetAddr, penalty: int, now: int, now2: int, rnd: nat): State
    requires OrderOk(s) && AddressesOk(s) && NewSlotsOk(s) && s.nextId !in s.infos
  {
    if !s.h.routable(a.service.ip) then s
    else if a.service.ip in s.idOf then
      var id := s.idOf[a.service.ip];
      var i := Refreshed(s.h, s.infos[id], a, penalty, now);
      var s1 := Touch(s, id, i);
      if !MayAddReference(i, a, rnd) then s1
      else
        TouchUsable(s, id, i);
        Place(s1, id, source, now2)
    else
      CreatedUsable(s, a, source, penalty);
      Place(Created(s, a, source, penalty), s.nextId, source, now2)
  }

  lemma AddKeeps(s: State, a: Address, source: NetAddr, penalty: int, now: int, now2: int, rnd: nat)
    requires Consistent(s)
    ensures s.nextId !in s.infos && Consistent(Add(s, a, source, penalty, now, now2, rnd))
  {
    if s.h.routable(a.service.ip) {
      if a.service.ip in s.idOf {
        var id := s.idOf[a.service.ip];
        var i := Refreshed(s.h, s.infos[id], a, penalty, now);
        TouchKeeps(s, id, i, {});
        if MayAddReference(i, a, rnd) {
          PlaceKeeps(Touch(s, id, i), id, source, now2);
        }
      } else {
        CreatedKeeps(s, a, source, penalty);
        PlaceKeeps(Created(s, a, source, penalty), s.nextId, source, now2);
      }
    }
  }

  /** In a consistent state some bucket holds every untried entry, so the exit of Good_ for
      "no bucket found" is never taken (src/addrman.cpp:240-243). */
  lemma UntriedIsHeld(s: State, id: int)
    requires Consistent(s) && id in s.infos && !s.infos[id].inTried
    ensures Holding(s.h, s.key, s.newTable, s.infos[id].service, id) != {}
  {
  }

  lemma GoodKeeps(s: State, svc: Service, time: int)
    requires Consistent(s)
    ensures Consistent(Good(s, svc, time))
    ensures Known(s, svc) ==> var t := Good(s, svc, time);
      Known(t, svc) && t.infos[t.idOf[svc.ip]].inTried
  {
    if Known(s, svc) {
      var id := s.idOf[svc.ip];
      var s1 := Succeeded(s, id, time);
      TouchKeeps(s, id, s1.infos[id], {});
      if !s1.infos[id].inTried {
        UntriedIsHeld(s1, id);
        MakeTriedKeeps(s1, id);
        MakeTriedMoves(s1, id);
      }
    }
  }

  /** `Good` by cases, with what its second half needs. */
  lemma GoodCases(s: State, svc: Service, time: int)
    requires Consistent(s) && Known(s, svc)
    ensures var id := s.idOf[svc.ip]; var s1 := Succeeded(s, id, time);
      && Linked(s1, {}) && s1.infos[id].service == svc
      && Good(s, svc, time) ==
           if s1.infos[id].inTried || Holding(s1.h, s1.key, s1.newTable, svc, id) == {} then s1 else MakeTried(s1, id)
  {
    var id := s.idOf[svc.ip];
    TouchKeeps(s, id, Succeeded(s, id, time).infos[id], {});
  }

  lemma MakeTriedMoves(s: State, id: int)
    requires Consistent(s) && id in s.infos && !s.infos[id].inTried
    ensures var t := MakeTried(s, id); var svc := s.infos[id].service;
      Known(t, svc) && t.idOf[svc.ip] == id && t.infos[id].inTried
  {
    var slot := TriedSlot(s.h, s.key, s.infos[id].service);
    var s1 := LeaveNew(s, id);
    LeaveNewCounted(s, id);
    if At(s1.triedTable, slot) != EMPTY {
      EvictSparesPending(s1, slot, {id}, id);
    }
    MakeTriedKeeps(s, id);
  }

  lemma TouchConsistent(s: State, id: int, i: Info)
    requires Consistent(s) && id in s.infos
    requires i.service == s.infos[id].service && i.inTried == s.infos[id].inTried
    requires i.refCount == s.infos[id].refCount && i.randomPos == s.infos[id].randomPos
    ensures Consistent(Touch(s, id, i))
  {
    TouchKeeps(s, id, i, {});
  }

  lemma AttemptKeeps(s: State, svc: Service, time: int)
    requires Consistent(s)
    ensures Consistent(Attempt(s, svc, time))
  {
    if Known(s, svc) {
      var id := s.idOf[svc.ip];
      TouchConsistent(s, id, Attempted(s.infos[id], time));
    }
  }

  lemma ConnectedKeeps(s: State, svc: Service, time: int)
    requires Consistent(s)
    ensures Consistent(Connected(s, svc, time))
  {
    if Known(s, svc) {
      var id := s.idOf[svc.ip];
      TouchConsistent(s, id, s.infos[id].(time := ToU32(time)));
    }
  }

  /** How many addresses one request may return (src/addrman.cpp:457-459). */
  function Wanted(size: nat): nat {
    var n := GETADDR_MAX_PCT * size / 100;
    if n > GETADDR_MAX then GETADDR_MAX else n
  }

  /** The most addresses that are both at most 2500 and at most 23 percent of `size`. */
  lemma WantedMeans(size: nat, n: nat)
    ensures n <= Wanted(size) <==> n <= 2500 && 100 * n <= 23 * size
  {
  }

  function AddressOf(i: Info): Address {
    Address(i.service, i.time, i.services)
  }

  datatype Answer = Answer(state: State, got: seq<Address>)

  /** `t` is `s` with `order` shuffled: what GetAddr_ does to the state. */
  ghost predicate Reordered(s: State, t: State) {
    && t == s.(infos := t.infos, order := t.order)
    && |t.order| == |s.order| && OrderOk(t)
    && t.infos.Keys == s.infos.Keys
    && forall id :: id in s.infos ==> t.infos[id] == s.infos[id].(randomPos := t.infos[id].randomPos)
  }

  lemma ReorderedKeeps(s: State, t: State)
    requires Consistent(s) && Reordered(s, t)
    ensures Consistent(t)
  {
    assert SameEntries(s.infos, t.infos);
    SameEntriesKeeps(s, t, {});
  }

  /** The addresses in `got` are distinct and belong to entries at the first `n` positions. */
  ghost predicate Gathered(idOf: map<NetAddr, int>, order: seq<int>, n: nat, got: seq<Address>) {
    && n <= |order|
    && (forall k :: 0 <= k < |got| ==> got[k].service.ip in idOf && idOf[got[k].service.ip] in order[..n])
    && (forall k, m :: 0 <= k < m < |got| ==> got[k].service.ip != got[m].service.ip)
  }

  lemma GatherNext(idOf: map<NetAddr, int>, order: seq<int>, order': seq<int>, n: nat, got: seq<Address>, a: Address)
    requires Gathered(idOf, order, n, got) && n < |order| == |order'| && order'[..n] == order[..n]
    requires a.service.ip in idOf && idOf[a.service.ip] == order'[n] && order'[n] !in order'[..n]
    ensures Gathered(idOf, order', n + 1, got) && Gathered(idOf, order', n + 1, got + [a])
  {
    assert order'[..n + 1] == order'[..n] + [order'[n]];
  }

  /** `a` is the address of the entry at position `p`, found not terrible when it was looked at. */
  predicate Passed(s: State, clock: nat -> int, order: seq<int>, p: nat, a: Address) {
    p < |order| && order[p] in s.infos && a == AddressOf(s.infos[order[p]]) && !IsTerrible(s.infos[order[p]], clock(p))
  }

  ghost predicate PassedBefore(s: State, clock: nat -> int, order: seq<int>, n: nat, a: Address) {
    exists p: nat :: p < n && Passed(s, clock, order, p, a)
  }

  /** Judged against the entries of `s`, the one at position `p` at the clock's `p`-th reading:
      the answer consists of entries at the first `n` positions found not terrible, and each of
      them that is missing from it was found terrible. */
  ghost predicate Judged(s: State, clock: nat -> int, order: seq<int>, n: nat, got: seq<Address>) {
    && n <= |order|
    && (forall k :: 0 <= k < |got| ==> PassedBefore(s, clock, order, n, got[k]))
    && (forall p: nat :: p < n && order[p] in s.infos && AddressOf(s.infos[order[p]]) !in got ==>
          IsTerrible(s.infos[order[p]], clock(p)))
  }

  lemma JudgeNext(s: State, clock: nat -> int, order: seq<int>, order': seq<int>, n: nat, got: seq<Address>, i: Info)
    requires Judged(s, clock, order, n, got) && n < |order| == |order'| && order'[..n] == order[..n]
    requires order'[n] in s.infos && i == s.infos[order'[n]].(randomPos := i.randomPos)
    ensures Judged(s, clock, order', n + 1, if IsTerrible(i, clock(n)) then got else got + [AddressOf(i)])
  {
    var got' := if IsTerrible(i, clock(n)) then got else got + [AddressOf(i)];
    assert IsTerrible(i, clock(n)) == IsTerrible(s.infos[order'[n]], clock(n));
    forall p: nat | p < n ensures order'[p] == order[p] {
      assert order'[..n][p] == order[..n][p];
    }
    forall p: nat | p < n + 1 && order'[p] in s.infos
      ensures AddressOf(s.infos[order'[p]]) in got' || IsTerrible(s.infos[order'[p]], clock(p))
    {
      if p < n {
        assert order'[p] == order[p];
        assert AddressOf(s.infos[order[p]]) in got || IsTerrible(s.infos[order[p]], clock(p));
      } else if !IsTerrible(i, clock(n)) {
        assert got'[|got|] == AddressOf(i);
      }
    }
    forall k | 0 <= k < |got'| ensures PassedBefore(s, clock, order', n + 1, got'[k]) {
      if k < |got| {
        assert PassedBefore(s, clock, order, n, got[k]);
        var p: nat :| p < n && Passed(s, clock, order, p, got[k]);
        assert Passed(s, clock, order', p, got'[k]);
      } else {
        assert Passed(s, clock, order', n, got'[k]);
      }
    }
  }

  // ---- times ----

  /** Every entry of `t` comes from `s` with its times, and is tried only if it was. */
  ghost predicate TimesFrom(s: State, t: State) {
    forall x :: x in t.infos ==>
      && x in s.infos && t.infos[x].lastTry == s.infos[x].lastTry
      && t.infos[x].lastSuccess == s.infos[x].lastSuccess
      && (t.infos[x].inTried ==> s.infos[x].inTried)
  }

  lemma DeleteTimes(s: State, id: int)
    requires OrderOk(s) && id in s.infos
    ensures TimesFrom(s, Delete(s, id))
  {
  }

  lemma ClearNewTimes(s: State, slot: Slot)
    requires OrderOk(s) && NewSlotsOk(s)
    ensures TimesFrom(s, ClearNew(s, slot))
  {
    var id := At(s.newTable, slot);
    if id != EMPTY {
      var s1 := ClearNewStep(s, slot);
      if s1.infos[id].refCount == 0 { DeleteTimes(s1, id); }
    }
  }

  lemma EvictTimes(s: State, slot: Slot, pending: set<int>)
    requires Linked(s, pending) && At(s.triedTable, slot) != EMPTY
    ensures TimesFrom(s, Evict(s, slot, pending))
  {
    var id := At(s.triedTable, slot);
    var i := s.infos[id];
    var s1 := LeaveTried(s, slot);
    var nslot := NewSlot(s.h, s.key, NewBucket(s.h, s.key, i.service, i.source), i.service);
    assert Retabled(s, s1, id, slot, false);
    RetabledKeeps(s, s1, id, slot, false, pending);
    PendingHasNoSlot(s1, id, pending + {id}, nslot);
    ClearNewOthers(s1, nslot);
    ClearNewTimes(s1, nslot);
  }

  lemma FreeTriedTimes(s: State, slot: Slot, pending: set<int>)
    requires Linked(s, pending)
    ensures TimesFrom(s, FreeTried(s, slot, pending))
  {
    if At(s.triedTable, slot) != EMPTY {
      EvictTimes(s, slot, pending);
    }
  }

  /** The state of MakeTried just before the entry goes to its tried slot. */
  lemma MakeTriedStage(s: State, id: int) returns (t: State)
    requires Consistent(s) && id in s.infos && !s.infos[id].inTried
    ensures TimesFrom(LeaveNew(s, id), t) && id in t.infos
    ensures MakeTried(s, id) == EnterTried(t, id, TriedSlot(s.h, s.key, s.infos[id].service))
  {
    var slot := TriedSlot(s.h, s.key, s.infos[id].service);
    LeaveNewReady(s, id);
    t := FreeTried(LeaveNew(s, id), slot, {id});
    FreeTriedTimes(LeaveNew(s, id), slot, {id});
  }

  lemma MakeTriedEntries(s: State, id: int)
    requires Consistent(s) && id in s.infos && !s.infos[id].inTried
    ensures forall x :: x in MakeTried(s, id).infos ==> x in s.infos
  {
    var t := MakeTriedStage(s, id);
  }

  lemma MakeTriedTimes(s: State, id: int)
    requires Consistent(s) && id in s.infos && !s.infos[id].inTried
    ensures var t := MakeTried(s, id);
      && id in t.infos && t.infos[id].inTried && t.infos[id].lastSuccess == s.infos[id].lastSuccess
      && (TimesOk(s) && s.infos[id].lastSuccess != 0 ==> TimesOk(t))
  {
    var slot := TriedSlot(s.h, s.key, s.infos[id].service);
    var s1 := LeaveNew(s, id);
    LeaveNewCounted(s, id);
    if At(s1.triedTable, slot) != EMPTY {
      EvictTimes(s1, slot, {id});
      EvictSparesPending(s1, slot, {id}, id);
    }
  }
}
