/** The address manager itself: in-place updates of two slot tables, the entry maps, the random
    order and the counters (src/addrman.cpp), each method proved equal to its state function. */
module AddrMan {
  import opened Basics
  import opened Bits
  import opened AddrManState
  import opened AddrManInvariant
  import opened AddrManOps

  /** `t` is the contents of the slot array `a`. */
  ghost predicate Mirrors(t: Table, a: array2<int>)
    reads a
  {
    && (forall slot: Slot :: slot in t ==>
          slot.0 < a.Length0 && slot.1 < a.Length1 && a[slot.0, slot.1] == t[slot])
    && (forall b: nat, p: nat :: b < a.Length0 && p < a.Length1 && (b, p) !in t ==> a[b, p] == EMPTY)
  }

  /** The nested loops of Clear (src/addrman.h:437-446). */
  method ClearTable(a: array2<int>)
    modifies a
    ensures Mirrors(map[], a)
  {
    for bucket := 0 to a.Length0
      invariant forall b, p :: 0 <= b < bucket && 0 <= p < a.Length1 ==> a[b, p] == EMPTY
    {
      for entry := 0 to a.Length1
        invariant forall b, p :: 0 <= b < bucket && 0 <= p < a.Length1 ==> a[b, p] == EMPTY
        invariant forall p :: 0 <= p < entry ==> a[bucket, p] == EMPTY
      {
        a[bucket, entry] := EMPTY;
      }
    }
  }

  class Manager {
    const h: Hasher
    var key: Key
    var nextId: int
    var infos: map<int, Info>
    var idOf: map<NetAddr, int>
    var order: seq<int>
    var triedCount: int
    var newCount: int
    const triedTable: array2<int>
    const newTable: array2<int>
    ghost var triedMap: Table
    ghost var newMap: Table

    ghost predicate Shaped()
      reads this, triedTable, newTable
    {
      && triedTable != newTable
      && triedTable.Length0 == TRIED_BUCKET_COUNT && triedTable.Length1 == BUCKET_SIZE
      && newTable.Length0 == NEW_BUCKET_COUNT && newTable.Length1 == BUCKET_SIZE
      && Mirrors(triedMap, triedTable) && Mirrors(newMap, newTable)
    }

    /** The manager's contents as a value. */
    ghost function Abs(): State
      reads this
    {
      State(h, key, nextId, infos, idOf, order, triedMap, triedCount, newMap, newCount)
    }

    ghost predicate Valid()
      reads this, triedTable, newTable
    {
      Shaped() && Consistent(Abs())
    }

    constructor (h: Hasher, key: Key)
      ensures Valid() && Abs() == Initial(h, key)
      ensures fresh(newTable) && fresh(triedTable)
    {
      this.h := h;
      infos, idOf := map[], map[];
      triedTable := new int[TRIED_BUCKET_COUNT, BUCKET_SIZE];
      newTable := new int[NEW_BUCKET_COUNT, BUCKET_SIZE];
      new;
      Clear(key);
      InitialConsistent(h, key);
    }

    /** Resets everything but the entries and their addresses, with a fresh key
        (src/addrman.h:433-451). */
    method Clear(newKey: Key)
      requires triedTable != newTable
      requires triedTable.Length0 == TRIED_BUCKET_COUNT && triedTable.Length1 == BUCKET_SIZE
      requires newTable.Length0 == NEW_BUCKET_COUNT && newTable.Length1 == BUCKET_SIZE
      modifies this, triedTable, newTable
      ensures Shaped()
      ensures Abs() == Cleared(old(Abs()), newKey)
    {
      order, key := [], newKey;
      nextId, triedCount, newCount := 0, 0, 0;
      triedMap, newMap := map[], map[];
      ClearTable(newTable);
      ClearTable(triedTable);
    }

    function ReadNew(slot: Slot): (v: int)
      requires Shaped() && slot.0 < NEW_BUCKET_COUNT && slot.1 < BUCKET_SIZE
      reads this, triedTable, newTable
      ensures v == At(newMap, slot)
    {
      newTable[slot.0, slot.1]
    }

    function ReadTried(slot: Slot): (v: int)
      requires Shaped() && slot.0 < TRIED_BUCKET_COUNT && slot.1 < BUCKET_SIZE
      reads this, triedTable, newTable
      ensures v == At(triedMap, slot)
    {
      triedTable[slot.0, slot.1]
    }

    method WriteNew(slot: Slot, v: int)
      requires Shaped() && slot.0 < NEW_BUCKET_COUNT && slot.1 < BUCKET_SIZE
      modifies newTable, this`newMap
      ensures Shaped() && newMap == old(newMap)[slot := v]
    {
      newTable[slot.0, slot.1] := v;
      newMap := newMap[slot := v];
    }

    method WriteTried(slot: Slot, v: int)
      requires Shaped() && slot.0 < TRIED_BUCKET_COUNT && slot.1 < BUCKET_SIZE
      modifies triedTable, this`triedMap
      ensures Shaped() && triedMap == old(triedMap)[slot := v]
    {
      triedTable[slot.0, slot.1] := v;
      triedMap := triedMap[slot := v];
    }

    method CreateEntry(a: Address, source: NetAddr) returns (id: int)
      requires Shaped()
      modifies this
      ensures Shaped()
      ensures Abs() == Create(old(Abs()), a, source) && id == old(nextId)
    {
      id := nextId;
      nextId := nextId + 1;
      infos := infos[id := Info(a.service, a.time, a.services, source, 0, 0, 0, 0, false, -1)];
      idOf := idOf[a.service.ip := id];
      infos := infos[id := infos[id].(randomPos := |order|)];
      order := order + [id];
    }

    method SwapRandom(i: nat, j: nat)
      requires Shaped() && OrderOk(Abs()) && i < |order| && j < |order|
      modifies this
      ensures Shaped()
      ensures Abs() == Swap(old(Abs()), i, j)
    {
      if i == j {
        return;
      }
      var id1, id2 := order[i], order[j];
      assert id1 in infos && id2 in infos;
      infos := infos[id1 := infos[id1].(randomPos := j)];
      infos := infos[id2 := infos[id2].(randomPos := i)];
      order := order[i := id2];
      order := order[j := id1];
    }

    /** src/addrman.cpp:125-137; what the source asserts first is required of the callers. */
    method DeleteEntry(id: int)
      requires Shaped() && OrderOk(Abs()) && id in infos
      requires !infos[id].inTried && infos[id].refCount == 0
      modifies this
      ensures Shaped()
      ensures Abs() == Delete(old(Abs()), id)
    {
      SwapRandom(infos[id].randomPos, |order| - 1);
      order := order[..|order| - 1];
      idOf := idOf - {infos[id].service.ip};
      infos := infos - {id};
      newCount := newCount - 1;
    }

    method ClearNewSlot(slot: Slot, ghost pending: set<int>)
      requires Shaped() && OrderOk(Abs()) && NewSlotsOk(Abs()) && RefCountsOk(Abs(), pending)
      requires slot.0 < NEW_BUCKET_COUNT && slot.1 < BUCKET_SIZE
      modifies this, newTable
      ensures Shaped()
      ensures Abs() == ClearNew(old(Abs()), slot)
    {
      var id := ReadNew(slot);
      if id != EMPTY {
        ghost var s1 := ClearNewStep(Abs(), slot);
        OccupantIsReferenced(Abs(), slot, pending);
        assert infos[id].refCount > 0;
        Unreference(id, slot);
        if infos[id].refCount == 0 {
          DeleteEntry(id);
        }
      }
    }

    method Unreference(id: int, slot: Slot)
      requires Shaped() && id in infos && slot.0 < NEW_BUCKET_COUNT && slot.1 < BUCKET_SIZE
      modifies this, newTable
      ensures Shaped()
      ensures Abs() == old(Abs()).(
        infos := old(infos)[id := old(infos)[id].(refCount := old(infos)[id].refCount - 1)],
        newTable := old(newMap)[slot := EMPTY])
    {
      infos := infos[id := infos[id].(refCount := infos[id].refCount - 1)];
      WriteNew(slot, EMPTY);
    }

    method LeaveBucket(id: int, bucket: nat)
      requires Shaped() && id in infos && id != EMPTY && bucket < NEW_BUCKET_COUNT
      modifies this`infos, this`newMap, newTable
      ensures Shaped()
      ensures Abs() == LeaveOne(old(Abs()), id, NewSlot(h, key, bucket, old(infos)[id].service))
    {
      var pos := Position(h, key, true, bucket, infos[id].service);
      if ReadNew((bucket, pos)) == id {
        WriteNew((bucket, pos), EMPTY);
        infos := infos[id := infos[id].(refCount := infos[id].refCount - 1)];
      }
    }

    /** The loop of MakeTried over all new buckets (src/addrman.cpp:156-163). */
    method LeaveBuckets(id: int)
      requires Shaped() && id in infos && id != EMPTY
      modifies this`infos, this`newMap, newTable
      ensures Shaped()
      ensures Abs() == LeaveUpTo(old(Abs()), id, NEW_BUCKET_COUNT)
    {
      ghost var s := Abs();
      var bucket := 0;
      while bucket < NEW_BUCKET_COUNT
        invariant bucket <= NEW_BUCKET_COUNT
        invariant Shaped() && Abs() == LeaveUpTo(s, id, bucket)
      {
        LeaveBucket(id, bucket);
        bucket := bucket + 1;
      }
    }

    /** The loop and the counter (src/addrman.cpp:156-164). */
    method LeaveNewBuckets(id: int)
      requires Shaped() && id in infos && id != EMPTY
      modifies this, newTable
      ensures Shaped()
      ensures Abs() == LeaveNew(old(Abs()), id)
    {
      LeaveUpToEnd(Abs(), id, NEW_BUCKET_COUNT);
      LeaveBuckets(id);
      newCount := newCount - 1;
    }

    method LeaveTriedSlot(slot: Slot) returns (id: int)
      requires Shaped() && slot.0 < TRIED_BUCKET_COUNT && slot.1 < BUCKET_SIZE
      requires At(Abs().triedTable, slot) in infos
      modifies this, triedTable
      ensures Shaped()
      ensures id == At(old(Abs()).triedTable, slot) && Abs() == LeaveTried(old(Abs()), slot)
    {
      id := ReadTried(slot);
      infos := infos[id := infos[id].(inTried := false)];
      WriteTried(slot, EMPTY);
      triedCount := triedCount - 1;
    }

    /** src/addrman.cpp:189-193; the slot has just been emptied. */
    method EnterNewSlot(id: int, slot: Slot)
      requires At(Abs().newTable, slot) == EMPTY
      requires Shaped() && id in infos && slot.0 < NEW_BUCKET_COUNT && slot.1 < BUCKET_SIZE
      modifies this, newTable
      ensures Shaped()
      ensures Abs() == EnterNew(old(Abs()), id, slot)
    {
      infos := infos[id := infos[id].(refCount := 1)];
      WriteNew(slot, id);
      newCount := newCount + 1;
    }

    /** src/addrman.cpp:195-199; the slot is free and the entry has no references left. */
    method EnterTriedSlot(id: int, slot: Slot)
      requires At(Abs().triedTable, slot) == EMPTY
      requires Shaped() && id in infos && slot.0 < TRIED_BUCKET_COUNT && slot.1 < BUCKET_SIZE
      modifies this, triedTable
      ensures Shaped()
      ensures Abs() == EnterTried(old(Abs()), id, slot)
    {
      WriteTried(slot, id);
      triedCount := triedCount + 1;
      infos := infos[id := infos[id].(inTried := true)];
    }

    /** src/addrman.cpp:174-194 */
    method EvictEntry(slot: Slot, ghost pending: set<int>)
      requires Shaped() && Linked(Abs(), pending) && slot.0 < TRIED_BUCKET_COUNT && slot.1 < BUCKET_SIZE
      requires At(Abs().triedTable, slot) != EMPTY
      modifies this, newTable, triedTable
      ensures Shaped()
      ensures Abs() == Evict(old(Abs()), slot, pending)
    {
      EvictPrepares(Abs(), LeaveTried(Abs(), slot), slot, pending);
      var id := LeaveTriedSlot(slot);
      var bucket := NewBucket(h, key, infos[id].service, infos[id].source);
      var nslot := NewSlot(h, key, bucket, infos[id].service);
      ClearNewSlot(nslot, pending + {id});
      EnterNewSlot(id, nslot);
    }

    method FreeTriedSlot(slot: Slot, ghost pending: set<int>)
      requires Shaped() && Linked(Abs(), pending) && slot.0 < TRIED_BUCKET_COUNT && slot.1 < BUCKET_SIZE
      modifies this, newTable, triedTable
      ensures Shaped()
      ensures Abs() == FreeTried(old(Abs()), slot, pending)
    {
      if ReadTried(slot) != EMPTY {
        EvictEntry(slot, pending);
      }
    }

    method MakeTriedEntry(id: int)
      requires Shaped() && Linked(Abs(), {}) && id in infos && !infos[id].inTried
      modifies this, newTable, triedTable
      ensures Shaped()
      ensures Abs() == MakeTried(old(Abs()), id)
    {
      var slot := TriedSlot(h, key, infos[id].service);
      LeaveNewReady(Abs(), id);
      LeaveNewBuckets(id);
      assert infos[id].refCount == 0;
      FreeTriedSlot(slot, {id});
      EnterTriedSlot(id, slot);
    }
  
    // ---- the public operations ----

    /** The search of Good_ for a bucket holding `id`, from a random start (src/addrman.cpp:228-238). */
    method FindBucket(id: int, rnd: nat) returns (found: bool)
      requires Shaped() && id in infos
      ensures found <==> Holding(h, key, Abs().newTable, infos[id].service, id) != {}
    {
      var start := Draw(rnd, NEW_BUCKET_COUNT);
      var svc := infos[id].service;
      found := false;
      var n := 0;
      while n < NEW_BUCKET_COUNT
        invariant n <= NEW_BUCKET_COUNT
        invariant forall m :: 0 <= m < n ==> At(Abs().newTable, NewSlot(h, key, Turn(m, start), svc)) != id
      {
        var b := Turn(n, start);
        if ReadNew((b, Position(h, key, true, b, svc))) == id {
          assert b in Holding(h, key, Abs().newTable, svc, id);
          return true;
        }
        n := n + 1;
      }
      forall b: nat | b < NEW_BUCKET_COUNT ensures At(Abs().newTable, NewSlot(h, key, b, svc)) != id {
        TurnIsOnto(b, start);
      }
    }

    method Promotes(id: int, rnd: nat) returns (b: bool)
      requires Shaped() && id in infos
      ensures b <==> !(infos[id].inTried || Holding(h, key, Abs().newTable, infos[id].service, id) == {})
    {
      if infos[id].inTried {
        return false;
      }
      b := FindBucket(id, rnd);
    }

    method RecordSuccess(id: int, time: int)
      requires Shaped() && id in infos
      modifies this
      ensures Shaped()
      ensures Abs() == Succeeded(old(Abs()), id, time)
    {
      infos := infos[id := infos[id].(lastSuccess := time, lastTry := time, attempts := 0)];
    }

    /** src/addrman.cpp:202-249 */
    method Good(svc: Service, time: int, rnd: nat)
      requires Valid()
      modifies this, newTable, triedTable
      ensures Valid() && Abs() == AddrManOps.Good(old(Abs()), svc, time)
    {
      GoodKeeps(Abs(), svc, time);
      DoGood(svc, time, rnd);
    }

    method DoGood(svc: Service, time: int, rnd: nat)
      requires Shaped() && Consistent(Abs())
      modifies this, newTable, triedTable
      ensures Shaped()
      ensures Abs() == AddrManOps.Good(old(Abs()), svc, time)
    {
      if Known(Abs(), svc) {
        GoodCases(Abs(), svc, time);
      }
      if svc.ip in idOf {
        var id := idOf[svc.ip];
        if infos[id].service == svc {
          RecordSuccess(id, time);
          var promotes := Promotes(id, rnd);
          if promotes {
            MakeTriedEntry(id);
          }
        }
      }
    }

    /** src/addrman.cpp:319-336 */
    method Attempt(svc: Service, time: int)
      requires Valid()
      modifies this
      ensures Valid() && Abs() == AddrManOps.Attempt(old(Abs()), svc, time)
    {
      AttemptKeeps(Abs(), svc, time);
      DoAttempt(svc, time);
    }

    method DoAttempt(svc: Service, time: int)
      requires Shaped() && AddressesOk(Abs())
      modifies this
      ensures Shaped()
      ensures Abs() == AddrManOps.Attempt(old(Abs()), svc, time)
    {
      if svc.ip in idOf {
        var id := idOf[svc.ip];
        if infos[id].service == svc {
          infos := infos[id := infos[id].(lastTry := time, attempts := infos[id].attempts + 1)];
        }
      }
    }

    /** src/addrman.cpp:476-494 */
    method Connected(svc: Service, time: int)
      requires Valid()
      modifies this
      ensures Valid() && Abs() == AddrManOps.Connected(old(Abs()), svc, time)
    {
      ConnectedKeeps(Abs(), svc, time);
      DoConnected(svc, time);
    }

    method DoConnected(svc: Service, time: int)
      requires Shaped() && AddressesOk(Abs())
      modifies this
      ensures Shaped()
      ensures Abs() == AddrManOps.Connected(old(Abs()), svc, time)
    {
      if svc.ip in idOf {
        var id := idOf[svc.ip];
        if infos[id].service == svc && time - infos[id].time > 20 * 60 {
          infos := infos[id := infos[id].(time := ToU32(time))];
        }
      }
    }

    method Reference(id: int, slot: Slot)
      requires Shaped() && id in infos && slot.0 < NEW_BUCKET_COUNT && slot.1 < BUCKET_SIZE
      modifies this, newTable
      ensures Shaped()
      ensures Abs() == AddReference(old(Abs()), id, slot)
    {
      infos := infos[id := infos[id].(refCount := infos[id].refCount + 1)];
      WriteNew(slot, id);
    }

    method ChecksSlot(id: int, slot: Slot, now: int) returns (insert: bool)
      requires Shaped() && NewSlotsOk(Abs()) && id in infos && slot.0 < NEW_BUCKET_COUNT && slot.1 < BUCKET_SIZE
      ensures insert == TakesSlot(Abs(), id, slot, now)
    {
      var there := ReadNew(slot);
      insert := there == EMPTY;
      if !insert {
        var existing := infos[there];
        if IsTerrible(existing, now) || (existing.refCount > 1 && infos[id].refCount == 0) {
          insert := true;
        }
      }
    }

    method TakeSlot(id: int, slot: Slot, ghost pending: set<int>)
      requires Shaped() && id in infos && OrderOk(Abs()) && NewSlotsOk(Abs()) && RefCountsOk(Abs(), pending)
      requires slot.0 < NEW_BUCKET_COUNT && slot.1 < BUCKET_SIZE && At(Abs().newTable, slot) != id
      modifies this, newTable
      ensures Shaped()
      ensures id in ClearNew(old(Abs()), slot).infos && Abs() == AddReference(ClearNew(old(Abs()), slot), id, slot)
    {
      ClearNewOthers(Abs(), slot);
      ClearNewSlot(slot, pending);
      Reference(id, slot);
    }

    /** src/addrman.cpp:295-315 */
    method PlaceEntry(id: int, source: NetAddr, now: int, ghost pending: set<int>)
      requires Shaped() && id in infos && !infos[id].inTried && OrderOk(Abs()) && NewSlotsOk(Abs())
      requires RefCountsOk(Abs(), pending)
      modifies this, newTable
      ensures Shaped()
      ensures Abs() == Place(old(Abs()), id, source, now)
    {
      var svc := infos[id].service;
      var bucket := NewBucket(h, key, svc, source);
      var slot := NewSlot(h, key, bucket, svc);
      if ReadNew(slot) != id {
        var insert := ChecksSlot(id, slot, now);
        if insert {
          TakeSlot(id, slot, pending);
        } else if infos[id].refCount == 0 {
          DeleteEntry(id);
        }
      }
    }

    /** The stochastic test of Add_ (src/addrman.cpp:282-287). */
    method PassesDraw(refCount: int, rnd: nat) returns (pass: bool)
      requires refCount >= 0
      ensures pass <==> (refCount > 0 ==> Draw(rnd, Pow2(refCount)) == 0)
    {
      var factor := 1;
      var n := 0;
      while n < refCount
        invariant 0 <= n <= refCount && factor == Pow2(n)
      {
        factor := factor * 2;
        n := n + 1;
      }
      Pow2Grows(refCount);
      pass := !(factor > 1 && Draw(rnd, factor) != 0);
    }

    /** The update of a known entry (src/addrman.cpp:261-268). */
    method Refresh(id: int, a: Address, penalty: int, now: int)
      requires Shaped() && id in infos
      modifies this
      ensures Shaped()
      ensures Abs() == Touch(old(Abs()), id, Refreshed(h, old(infos)[id], a, penalty, now))
    {
      var online := now - a.time < DAY;
      var interval := if online then 60 * 60 else DAY;
      if a.time != 0 && (infos[id].time == 0 || infos[id].time < a.time - interval - penalty) {
        infos := infos[id := infos[id].(time := ToU32(Max(0, a.time - penalty)))];
      }
      infos := infos[id := infos[id].(services := h.bitOr(infos[id].services, a.services))];
    }

    /** The early exits for a known entry (src/addrman.cpp:270-287). */
    method MayReference(id: int, a: Address, rnd: nat) returns (ok: bool)
      requires id in infos && infos[id].refCount >= 0
      ensures ok == MayAddReference(infos[id], a, rnd)
    {
      if a.time == 0 || (infos[id].time != 0 && a.time <= infos[id].time) {
        return false;
      }
      if infos[id].inTried {
        return false;
      }
      if infos[id].refCount == NEW_BUCKETS_PER_ADDRESS {
        return false;
      }
      ok := PassesDraw(infos[id].refCount, rnd);
    }

    /** The branch of Add_ for an address already known. */
    method Announce(a: Address, source: NetAddr, penalty: int, now: int, now2: int, rnd: nat)
      requires Shaped() && OrderOk(Abs()) && AddressesOk(Abs()) && NewSlotsOk(Abs()) && RefCountsOk(Abs(), {})
      requires a.service.ip in idOf && h.routable(a.service.ip)
      modifies this, newTable
      ensures Shaped()
      ensures Abs() == AddrManOps.Add(old(Abs()), a, source, penalty, now, now2, rnd)
    {
      var id := idOf[a.service.ip];
      ghost var i := Refreshed(h, infos[id], a, penalty, now);
      TouchUsable(Abs(), id, i);
      TouchCounts(Abs(), id, i);
      Refresh(id, a, penalty, now);
      var ok := MayReference(id, a, rnd);
      if ok {
        PlaceEntry(id, source, now2, {});
      }
    }

    method CreateCounted(a: Address, source: NetAddr, penalty: int) returns (id: int)
      requires Shaped()
      modifies this
      ensures Shaped()
      ensures id == old(nextId) && Abs() == Created(old(Abs()), a, source, penalty)
    {
      id := CreateEntry(a, source);
      infos := infos[id := infos[id].(time := ToU32(Max(0, infos[id].time - penalty)))];
      newCount := newCount + 1;
    }

    /** The branch of Add_ for an address not seen before. */
    method Introduce(a: Address, source: NetAddr, penalty: int, now: int, now2: int, rnd: nat)
      requires Shaped() && OrderOk(Abs()) && AddressesOk(Abs()) && NewSlotsOk(Abs()) && TriedSlotsOk(Abs())
      requires RefCountsOk(Abs(), {}) && 0 <= nextId
      requires a.service.ip !in idOf && h.routable(a.service.ip)
      modifies this, newTable
      ensures Shaped()
      ensures Abs() == AddrManOps.Add(old(Abs()), a, source, penalty, now, now2, rnd)
    {
      CreatedUsable(Abs(), a, source, penalty);
      CreatedRefCounts(Abs(), a, source, penalty);
      var id := CreateCounted(a, source, penalty);
      PlaceEntry(id, source, now2, {id});
    }

    /** src/addrman.cpp:251-317 */
    method Add(a: Address, source: NetAddr, penalty: int, now: int, now2: int, rnd: nat) returns (isNew: bool)
      requires Valid()
      modifies this, newTable
      ensures Valid() && AddrManOps.Add.requires(old(Abs()), a, source, penalty, now, now2, rnd)
      ensures Abs() == AddrManOps.Add(old(Abs()), a, source, penalty, now, now2, rnd)
      ensures isNew <==> h.routable(a.service.ip) && a.service.ip !in old(idOf)
      ensures !h.routable(a.service.ip) ==> Abs() == old(Abs())
    {
      AddKeeps(Abs(), a, source, penalty, now, now2, rnd);
      if !h.routable(a.service.ip) {
        return false;
      }
      isNew := a.service.ip !in idOf;
      if isNew {
        Introduce(a, source, penalty, now, now2, rnd);
      } else {
        Announce(a, source, penalty, now, now2, rnd);
      }
    }
  
    /** One round of the sampling loop (src/addrman.cpp:466-472). */
    method SampleNext(n: nat, draw: nat, clock: nat -> int, got: seq<Address>, ghost s: State)
        returns (got': seq<Address>)
      requires Shaped() && OrderOk(Abs()) && AddressesOk(s) && Reordered(s, Abs()) && n < |order|
      requires Gathered(idOf, order, n, got) && Judged(s, clock, order, n, got)
      modifies this
      ensures Shaped() && Reordered(s, Abs()) && OrderOk(Abs())
      ensures Gathered(idOf, order, n + 1, got') && Judged(s, clock, order, n + 1, got') && |got'| <= |got| + 1
    {
      var j := n + Draw(draw, |order| - n);
      SwapSamples(s, Abs(), n, j, clock, got);
      SwapRandom(n, j);
      var i := infos[order[n]];
      got' := if IsTerrible(i, clock(n)) then got else got + [AddressOf(i)];
    }

    /** src/addrman.cpp:455-474 */
    method GetAddr(rnd: nat -> nat, clock: nat -> int) returns (got: seq<Address>)
      requires Valid()
      modifies this
      ensures Valid() && Reordered(old(Abs()), Abs())
      ensures |got| <= 2500 && 100 * |got| <= 23 * |order| && Gathered(idOf, order, |order|, got)
      ensures exists n: nat ::
        (n == |order| || |got| == 2500 || 100 * (|got| + 1) > 23 * |order|) && Judged(old(Abs()), clock, order, n, got)
    {
      ghost var s := Abs();
      got := DoGetAddr(rnd, clock);
      ReorderedKeeps(s, Abs());
      WantedMeans(|order|, |got|);
      WantedMeans(|order|, |got| + 1);
    }

    method DoGetAddr(rnd: nat -> nat, clock: nat -> int) returns (got: seq<Address>)
      requires Shaped() && OrderOk(Abs()) && AddressesOk(Abs())
      modifies this
      ensures Shaped() && Reordered(old(Abs()), Abs())
      ensures |got| <= Wanted(|order|) && Gathered(idOf, order, |order|, got)
      ensures exists n: nat :: (n == |order| || |got| == Wanted(|order|)) && Judged(old(Abs()), clock, order, n, got)
    {
      ghost var s := Abs();
      got := [];
      var nodes := Wanted(|order|);
      var n := 0;
      while n < |order| && |got| < nodes
        invariant n <= |order| == |s.order| && |got| <= nodes
        invariant Shaped() && OrderOk(Abs()) && Reordered(s, Abs()) && Gathered(idOf, order, n, got)
        invariant Judged(s, clock, order, n, got)
        decreases |s.order| - n
      {
        got := SampleNext(n, rnd(n), clock, got, s);
        n := n + 1;
      }
      assert forall x :: x in order[..n] ==> x in order[..|order|];
    }
  }

  lemma SwapReorders(s: State, t: State, i: nat, j: nat)
    requires Reordered(s, t) && OrderOk(t) && i < |t.order| && j < |t.order|
    ensures Reordered(s, Swap(t, i, j))
  {
    SwapOrder(t, i, j);
    assert Swap(t, i, j).infos.Keys == t.infos.Keys;
  }

  lemma ReorderedAddresses(s: State, t: State)
    requires Reordered(s, t) && AddressesOk(s)
    ensures AddressesOk(t)
  {
    assert SameEntries(s.infos, t.infos);
    FrameAddresses(s, t);
  }

  lemma SampledEntry(t: State, u: State, n: nat, got: seq<Address>)
    requires OrderOk(u) && AddressesOk(u) && u.idOf == t.idOf
    requires Gathered(t.idOf, t.order, n, got) && n < |t.order| == |u.order| && u.order[..n] == t.order[..n]
    ensures u.order[n] in u.infos
    ensures Gathered(u.idOf, u.order, n + 1, got)
    ensures Gathered(u.idOf, u.order, n + 1, got + [AddressOf(u.infos[u.order[n]])])
  {
    var id := u.order[n];
    assert id in u.infos && u.infos[id].service.ip in u.idOf;
    assert forall p :: 0 <= p < n ==> u.order[p] != id;
    GatherNext(t.idOf, t.order, u.order, n, got, AddressOf(u.infos[id]));
  }

  lemma SwapKeepsPrefix(t: State, n: nat, j: nat)
    requires OrderOk(t) && n <= j < |t.order|
    ensures |Swap(t, n, j).order| == |t.order| && Swap(t, n, j).order[..n] == t.order[..n]
    ensures Swap(t, n, j).idOf == t.idOf
  {
  }

  lemma SwappedEntry(s: State, t: State, n: nat, j: nat, got: seq<Address>)
    requires Reordered(s, t) && OrderOk(t) && AddressesOk(s) && n <= j < |t.order|
    requires Gathered(t.idOf, t.order, n, got)
    ensures var u := Swap(t, n, j);
      && u.order[n] in u.infos
      && Gathered(u.idOf, u.order, n + 1, got)
      && Gathered(u.idOf, u.order, n + 1, got + [AddressOf(u.infos[u.order[n]])])
  {
    SwapReorders(s, t, n, j);
    SwapKeepsPrefix(t, n, j);
    ReorderedAddresses(s, Swap(t, n, j));
    SampledEntry(t, Swap(t, n, j), n, got);
  }

  /** One round of the sampling loop on the state. */
  lemma SwapSamples(s: State, t: State, n: nat, j: nat, clock: nat -> int, got: seq<Address>)
    requires Reordered(s, t) && OrderOk(t) && AddressesOk(s) && n <= j < |t.order|
    requires Gathered(t.idOf, t.order, n, got) && Judged(s, clock, t.order, n, got)
    ensures var u := Swap(t, n, j);
      && Reordered(s, u) && u.order[n] in u.infos
      && var i := u.infos[u.order[n]]; var got' := if IsTerrible(i, clock(n)) then got else got + [AddressOf(i)];
         Gathered(u.idOf, u.order, n + 1, got') && Judged(s, clock, u.order, n + 1, got')
  {
    var u := Swap(t, n, j);
    SwapReorders(s, t, n, j);
    SwappedEntry(s, t, n, j, got);
    SwapKeepsPrefix(t, n, j);
    JudgeNext(s, clock, t.order, u.order, n, got, u.infos[u.order[n]]);
  }

  /** The `n`-th bucket of a search that starts at `start` and wraps around. */
  function Turn(n: nat, start: nat): (b: nat)
    ensures b < NEW_BUCKET_COUNT
  {
    (n + start) % NEW_BUCKET_COUNT
  }

  lemma TurnIsOnto(b: nat, start: nat)
    requires b < NEW_BUCKET_COUNT && start < NEW_BUCKET_COUNT
    ensures exists m: nat :: m < NEW_BUCKET_COUNT && Turn(m, start) == b
  {
    var m := if b >= start then b - start else b + NEW_BUCKET_COUNT - start;
    assert Turn(m, start) == b;
  }

  lemma Pow2Grows(n: nat)
    ensures n > 0 ==> Pow2(n) > 1
  {
  }

  /** What holds between the two halves of an eviction. */
  lemma EvictPrepares(s: State, s1: State, slot: Slot, pending: set<int>)
    requires Linked(s, pending) && At(s.triedTable, slot) != EMPTY && s1 == LeaveTried(s, slot)
    ensures var id := At(s.triedTable, slot); var i := s.infos[id];
      var nslot := NewSlot(s.h, s.key, NewBucket(s.h, s.key, i.service, i.source), i.service);
      && OrderOk(s1) && NewSlotsOk(s1) && RefCountsOk(s1, pending + {id})
      && id in s1.infos && s1.infos[id] == i.(inTried := false)
      && id in ClearNew(s1, nslot).infos && At(ClearNew(s1, nslot).newTable, nslot) == EMPTY
  {
    var id := At(s.triedTable, slot);
    var i := s.infos[id];
    var nslot := NewSlot(s.h, s.key, NewBucket(s.h, s.key, i.service, i.source), i.service);
    assert Retabled(s, s1, id, slot, false);
    RetabledKeeps(s, s1, id, slot, false, pending);
    PendingHasNoSlot(s1, id, pending + {id}, nslot);
    ClearNewOthers(s1, nslot);
  }
}
