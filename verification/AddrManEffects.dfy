/** What Add_, Good_ and the time updates do to entries and slots (src/addrman.cpp:154-336). */
module AddrManEffects {
  import opened Basics
  import opened Bits
  import opened AddrManState
  import opened AddrManInvariant
  import opened AddrManOps

  /** An entry not worth keeping: not tried within the last minute and from the future, too old,
      tried three times in vain, or failing ten times over a week (src/addrman.cpp:38-56). */
  predicate Hopeless(i: Info, now: int) {
    && (i.lastTry == 0 || now - i.lastTry > 60)
    && (|| i.time == 0 || i.time - now > 600 || now - i.time > 30 * 86400
        || (i.lastSuccess == 0 && i.attempts >= 3)
        || (now - i.lastSuccess > 7 * 86400 && i.attempts >= 10))
  }

  lemma TerribleIsHopeless(i: Info, now: int)
    ensures IsTerrible(i, now) <==> Hopeless(i, now)
  {
  }

  /** The place in the random order aside, `b` is `a`. */
  predicate Kept(a: Info, b: Info) {
    b == a.(randomPos := b.randomPos)
  }

  /** From `s` to `t` whoever held the new slot `slot` lost that one reference and is gone if and
      only if it was the last one. Every other new slot, every tried slot and every other entry
      but `except` is as before, and there are no further entries. */
  ghost predicate Displaced(s: State, t: State, slot: Slot, except: int) {
    var there := At(s.newTable, slot);
    && (forall x :: x in s.infos && x != except && x != there ==> x in t.infos && Kept(s.infos[x], t.infos[x]))
    && (forall x :: x in t.infos && x != except ==> x in s.infos)
    && (there in s.infos && there != except ==>
          && (there in t.infos <==> s.infos[there].refCount > 1)
          && (there in t.infos ==>
                Kept(s.infos[there].(refCount := s.infos[there].refCount - 1), t.infos[there])))
    && (forall other: Slot :: other != slot ==> At(t.newTable, other) == At(s.newTable, other))
    && t.triedTable == s.triedTable && t.h == s.h && t.key == s.key
  }

  // ---- The elementary steps ----

  lemma DeleteEffect(s: State, id: int)
    requires OrderOk(s) && id in s.infos
    ensures var t := Delete(s, id);
      && (forall x :: x in t.infos <==> x in s.infos && x != id)
      && (forall x :: x in t.infos ==> Kept(s.infos[x], t.infos[x]))
      && t.newTable == s.newTable && t.triedTable == s.triedTable && t.h == s.h && t.key == s.key
  {
  }

  lemma ClearNewEffect(s: State, slot: Slot, except: int)
    requires OrderOk(s) && NewSlotsOk(s)
    requires EMPTY !in s.infos
    requires At(s.newTable, slot) != EMPTY ==> s.infos[At(s.newTable, slot)].refCount > 0
    ensures Displaced(s, ClearNew(s, slot), slot, except) && At(ClearNew(s, slot).newTable, slot) == EMPTY
  {
    var id := At(s.newTable, slot);
    if id != EMPTY {
      var s1 := ClearNewStep(s, slot);
      if s1.infos[id].refCount == 0 {
        DeleteEffect(s1, id);
      }
    }
  }

  /** The entry `id` takes the slot over. */
  ghost predicate TakenOver(s: State, t: State, id: int, slot: Slot)
    requires id in s.infos
  {
    && Displaced(s, t, slot, id) && At(t.newTable, slot) == id && id in t.infos
    && Kept(s.infos[id].(refCount := s.infos[id].refCount + 1), t.infos[id])
  }

  lemma TakenEffect(s: State, id: int, slot: Slot)
    requires OrderOk(s) && NewSlotsOk(s) && id in s.infos && id != EMPTY && At(s.newTable, slot) != id
    requires EMPTY !in s.infos
    requires At(s.newTable, slot) != EMPTY ==> s.infos[At(s.newTable, slot)].refCount > 0
    ensures id in ClearNew(s, slot).infos && TakenOver(s, AddReference(ClearNew(s, slot), id, slot), id, slot)
  {
    ClearNewEffect(s, slot, id);
    ClearNewSpares(s, slot, id);
    ReferenceEffect(s, ClearNew(s, slot), id, slot);
  }

  lemma ClearNewSpares(s: State, slot: Slot, id: int)
    requires OrderOk(s) && NewSlotsOk(s) && id in s.infos && At(s.newTable, slot) != id
    requires EMPTY !in s.infos
    requires At(s.newTable, slot) != EMPTY ==> s.infos[At(s.newTable, slot)].refCount > 0
    ensures id in ClearNew(s, slot).infos && Kept(s.infos[id], ClearNew(s, slot).infos[id])
  {
    ClearNewEffect(s, slot, At(s.newTable, slot));
  }

  lemma ReferenceEffect(s: State, u: State, id: int, slot: Slot)
    requires Displaced(s, u, slot, id) && id in s.infos && id in u.infos && Kept(s.infos[id], u.infos[id])
    ensures TakenOver(s, AddReference(u, id, slot), id, slot)
  {
  }

  /** The new slot of a service for announcements from a source. */
  function SlotFor(s: State, svc: Service, source: NetAddr): Slot {
    NewSlot(s.h, s.key, NewBucket(s.h, s.key, svc, source), svc)
  }

  /** Placing an entry, by cases. */
  lemma PlaceEffect(s: State, id: int, source: NetAddr, now: int)
    requires id in s.infos && id != EMPTY && OrderOk(s) && NewSlotsOk(s) && RefCountsOk(s, Pending(s, id))
    ensures var t := Place(s, id, source, now); var slot := SlotFor(s, s.infos[id].service, source);
      var there := At(s.newTable, slot);
      if there == id then t == s
      else if there == EMPTY || Hopeless(s.infos[there], now)
              || (s.infos[there].refCount > 1 && s.infos[id].refCount == 0) then TakenOver(s, t, id, slot)
      else if s.infos[id].refCount == 0 then t == Delete(s, id)
      else t == s
  {
    var slot := SlotFor(s, s.infos[id].service, source);
    var there := At(s.newTable, slot);
    assert EMPTY !in s.infos;
    if there != EMPTY {
      OccupantIsReferenced(s, slot, Pending(s, id));
      TerribleIsHopeless(s.infos[there], now);
    }
    if there != id && TakesSlot(s, id, slot, now) {
      TakenEffect(s, id, slot);
    }
  }

  // ---- Add_ ----

  /** An entry as an announcement creates it, with `count` references (src/addrman.cpp:93-103,
      289-292). */
  function Announced(a: Address, source: NetAddr, penalty: int, count: int, pos: int): Info {
    Info(a.service, ToU32(Max(0, a.time - penalty)), a.services, source, 0, 0, 0, count, false, pos)
  }

  /** Adding an address not known before: it is stored, in the one slot of address and source, if
      and only if that slot is free, or held by a hopeless entry or one with further references;
      that entry then loses the reference. Otherwise nothing but the next id changes. */
  lemma AddUnknown(s: State, a: Address, source: NetAddr, penalty: int, now: int, now2: int, rnd: nat)
    requires Consistent(s) && s.h.routable(a.service.ip) && a.service.ip !in s.idOf
    ensures var t := Add(s, a, source, penalty, now, now2, rnd);
      var slot := SlotFor(s, a.service, source); var there := At(s.newTable, slot); var id := s.nextId;
      if there == EMPTY || Hopeless(s.infos[there], now2) || s.infos[there].refCount > 1 then
        && a.service.ip in t.idOf && t.idOf[a.service.ip] == id && id !in s.infos && id in t.infos
        && Kept(Announced(a, source, penalty, 1, 0), t.infos[id])
        && At(t.newTable, slot) == id && Holding(t.h, t.key, t.newTable, a.service, id) == {slot.0}
        && Displaced(s, t, slot, id)
      else t == s.(nextId := s.nextId + 1)
  {
    var c := Created(s, a, source, penalty);
    var slot := SlotFor(s, a.service, source);
    var there := At(s.newTable, slot);
    CreatedKeeps(s, a, source, penalty);
    CreatedInfos(s, a, source, penalty);
    PlaceEffect(c, s.nextId, source, now2);
    if there == EMPTY || Hopeless(s.infos[there], now2) || s.infos[there].refCount > 1 {
      AddKeeps(s, a, source, penalty, now, now2, rnd);
      AddedIsStored(s, c, Add(s, a, source, penalty, now, now2, rnd), a, source, penalty, slot);
    } else {
      CreatedAndDeleted(s, a, source, penalty);
    }
  }

  lemma AddedIsStored(s: State, c: State, t: State, a: Address, source: NetAddr, penalty: int, slot: Slot)
    requires NewSlotsOk(s) && AddressesOk(t) && s.nextId !in s.infos && s.nextId != EMPTY
    requires c.infos == s.infos[s.nextId := Announced(a, source, penalty, 0, |s.order|)]
    requires c.newTable == s.newTable && c.triedTable == s.triedTable && c.h == s.h && c.key == s.key
    requires slot == SlotFor(s, a.service, source) && TakenOver(c, t, s.nextId, slot)
    ensures var id := s.nextId;
      && a.service.ip in t.idOf && t.idOf[a.service.ip] == id && id in t.infos
      && Kept(Announced(a, source, penalty, 1, 0), t.infos[id])
      && At(t.newTable, slot) == id && Holding(t.h, t.key, t.newTable, a.service, id) == {slot.0}
      && Displaced(s, t, slot, id)
  {
    assert t.infos[s.nextId].service == a.service;
    DisplacedFrom(s, c, t, slot);
    NewlyHeld(s, t, a.service, s.nextId, slot);
  }

  lemma DisplacedFrom(s: State, c: State, t: State, slot: Slot)
    requires s.nextId !in s.infos && s.nextId in c.infos && c.infos == s.infos[s.nextId := c.infos[s.nextId]]
    requires c.newTable == s.newTable && c.triedTable == s.triedTable && c.h == s.h && c.key == s.key
    requires Displaced(c, t, slot, s.nextId)
    ensures Displaced(s, t, slot, s.nextId)
  {
  }

  lemma CreatedInfos(s: State, a: Address, source: NetAddr, penalty: int)
    requires s.nextId !in s.infos
    ensures var c := Created(s, a, source, penalty);
      && c.infos == s.infos[s.nextId := Announced(a, source, penalty, 0, |s.order|)]
      && c.newTable == s.newTable && c.triedTable == s.triedTable && c.h == s.h && c.key == s.key
  {
  }

  lemma CreatedAndDeleted(s: State, a: Address, source: NetAddr, penalty: int)
    requires OrderOk(s) && NewSlotsOk(s) && s.nextId !in s.infos && a.service.ip !in s.idOf
    ensures OrderOk(Created(s, a, source, penalty))
    ensures Delete(Created(s, a, source, penalty), s.nextId) == s.(nextId := s.nextId + 1)
  {
    CreatedUsable(s, a, source, penalty);
    var c := Created(s, a, source, penalty);
    var t := Delete(c, s.nextId);
    assert c.order[..|c.order| - 1] == s.order;
    assert c.infos - {s.nextId} == s.infos;
    assert c.idOf - {a.service.ip} == s.idOf;
  }

  lemma NewlyHeld(s: State, t: State, svc: Service, id: int, slot: Slot)
    requires id !in s.infos && id != EMPTY && NewSlotsOk(s) && At(t.newTable, slot) == id && Displaced(s, t, slot, id)
    requires slot == NewSlot(s.h, s.key, slot.0, svc) && slot.0 < NEW_BUCKET_COUNT
    ensures Holding(t.h, t.key, t.newTable, svc, id) == {slot.0}
  {
    forall b: nat | b < NEW_BUCKET_COUNT && b != slot.0 ensures At(t.newTable, NewSlot(s.h, s.key, b, svc)) != id {
      var other := NewSlot(s.h, s.key, b, svc);
      assert At(t.newTable, other) == At(s.newTable, other);
      assert At(s.newTable, other) != EMPTY ==> At(s.newTable, other) in s.infos;
    }
  }

  /** The time an announcement leaves an entry with: replaced by the penalised time of the
      announcement when that is fresher by more than an hour for addresses seen within a day of the
      clock, by more than a day for others. */
  function TimeAfter(i: Info, a: Address, penalty: int, now: int): nat {
    var interval := if now - a.time < 86400 then 3600 else 86400;
    if a.time != 0 && (i.time == 0 || a.time - penalty - i.time > interval) then ToU32(Max(0, a.time - penalty))
    else i.time
  }

  /** Announcing a known address updates its time and services and nothing else of the entry; it
      adds a reference, in the slot of address and source, if and only if the announcement is newer
      than that time, the entry is untried with fewer than eight references, the draw among
      2^references is zero, and the slot is free or held by another, hopeless entry, which loses
      it. */
  lemma AddKnown(s: State, a: Address, source: NetAddr, penalty: int, now: int, now2: int, rnd: nat)
    requires Consistent(s) && s.h.routable(a.service.ip) && a.service.ip in s.idOf
    ensures var t := Add(s, a, source, penalty, now, now2, rnd);
      var id := s.idOf[a.service.ip]; var i := s.infos[id];
      var j := i.(time := TimeAfter(i, a, penalty, now), services := s.h.bitOr(i.services, a.services));
      var slot := SlotFor(s, i.service, source); var there := At(s.newTable, slot);
      if a.time > 0 && (j.time == 0 || a.time > j.time) && !i.inTried && i.refCount < 8
         && Draw(rnd, Pow2(i.refCount)) == 0
         && there != id && (there == EMPTY || Hopeless(s.infos[there], now2)) then
        && Displaced(s, t, slot, id) && At(t.newTable, slot) == id
        && id in t.infos && Kept(j.(refCount := i.refCount + 1), t.infos[id])
      else t == s.(infos := s.infos[id := j])
  {
    var id := s.idOf[a.service.ip];
    var i := s.infos[id];
    var j := i.(time := TimeAfter(i, a, penalty, now), services := s.h.bitOr(i.services, a.services));
    RefreshedIs(s.h, i, a, penalty, now);
    KnownCounts(s, id);
    MayAddMeans(i, j, a, rnd);
    if MayAddReference(j, a, rnd) {
      TouchedPlace(s, id, j, source, now2);
    }
  }

  lemma RefreshedIs(h: Hasher, i: Info, a: Address, penalty: int, now: int)
    ensures Refreshed(h, i, a, penalty, now) ==
      i.(time := TimeAfter(i, a, penalty, now), services := h.bitOr(i.services, a.services))
  {
  }

  lemma KnownCounts(s: State, id: int)
    requires RefCountsOk(s, {}) && id in s.infos
    ensures id != EMPTY && s.infos[id].refCount <= 8
    ensures !s.infos[id].inTried ==> 1 <= s.infos[id].refCount
    ensures s.infos[id].inTried ==> s.infos[id].refCount == 0
  {
  }

  lemma MayAddMeans(i: Info, j: Info, a: Address, rnd: nat)
    requires j.inTried == i.inTried && j.refCount == i.refCount <= 8 && (!i.inTried ==> 1 <= i.refCount)
    requires i.inTried ==> i.refCount == 0
    ensures MayAddReference(j, a, rnd) <==>
      a.time > 0 && (j.time == 0 || a.time > j.time) && !i.inTried && i.refCount < 8 && Draw(rnd, Pow2(i.refCount)) == 0
  {
  }

  lemma TouchedPlace(s: State, id: int, j: Info, source: NetAddr, now: int)
    requires Linked(s, {}) && id in s.infos && id != EMPTY && !s.infos[id].inTried && s.infos[id].refCount >= 1
    requires j.service == s.infos[id].service && j.inTried == s.infos[id].inTried
    requires j.refCount == s.infos[id].refCount && j.randomPos == s.infos[id].randomPos
    ensures OrderOk(Touch(s, id, j)) && NewSlotsOk(Touch(s, id, j))
    ensures var t := Place(Touch(s, id, j), id, source, now);
      var slot := SlotFor(s, j.service, source); var there := At(s.newTable, slot);
      if there != id && (there == EMPTY || Hopeless(s.infos[there], now)) then
        && Displaced(s, t, slot, id) && At(t.newTable, slot) == id
        && id in t.infos && Kept(j.(refCount := j.refCount + 1), t.infos[id])
      else t == Touch(s, id, j)
  {
    var c := Touch(s, id, j);
    TouchKeeps(s, id, j, {});
    PlaceEffect(c, id, source, now);
    var slot := SlotFor(s, j.service, source);
    var there := At(s.newTable, slot);
    if there != id && there != EMPTY {
      assert there in s.infos && c.infos[there] == s.infos[there];
    }
    if there != id && (there == EMPTY || Hopeless(s.infos[there], now)) {
      TouchedDisplaced(s, c, Place(c, id, source, now), id, slot);
    }
  }

  lemma TouchedDisplaced(s: State, c: State, t: State, id: int, slot: Slot)
    requires id in s.infos && id in c.infos && c == Touch(s, id, c.infos[id]) && Displaced(c, t, slot, id)
    ensures Displaced(s, t, slot, id)
  {
  }

  // ---- Connected_ and Attempt_ ----

  /** A connection moves the time of a known service forward, to at most 20 minutes before the
      clock; it touches nothing else. */
  lemma ConnectedEffect(s: State, svc: Service, time: int)
    requires Consistent(s) && 0 <= time < 0x1_0000_0000
    ensures var t := Connected(s, svc, time);
      if svc.ip in s.idOf && s.infos[s.idOf[svc.ip]].service == svc then
        var id := s.idOf[svc.ip]; var i := s.infos[id];
        && id in t.infos && t == s.(infos := s.infos[id := i.(time := t.infos[id].time)])
        && t.infos[id].time == (if time - i.time > 20 * 60 then time else i.time)
        && i.time <= t.infos[id].time && time - t.infos[id].time <= 20 * 60
      else t == s
  {
    if Known(s, svc) {
      var id := s.idOf[svc.ip];
      assert s.infos[id := s.infos[id]] == s.infos;
      assert s.infos[id].(time := s.infos[id].time) == s.infos[id];
    }
  }

  /** The entry of a known service after attempts to connect at the given times. */
  function AfterAttempts(s: State, svc: Service, times: seq<int>): State
  {
    if times == [] then s else Attempt(AfterAttempts(s, svc, times[..|times| - 1]), svc, times[|times| - 1])
  }

  /** `s` with the entry's last attempt at `time`, and `attempts` of them. */
  function Tried(s: State, id: int, time: int, attempts: int): State
    requires id in s.infos
  {
    Touch(s, id, s.infos[id].(lastTry := time, attempts := attempts))
  }

  lemma AttemptNext(s: State, svc: Service, before: int, attempts: int, time: int)
    requires Known(s, svc)
    ensures Attempt(Tried(s, s.idOf[svc.ip], before, attempts), svc, time) ==
            Tried(s, s.idOf[svc.ip], time, attempts + 1)
  {
  }

  /** Attempts are counted, the last one is remembered, and nothing else changes. */
  lemma {:induction false} AttemptsEffect(s: State, svc: Service, times: seq<int>)
    requires Known(s, svc) && times != []
    ensures var id := s.idOf[svc.ip];
      AfterAttempts(s, svc, times) == Tried(s, id, times[|times| - 1], s.infos[id].attempts + |times|)
  {
    var i := s.infos[s.idOf[svc.ip]];
    if |times| == 1 {
      assert times[..0] == [];
      assert Tried(s, s.idOf[svc.ip], i.lastTry, i.attempts) == s;
      AttemptNext(s, svc, i.lastTry, i.attempts, times[0]);
    } else {
      AttemptsEffect(s, svc, times[..|times| - 1]);
      AttemptNext(s, svc, times[|times| - 2], i.attempts + |times| - 1, times[|times| - 1]);
    }
  }

  /** An entry that never answered is hopeless a minute after the third attempt. */
  lemma ThreeAttemptsSpoil(s: State, svc: Service, times: seq<int>, now: int)
    requires Known(s, svc) && |times| >= 3 && now - times[|times| - 1] > 60
    requires s.infos[s.idOf[svc.ip]].lastSuccess == 0 && s.infos[s.idOf[svc.ip]].attempts >= 0
    ensures var t := AfterAttempts(s, svc, times);
      s.idOf[svc.ip] in t.infos && Hopeless(t.infos[s.idOf[svc.ip]], now)
  {
    AttemptsEffect(s, svc, times);
  }

  // ---- How many new buckets a group of sources can reach ----

  /** The new buckets that the first `n` hash values lead to. */
  function BucketsOf(h: Hasher, key: Key, g: Group, n: nat): set<nat> {
    set k: nat | k < n :: h.newSource(key, g, k) % NEW_BUCKET_COUNT
  }

  lemma {:induction false} BucketsAreFew(h: Hasher, key: Key, g: Group, n: nat)
    ensures |BucketsOf(h, key, g, n)| <= n
  {
    if n > 0 {
      BucketsAreFew(h, key, g, n - 1);
      assert BucketsOf(h, key, g, n) ==
        BucketsOf(h, key, g, n - 1) + {h.newSource(key, g, n - 1) % NEW_BUCKET_COUNT};
    }
  }

  /** Announcements from one group of sources end up in at most 64 of the 1024 new buckets. */
  lemma SourceGroupIsBounded(h: Hasher, key: Key, g: Group) returns (buckets: set<nat>)
    ensures |buckets| <= 64
    ensures forall svc, source :: h.group(source) == g ==> NewBucket(h, key, svc, source) in buckets
  {
    buckets := BucketsOf(h, key, g, 64);
    BucketsAreFew(h, key, g, 64);
  }
}
