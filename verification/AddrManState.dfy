/** The state of the stochastic address manager (src/addrman.h, src/addrman.cpp), its
    consistency invariant, and every state-changing operation as a function on that state. */
module AddrManState {

  // Table dimensions and limits (src/addrman.h:134-168).
  const TRIED_BUCKET_COUNT: nat := 256
  const NEW_BUCKET_COUNT: nat := 1024
  const BUCKET_SIZE: nat := 64
  const TRIED_BUCKETS_PER_GROUP: nat := 8
  const NEW_BUCKETS_PER_SOURCE_GROUP: nat := 64
  const NEW_BUCKETS_PER_ADDRESS: nat := 8
  const HORIZON_DAYS := 30
  const RETRIES := 3
  const MAX_FAILURES := 10
  const MIN_FAIL_DAYS := 7
  const GETADDR_MAX_PCT: nat := 23
  const GETADDR_MAX: nat := 2500
  const EMPTY: int := -1
  const DAY := 24 * 60 * 60

  type Key = nat
  type NetAddr = nat
  type Group = nat

  datatype Service = Service(ip: NetAddr, port: nat)

  datatype Address = Address(service: Service, time: nat, services: nat)

  datatype Info = Info(
    service: Service, time: nat, services: nat, source: NetAddr,
    lastTry: int, lastSuccess: int, attempts: int,
    refCount: int, inTried: bool, randomPos: int)

  /** The foreign functions the manager relies on: the keyed hashes, the group of an
      address, the union of two service masks and whether an address is routable. Nothing is
      assumed about any of them. */
  datatype Hasher = Hasher(
    triedKey: (Key, Service) -> nat,
    triedGroup: (Key, Group, nat) -> nat,
    newGroups: (Key, Group, Group) -> nat,
    newSource: (Key, Group, nat) -> nat,
    position: (Key, bool, nat, Service) -> nat,
    group: NetAddr -> Group,
    bitOr: (nat, nat) -> nat,
    routable: NetAddr -> bool)

  /** A slot is a (bucket, position) pair; a table maps slots to ids. A slot that is absent
      or holds `EMPTY` is unoccupied. */
  type Slot = (nat, nat)
  type Table = map<Slot, int>

  datatype State = State(
    h: Hasher, key: Key, nextId: int,
    infos: map<int, Info>, idOf: map<NetAddr, int>, order: seq<int>,
    triedTable: Table, triedCount: int, newTable: Table, newCount: int)

  function At(t: Table, slot: Slot): int {
    if slot in t then t[slot] else EMPTY
  }

  // ---- where an entry belongs (src/addrman.cpp:17-36) ----

  function TriedBucket(h: Hasher, key: Key, svc: Service): (b: nat)
    ensures b < TRIED_BUCKET_COUNT
  {
    var hash1 := h.triedKey(key, svc);
    h.triedGroup(key, h.group(svc.ip), hash1 % TRIED_BUCKETS_PER_GROUP) % TRIED_BUCKET_COUNT
  }

  function NewBucket(h: Hasher, key: Key, svc: Service, source: NetAddr): (b: nat)
    ensures b < NEW_BUCKET_COUNT
  {
    var hash1 := h.newGroups(key, h.group(svc.ip), h.group(source));
    h.newSource(key, h.group(source), hash1 % NEW_BUCKETS_PER_SOURCE_GROUP) % NEW_BUCKET_COUNT
  }

  function Position(h: Hasher, key: Key, inNew: bool, bucket: nat, svc: Service): (p: nat)
    ensures p < BUCKET_SIZE
  {
    h.position(key, inNew, bucket, svc) % BUCKET_SIZE
  }

  function NewSlot(h: Hasher, key: Key, bucket: nat, svc: Service): Slot {
    (bucket, Position(h, key, true, bucket, svc))
  }

  function TriedSlot(h: Hasher, key: Key, svc: Service): Slot {
    var bucket := TriedBucket(h, key, svc);
    (bucket, Position(h, key, false, bucket, svc))
  }

  /** The new buckets in which `id` sits at the position its service hashes to. */
  function Holding(h: Hasher, key: Key, t: Table, svc: Service, id: int): set<nat> {
    set b: nat | b < NEW_BUCKET_COUNT && At(t, NewSlot(h, key, b, svc)) == id
  }

  /** src/addrman.cpp:38-56 */
  predicate IsTerrible(i: Info, now: int) {
    if i.lastTry != 0 && i.lastTry >= now - 60 then false
    else if i.time > now + 10 * 60 then true
    else if i.time == 0 || now - i.time > HORIZON_DAYS * DAY then true
    else if i.lastSuccess == 0 && i.attempts >= RETRIES then true
    else now - i.lastSuccess > MIN_FAIL_DAYS * DAY && i.attempts >= MAX_FAILURES
  }

  // ---- the invariant ----

  /** `order` and the entries' positions are mutually inverse. */
  ghost predicate OrderOk(s: State) {
    && (forall id :: id in s.infos ==>
          0 <= s.infos[id].randomPos < |s.order| && s.order[s.infos[id].randomPos] == id)
    && (forall i :: 0 <= i < |s.order| ==>
          s.order[i] in s.infos && s.infos[s.order[i]].randomPos == i)
  }

  /** `idOf` and the entries' addresses are mutually inverse. */
  ghost predicate AddressesOk(s: State) {
    && (forall id :: id in s.infos ==>
          s.infos[id].service.ip in s.idOf && s.idOf[s.infos[id].service.ip] == id)
    && (forall ip :: ip in s.idOf ==>
          s.idOf[ip] in s.infos && s.infos[s.idOf[ip]].service.ip == ip)
  }

  /** Every occupied slot of the new table holds an untried entry at that entry's position. */
  ghost predicate NewSlotsOk(s: State) {
    forall slot: Slot :: slot in s.newTable && s.newTable[slot] != EMPTY ==>
      && s.newTable[slot] in s.infos
      && !s.infos[s.newTable[slot]].inTried
      && slot.0 < NEW_BUCKET_COUNT
      && slot == NewSlot(s.h, s.key, slot.0, s.infos[s.newTable[slot]].service)
  }

  /** The tried table holds exactly the tried entries, each in its own slot. */
  ghost predicate TriedSlotsOk(s: State) {
    && (forall slot: Slot :: slot in s.triedTable && s.triedTable[slot] != EMPTY ==>
          && s.triedTable[slot] in s.infos
          && s.infos[s.triedTable[slot]].inTried
          && slot == TriedSlot(s.h, s.key, s.infos[s.triedTable[slot]].service))
    && (forall id :: id in s.infos && s.infos[id].inTried ==>
          At(s.triedTable, TriedSlot(s.h, s.key, s.infos[id].service)) == id)
  }

  /** An entry's reference count is the number of new buckets holding it: 0 for tried and
      `pending` entries, 1 to 8 for every other one. */
  ghost predicate RefCountsOk(s: State, pending: set<int>) {
    forall id :: id in s.infos ==>
      && 0 <= id < s.nextId
      && s.infos[id].refCount == |Holding(s.h, s.key, s.newTable, s.infos[id].service, id)|
      && (if s.infos[id].inTried || id in pending then s.infos[id].refCount == 0
          else 1 <= s.infos[id].refCount <= NEW_BUCKETS_PER_ADDRESS)
  }

  /** The structural invariant, where the entries in `pending` are in neither table. */
  ghost predicate Linked(s: State, pending: set<int>) {
    && 0 <= s.nextId
    && OrderOk(s)
    && AddressesOk(s)
    && NewSlotsOk(s)
    && TriedSlotsOk(s)
    && RefCountsOk(s, pending)
  }

  function NewIds(s: State): set<int> {
    set id | id in s.infos && !s.infos[id].inTried
  }

  function TriedIds(s: State): set<int> {
    set id | id in s.infos && s.infos[id].inTried
  }

  /** The counters, with `uncounted` untried entries left out of the new counter. */
  ghost predicate Counted(s: State, uncounted: nat) {
    && s.newCount == |NewIds(s)| - uncounted
    && s.triedCount == |TriedIds(s)|
  }

  /** The full invariant between public operations. */
  ghost predicate Consistent(s: State) {
    Linked(s, {}) && Counted(s, 0)
  }

  /** Times are never negative, and a tried entry has succeeded at least once. */
  ghost predicate TimesOk(s: State) {
    forall id :: id in s.infos ==>
      && s.infos[id].lastTry >= 0
      && s.infos[id].lastSuccess >= 0
      && (s.infos[id].inTried ==> s.infos[id].lastSuccess != 0)
  }

  // ---- the operations ----

  /** A manager just constructed with a fresh key (src/addrman.h:433-456). */
  function Initial(h: Hasher, key: Key): State {
    State(h, key, 0, map[], map[], [], map[], 0, map[], 0)
  }

  /** What Clear leaves: everything is reset but the entries and their addresses
      (src/addrman.h:433-451). */
  function Cleared(s: State, key: Key): State {
    Initial(s.h, key).(infos := s.infos, idOf := s.idOf)
  }

  /** src/addrman.cpp:93-103 */
  function Create(s: State, a: Address, source: NetAddr): State {
    var i := Info(a.service, a.time, a.services, source, 0, 0, 0, 0, false, |s.order|);
    s.(nextId := s.nextId + 1,
       infos := s.infos[s.nextId := i],
       idOf := s.idOf[a.service.ip := s.nextId],
       order := s.order + [s.nextId])
  }

  /** src/addrman.cpp:105-123 */
  function Swap(s: State, i: nat, j: nat): State
    requires i != j ==> i < |s.order| && j < |s.order| && s.order[i] in s.infos && s.order[j] in s.infos
  {
    if i == j then s else
      var id1, id2 := s.order[i], s.order[j];
      var infos1 := s.infos[id1 := s.infos[id1].(randomPos := j)];
      s.(infos := infos1[id2 := infos1[id2].(randomPos := i)],
         order := s.order[i := id2][j := id1])
  }

  /** Removes the entry that is last in `order` (src/addrman.cpp:133-136). */
  function Drop(s: State, id: int): State
    requires id in s.infos && |s.order| > 0
  {
    s.(order := s.order[..|s.order| - 1],
       idOf := s.idOf - {s.infos[id].service.ip},
       infos := s.infos - {id},
       newCount := s.newCount - 1)
  }

  /** src/addrman.cpp:125-137 */
  function Delete(s: State, id: int): State
    requires OrderOk(s) && id in s.infos
  {
    Drop(Swap(s, s.infos[id].randomPos, |s.order| - 1), id)
  }

  /** src/addrman.cpp:139-152 */
  function ClearNew(s: State, slot: Slot): State
    requires OrderOk(s) && NewSlotsOk(s)
  {
    var id := At(s.newTable, slot);
    if id == EMPTY then s else
      var i := s.infos[id].(refCount := s.infos[id].refCount - 1);
      var s1 := s.(infos := s.infos[id := i], newTable := s.newTable[slot := EMPTY]);
      if i.refCount == 0 then Delete(s1, id) else s1
  }

  /** Takes `id` out of every new bucket (src/addrman.cpp:156-164). */
  function LeaveNew(s: State, id: int): State
    requires id in s.infos
  {
    var i := s.infos[id];
    var held := Holding(s.h, s.key, s.newTable, i.service, id);
    s.(infos := s.infos[id := i.(refCount := i.refCount - |held|)],
       newTable := map slot: Slot | slot in s.newTable ::
         if slot.0 in held && slot == NewSlot(s.h, s.key, slot.0, i.service) then EMPTY else s.newTable[slot],
       newCount := s.newCount - 1)
  }

  /** Takes the entry of an occupied tried slot out of the tried table (src/addrman.cpp:175-182). */
  function LeaveTried(s: State, slot: Slot): State
    requires At(s.triedTable, slot) in s.infos
  {
    var id := At(s.triedTable, slot);
    s.(infos := s.infos[id := s.infos[id].(inTried := false)],
       triedTable := s.triedTable[slot := EMPTY],
       triedCount := s.triedCount - 1)
  }

  /** Puts an entry in a new slot as its only reference (src/addrman.cpp:190-193). */
  function EnterNew(s: State, id: int, slot: Slot): State
    requires id in s.infos
  {
    s.(infos := s.infos[id := s.infos[id].(refCount := 1)],
       newTable := s.newTable[slot := id],
       newCount := s.newCount + 1)
  }

  /** src/addrman.cpp:197-199 */
  function EnterTried(s: State, id: int, slot: Slot): State
    requires id in s.infos
  {
    s.(infos := s.infos[id := s.infos[id].(inTried := true)],
       triedTable := s.triedTable[slot := id],
       triedCount := s.triedCount + 1)
  }
}
