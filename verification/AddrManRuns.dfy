/** Whole runs of the address manager. */
module AddrManRuns {
  import opened AddrManState
  import opened AddrManOps
  import opened AddrManChecked
  import opened SetFacts

  // ---- exactly when an operation keeps the times acceptable to Check_ ----

  lemma SucceededTimes(s: State, id: int, time: int)
    requires TimesOk(s) && id in s.infos
    ensures TimesOk(Succeeded(s, id, time)) <==> time >= 0 && (s.infos[id].inTried ==> time != 0)
  {
    assert Succeeded(s, id, time).infos[id].lastSuccess == time;
  }

  /** Promoting an entry whose success was recorded at `time`. */
  lemma PromotedTimes(s: State, id: int, time: int)
    requires Consistent(s) && id in s.infos && !s.infos[id].inTried
    requires s.infos[id].lastSuccess == time && (time >= 0 ==> TimesOk(s))
    ensures TimesOk(MakeTried(s, id)) <==> time > 0
  {
    MakeTriedTimes(s, id);
  }

  /** What `Good` does to the times of the entry with the identifier `id`. */
  lemma KnownTimes(s: State, svc: Service, time: int, id: int)
    requires Consistent(s) && TimesOk(s) && Known(s, svc) && id == s.idOf[svc.ip]
    ensures TimesOk(Good(s, svc, time)) <==> time > 0
  {
    var s1 := Succeeded(s, id, time);
    SucceededTimes(s, id, time);
    GoodCases(s, svc, time);
    if !s.infos[id].inTried {
      TouchConsistent(s, id, s1.infos[id]);
      UntriedIsHeld(s1, id);
      PromotedTimes(s1, id, time);
    }
  }

  lemma GoodTimes(s: State, svc: Service, time: int)
    requires Consistent(s) && TimesOk(s)
    ensures TimesOk(Good(s, svc, time)) <==> !Known(s, svc) || time > 0
  {
    if Known(s, svc) {
      KnownTimes(s, svc, time, s.idOf[svc.ip]);
    }
  }

  lemma AttemptTimes(s: State, svc: Service, time: int)
    requires Consistent(s) && TimesOk(s)
    ensures TimesOk(Attempt(s, svc, time)) <==> !Known(s, svc) || time >= 0
  {
    if Known(s, svc) {
      assert Attempt(s, svc, time).infos[s.idOf[svc.ip]].lastTry == time;
    }
  }

  lemma TakenTimes(s: State, id: int, slot: Slot)
    requires OrderOk(s) && NewSlotsOk(s) && id in s.infos && At(s.newTable, slot) != id && TimesOk(s)
    ensures id in ClearNew(s, slot).infos && TimesOk(AddReference(ClearNew(s, slot), id, slot))
  {
    ClearNewTimes(s, slot);
    ClearNewOthers(s, slot);
  }

  lemma DeletedTimes(s: State, id: int)
    requires OrderOk(s) && id in s.infos && TimesOk(s)
    ensures TimesOk(Delete(s, id))
  {
    DeleteTimes(s, id);
  }

  lemma PlaceTimes(s: State, id: int, source: NetAddr, now: int)
    requires id in s.infos && Linked(s, Pending(s, id)) && !s.infos[id].inTried && TimesOk(s)
    ensures TimesOk(Place(s, id, source, now))
  {
    var svc := s.infos[id].service;
    var slot := NewSlot(s.h, s.key, NewBucket(s.h, s.key, svc, source), svc);
    if At(s.newTable, slot) != id {
      if TakesSlot(s, id, slot, now) {
        TakenTimes(s, id, slot);
      } else if s.infos[id].refCount == 0 {
        DeletedTimes(s, id);
      }
    }
  }

  lemma RefreshedTimes(s: State, id: int, a: Address, penalty: int, now: int)
    requires TimesOk(s) && id in s.infos
    ensures TimesOk(Touch(s, id, Refreshed(s.h, s.infos[id], a, penalty, now)))
  {
  }

  /** A known address: the entry `i` it is refreshed to may be placed in one more bucket. */
  lemma AnnouncedTimes(s: State, id: int, i: Info, source: NetAddr, now: int)
    requires Linked(s, {}) && id in s.infos && !s.infos[id].inTried && TimesOk(Touch(s, id, i))
    requires i.service == s.infos[id].service && i.inTried == s.infos[id].inTried
    requires i.refCount == s.infos[id].refCount && i.randomPos == s.infos[id].randomPos
    ensures OrderOk(Touch(s, id, i)) && NewSlotsOk(Touch(s, id, i))
    ensures TimesOk(Place(Touch(s, id, i), id, source, now))
  {
    TouchKeeps(s, id, i, {});
    assert i.refCount > 0;
    PlaceTimes(Touch(s, id, i), id, source, now);
  }

  lemma IntroducedTimes(s: State, a: Address, source: NetAddr, penalty: int, now: int)
    requires Consistent(s) && TimesOk(s) && a.service.ip !in s.idOf
    ensures var t := Created(s, a, source, penalty);
      OrderOk(t) && NewSlotsOk(t) && s.nextId in t.infos && TimesOk(Place(t, s.nextId, source, now))
  {
    var t := Created(s, a, source, penalty);
    CreatedKeeps(s, a, source, penalty);
    assert TimesOk(t);
    PlaceTimes(t, s.nextId, source, now);
  }

  lemma AddTimes(s: State, a: Address, source: NetAddr, penalty: int, now: int, now2: int, rnd: nat)
    requires Consistent(s) && TimesOk(s)
    ensures TimesOk(Add(s, a, source, penalty, now, now2, rnd))
  {
    if a.service.ip in s.idOf {
      var id := s.idOf[a.service.ip];
      var i := Refreshed(s.h, s.infos[id], a, penalty, now);
      RefreshedTimes(s, id, a, penalty, now);
      if MayAddReference(i, a, rnd) {
        AnnouncedTimes(s, id, i, source, now2);
      }
    } else {
      IntroducedTimes(s, a, source, penalty, now2);
    }
  }

  // ---- runs ----

  datatype Op =
    | AddOp(a: Address, source: NetAddr, penalty: int, now: int, now2: int, rnd: nat)
    | GoodOp(svc: Service, time: int)
    | AttemptOp(svc: Service, time: int)
    | ConnectedOp(svc: Service, time: int)
    | GetAddrOp

  ghost predicate Step(s: State, op: Op, t: State)
    requires Consistent(s)
  {
    match op
    case AddOp(a, source, penalty, now, now2, rnd) => t == Add(s, a, source, penalty, now, now2, rnd)
    case GoodOp(svc, time) => t == Good(s, svc, time)
    case AttemptOp(svc, time) => t == Attempt(s, svc, time)
    case ConnectedOp(svc, time) => t == Connected(s, svc, time)
    case GetAddrOp => Reordered(s, t)
  }

  /** The `i`-th operation leads from the `i`-th state to the next. Nothing is said about what
      follows an inconsistent state, so a run may do anything after one. */
  ghost predicate StepsAt(ops: seq<Op>, states: seq<State>, i: nat)
    requires i < |ops| && i + 1 < |states|
  {
    Consistent(states[i]) ==> Step(states[i], ops[i], states[i + 1])
  }

  /** `states` is a run of `ops` from a fresh manager. */
  ghost predicate IsRun(h: Hasher, key: Key, ops: seq<Op>, states: seq<State>) {
    && |states| == |ops| + 1 && states[0] == Initial(h, key)
    && forall i :: 0 <= i < |ops| ==> StepsAt(ops, states, i)
  }

  /** The clock values real callers pass: positive for Good_, not negative for Attempt_. */
  predicate SaneTime(op: Op) {
    (op.GoodOp? ==> op.time > 0) && (op.AttemptOp? ==> op.time >= 0)
  }

  lemma StepKeeps(s: State, op: Op, t: State)
    requires Consistent(s) && Step(s, op, t)
    ensures Consistent(t)
    ensures TimesOk(s) && SaneTime(op) ==> TimesOk(t)
  {
    match op
    case AddOp(a, source, penalty, now, now2, rnd) =>
      AddKeeps(s, a, source, penalty, now, now2, rnd);
      if TimesOk(s) { AddTimes(s, a, source, penalty, now, now2, rnd); }
    case GoodOp(svc, time) =>
      GoodKeeps(s, svc, time);
      if TimesOk(s) { GoodTimes(s, svc, time); }
    case AttemptOp(svc, time) =>
      AttemptKeeps(s, svc, time);
      if TimesOk(s) { AttemptTimes(s, svc, time); }
    case ConnectedOp(svc, time) =>
      ConnectedKeeps(s, svc, time);
    case GetAddrOp =>
      ReorderedKeeps(s, t);
  }

  lemma RunStart(h: Hasher, key: Key, ops: seq<Op>, states: seq<State>)
    requires IsRun(h, key, ops, states)
    ensures Consistent(states[0]) && TimesOk(states[0])
  {
    InitialConsistent(h, key);
  }

  /** The first `n` operations are passed sane times. */
  ghost predicate SaneUpTo(ops: seq<Op>, n: nat)
    requires n <= |ops|
  {
    forall i :: 0 <= i < n ==> SaneTime(ops[i])
  }

  lemma RunStep(h: Hasher, key: Key, ops: seq<Op>, states: seq<State>, n: nat)
    requires IsRun(h, key, ops, states) && n < |ops| && Consistent(states[n])
    ensures Consistent(states[n + 1])
    ensures TimesOk(states[n]) && SaneTime(ops[n]) ==> TimesOk(states[n + 1])
  {
    assert StepsAt(ops, states, n);
    StepKeeps(states[n], ops[n], states[n + 1]);
  }

  /** Every state of every run satisfies the full invariant; its clock part holds as long as
      the times passed in are sane. */
  lemma {:induction false} RunKeeps(h: Hasher, key: Key, ops: seq<Op>, states: seq<State>, n: nat)
    requires IsRun(h, key, ops, states) && n < |states|
    ensures Consistent(states[n])
    ensures SaneUpTo(ops, n) ==> TimesOk(states[n])
  {
    if n == 0 {
      RunStart(h, key, ops, states);
    } else {
      RunKeeps(h, key, ops, states, n - 1);
      RunStep(h, key, ops, states, n - 1);
    }
  }

  /** One address added to a manager just constructed: entry 0, referenced once. */
  lemma FirstAddress(h: Hasher, key: Key, svc: Service)
    requires h.routable(svc.ip)
    ensures var s := Add(Initial(h, key), Address(svc, 1, 0), 0, 0, 0, 0, 0);
      && Consistent(Initial(h, key)) && Consistent(s) && TimesOk(s)
      && s.infos.Keys == {0} && s.idOf == map[svc.ip := 0] && !s.infos[0].inTried && s.infos[0].service == svc
  {
    InitialConsistent(h, key);
    var s0 := Initial(h, key);
    AddKeeps(s0, Address(svc, 1, 0), 0, 0, 0, 0, 0);
    AddTimes(s0, Address(svc, 1, 0), 0, 0, 0, 0, 0);
    var s1 := Created(s0, Address(svc, 1, 0), 0, 0);
    assert s1.infos.Keys == {0};
    var s := Add(s0, Address(svc, 1, 0), 0, 0, 0, 0, 0);
    assert s == AddReference(s1, 0, NewSlot(h, key, NewBucket(h, key, svc, 0), svc));
  }

  /** The time condition is needed: one added address marked good at time 0 is a tried entry
      without a success. It is the only entry, and -1 is what the check says of it. */
  lemma ZeroTimeBreaks(h: Hasher, key: Key, svc: Service)
    requires h.routable(svc.ip)
    ensures var s := Add(Initial(h, key), Address(svc, 1, 0), 0, 0, 0, 0, 0);
      Consistent(Initial(h, key)) && Consistent(s) && !TimesOk(Good(s, svc, 0))
    ensures var t := Good(Add(Initial(h, key), Address(svc, 1, 0), 0, 0, 0, 0, 0), svc, 0);
      && t.infos.Keys == {0} && EntryCode(t.infos[0], 0, t.idOf, t.order) == -1
      && |t.order| == t.triedCount + t.newCount && !Checked(t)
  {
    FirstAddress(h, key, svc);
    var s := Add(Initial(h, key), Address(svc, 1, 0), 0, 0, 0, 0, 0);
    GoodTimes(s, svc, 0);
    GoodAtZero(s, svc);
  }

  lemma PromotedAtZero(s: State)
    requires Consistent(s) && 0 in s.infos && !s.infos[0].inTried && s.infos[0].lastSuccess == 0
    ensures 0 in MakeTried(s, 0).infos && MakeTried(s, 0).infos[0].inTried
    ensures MakeTried(s, 0).infos[0].lastSuccess == 0
  {
    MakeTriedTimes(s, 0);
  }

  lemma KnownAtZero(s: State, svc: Service)
    requires Consistent(s) && Known(s, svc) && s.idOf[svc.ip] == 0 && !s.infos[0].inTried
    ensures var t := Good(s, svc, 0);
      0 in t.infos && t.infos[0].inTried && t.infos[0].lastSuccess == 0 && (forall x :: x in t.infos ==> x in s.infos)
  {
    var s1 := Succeeded(s, 0, 0);
    GoodCases(s, svc, 0);
    TouchConsistent(s, 0, s1.infos[0]);
    UntriedIsHeld(s1, 0);
    PromotedAtZero(s1);
    MakeTriedEntries(s1, 0);
  }

  /** Marking the only address good at time 0. */
  lemma GoodAtZero(s: State, svc: Service)
    requires Consistent(s) && TimesOk(s)
    requires s.infos.Keys == {0} && s.idOf == map[svc.ip := 0] && !s.infos[0].inTried && s.infos[0].service == svc
    ensures var t := Good(s, svc, 0);
      && t.infos.Keys == {0} && EntryCode(t.infos[0], 0, t.idOf, t.order) == -1
      && |t.order| == t.triedCount + t.newCount
  {
    GoodKeeps(s, svc, 0);
    KnownAtZero(s, svc);
    OrderSize(Good(s, svc, 0));
  }

  // ---- how much of the tried table one address group can take ----

  function TriedInGroup(s: State, g: Group): set<int> {
    set id | id in s.infos && s.infos[id].inTried && s.h.group(s.infos[id].service.ip) == g
  }

  function GroupCell(s: State, svc: Service): (nat, nat) {
    (s.h.triedKey(s.key, svc) % TRIED_BUCKETS_PER_GROUP, TriedSlot(s.h, s.key, svc).1)
  }

  lemma CellIsInjective(s: State, x: int, y: int)
    requires TriedSlotsOk(s) && x in s.infos && y in s.infos && s.infos[x].inTried && s.infos[y].inTried
    requires s.h.group(s.infos[x].service.ip) == s.h.group(s.infos[y].service.ip)
    requires GroupCell(s, s.infos[x].service) == GroupCell(s, s.infos[y].service)
    ensures x == y
  {
    assert TriedSlot(s.h, s.key, s.infos[x].service) == TriedSlot(s.h, s.key, s.infos[y].service);
  }

  /** Addresses of one group share 8 tried buckets, so at most 8 * 64 of them are tried. */
  lemma GroupIsBounded(s: State, g: Group)
    requires TriedSlotsOk(s)
    ensures |TriedInGroup(s, g)| <= TRIED_BUCKETS_PER_GROUP * BUCKET_SIZE
  {
    var ids := TriedInGroup(s, g);
    var cells := map id | id in ids :: GroupCell(s, s.infos[id].service);
    forall x, y | x in cells && y in cells && cells[x] == cells[y] ensures x == y {
      CellIsInjective(s, x, y);
    }
    assert cells.Keys == ids;
    GridInjection(cells, TRIED_BUCKETS_PER_GROUP, BUCKET_SIZE);
  }

  /** When a table's counter is positive, the search of Select_ in that table can succeed:
      some slot is occupied, and every occupied slot holds a known entry
      (src/addrman.cpp:338-375). */
  lemma SelectionExists(s: State)
    requires Consistent(s)
    ensures s.triedCount > 0 ==> exists slot :: slot in s.triedTable && s.triedTable[slot] in s.infos
    ensures s.newCount > 0 ==> exists slot :: slot in s.newTable && s.newTable[slot] in s.infos
    ensures s.triedCount + s.newCount == |s.order|
  {
    if s.triedCount > 0 {
      var id := PickOne(TriedIds(s));
      var slot := TriedSlot(s.h, s.key, s.infos[id].service);
      assert slot in s.triedTable && s.triedTable[slot] in s.infos;
    }
    if s.newCount > 0 {
      var id := PickOne(NewIds(s));
      UntriedIsHeld(s, id);
      var b :| b in Holding(s.h, s.key, s.newTable, s.infos[id].service, id);
      var slot := NewSlot(s.h, s.key, b, s.infos[id].service);
      assert slot in s.newTable && s.newTable[slot] in s.infos;
    }
    OrderSize(s);
  }

  lemma OrderListsEntries(s: State)
    requires OrderOk(s)
    ensures (set x | x in s.order) == s.infos.Keys
  {
    forall id | id in s.infos.Keys ensures id in s.order {
      assert s.order[s.infos[id].randomPos] == id;
    }
  }

  lemma EntriesSplit(s: State)
    ensures |s.infos.Keys| == |NewIds(s)| + |TriedIds(s)|
  {
    assert s.infos.Keys == NewIds(s) + TriedIds(s) && NewIds(s) !! TriedIds(s);
  }

  lemma OrderSize(s: State)
    requires OrderOk(s)
    ensures |s.order| == |NewIds(s)| + |TriedIds(s)|
  {
    assert Distinct(s.order);
    DistinctCardinality(s.order);
    OrderListsEntries(s);
    EntriesSplit(s);
  }
}
