/** Loading a file whose bucket data cannot be used, because its version is unknown
    (src/addrman.h:353-420): every untried entry gets a reference in the bucket of its own source
    if its slot there is free, and is deleted otherwise. */
module AddrManOldFile {
  import opened AddrManState
  import opened AddrManInvariant
  import opened AddrManOps
  import opened AddrManStore
  import opened AddrManEffects
  import opened AddrManRoundTrip
  import opened SetFacts

  // ---- Pruning ----

  /** Neither tried nor referenced. */
  predicate Unplaced(i: Info) {
    !i.inTried && i.refCount == 0
  }

  /** From `t` to `u` exactly the unplaced entries with ids from `id` to `end` are gone. */
  ghost predicate PrunedTo(t: State, u: State, id: int, end: int) {
    && (forall x :: x in u.infos <==> x in t.infos && !(id <= x < end && Unplaced(t.infos[x])))
    && (forall x :: x in u.infos ==> x in t.infos && Kept(t.infos[x], u.infos[x]))
    && u.newTable == t.newTable && u.triedTable == t.triedTable && u.h == t.h && u.key == t.key
  }

  lemma PrunedFirst(t: State, v: State, u: State, id: int, end: int)
    requires id < end && id in t.infos && Unplaced(t.infos[id]) && PrunedTo(v, u, id + 1, end)
    requires forall x :: x in v.infos <==> x in t.infos && x != id
    requires forall x :: x in v.infos ==> x in t.infos && Kept(t.infos[x], v.infos[x])
    requires v.newTable == t.newTable && v.triedTable == t.triedTable && v.h == t.h && v.key == t.key
    ensures PrunedTo(t, u, id, end)
  {
  }

  /** Pruning deletes exactly the entries in neither table. */
  lemma {:induction false} PrunedExactly(t: State, id: int, end: int)
    requires OrderOk(t)
    ensures PrunedTo(t, Pruned(t, id, end), id, end)
    decreases end - id
  {
    if id < end {
      var v := PruneStep(t, id, end);
      PrunedExactly(v, id + 1, end);
      if id in t.infos && Unplaced(t.infos[id]) {
        PrunedFirst(t, v, Pruned(t, id, end), id, end);
      } else {
        PrunedSkips(t, Pruned(t, id, end), id, end);
      }
    }
  }

  lemma PruneStep(t: State, id: int, end: int) returns (v: State)
    requires OrderOk(t) && id < end
    ensures OrderOk(v) && Pruned(t, id, end) == Pruned(v, id + 1, end)
    ensures if id in t.infos && Unplaced(t.infos[id]) then
        && (forall x :: x in v.infos <==> x in t.infos && x != id)
        && (forall x :: x in v.infos ==> x in t.infos && Kept(t.infos[x], v.infos[x]))
        && v.newTable == t.newTable && v.triedTable == t.triedTable && v.h == t.h && v.key == t.key
      else v == t
  {
    v := t;
    if id in t.infos && Unplaced(t.infos[id]) {
      DeleteOrder(t, id);
      DeleteEffect(t, id);
      v := Delete(t, id);
    }
  }

  lemma PrunedSkips(t: State, u: State, id: int, end: int)
    requires PrunedTo(t, u, id + 1, end) && (id in t.infos ==> !Unplaced(t.infos[id]))
    ensures PrunedTo(t, u, id, end)
  {
  }

  /** Order and addresses are kept, and the counter of the new table follows. */
  ghost predicate BooksKept(t: State, u: State) {
    && OrderOk(u) && (AddressesOk(t) ==> AddressesOk(u)) && TriedIds(u) == TriedIds(t)
    && u.triedCount == t.triedCount && u.nextId == t.nextId
    && u.newCount - |NewIds(u)| == t.newCount - |NewIds(t)|
  }

  lemma DeletedBooks(t: State, id: int)
    requires OrderOk(t) && id in t.infos && !t.infos[id].inTried
    ensures BooksKept(t, Delete(t, id))
  {
    DeleteOrder(t, id);
    DeleteShape(t, id);
    if AddressesOk(t) {
      RemovedAddresses(t, Delete(t, id), id);
    }
    RemovedIds(t, Delete(t, id), id);
    CardinalityRemove(NewIds(t), id);
  }

  lemma {:induction false} PrunedBooks(t: State, id: int, end: int)
    requires OrderOk(t)
    ensures BooksKept(t, Pruned(t, id, end))
    decreases end - id
  {
    if id < end {
      if id in t.infos && Unplaced(t.infos[id]) {
        DeletedBooks(t, id);
        PrunedBooks(Delete(t, id), id + 1, end);
      } else {
        PrunedBooks(t, id + 1, end);
      }
    }
  }

  // ---- The new entries ----

  function SourceSlot(s: State, id: int): Slot
    requires id in s.infos
  {
    SlotFor(s, s.infos[id].service, s.infos[id].source)
  }

  ghost predicate AllKnown(s: State, ids: seq<int>) {
    forall j :: 0 <= j < |ids| ==> ids[j] in s.infos
  }

  /** No entry before number `j` hashes to the same slot. */
  predicate First(s: State, ids: seq<int>, j: nat)
    requires j < |ids| && AllKnown(s, ids)
  {
    forall i :: 0 <= i < j ==> SourceSlot(s, ids[i]) != SourceSlot(s, ids[j])
  }

  /** Of the first `k` entries the first for each slot are in their slots, and only they. */
  ghost predicate Placed(s: State, t: State, ids: seq<int>, k: nat) {
    && k <= |ids| && AllKnown(s, ids)
    && (forall j :: 0 <= j < k ==> j in t.infos && t.infos[j].refCount == if First(s, ids, j) then 1 else 0)
    && (forall j :: 0 <= j < k && First(s, ids, j) ==> At(t.newTable, SourceSlot(s, ids[j])) == j)
    && (forall slot: Slot :: slot in t.newTable && t.newTable[slot] != EMPTY ==>
          0 <= t.newTable[slot] < k && First(s, ids, t.newTable[slot])
          && slot == SourceSlot(s, ids[t.newTable[slot]]))
  }

  /** The first of the entries that hash to the slot of entry `j`. */
  lemma {:induction false} FirstThere(s: State, ids: seq<int>, j: nat) returns (i: nat)
    requires j < |ids| && AllKnown(s, ids)
    ensures i <= j && First(s, ids, i) && SourceSlot(s, ids[i]) == SourceSlot(s, ids[j])
  {
    i := j;
    if !First(s, ids, j) {
      var x :| 0 <= x < j && SourceSlot(s, ids[x]) == SourceSlot(s, ids[j]);
      i := FirstThere(s, ids, x);
    }
  }

  lemma FreeForFirst(s: State, t: State, ids: seq<int>, k: nat)
    requires Placed(s, t, ids, k) && k < |ids|
    ensures At(t.newTable, SourceSlot(s, ids[k])) == EMPTY <==> First(s, ids, k)
  {
    var i := FirstThere(s, ids, k);
    if i < k {
      assert At(t.newTable, SourceSlot(s, ids[i])) == i;
    }
  }

  /** What holds when `k` of the `n` untried entries are in. */
  ghost predicate OldStage(s: State, t: State, ids: seq<int>, n: nat, k: nat) {
    && EntriesLoaded(s, t, ids, k) && Placed(s, t, ids, k) && t.triedTable == map[]
    && t.newCount == n && t.triedCount == |ids| - n
  }

  lemma PlacedRefs(s: State, t: State, u: State, ids: seq<int>, k: nat)
    requires Placed(s, t, ids, k) && k < |ids| && k !in t.infos && k in u.infos && u.infos == t.infos[k := u.infos[k]]
    requires u.infos[k].refCount == if At(t.newTable, SourceSlot(s, ids[k])) == EMPTY then 1 else 0
    ensures forall j :: 0 <= j <= k ==> j in u.infos && u.infos[j].refCount == if First(s, ids, j) then 1 else 0
  {
    FreeForFirst(s, t, ids, k);
  }

  lemma PlacedNext(s: State, t: State, u: State, ids: seq<int>, k: nat)
    requires Placed(s, t, ids, k) && k < |ids| && k !in t.infos && k in u.infos && u.infos == t.infos[k := u.infos[k]]
    requires u.infos[k].refCount == if At(t.newTable, SourceSlot(s, ids[k])) == EMPTY then 1 else 0
    requires var slot := SourceSlot(s, ids[k]);
      u.newTable == if At(t.newTable, slot) == EMPTY then t.newTable[slot := k] else t.newTable
    ensures Placed(s, u, ids, k + 1)
  {
    PlacedRefs(s, t, u, ids, k);
    FreeForFirst(s, t, ids, k);
    forall j | 0 <= j < k && First(s, ids, j) ensures At(u.newTable, SourceSlot(s, ids[j])) == j {
      assert At(t.newTable, SourceSlot(s, ids[j])) == j;
    }
  }

  /** An entry read with unusable bucket data differs from one read with usable data only in the
      reference it takes if its slot is free. */
  lemma InsertedWithRef(t: State, k: int, i: Info, slot: Slot)
    requires slot == SlotFor(t, i.service, i.source)
    ensures var u, v := InsertNew(t, k, RecordOf(i), false), InsertNew(t, k, RecordOf(i), true);
      && k in u.infos && k in v.infos && v.infos[k].refCount == 0
      && u.infos == t.infos[k := u.infos[k]] && u.infos == v.infos[k := u.infos[k]]
      && u.infos[k].(refCount := 0) == v.infos[k].(refCount := 0)
      && u.infos[k].refCount == (if At(t.newTable, slot) == EMPTY then 1 else 0)
      && u.newTable == (if At(t.newTable, slot) == EMPTY then t.newTable[slot := k] else t.newTable)
      && u.(infos := v.infos, newTable := v.newTable) == v
  {
  }

  lemma OldStageNext(s: State, t: State, ids: seq<int>, n: nat, k: nat)
    requires AddressesOk(s) && Distinct(ids) && OldStage(s, t, ids, n, k) && k < |ids| && !s.infos[ids[k]].inTried
    ensures OldStage(s, InsertNew(t, k, RecordOf(s.infos[ids[k]]), false), ids, n, k + 1)
  {
    var i := s.infos[ids[k]];
    InsertedWithRef(t, k, i, SourceSlot(s, ids[k]));
    InsertNewLoads(s, t, ids, k);
    OldStageFrom(s, t, InsertNew(t, k, RecordOf(i), true), InsertNew(t, k, RecordOf(i), false), ids, n, k);
  }

  lemma OldStageFrom(s: State, t: State, v: State, u: State, ids: seq<int>, n: nat, k: nat)
    requires OldStage(s, t, ids, n, k) && k < |ids| && EntriesLoaded(s, v, ids, k + 1)
    requires v.triedTable == t.triedTable && v.newCount == t.newCount && v.triedCount == t.triedCount
    requires k in u.infos && k in v.infos && u.infos == t.infos[k := u.infos[k]] && u.infos == v.infos[k := u.infos[k]]
    requires u.infos[k].(refCount := 0) == v.infos[k].(refCount := 0)
    requires var slot := SourceSlot(s, ids[k]);
      && u.infos[k].refCount == (if At(t.newTable, slot) == EMPTY then 1 else 0)
      && u.newTable == (if At(t.newTable, slot) == EMPTY then t.newTable[slot := k] else t.newTable)
    requires u.(infos := v.infos, newTable := v.newTable) == v
    ensures OldStage(s, u, ids, n, k + 1)
  {
    LoadedWithRef(s, v, u, ids, k);
    PlacedNext(s, t, u, ids, k);
  }

  lemma LoadedWithRef(s: State, t: State, u: State, ids: seq<int>, k: nat)
    requires EntriesLoaded(s, t, ids, k + 1) && k in u.infos && u.infos == t.infos[k := u.infos[k]]
    requires u.infos[k].(refCount := 0) == t.infos[k].(refCount := 0)
    requires u.order == t.order && u.idOf == t.idOf && u.h == t.h && u.key == t.key
    ensures EntriesLoaded(s, u, ids, k + 1)
  {
  }

  lemma OldReadNext(t: State, toks: seq<Token>, k: nat, end: int)
    requires k < end && toks != [] && toks[0].Entry?
    ensures ReadNew(t, toks, k, end, false) == ReadNew(InsertNew(t, k, toks[0].r, false), toks[1..], k + 1, end, false)
  {
  }

  lemma {:induction false} OldNewEntries(s: State, t: State, ids: seq<int>, k: nat, n: nat, rest: seq<Token>)
    requires AddressesOk(s) && Distinct(ids) && OldStage(s, t, ids, n, k) && k <= n <= |ids|
    requires forall j :: 0 <= j < n ==> !s.infos[ids[j]].inTried
    ensures var r := ReadNew(t, Entries(s, ids[k..n]) + rest, k, n, false);
      r.Read? && r.rest == rest && OldStage(s, r.state, ids, n, n)
    decreases n - k
  {
    var toks := Entries(s, ids[k..n]) + rest;
    if k == n {
      assert toks == rest;
    } else {
      assert toks[0] == Entry(RecordOf(s.infos[ids[k]]));
      assert toks[1..] == Entries(s, ids[k + 1..n]) + rest;
      OldStageNext(s, t, ids, n, k);
      OldReadNext(t, toks, k, n);
      OldNewEntries(s, InsertNew(t, k, RecordOf(s.infos[ids[k]]), false), ids, k + 1, n, rest);
    }
  }

  // ---- The tried entries ----

  /** What holds when `k` entries are in, the tried ones from number `n` on. */
  ghost predicate OldTriedStage(s: State, t: State, ids: seq<int>, n: nat, k: nat) {
    && EntriesLoaded(s, t, ids, k) && TriedLoaded(s, t, ids, n, k) && t.nextId == k && Placed(s, t, ids, n)
    && (forall j :: n <= j < k ==> j in t.infos && t.infos[j].refCount == 0)
    && t.newCount == n && t.triedCount == |ids| - n
  }

  lemma OldTriedNext(s: State, t: State, ids: seq<int>, n: nat, k: nat)
    requires AddressesOk(s) && TriedSlotsOk(s) && Distinct(ids) && OldTriedStage(s, t, ids, n, k) && k < |ids|
    requires forall j :: n <= j < |ids| ==> s.infos[ids[j]].inTried
    ensures var r := RecordOf(s.infos[ids[k]]);
      TriedSlotFree(t, r) && OldTriedStage(s, InsertTried(t, r), ids, n, k + 1)
  {
    var u := InsertTried(t, RecordOf(s.infos[ids[k]]));
    InsertTriedLoads(s, t, ids, n, k);
    assert u.infos == t.infos[k := u.infos[k]] && u.infos[k].refCount == 0;
    PlacedUnder(s, t, u, ids, n, k);
  }

  lemma PlacedUnder(s: State, t: State, u: State, ids: seq<int>, n: nat, k: nat)
    requires Placed(s, t, ids, n) && n <= k && k in u.infos && u.infos == t.infos[k := u.infos[k]]
    requires u.newTable == t.newTable
    ensures Placed(s, u, ids, n)
  {
  }

  ghost function OldStageOf(s: State, ids: seq<int>, n: nat): (State, nat) -> bool {
    (v: State, k: nat) => OldTriedStage(s, v, ids, n, k)
  }

  lemma OldTriedCarries(s: State, ids: seq<int>, n: nat)
    requires AddressesOk(s) && TriedSlotsOk(s) && Distinct(ids) && AllKnown(s, ids)
    requires forall j :: n <= j < |ids| ==> s.infos[ids[j]].inTried
    ensures TriedCarries(s, ids, n, OldStageOf(s, ids, n))
  {
    forall v: State, j: nat | n <= j < |ids| && OldStageOf(s, ids, n)(v, j)
      ensures TriedSlotFree(v, RecordOf(s.infos[ids[j]]))
      ensures OldStageOf(s, ids, n)(InsertTried(v, RecordOf(s.infos[ids[j]])), j + 1)
    {
      OldTriedNext(s, v, ids, n, j);
    }
  }

  lemma OldTriedEntries(s: State, t: State, ids: seq<int>, n: nat, rest: seq<Token>) returns (u: State)
    requires AddressesOk(s) && TriedSlotsOk(s) && Distinct(ids) && OldTriedStage(s, t, ids, n, n)
    requires forall j :: n <= j < |ids| ==> s.infos[ids[j]].inTried
    ensures ReadTried(t, Entries(s, ids[n..]) + rest, 0, |ids| - n, 0) == Read(u, rest, 0)
    ensures OldTriedStage(s, u, ids, n, |ids|)
  {
    OldTriedCarries(s, ids, n);
    ReadTriedInduction(s, t, ids, n, n, rest, OldStageOf(s, ids, n));
    u := ReadTried(t, Entries(s, ids[n..]) + rest, 0, |ids| - n, 0).state;
  }

  // ---- The buckets ----

  lemma {:induction false} UnusedIndices(s: State, t: State, occ: seq<int>, b: nat, m: nat, rest: seq<Token>)
    requires m <= |occ|
    ensures ReadIndices(t, Indices(s, occ[m..]) + rest, b, m, |occ|, false) == Read(t, rest, 0)
    decreases |occ| - m
  {
    if m == |occ| {
      assert Indices(s, occ[m..]) + rest == rest;
    } else {
      IndicesHead(s, occ, m, rest);
      UnusedIndices(s, t, occ, b, m + 1, rest);
    }
  }

  /** Unusable bucket data is read over. */
  lemma {:induction false} UnusedBuckets(s: State, t: State, b: nat, end: nat, rest: seq<Token>)
    requires b <= end
    ensures ReadBuckets(t, BucketsFrom(s, b, end) + rest, b, end, false) == Read(t, rest, 0)
    decreases end - b
  {
    if b == end {
      assert BucketsFrom(s, b, end) + rest == rest;
    } else {
      var occ := Occupants(s.newTable, b, BUCKET_SIZE);
      var after := BucketsFrom(s, b + 1, end) + rest;
      var toks := BucketsFrom(s, b, end) + rest;
      assert occ[0..] == occ;
      assert toks[0] == Number(|occ|) && toks[1..] == Indices(s, occ[0..]) + after;
      UnusedIndices(s, t, occ, b, 0, after);
      UnusedBuckets(s, t, b + 1, end, rest);
    }
  }

  // ---- The whole file ----

  lemma OldNewPhase(s: State, ids: seq<int>, n: nat, rest: seq<Token>) returns (u: State)
    requires AddressesOk(s) && Distinct(ids) && n <= |ids| && AllKnown(s, ids)
    requires forall j :: 0 <= j < n ==> !s.infos[ids[j]].inTried
    ensures var r := ReadNew(Opened(s, ids, n), Entries(s, ids[..n]) + rest, 0, n, false);
      r.Read? && r.rest == rest && r.state.(nextId := n) == u
    ensures OldTriedStage(s, u, ids, n, n)
  {
    assert ids[0..n] == ids[..n];
    OldNewEntries(s, Opened(s, ids, n), ids, 0, n, rest);
    u := ReadNew(Opened(s, ids, n), Entries(s, ids[..n]) + rest, 0, n, false).state.(nextId := n);
  }

  lemma OldFileReads(s: State, ids: seq<int>, n: nat, toks: seq<Token>) returns (t: State)
    requires AddressesOk(s) && TriedSlotsOk(s) && Distinct(ids) && AllKnown(s, ids) && n <= |ids|
    requires forall j :: 0 <= j < |ids| ==> (s.infos[ids[j]].inTried <==> j >= n)
    requires FileHeader(s, ids, n, toks, false)
    requires toks[6..] == Entries(s, ids[..n]) + (Entries(s, ids[n..]) + (BucketsFrom(s, 0, NEW_BUCKET_COUNT) + []))
    ensures OldTriedStage(s, t, ids, n, |ids|)
    ensures OrderOk(t) && Load(s.h, toks) == Read(Pruned(t, 0, t.nextId), [], 0)
  {
    var rest2 := BucketsFrom(s, 0, NEW_BUCKET_COUNT) + [];
    var rest1 := Entries(s, ids[n..]) + rest2;
    var t1 := OldNewPhase(s, ids, n, rest1);
    t := OldTriedEntries(s, t1, ids, n, rest2);
    UnusedBuckets(s, t, 0, NEW_BUCKET_COUNT, []);
    LoadedOrder(s, t, ids);
    PhasesLoad(s, ids, n, toks, false, t1, t, t, rest1, rest2);
  }

  // ---- The loaded manager ----

  lemma LoadedAddressesOk(s: State, t: State, ids: seq<int>)
    requires EntriesLoaded(s, t, ids, |ids|)
    ensures AddressesOk(t)
  {
    forall j | j in t.infos ensures t.infos[j].service == s.infos[ids[j]].service {
      assert t.infos[j].(refCount := 0) == Restored(s.infos[ids[j]], j);
    }
  }

  /** What pruning leaves of the loaded entries. */
  lemma OldEntries(s: State, t: State, u: State, ids: seq<int>, n: nat, j: int)
    requires OldTriedStage(s, t, ids, n, |ids|) && PrunedTo(t, u, 0, t.nextId)
    requires forall j :: 0 <= j < |ids| ==> (s.infos[ids[j]].inTried <==> j >= n)
    ensures j in u.infos <==> 0 <= j < |ids| && (j >= n || First(s, ids, j))
    ensures j in u.infos ==>
      Kept(s.infos[ids[j]].(lastTry := 0, refCount := if j < n then 1 else 0), u.infos[j])
  {
    if j in t.infos {
      assert t.infos[j].(refCount := 0) == Restored(s.infos[ids[j]], j);
    }
  }

  lemma OldNewSlotsOk(s: State, t: State, u: State, ids: seq<int>, n: nat)
    requires OldTriedStage(s, t, ids, n, |ids|) && PrunedTo(t, u, 0, t.nextId)
    requires forall j :: 0 <= j < |ids| ==> (s.infos[ids[j]].inTried <==> j >= n)
    ensures NewSlotsOk(u)
  {
    forall slot: Slot | slot in u.newTable && u.newTable[slot] != EMPTY
      ensures u.newTable[slot] in u.infos && !u.infos[u.newTable[slot]].inTried && slot.0 < NEW_BUCKET_COUNT
      ensures slot == NewSlot(u.h, u.key, slot.0, u.infos[u.newTable[slot]].service)
    {
      OldEntries(s, t, u, ids, n, u.newTable[slot]);
    }
  }

  lemma OldTriedSlotsOk(s: State, t: State, u: State, ids: seq<int>, n: nat)
    requires OldTriedStage(s, t, ids, n, |ids|) && PrunedTo(t, u, 0, t.nextId)
    requires forall j :: 0 <= j < |ids| ==> (s.infos[ids[j]].inTried <==> j >= n)
    ensures TriedSlotsOk(u)
  {
    forall slot: Slot | slot in u.triedTable && u.triedTable[slot] != EMPTY
      ensures u.triedTable[slot] in u.infos && u.infos[u.triedTable[slot]].inTried
      ensures slot == TriedSlot(u.h, u.key, u.infos[u.triedTable[slot]].service)
    {
      OldEntries(s, t, u, ids, n, u.triedTable[slot]);
    }
    forall j | j in u.infos && u.infos[j].inTried
      ensures At(u.triedTable, TriedSlot(u.h, u.key, u.infos[j].service)) == j
    {
      OldEntries(s, t, u, ids, n, j);
    }
  }

  lemma OldHolding(s: State, t: State, u: State, ids: seq<int>, n: nat, j: int)
    requires OldTriedStage(s, t, ids, n, |ids|) && PrunedTo(t, u, 0, t.nextId) && j in u.infos
    requires forall j :: 0 <= j < |ids| ==> (s.infos[ids[j]].inTried <==> j >= n)
    ensures |Holding(u.h, u.key, u.newTable, u.infos[j].service, j)| == if j < n then 1 else 0
  {
    OldEntries(s, t, u, ids, n, j);
    if j < n {
      var slot := SourceSlot(s, ids[j]);
      assert At(t.newTable, slot) == j;
      assert Holding(u.h, u.key, u.newTable, u.infos[j].service, j) == {slot.0};
    } else {
      assert Holding(u.h, u.key, u.newTable, u.infos[j].service, j) == {};
    }
  }

  lemma OldRefCountsOk(s: State, t: State, u: State, ids: seq<int>, n: nat)
    requires OldTriedStage(s, t, ids, n, |ids|) && PrunedTo(t, u, 0, t.nextId) && u.nextId == t.nextId
    requires forall j :: 0 <= j < |ids| ==> (s.infos[ids[j]].inTried <==> j >= n)
    ensures RefCountsOk(u, {})
  {
    forall j | j in u.infos
      ensures 0 <= j < u.nextId && u.infos[j].refCount == |Holding(u.h, u.key, u.newTable, u.infos[j].service, j)|
      ensures if u.infos[j].inTried then u.infos[j].refCount == 0 else u.infos[j].refCount == 1
    {
      OldEntries(s, t, u, ids, n, j);
      OldHolding(s, t, u, ids, n, j);
    }
  }

  lemma OldIsConsistent(s: State, t: State, ids: seq<int>, n: nat)
    requires OldTriedStage(s, t, ids, n, |ids|) && OrderOk(t) && n <= |ids|
    requires forall j :: 0 <= j < |ids| ==> (s.infos[ids[j]].inTried <==> j >= n)
    ensures Consistent(Pruned(t, 0, t.nextId)) && PrunedTo(t, Pruned(t, 0, t.nextId), 0, t.nextId)
    ensures Pruned(t, 0, t.nextId).triedCount == |ids| - n
  {
    var u := Pruned(t, 0, t.nextId);
    PrunedExactly(t, 0, t.nextId);
    PrunedBooks(t, 0, t.nextId);
    LoadedAddressesOk(s, t, ids);
    LoadedCounts(s, t, ids, n);
    OldNewSlotsOk(s, t, u, ids, n);
    OldTriedSlotsOk(s, t, u, ids, n);
    OldRefCountsOk(s, t, u, ids, n);
  }

  /** No untried entry with a smaller id has the slot of the same address and source. */
  predicate Oldest(s: State, id: int)
    requires id in s.infos
  {
    forall x :: x in s.infos && !s.infos[x].inTried && x < id ==> SourceSlot(s, x) != SourceSlot(s, id)
  }

  lemma IncreasingIff(q: seq<int>, i: nat, j: nat)
    requires Increasing(q) && i < |q| && j < |q|
    ensures q[i] < q[j] <==> i < j
  {
    assert i < j ==> q[i] < q[j];
    assert j < i ==> q[j] < q[i];
  }

  lemma FirstIsOldest(s: State, j: nat)
    requires Linked(s, {}) && j < |NewUpTo(s, s.nextId)| && AllKnown(s, FileOrder(s))
    ensures First(s, FileOrder(s), j) <==> Oldest(s, FileOrder(s)[j])
  {
    var ids, q := FileOrder(s), NewUpTo(s, s.nextId);
    NewUpToProps(s, s.nextId);
    assert forall i :: 0 <= i < |q| ==> ids[i] == q[i];
    if First(s, ids, j) {
      forall x | x in s.infos && !s.infos[x].inTried && x < ids[j] ensures SourceSlot(s, x) != SourceSlot(s, ids[j]) {
        ReferencedIsUntried(s, x);
        assert x in q;
        var i :| 0 <= i < |q| && q[i] == x;
        IncreasingIff(q, i, j);
      }
    }
    if Oldest(s, ids[j]) {
      forall i | 0 <= i < j ensures SourceSlot(s, ids[i]) != SourceSlot(s, ids[j]) {
        assert q[i] in q;
        ReferencedIsUntried(s, q[i]);
      }
    }
  }

  /** What becomes of the entry `id` when the file is loaded as `u`. */
  ghost predicate CarriedOver(s: State, u: State, id: int)
    requires id in s.infos
  {
    var i := s.infos[id];
    && (i.service.ip in u.idOf <==> i.inTried || Oldest(s, id))
    && (i.service.ip in u.idOf ==>
          var j := u.idOf[i.service.ip];
          && j in u.infos && Kept(i.(lastTry := 0, refCount := if i.inTried then 0 else 1), u.infos[j])
          && (!i.inTried ==> At(u.newTable, SourceSlot(s, id)) == j))
  }

  lemma SameNumber(s: State, ids: seq<int>, k: nat, j: nat)
    requires AddressesOk(s) && Distinct(ids) && AllKnown(s, ids) && k < |ids| && j < |ids|
    requires s.infos[ids[k]].service.ip == s.infos[ids[j]].service.ip
    ensures k == j
  {
    if k != j {
      DistinctAddresses(s, ids, k, j);
    }
  }

  /** An address leads to the entry it was loaded as, or nowhere if that was pruned. */
  lemma AddressCarried(s: State, t: State, u: State, ids: seq<int>, n: nat, j: nat)
    requires AddressesOk(s) && AllKnown(s, ids) && j < |ids| && Distinct(ids) && AddressesOk(u)
    requires forall j :: 0 <= j < |ids| ==> (s.infos[ids[j]].inTried <==> j >= n)
    requires OldTriedStage(s, t, ids, n, |ids|) && PrunedTo(t, u, 0, t.nextId)
    ensures var ip := s.infos[ids[j]].service.ip;
      (ip in u.idOf <==> j in u.infos) && (ip in u.idOf ==> u.idOf[ip] == j)
  {
    var ip := s.infos[ids[j]].service.ip;
    OldEntries(s, t, u, ids, n, j);
    if ip in u.idOf {
      OldEntries(s, t, u, ids, n, u.idOf[ip]);
      SameNumber(s, ids, u.idOf[ip], j);
    }
  }

  lemma EntryCarried(s: State, t: State, u: State, ids: seq<int>, n: nat, j: nat)
    requires AddressesOk(s) && AllKnown(s, ids) && Distinct(ids) && AddressesOk(u) && j < |ids|
    requires forall j :: 0 <= j < |ids| ==> (s.infos[ids[j]].inTried <==> j >= n)
    requires OldTriedStage(s, t, ids, n, |ids|) && PrunedTo(t, u, 0, t.nextId)
    requires j < n ==> (First(s, ids, j) <==> Oldest(s, ids[j]))
    ensures CarriedOver(s, u, ids[j])
  {
    AddressCarried(s, t, u, ids, n, j);
    OldEntries(s, t, u, ids, n, j);
    if j < n {
      AtSourceSlot(s, t, u, ids, n, j);
    }
    CarriedFrom(s, u, ids, n, j);
  }

  lemma CarriedFrom(s: State, u: State, ids: seq<int>, n: nat, j: nat)
    requires AllKnown(s, ids) && j < |ids| && (s.infos[ids[j]].inTried <==> j >= n)
    requires var ip := s.infos[ids[j]].service.ip;
      (ip in u.idOf <==> j in u.infos) && (ip in u.idOf ==> u.idOf[ip] == j)
    requires j in u.infos <==> j >= n || Oldest(s, ids[j])
    requires j in u.infos ==> Kept(s.infos[ids[j]].(lastTry := 0, refCount := if j < n then 1 else 0), u.infos[j])
    requires j < n && j in u.infos ==> At(u.newTable, SourceSlot(s, ids[j])) == j
    ensures CarriedOver(s, u, ids[j])
  {
  }

  lemma AtSourceSlot(s: State, t: State, u: State, ids: seq<int>, n: nat, j: nat)
    requires Placed(s, t, ids, n) && j < n && u.newTable == t.newTable
    ensures First(s, ids, j) ==> At(u.newTable, SourceSlot(s, ids[j])) == j
  {
  }

  lemma AllCarried(s: State, t: State, u: State, ids: seq<int>, n: nat)
    requires AddressesOk(s) && AllKnown(s, ids) && Distinct(ids) && AddressesOk(u) && n <= |ids|
    requires forall id :: id in s.infos ==> id in ids
    requires forall j :: 0 <= j < |ids| ==> (s.infos[ids[j]].inTried <==> j >= n)
    requires forall j :: 0 <= j < n ==> (First(s, ids, j) <==> Oldest(s, ids[j]))
    requires OldTriedStage(s, t, ids, n, |ids|) && PrunedTo(t, u, 0, t.nextId)
    ensures forall id :: id in s.infos ==> CarriedOver(s, u, id)
  {
    forall id | id in s.infos ensures CarriedOver(s, u, id) {
      assert id in ids;
      var j :| 0 <= j < |ids| && ids[j] == id;
      EntryCarried(s, t, u, ids, n, j);
    }
  }

  /** For any list of all entries, the untried ones first, in which being first for a slot means
      being the oldest. */
  lemma OldListLoads(s: State, ids: seq<int>, n: nat, toks: seq<Token>)
    requires AddressesOk(s) && TriedSlotsOk(s) && Distinct(ids) && AllKnown(s, ids) && n <= |ids|
    requires forall id :: id in s.infos ==> id in ids
    requires forall j :: 0 <= j < |ids| ==> (s.infos[ids[j]].inTried <==> j >= n)
    requires forall j :: 0 <= j < n ==> (First(s, ids, j) <==> Oldest(s, ids[j]))
    requires FileHeader(s, ids, n, toks, false)
    requires toks[6..] == Entries(s, ids[..n]) + (Entries(s, ids[n..]) + (BucketsFrom(s, 0, NEW_BUCKET_COUNT) + []))
    ensures var r := Load(s.h, toks);
      && r.Read? && r.rest == [] && r.lost == 0 && Consistent(r.state) && r.state.triedCount == |ids| - n
      && forall id :: id in s.infos ==> CarriedOver(s, r.state, id)
  {
    var t := OldFileReads(s, ids, n, toks);
    OldIsConsistent(s, t, ids, n);
    AllCarried(s, t, Pruned(t, 0, t.nextId), ids, n);
  }

  lemma FirstsAreOldest(s: State)
    requires Linked(s, {}) && AllKnown(s, FileOrder(s))
    ensures forall j :: 0 <= j < |NewUpTo(s, s.nextId)| ==> (First(s, FileOrder(s), j) <==> Oldest(s, FileOrder(s)[j]))
  {
    forall j | 0 <= j < |NewUpTo(s, s.nextId)| ensures First(s, FileOrder(s), j) <==> Oldest(s, FileOrder(s)[j]) {
      FirstIsOldest(s, j);
    }
  }

  /** A saved file with an unknown version in its header loads completely: all tried entries are
      there, and of the untried ones exactly those that come first for the slot of their own
      address and source, each with that one reference. The manager is consistent. */
  lemma OldFileLoads(s: State, toks: seq<Token>)
    requires Consistent(s) && |toks| >= 6 && toks[6..] == Saved(s)[6..]
    requires HeaderOk(toks) && toks[0].b != 1 && StoredBuckets(toks[0].b, toks[5].n) == NEW_BUCKET_COUNT
    requires toks[2].key == s.key && toks[3].n == s.newCount && toks[4].n == s.triedCount
    ensures var r := Load(s.h, toks);
      && r.Read? && r.rest == [] && r.lost == 0 && Consistent(r.state) && r.state.triedCount == s.triedCount
      && forall id :: id in s.infos ==> CarriedOver(s, r.state, id)
  {
    FileFacts(s);
    SavedShape(s);
    FirstsAreOldest(s);
    OldListLoads(s, FileOrder(s), s.newCount, toks);
  }

  lemma FileFacts(s: State)
    requires Consistent(s)
    ensures AllKnown(s, FileOrder(s)) && Distinct(FileOrder(s)) && |NewUpTo(s, s.nextId)| == s.newCount
    ensures |FileOrder(s)| == s.newCount + s.triedCount && forall id :: id in s.infos ==> id in FileOrder(s)
    ensures forall j :: 0 <= j < |FileOrder(s)| ==> (s.infos[FileOrder(s)[j]].inTried <==> j >= s.newCount)
  {
    AllListed(s);
    ListSizes(s);
    FileOrderProps(s);
  }
}
