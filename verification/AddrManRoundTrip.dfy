/** Loading a saved address manager gives the same manager up to the numbering of entries. */
module AddrManRoundTrip {
  import opened AddrManState
  import opened AddrManInvariant
  import opened AddrManOps
  import opened AddrManStore
  import opened SetFacts

  // ---- renaming entries ----

  function Rename(f: map<int, int>, id: int): int {
    if id in f then f[id] else EMPTY
  }

  /** `t` is `s` with every id renamed by `f`; only the last-try times and the random order differ. */
  ghost predicate SameUpToIds(s: State, t: State, f: map<int, int>) {
    && t.h == s.h && t.key == s.key && t.newCount == s.newCount && t.triedCount == s.triedCount
    && f.Keys == s.infos.Keys && InjectiveOn(f)
    && (forall id :: id in f ==>
          f[id] in t.infos && t.infos[f[id]] == s.infos[id].(lastTry := 0, randomPos := t.infos[f[id]].randomPos))
    && (forall j :: j in t.infos ==> exists id :: id in f && f[id] == j)
    && (forall ip :: ip in s.idOf ==> ip in t.idOf && t.idOf[ip] == Rename(f, s.idOf[ip]))
    && (forall ip :: ip in t.idOf ==> ip in s.idOf)
    && (forall slot: Slot :: At(t.newTable, slot) == Rename(f, At(s.newTable, slot)))
    && (forall slot: Slot :: At(t.triedTable, slot) == Rename(f, At(s.triedTable, slot)))
  }

  // ---- the two lists of entries ----

  ghost predicate Increasing(q: seq<int>) {
    forall i, j :: 0 <= i < j < |q| ==> q[i] < q[j]
  }

  lemma {:induction false} NewUpToProps(s: State, n: nat)
    ensures Increasing(NewUpTo(s, n))
    ensures forall x :: x in NewUpTo(s, n) <==> 0 <= x < n && x in s.infos && s.infos[x].refCount != 0
  {
    if n > 0 {
      UpToKnown(s, n - 1);
      NewUpToProps(s, n - 1);
    }
  }

  lemma {:induction false} TriedUpToProps(s: State, n: nat)
    ensures Increasing(TriedUpTo(s, n))
    ensures forall x :: x in TriedUpTo(s, n) <==> 0 <= x < n && x in s.infos && s.infos[x].inTried
  {
    if n > 0 {
      UpToKnown(s, n - 1);
      TriedUpToProps(s, n - 1);
    }
  }

  /** An entry's index in the file is its position in the list of referenced entries. */
  lemma {:induction false} NewIndex(s: State, n: nat, id: nat)
    requires id < n && id in s.infos && s.infos[id].refCount != 0
    ensures |NewUpTo(s, id)| < |NewUpTo(s, n)| && NewUpTo(s, n)[|NewUpTo(s, id)|] == id
  {
    if id < n - 1 { NewIndex(s, n - 1, id); }
  }

  lemma {:induction false} TriedIndex(s: State, n: nat, id: nat)
    requires id < n && id in s.infos && s.infos[id].inTried
    ensures |TriedUpTo(s, id)| < |TriedUpTo(s, n)| && TriedUpTo(s, n)[|TriedUpTo(s, id)|] == id
  {
    if id < n - 1 { TriedIndex(s, n - 1, id); }
  }

  /** A referenced entry is exactly an untried one. */
  lemma ReferencedIsUntried(s: State, id: int)
    requires RefCountsOk(s, {}) && id in s.infos
    ensures 0 <= id < s.nextId && (s.infos[id].refCount != 0 <==> !s.infos[id].inTried)
  {
  }

  lemma ListSizes(s: State)
    requires Consistent(s)
    ensures |NewUpTo(s, s.nextId)| == s.newCount && |TriedUpTo(s, s.nextId)| == s.triedCount
  {
    NewUpToProps(s, s.nextId);
    TriedUpToProps(s, s.nextId);
    SizeFromMembers(s, NewUpTo(s, s.nextId), NewIds(s));
    SizeFromMembers(s, TriedUpTo(s, s.nextId), TriedIds(s));
  }

  lemma SizeFromMembers(s: State, q: seq<int>, ids: set<int>)
    requires Increasing(q) && forall x :: x in q <==> x in ids
    ensures |q| == |ids|
  {
    assert Distinct(q);
    DistinctCardinality(q);
    forall x ensures x in ids <==> x in (set y | y in q) {
      assert x in ids <==> x in q;
    }
    assert ids == set x | x in q;
  }

  /** All entries in the order the file lists them: referenced ones, then tried ones. */
  function FileOrder(s: State): seq<int>
    requires 0 <= s.nextId
  {
    NewUpTo(s, s.nextId) + TriedUpTo(s, s.nextId)
  }

  lemma FileOrderKnown(s: State)
    requires 0 <= s.nextId && RefCountsOk(s, {})
    ensures forall k :: 0 <= k < |FileOrder(s)| ==>
      FileOrder(s)[k] in s.infos && (s.infos[FileOrder(s)[k]].inTried <==> k >= |NewUpTo(s, s.nextId)|)
  {
    NewUpToProps(s, s.nextId);
    TriedUpToProps(s, s.nextId);
    var n, q := |NewUpTo(s, s.nextId)|, FileOrder(s);
    forall k | 0 <= k < |q| ensures q[k] in s.infos && (s.infos[q[k]].inTried <==> k >= n) {
      if k < n {
        assert q[k] in NewUpTo(s, s.nextId);
        ReferencedIsUntried(s, q[k]);
      } else {
        assert q[k] == TriedUpTo(s, s.nextId)[k - n];
      }
    }
  }

  lemma DistinctConcat(a: seq<int>, b: seq<int>)
    requires Increasing(a) && Increasing(b) && forall i, j :: 0 <= i < |a| && 0 <= j < |b| ==> a[i] != b[j]
    ensures Distinct(a + b)
  {
  }

  lemma FileOrderProps(s: State)
    requires 0 <= s.nextId && RefCountsOk(s, {})
    ensures forall k :: 0 <= k < |FileOrder(s)| ==>
      FileOrder(s)[k] in s.infos && (s.infos[FileOrder(s)[k]].inTried <==> k >= |NewUpTo(s, s.nextId)|)
    ensures Distinct(FileOrder(s))
  {
    FileOrderKnown(s);
    NewUpToProps(s, s.nextId);
    TriedUpToProps(s, s.nextId);
    var a, b := NewUpTo(s, s.nextId), TriedUpTo(s, s.nextId);
    forall i, j | 0 <= i < |a| && 0 <= j < |b| ensures a[i] != b[j] {
      assert FileOrder(s)[i] == a[i] && FileOrder(s)[|a| + j] == b[j];
    }
    DistinctConcat(a, b);
  }

  // ---- loading the entries ----

  function Restored(i: Info, pos: int): Info {
    i.(lastTry := 0, refCount := 0, randomPos := pos)
  }

  /** Entries 0 to k - 1 are the first `k` of `ids`, listed in that order. */
  ghost predicate InfosLoaded(s: State, t: State, ids: seq<int>, k: nat) {
    && k <= |ids| && (forall j :: 0 <= j < |ids| ==> ids[j] in s.infos)
    && |t.order| == k && (forall j :: 0 <= j < k ==> t.order[j] == j)
    && (forall j :: j in t.infos ==> 0 <= j < k)
    && (forall j :: 0 <= j < k ==> j in t.infos && t.infos[j].(refCount := 0) == Restored(s.infos[ids[j]], j))
  }

  /** The address index knows exactly those entries. */
  ghost predicate AddressesLoaded(s: State, t: State, ids: seq<int>, k: nat) {
    && k <= |ids| && (forall j :: 0 <= j < |ids| ==> ids[j] in s.infos)
    && (forall j :: 0 <= j < k ==> s.infos[ids[j]].service.ip in t.idOf && t.idOf[s.infos[ids[j]].service.ip] == j)
    && (forall ip :: ip in t.idOf ==> 0 <= t.idOf[ip] < k && s.infos[ids[t.idOf[ip]]].service.ip == ip)
  }

  /** The first `k` entries of the file order `ids` have been loaded. */
  ghost predicate EntriesLoaded(s: State, t: State, ids: seq<int>, k: nat) {
    t.h == s.h && t.key == s.key && InfosLoaded(s, t, ids, k) && AddressesLoaded(s, t, ids, k)
  }

  lemma DistinctAddresses(s: State, ids: seq<int>, i: nat, j: nat)
    requires AddressesOk(s) && Distinct(ids) && i < |ids| && j < |ids| && i != j
    requires ids[i] in s.infos && ids[j] in s.infos
    ensures s.infos[ids[i]].service.ip != s.infos[ids[j]].service.ip
  {
    var a, b := ids[i], ids[j];
    assert a != b;
    assert s.idOf[s.infos[a].service.ip] == a && s.idOf[s.infos[b].service.ip] == b;
  }

  lemma LoadOneInfo(s: State, t: State, u: State, ids: seq<int>, k: nat)
    requires InfosLoaded(s, t, ids, k) && k < |ids|
    requires u.order == t.order + [k] && u.infos == t.infos[k := Restored(s.infos[ids[k]], k)]
    ensures InfosLoaded(s, u, ids, k + 1)
  {
  }

  lemma LoadOneAddress(s: State, t: State, u: State, ids: seq<int>, k: nat)
    requires AddressesOk(s) && Distinct(ids) && AddressesLoaded(s, t, ids, k) && k < |ids|
    requires u.idOf == t.idOf[s.infos[ids[k]].service.ip := k]
    ensures AddressesLoaded(s, u, ids, k + 1)
  {
    forall j | 0 <= j < k ensures s.infos[ids[j]].service.ip != s.infos[ids[k]].service.ip {
      DistinctAddresses(s, ids, j, k);
    }
  }

  lemma LoadOne(s: State, t: State, u: State, ids: seq<int>, k: nat)
    requires AddressesOk(s) && Distinct(ids) && EntriesLoaded(s, t, ids, k) && k < |ids|
    requires u.h == t.h && u.key == t.key && u.order == t.order + [k]
    requires u.infos == t.infos[k := Restored(s.infos[ids[k]], k)]
    requires u.idOf == t.idOf[s.infos[ids[k]].service.ip := k]
    ensures EntriesLoaded(s, u, ids, k + 1)
  {
    LoadOneInfo(s, t, u, ids, k);
    LoadOneAddress(s, t, u, ids, k);
  }

  ghost predicate ZeroRefs(t: State) {
    forall j :: j in t.infos ==> t.infos[j].refCount == 0
  }

  lemma InsertNewLoads(s: State, t: State, ids: seq<int>, k: nat)
    requires AddressesOk(s) && Distinct(ids) && EntriesLoaded(s, t, ids, k) && k < |ids|
    requires !s.infos[ids[k]].inTried
    ensures var u := InsertNew(t, k, RecordOf(s.infos[ids[k]]), true);
      && EntriesLoaded(s, u, ids, k + 1) && u.triedTable == t.triedTable && u.newTable == t.newTable
      && u.newCount == t.newCount && u.triedCount == t.triedCount && u.nextId == t.nextId
  {
    LoadOne(s, t, InsertNew(t, k, RecordOf(s.infos[ids[k]]), true), ids, k);
  }

  /** What holds when `k` of the `n` untried entries are in. */
  ghost predicate UntriedStage(s: State, t: State, ids: seq<int>, n: nat, k: nat) {
    && EntriesLoaded(s, t, ids, k) && ZeroRefs(t) && t.newTable == map[] && t.triedTable == map[]
    && t.newCount == n && t.triedCount == |ids| - n
  }

  lemma UntriedStageNext(s: State, t: State, ids: seq<int>, n: nat, k: nat)
    requires AddressesOk(s) && Distinct(ids) && UntriedStage(s, t, ids, n, k) && k < |ids| && !s.infos[ids[k]].inTried
    ensures UntriedStage(s, InsertNew(t, k, RecordOf(s.infos[ids[k]]), true), ids, n, k + 1)
  {
    InsertNewLoads(s, t, ids, k);
  }

  lemma ReadNewNext(t: State, toks: seq<Token>, k: nat, end: int)
    requires k < end && toks != [] && toks[0].Entry?
    ensures ReadNew(t, toks, k, end, true) == ReadNew(InsertNew(t, k, toks[0].r, true), toks[1..], k + 1, end, true)
  {
  }

  lemma {:induction false} ReadNewLoads(s: State, t: State, ids: seq<int>, k: nat, n: nat, rest: seq<Token>)
    requires AddressesOk(s) && Distinct(ids) && UntriedStage(s, t, ids, n, k) && k <= n <= |ids|
    requires forall j :: 0 <= j < n ==> !s.infos[ids[j]].inTried
    ensures var r := ReadNew(t, Entries(s, ids[k..n]) + rest, k, n, true);
      r.Read? && r.rest == rest && UntriedStage(s, r.state, ids, n, n)
    decreases n - k
  {
    var toks := Entries(s, ids[k..n]) + rest;
    if k == n {
      assert toks == rest;
    } else {
      assert toks[0] == Entry(RecordOf(s.infos[ids[k]]));
      assert toks[1..] == Entries(s, ids[k + 1..n]) + rest;
      var u := InsertNew(t, k, RecordOf(s.infos[ids[k]]), true);
      UntriedStageNext(s, t, ids, n, k);
      ReadNewNext(t, toks, k, n);
      ReadNewLoads(s, u, ids, k + 1, n, rest);
    }
  }

  /** The tried table holds the loaded entries from number `n` on, each in its own slot. */
  ghost predicate TriedLoaded(s: State, t: State, ids: seq<int>, n: nat, k: nat) {
    && n <= k <= |ids| && (forall j :: 0 <= j < |ids| ==> ids[j] in s.infos)
    && (forall j :: n <= j < k ==> At(t.triedTable, TriedSlot(s.h, s.key, s.infos[ids[j]].service)) == j)
    && (forall slot: Slot :: slot in t.triedTable ==>
          && n <= t.triedTable[slot] < k
          && slot == TriedSlot(s.h, s.key, s.infos[ids[t.triedTable[slot]]].service))
  }

  lemma TriedSlotStillFree(s: State, t: State, ids: seq<int>, n: nat, k: nat)
    requires TriedSlotsOk(s) && Distinct(ids) && TriedLoaded(s, t, ids, n, k) && k < |ids|
    requires forall j :: n <= j < |ids| ==> s.infos[ids[j]].inTried
    ensures At(t.triedTable, TriedSlot(s.h, s.key, s.infos[ids[k]].service)) == EMPTY
  {
    assert At(s.triedTable, TriedSlot(s.h, s.key, s.infos[ids[k]].service)) == ids[k];
    assert forall j :: n <= j < k ==>
      At(s.triedTable, TriedSlot(s.h, s.key, s.infos[ids[j]].service)) == ids[j] && ids[j] != ids[k];
  }

  lemma LoadOneTried(s: State, t: State, u: State, ids: seq<int>, n: nat, k: nat)
    requires TriedSlotsOk(s) && Distinct(ids) && TriedLoaded(s, t, ids, n, k) && k < |ids|
    requires forall j :: n <= j < |ids| ==> s.infos[ids[j]].inTried
    requires u.triedTable == t.triedTable[TriedSlot(s.h, s.key, s.infos[ids[k]].service) := k]
    ensures TriedLoaded(s, u, ids, n, k + 1)
  {
    TriedSlotStillFree(s, t, ids, n, k);
    var own := TriedSlot(s.h, s.key, s.infos[ids[k]].service);
    forall j | n <= j < k + 1 ensures At(u.triedTable, TriedSlot(s.h, s.key, s.infos[ids[j]].service)) == j {
      assert j < k ==> At(t.triedTable, TriedSlot(s.h, s.key, s.infos[ids[j]].service)) == j;
    }
    forall slot: Slot | slot in u.triedTable && slot != own
      ensures n <= u.triedTable[slot] < k && slot == TriedSlot(s.h, s.key, s.infos[ids[u.triedTable[slot]]].service)
    {
      assert slot in t.triedTable;
    }
  }

  lemma InsertTriedLoads(s: State, t: State, ids: seq<int>, n: nat, k: nat)
    requires AddressesOk(s) && TriedSlotsOk(s) && Distinct(ids)
    requires EntriesLoaded(s, t, ids, k) && TriedLoaded(s, t, ids, n, k) && k < |ids| && t.nextId == k
    requires forall j :: n <= j < |ids| ==> s.infos[ids[j]].inTried
    ensures var r := RecordOf(s.infos[ids[k]]); var u := InsertTried(t, r);
      && TriedSlotFree(t, r)
      && EntriesLoaded(s, u, ids, k + 1) && TriedLoaded(s, u, ids, n, k + 1) && u.nextId == k + 1
      && u.newTable == t.newTable && u.newCount == t.newCount && u.triedCount == t.triedCount
  {
    var u := InsertTried(t, RecordOf(s.infos[ids[k]]));
    TriedSlotStillFree(s, t, ids, n, k);
    LoadOne(s, t, u, ids, k);
    LoadOneTried(s, t, u, ids, n, k);
  }

  /** Each insertion of a tried entry finds its slot free and carries `p` on. */
  ghost predicate TriedCarries(s: State, ids: seq<int>, n: nat, p: (State, nat) -> bool)
    requires forall j :: 0 <= j < |ids| ==> ids[j] in s.infos
  {
    forall u: State, j: nat :: n <= j < |ids| && p(u, j) ==>
      && TriedSlotFree(u, RecordOf(s.infos[ids[j]]))
      && p(InsertTried(u, RecordOf(s.infos[ids[j]])), j + 1)
  }

  lemma ReadTriedNext(t: State, toks: seq<Token>, k: nat, end: int)
    requires k < end && toks != [] && toks[0].Entry? && TriedSlotFree(t, toks[0].r)
    ensures ReadTried(t, toks, k, end, 0) == ReadTried(InsertTried(t, toks[0].r), toks[1..], k + 1, end, 0)
  {
  }

  /** Reading tried entries, for any property that each insertion carries on. */
  lemma {:induction false} ReadTriedInduction(
      s: State, t: State, ids: seq<int>, n: nat, k: nat, rest: seq<Token>, p: (State, nat) -> bool)
    requires n <= k <= |ids| && (forall j :: 0 <= j < |ids| ==> ids[j] in s.infos) && p(t, k)
    requires TriedCarries(s, ids, n, p)
    ensures var r := ReadTried(t, Entries(s, ids[k..]) + rest, k - n, |ids| - n, 0);
      r.Read? && r.rest == rest && r.lost == 0 && p(r.state, |ids|)
    decreases |ids| - k
  {
    var toks := Entries(s, ids[k..]) + rest;
    if k == |ids| {
      assert toks == rest;
    } else {
      assert toks[0] == Entry(RecordOf(s.infos[ids[k]]));
      assert toks[1..] == Entries(s, ids[k + 1..]) + rest;
      assert p(t, k);
      ReadTriedNext(t, toks, k - n, |ids| - n);
      ReadTriedInduction(s, InsertTried(t, RecordOf(s.infos[ids[k]])), ids, n, k + 1, rest, p);
    }
  }

  /** What holds when `k` entries are in, the tried ones from number `n` on. */
  ghost predicate TriedStage(s: State, t: State, ids: seq<int>, n: nat, k: nat) {
    && EntriesLoaded(s, t, ids, k) && TriedLoaded(s, t, ids, n, k) && t.nextId == k && ZeroRefs(t)
    && t.newTable == map[] && t.newCount == n && t.triedCount == |ids| - n
  }

  lemma TriedStageNext(s: State, t: State, ids: seq<int>, n: nat, k: nat)
    requires AddressesOk(s) && TriedSlotsOk(s) && Distinct(ids) && TriedStage(s, t, ids, n, k) && k < |ids|
    requires forall j :: n <= j < |ids| ==> s.infos[ids[j]].inTried
    ensures var r := RecordOf(s.infos[ids[k]]); TriedSlotFree(t, r) && TriedStage(s, InsertTried(t, r), ids, n, k + 1)
  {
    InsertTriedLoads(s, t, ids, n, k);
  }

  ghost function StageOf(s: State, ids: seq<int>, n: nat): (State, nat) -> bool {
    (v: State, k: nat) => TriedStage(s, v, ids, n, k)
  }

  lemma TriedStageCarries(s: State, ids: seq<int>, n: nat)
    requires AddressesOk(s) && TriedSlotsOk(s) && Distinct(ids) && (forall j :: 0 <= j < |ids| ==> ids[j] in s.infos)
    requires forall j :: n <= j < |ids| ==> s.infos[ids[j]].inTried
    ensures TriedCarries(s, ids, n, StageOf(s, ids, n))
  {
    forall v: State, j: nat | n <= j < |ids| && StageOf(s, ids, n)(v, j)
      ensures TriedSlotFree(v, RecordOf(s.infos[ids[j]]))
      ensures StageOf(s, ids, n)(InsertTried(v, RecordOf(s.infos[ids[j]])), j + 1)
    {
      TriedStageNext(s, v, ids, n, j);
    }
  }

  lemma TriedPhase(s: State, t: State, ids: seq<int>, n: nat, rest: seq<Token>) returns (u: State)
    requires AddressesOk(s) && TriedSlotsOk(s) && Distinct(ids) && TriedStage(s, t, ids, n, n)
    requires forall j :: n <= j < |ids| ==> s.infos[ids[j]].inTried
    ensures ReadTried(t, Entries(s, ids[n..]) + rest, 0, |ids| - n, 0) == Read(u, rest, 0)
    ensures TriedStage(s, u, ids, n, |ids|)
  {
    TriedStageCarries(s, ids, n);
    ReadTriedInduction(s, t, ids, n, n, rest, StageOf(s, ids, n));
    u := ReadTried(t, Entries(s, ids[n..]) + rest, 0, |ids| - n, 0).state;
  }

  // ---- loading the buckets ----

  lemma {:induction false} OccupantsProps(t: Table, b: nat, p: nat)
    ensures forall x :: x in Occupants(t, b, p) <==> x != EMPTY && exists q: nat :: q < p && At(t, (b, q)) == x
  {
    if p > 0 { OccupantsProps(t, b, p - 1); }
  }

  /** No entry occupies two slots of one bucket. */
  lemma {:induction false} OccupantsDistinct(s: State, b: nat, p: nat)
    requires NewSlotsOk(s)
    ensures Distinct(Occupants(s.newTable, b, p))
  {
    if p > 0 {
      OccupantsDistinct(s, b, p - 1);
      OccupantsProps(s.newTable, b, p - 1);
      forall q: nat | q < p - 1 && At(s.newTable, (b, q)) != EMPTY
        ensures At(s.newTable, (b, q)) != At(s.newTable, (b, p - 1))
      {
        var slot: Slot := (b, q);
        assert slot in s.newTable && slot == NewSlot(s.h, s.key, b, s.infos[s.newTable[slot]].service);
      }
      var before := Occupants(s.newTable, b, p - 1);
      forall i | 0 <= i < |before| ensures before[i] != At(s.newTable, (b, p - 1)) {
        assert before[i] in before;
        var q: nat :| q < p - 1 && At(s.newTable, (b, q)) == before[i];
      }
    }
  }

  /** The entries of bucket `b` are those that hold it. */
  lemma OccupantsHold(s: State, b: nat, x: int)
    requires NewSlotsOk(s) && b < NEW_BUCKET_COUNT && EMPTY !in s.infos
    ensures x in Occupants(s.newTable, b, BUCKET_SIZE) <==>
      x in s.infos && b in Holding(s.h, s.key, s.newTable, s.infos[x].service, x)
  {
    OccupantsProps(s.newTable, b, BUCKET_SIZE);
    if x in Occupants(s.newTable, b, BUCKET_SIZE) {
      var q: nat :| q < BUCKET_SIZE && At(s.newTable, (b, q)) == x;
      assert (b, q) in s.newTable;
    }
    if x in s.infos && b in Holding(s.h, s.key, s.newTable, s.infos[x].service, x) {
      var slot := NewSlot(s.h, s.key, b, s.infos[x].service);
      assert slot.1 < BUCKET_SIZE && At(s.newTable, (b, slot.1)) == x;
    }
  }

  /** The new table as far as it has been loaded: all buckets before `b`, and in bucket `b` the
      entries in `done`. */
  ghost predicate TableLoaded(s: State, t: State, b: nat, done: set<int>) {
    forall slot: Slot :: At(t.newTable, slot) ==
      if At(s.newTable, slot) != EMPTY && (slot.0 < b || (slot.0 == b && At(s.newTable, slot) in done))
      then FileIndex(s, At(s.newTable, slot)) else EMPTY
  }

  function HeldBy(s: State, id: int): set<nat>
    requires id in s.infos
  {
    Holding(s.h, s.key, s.newTable, s.infos[id].service, id)
  }

  /** The reference counts as far as the buckets have been loaded. */
  ghost predicate RefsLoaded(s: State, t: State, ids: seq<int>, n: nat, b: nat, done: set<int>) {
    && n <= |ids| && (forall j :: 0 <= j < |ids| ==> ids[j] in s.infos)
    && (forall j :: 0 <= j < n ==>
          && j in t.infos
          && t.infos[j].refCount == |Below(HeldBy(s, ids[j]), b)| + if ids[j] in done then 1 else 0)
    && (forall j :: n <= j < |ids| ==> j in t.infos && t.infos[j].refCount == 0)
  }

  /** File indices number the first `n` entries of `ids`. */
  ghost predicate IndexOk(s: State, ids: seq<int>, n: nat) {
    && n <= |ids| && Distinct(ids) && (forall j :: 0 <= j < |ids| ==> ids[j] in s.infos)
    && (forall j :: 0 <= j < n ==> FileIndex(s, ids[j]) == j)
    && (forall id :: id in s.infos && !s.infos[id].inTried ==> FileIndex(s, id) < n && ids[FileIndex(s, id)] == id)
  }

  /** Loading the index of entry `x` of bucket `b` adds the reference it had. */
  lemma IndexAdds(s: State, t: State, ids: seq<int>, n: nat, b: nat, done: set<int>, x: int)
    requires NewSlotsOk(s) && RefCountsOk(s, {}) && IndexOk(s, ids, n) && EMPTY !in s.infos
    requires EntriesLoaded(s, t, ids, |ids|) && t.newCount == n
    requires TableLoaded(s, t, b, done) && RefsLoaded(s, t, ids, n, b, done)
    requires b < NEW_BUCKET_COUNT && x in s.infos && x !in done
    requires b in Holding(s.h, s.key, s.newTable, s.infos[x].service, x)
    ensures var j := FileIndex(s, x); var slot := NewSlot(s.h, s.key, b, s.infos[x].service);
      && j < n && ids[j] == x && j in t.infos && t.infos[j].service == s.infos[x].service
      && InsertIndex(t, b, j, true) == AddReference(t, j, slot)
  {
    var j := FileIndex(s, x);
    var held := Holding(s.h, s.key, s.newTable, s.infos[x].service, x);
    var slot := NewSlot(s.h, s.key, b, s.infos[x].service);
    assert At(s.newTable, slot) == x && !s.infos[x].inTried;
    assert t.infos[j].(refCount := 0).service == t.infos[j].service;
    assert Below(held, b) <= held - {b};
    SubsetCardinality(Below(held, b), held - {b});
    CardinalityRemove(held, b);
  }

  lemma AddedTable(s: State, t: State, ids: seq<int>, n: nat, b: nat, done: set<int>, x: int)
    requires NewSlotsOk(s) && TableLoaded(s, t, b, done) && x in s.infos && x != EMPTY && FileIndex(s, x) in t.infos
    requires b in Holding(s.h, s.key, s.newTable, s.infos[x].service, x)
    ensures TableLoaded(s, AddReference(t, FileIndex(s, x), NewSlot(s.h, s.key, b, s.infos[x].service)), b, done + {x})
  {
    var slot := NewSlot(s.h, s.key, b, s.infos[x].service);
    var u := AddReference(t, FileIndex(s, x), slot);
    forall q: Slot
      ensures At(u.newTable, q) ==
        if At(s.newTable, q) != EMPTY && (q.0 < b || (q.0 == b && At(s.newTable, q) in done + {x}))
        then FileIndex(s, At(s.newTable, q)) else EMPTY
    {
      if q.0 == b && At(s.newTable, q) == x { assert q == slot; }
    }
  }

  lemma AddedRefs(s: State, t: State, ids: seq<int>, n: nat, b: nat, done: set<int>, x: int, slot: Slot)
    requires IndexOk(s, ids, n) && RefsLoaded(s, t, ids, n, b, done) && x in s.infos && x !in done
    requires FileIndex(s, x) < n && ids[FileIndex(s, x)] == x
    ensures RefsLoaded(s, AddReference(t, FileIndex(s, x), slot), ids, n, b, done + {x})
  {
  }

  lemma AddedEntries(s: State, t: State, ids: seq<int>, j: int, slot: Slot)
    requires EntriesLoaded(s, t, ids, |ids|) && j in t.infos
    ensures EntriesLoaded(s, AddReference(t, j, slot), ids, |ids|)
  {
  }

  /** Everything that holds while the buckets are read. */
  ghost predicate Loading(s: State, t: State, ids: seq<int>, n: nat, b: nat, done: set<int>) {
    && EntriesLoaded(s, t, ids, |ids|) && TriedLoaded(s, t, ids, n, |ids|)
    && TableLoaded(s, t, b, done) && RefsLoaded(s, t, ids, n, b, done)
    && t.newCount == n && t.nextId == |ids| && t.triedCount == |ids| - n
  }

  /** What the saved manager provides for reading the buckets back. */
  ghost predicate Saveable(s: State, ids: seq<int>, n: nat) {
    NewSlotsOk(s) && RefCountsOk(s, {}) && IndexOk(s, ids, n) && EMPTY !in s.infos
  }

  lemma IndexLoads(s: State, t: State, ids: seq<int>, n: nat, b: nat, done: set<int>, x: int)
    requires Saveable(s, ids, n) && Loading(s, t, ids, n, b, done) && b < NEW_BUCKET_COUNT
    requires x !in done && x in Occupants(s.newTable, b, BUCKET_SIZE)
    ensures Loading(s, InsertIndex(t, b, FileIndex(s, x), true), ids, n, b, done + {x})
  {
    OccupantsHold(s, b, x);
    IndexAdds(s, t, ids, n, b, done, x);
    var slot := NewSlot(s.h, s.key, b, s.infos[x].service);
    AddedTable(s, t, ids, n, b, done, x);
    AddedRefs(s, t, ids, n, b, done, x, slot);
    AddedEntries(s, t, ids, FileIndex(s, x), slot);
  }

  function Elements(q: seq<int>): set<int> {
    set x | x in q
  }

  lemma IndicesHead(s: State, occ: seq<int>, m: nat, rest: seq<Token>)
    requires m < |occ|
    ensures var toks := Indices(s, occ[m..]) + rest;
            |toks| > 0 && toks[0] == Number(FileIndex(s, occ[m])) && toks[1..] == Indices(s, occ[m + 1..]) + rest
    ensures Elements(occ[..m + 1]) == Elements(occ[..m]) + {occ[m]}
  {
    var toks := Indices(s, occ[m..]) + rest;
    assert toks[1..] == Indices(s, occ[m + 1..]) + rest;
    assert occ[..m + 1] == occ[..m] + [occ[m]];
  }

  lemma {:induction false} IndicesLoad(s: State, t: State, ids: seq<int>, n: nat, b: nat, m: nat, rest: seq<Token>)
    requires Saveable(s, ids, n) && b < NEW_BUCKET_COUNT
    requires var occ := Occupants(s.newTable, b, BUCKET_SIZE);
      m <= |occ| && Distinct(occ) && Loading(s, t, ids, n, b, Elements(occ[..m]))
    ensures var occ := Occupants(s.newTable, b, BUCKET_SIZE);
      var r := ReadIndices(t, Indices(s, occ[m..]) + rest, b, m, |occ|, true);
      r.Read? && r.rest == rest && Loading(s, r.state, ids, n, b, Elements(occ))
    decreases |Occupants(s.newTable, b, BUCKET_SIZE)| - m
  {
    var occ := Occupants(s.newTable, b, BUCKET_SIZE);
    var toks := Indices(s, occ[m..]) + rest;
    if m == |occ| {
      assert toks == rest;
      assert occ[..m] == occ;
    } else {
      IndicesHead(s, occ, m, rest);
      IndexLoads(s, t, ids, n, b, Elements(occ[..m]), occ[m]);
      IndicesLoad(s, InsertIndex(t, b, FileIndex(s, occ[m]), true), ids, n, b, m + 1, rest);
    }
  }

  /** Once all of bucket `b` is loaded, the next bucket starts from nothing. */
  lemma NextBucket(s: State, t: State, ids: seq<int>, n: nat, b: nat)
    requires Saveable(s, ids, n) && b < NEW_BUCKET_COUNT
    requires Loading(s, t, ids, n, b, Elements(Occupants(s.newTable, b, BUCKET_SIZE)))
    ensures Loading(s, t, ids, n, b + 1, {})
  {
    var occ := Occupants(s.newTable, b, BUCKET_SIZE);
    NextTable(s, t, b, occ);
    NextRefs(s, t, ids, n, b, occ);
  }

  lemma NextTable(s: State, t: State, b: nat, occ: seq<int>)
    requires NewSlotsOk(s) && EMPTY !in s.infos && b < NEW_BUCKET_COUNT && occ == Occupants(s.newTable, b, BUCKET_SIZE)
    requires TableLoaded(s, t, b, Elements(occ))
    ensures TableLoaded(s, t, b + 1, {})
  {
    forall slot: Slot | slot.0 == b && At(s.newTable, slot) != EMPTY ensures At(s.newTable, slot) in Elements(occ) {
      HeldByBucket(s, slot);
      OccupantsHold(s, b, At(s.newTable, slot));
    }
  }

  lemma NextRefs(s: State, t: State, ids: seq<int>, n: nat, b: nat, occ: seq<int>)
    requires NewSlotsOk(s) && EMPTY !in s.infos && b < NEW_BUCKET_COUNT && occ == Occupants(s.newTable, b, BUCKET_SIZE)
    requires RefsLoaded(s, t, ids, n, b, Elements(occ))
    ensures RefsLoaded(s, t, ids, n, b + 1, {})
  {
    forall j | 0 <= j < n
      ensures |Below(HeldBy(s, ids[j]), b + 1)| ==
        |Below(HeldBy(s, ids[j]), b)| + if ids[j] in Elements(occ) then 1 else 0
    {
      BelowNext(HeldBy(s, ids[j]), b);
      OccupantsHold(s, b, ids[j]);
    }
  }

  lemma BucketLoads(s: State, t: State, ids: seq<int>, n: nat, b: nat, rest: seq<Token>)
    requires Saveable(s, ids, n) && b < NEW_BUCKET_COUNT && Loading(s, t, ids, n, b, {})
    ensures var toks := BucketTokens(s, b) + rest;
      && |toks| > 0 && toks[0].Number?
      && var r := ReadIndices(t, toks[1..], b, 0, toks[0].n, true);
         r.Read? && r.rest == rest && Loading(s, r.state, ids, n, b + 1, {})
  {
    var occ := Occupants(s.newTable, b, BUCKET_SIZE);
    var toks := BucketTokens(s, b) + rest;
    OccupantsDistinct(s, b, BUCKET_SIZE);
    assert occ[0..] == occ && occ[..0] == [];
    assert toks[1..] == Indices(s, occ[0..]) + rest;
    assert Elements([]) == {};
    IndicesLoad(s, t, ids, n, b, 0, rest);
    NextBucket(s, ReadIndices(t, toks[1..], b, 0, |occ|, true).state, ids, n, b);
  }

  /** Reading the first of several buckets, with nothing said about its contents. */
  lemma FirstBucket(s: State, t: State, b: nat, end: nat, rest: seq<Token>)
    requires b < end
    ensures var rest' := BucketsFrom(s, b + 1, end) + rest; var toks := BucketTokens(s, b) + rest';
      && BucketsFrom(s, b, end) + rest == toks && toks[0].Number?
      && var r := ReadIndices(t, toks[1..], b, 0, toks[0].n, true);
         r.Read? ==> ReadBuckets(t, toks, b, end, true) == ReadBuckets(r.state, r.rest, b + 1, end, true)
  {
  }

  /** Reading bucket `c` of `s` from state `u` consumes exactly its tokens and carries `p` on. */
  ghost predicate BucketCarried(s: State, u: State, c: nat, after: seq<Token>, p: (State, nat) -> bool) {
    var toks := BucketTokens(s, c) + after;
    var r := ReadIndices(u, toks[1..], c, 0, toks[0].n, true);
    r.Read? && r.rest == after && p(r.state, c + 1)
  }

  ghost predicate BucketsCarry(s: State, end: nat, p: (State, nat) -> bool) {
    forall u: State, c: nat, after: seq<Token> :: c < end && p(u, c) ==> BucketCarried(s, u, c, after, p)
  }

  /** Reading buckets, for any property that each bucket carries on. */
  lemma {:induction false} ReadBucketsInduction(
      s: State, t: State, b: nat, end: nat, rest: seq<Token>, p: (State, nat) -> bool)
    requires b <= end && p(t, b)
    requires BucketsCarry(s, end, p)
    ensures var r := ReadBuckets(t, BucketsFrom(s, b, end) + rest, b, end, true);
      r.Read? && r.rest == rest && p(r.state, end)
    decreases end - b
  {
    if b == end {
      assert BucketsFrom(s, b, end) + rest == rest;
    } else {
      var after := BucketsFrom(s, b + 1, end) + rest;
      var toks := BucketTokens(s, b) + after;
      assert BucketCarried(s, t, b, after, p);
      FirstBucket(s, t, b, end, rest);
      ReadBucketsInduction(s, ReadIndices(t, toks[1..], b, 0, toks[0].n, true).state, b + 1, end, rest, p);
    }
  }

  lemma BucketPhase(s: State, t: State, ids: seq<int>, n: nat, rest: seq<Token>) returns (u: State)
    requires Saveable(s, ids, n) && Loading(s, t, ids, n, 0, {})
    ensures ReadBuckets(t, BucketsFrom(s, 0, NEW_BUCKET_COUNT) + rest, 0, NEW_BUCKET_COUNT, true) == Read(u, rest, 0)
    ensures Loading(s, u, ids, n, NEW_BUCKET_COUNT, {})
  {
    var p := (v: State, c: nat) => Loading(s, v, ids, n, c, {});
    forall v: State, c: nat, after: seq<Token> | c < NEW_BUCKET_COUNT && p(v, c)
      ensures BucketCarried(s, v, c, after, p)
    {
      BucketLoads(s, v, ids, n, c, after);
    }
    assert BucketsCarry(s, NEW_BUCKET_COUNT, p);
    ReadBucketsInduction(s, t, 0, NEW_BUCKET_COUNT, rest, p);
    var r := ReadBuckets(t, BucketsFrom(s, 0, NEW_BUCKET_COUNT) + rest, 0, NEW_BUCKET_COUNT, true);
    ReadBucketsLost(t, BucketsFrom(s, 0, NEW_BUCKET_COUNT) + rest, 0, NEW_BUCKET_COUNT, true);
    u := r.state;
  }

  lemma {:induction false} ReadBucketsLost(t: State, toks: seq<Token>, b: nat, end: int, usable: bool)
    ensures var r := ReadBuckets(t, toks, b, end, usable); r.Read? ==> r.lost == 0
    decreases end - b
  {
    if b < end && |toks| > 0 && toks[0].Number? {
      var r := ReadIndices(t, toks[1..], b, 0, toks[0].n, usable);
      if r.Read? { ReadBucketsLost(r.state, r.rest, b + 1, end, usable); }
    }
  }

  // ---- the loaded manager ----

  /** The renumbering: every entry goes to its place in the file order. */
  function Renumbering(s: State, ids: seq<int>): map<int, int> {
    map id | id in s.infos && id in ids :: PlaceIn(ids, id)
  }

  function PlaceIn(ids: seq<int>, id: int): (k: nat)
    requires id in ids
    ensures k < |ids| && ids[k] == id
  {
    if ids[0] == id then 0 else 1 + PlaceIn(ids[1..], id)
  }

  lemma PlaceIsIndex(ids: seq<int>, k: nat)
    requires Distinct(ids) && k < |ids|
    ensures PlaceIn(ids, ids[k]) == k
  {
  }

  lemma AllListed(s: State)
    requires Consistent(s)
    ensures IndexOk(s, FileOrder(s), s.newCount) && |FileOrder(s)| == s.newCount + s.triedCount
    ensures forall id :: id in s.infos ==> id in FileOrder(s)
    ensures forall j :: 0 <= j < |FileOrder(s)| ==> (s.infos[FileOrder(s)[j]].inTried <==> j >= s.newCount)
  {
    var ids := FileOrder(s);
    var n := |NewUpTo(s, s.nextId)|;
    ListSizes(s);
    FileOrderProps(s);
    NewUpToProps(s, s.nextId);
    forall id | id in s.infos
      ensures id in ids && (!s.infos[id].inTried ==> FileIndex(s, id) < n && ids[FileIndex(s, id)] == id)
    {
      ReferencedIsUntried(s, id);
      if s.infos[id].inTried {
        TriedIndex(s, s.nextId, id);
        assert ids[n + |TriedUpTo(s, id)|] == id;
      } else {
        NewIndex(s, s.nextId, id);
      }
    }
    forall j | 0 <= j < n ensures FileIndex(s, ids[j]) == j {
      assert !s.infos[ids[j]].inTried;
    }
  }

  // ---- the finished load is a renaming ----

  /** `f` numbers the entries of `s` by their place in `ids`. */
  ghost predicate Numbers(s: State, ids: seq<int>, f: map<int, int>) {
    && f.Keys == s.infos.Keys && InjectiveOn(f)
    && (forall j :: 0 <= j < |ids| ==> ids[j] in s.infos)
    && (forall id :: id in f ==> 0 <= f[id] < |ids| && ids[f[id]] == id)
    && (forall j :: 0 <= j < |ids| ==> ids[j] in f && f[ids[j]] == j)
  }

  lemma RenumberingProps(s: State, ids: seq<int>)
    requires Distinct(ids) && (forall j :: 0 <= j < |ids| ==> ids[j] in s.infos)
    requires (forall id :: id in s.infos ==> id in ids)
    ensures Numbers(s, ids, Renumbering(s, ids))
  {
    var f := Renumbering(s, ids);
    forall j | 0 <= j < |ids| ensures ids[j] in f && f[ids[j]] == j {
      PlaceIsIndex(ids, j);
    }
    forall id ensures id in f.Keys <==> id in s.infos.Keys {
      if id in s.infos.Keys { assert id in ids; }
    }
  }

  lemma InfosMatch(s: State, t: State, ids: seq<int>, n: nat, f: map<int, int>)
    requires RefCountsOk(s, {}) && Numbers(s, ids, f) && InfosLoaded(s, t, ids, |ids|)
    requires RefsLoaded(s, t, ids, n, NEW_BUCKET_COUNT, {})
    requires forall j :: 0 <= j < |ids| ==> (s.infos[ids[j]].inTried <==> j >= n)
    ensures forall id :: id in f ==>
      f[id] in t.infos && t.infos[f[id]] == s.infos[id].(lastTry := 0, randomPos := t.infos[f[id]].randomPos)
    ensures forall j :: j in t.infos ==> exists id :: id in f && f[id] == j
  {
    forall id | id in f
      ensures f[id] in t.infos && t.infos[f[id]] == s.infos[id].(lastTry := 0, randomPos := t.infos[f[id]].randomPos)
    {
      var j := f[id];
      assert Below(HeldBy(s, id), NEW_BUCKET_COUNT) == HeldBy(s, id);
      assert t.infos[j].(refCount := 0) == Restored(s.infos[ids[j]], j);
    }
    forall j | j in t.infos ensures exists id :: id in f && f[id] == j {
      assert f[ids[j]] == j;
    }
  }

  lemma AddressesMatch(s: State, t: State, ids: seq<int>, f: map<int, int>)
    requires AddressesOk(s) && Numbers(s, ids, f) && AddressesLoaded(s, t, ids, |ids|)
    ensures forall ip :: ip in s.idOf ==> ip in t.idOf && t.idOf[ip] == Rename(f, s.idOf[ip])
    ensures forall ip :: ip in t.idOf ==> ip in s.idOf
  {
    forall ip | ip in s.idOf ensures ip in t.idOf && t.idOf[ip] == Rename(f, s.idOf[ip]) {
      var id := s.idOf[ip];
      assert id in f && ids[f[id]] == id;
    }
    forall ip | ip in t.idOf ensures ip in s.idOf {
      var id := ids[t.idOf[ip]];
      assert id in s.infos && s.infos[id].service.ip == ip;
    }
  }

  lemma NewTableMatches(s: State, t: State, ids: seq<int>, n: nat, f: map<int, int>)
    requires NewSlotsOk(s) && Numbers(s, ids, f) && IndexOk(s, ids, n) && EMPTY !in s.infos
    requires TableLoaded(s, t, NEW_BUCKET_COUNT, {})
    ensures forall slot: Slot :: At(t.newTable, slot) == Rename(f, At(s.newTable, slot))
  {
    forall slot: Slot ensures At(t.newTable, slot) == Rename(f, At(s.newTable, slot)) {
      var v := At(s.newTable, slot);
      if v != EMPTY {
        assert slot in s.newTable && v in s.infos;
        assert ids[FileIndex(s, v)] == v;
      }
    }
  }

  lemma TriedTableMatches(s: State, t: State, ids: seq<int>, n: nat, f: map<int, int>)
    requires TriedSlotsOk(s) && Numbers(s, ids, f) && EMPTY !in s.infos && TriedLoaded(s, t, ids, n, |ids|)
    requires forall j :: 0 <= j < |ids| ==> (s.infos[ids[j]].inTried <==> j >= n)
    ensures forall slot: Slot :: At(t.triedTable, slot) == Rename(f, At(s.triedTable, slot))
  {
    assert forall j :: n <= j < |ids| ==> At(s.triedTable, TriedSlot(s.h, s.key, s.infos[ids[j]].service)) == ids[j];
    forall slot: Slot ensures At(t.triedTable, slot) == Rename(f, At(s.triedTable, slot)) {
      var v := At(s.triedTable, slot);
      if v != EMPTY {
        assert slot in s.triedTable && v in s.infos;
        assert ids[f[v]] == v;
      }
    }
  }

  lemma LoadedIsRenamed(s: State, t: State)
    requires Consistent(s) && Saveable(s, FileOrder(s), s.newCount)
    requires Loading(s, t, FileOrder(s), s.newCount, NEW_BUCKET_COUNT, {})
    ensures SameUpToIds(s, t, Renumbering(s, FileOrder(s)))
  {
    var ids := FileOrder(s);
    var f := Renumbering(s, ids);
    AllListed(s);
    RenumberingProps(s, ids);
    InfosMatch(s, t, ids, s.newCount, f);
    AddressesMatch(s, t, ids, f);
    NewTableMatches(s, t, ids, s.newCount, f);
    TriedTableMatches(s, t, ids, s.newCount, f);
  }

  // ---- a renaming keeps the invariant ----

  lemma RenamedAddresses(s: State, t: State, f: map<int, int>)
    requires AddressesOk(s) && SameUpToIds(s, t, f)
    ensures AddressesOk(t)
  {
    forall j | j in t.infos ensures t.infos[j].service.ip in t.idOf && t.idOf[t.infos[j].service.ip] == j {
      var id :| id in f && f[id] == j;
      assert s.idOf[s.infos[id].service.ip] == id;
    }
    forall ip | ip in t.idOf ensures t.idOf[ip] in t.infos && t.infos[t.idOf[ip]].service.ip == ip {
      var id := s.idOf[ip];
      assert id in f && t.idOf[ip] == f[id];
    }
  }

  lemma RenamedNewSlots(s: State, t: State, f: map<int, int>)
    requires NewSlotsOk(s) && SameUpToIds(s, t, f) && EMPTY !in s.infos
    ensures NewSlotsOk(t)
  {
    forall slot: Slot | slot in t.newTable && t.newTable[slot] != EMPTY
      ensures t.newTable[slot] in t.infos && !t.infos[t.newTable[slot]].inTried && slot.0 < NEW_BUCKET_COUNT
        && slot == NewSlot(t.h, t.key, slot.0, t.infos[t.newTable[slot]].service)
    {
      var id := At(s.newTable, slot);
      assert At(t.newTable, slot) == Rename(f, id) && id in f && slot in s.newTable;
    }
  }

  lemma RenamedTriedSlots(s: State, t: State, f: map<int, int>)
    requires TriedSlotsOk(s) && SameUpToIds(s, t, f) && EMPTY !in s.infos
    ensures TriedSlotsOk(t)
  {
    forall slot: Slot | slot in t.triedTable && t.triedTable[slot] != EMPTY
      ensures t.triedTable[slot] in t.infos && t.infos[t.triedTable[slot]].inTried
        && slot == TriedSlot(t.h, t.key, t.infos[t.triedTable[slot]].service)
    {
      var id := At(s.triedTable, slot);
      assert At(t.triedTable, slot) == Rename(f, id) && id in f;
    }
    forall j | j in t.infos && t.infos[j].inTried
      ensures At(t.triedTable, TriedSlot(t.h, t.key, t.infos[j].service)) == j
    {
      var id :| id in f && f[id] == j;
      assert At(s.triedTable, TriedSlot(s.h, s.key, s.infos[id].service)) == id;
    }
  }

  lemma RenamedHolding(s: State, t: State, f: map<int, int>, id: int)
    requires SameUpToIds(s, t, f) && id in f && f[id] != EMPTY && EMPTY !in s.infos
    ensures Holding(t.h, t.key, t.newTable, s.infos[id].service, f[id]) == HeldBy(s, id)
  {
    forall b: nat | b < NEW_BUCKET_COUNT
      ensures At(t.newTable, NewSlot(s.h, s.key, b, s.infos[id].service)) == f[id]
        <==> At(s.newTable, NewSlot(s.h, s.key, b, s.infos[id].service)) == id
    {
      assert At(t.newTable, NewSlot(s.h, s.key, b, s.infos[id].service))
        == Rename(f, At(s.newTable, NewSlot(s.h, s.key, b, s.infos[id].service)));
    }
  }

  lemma RenamedRefCounts(s: State, t: State, f: map<int, int>)
    requires RefCountsOk(s, {}) && SameUpToIds(s, t, f)
    requires forall j :: j in t.infos ==> 0 <= j < t.nextId
    ensures RefCountsOk(t, {})
  {
    forall j | j in t.infos
      ensures t.infos[j].refCount == |Holding(t.h, t.key, t.newTable, t.infos[j].service, j)|
        && (if t.infos[j].inTried then t.infos[j].refCount == 0
            else 1 <= t.infos[j].refCount <= NEW_BUCKETS_PER_ADDRESS)
    {
      var id :| id in f && f[id] == j;
      RenamedHolding(s, t, f, id);
    }
  }

  lemma {:induction false} RangeCardinality(q: set<int>, lo: int, hi: int)
    requires lo <= hi && forall j :: j in q <==> lo <= j < hi
    ensures |q| == hi - lo
    decreases hi - lo
  {
    if lo == hi {
      assert forall j :: j !in q;
    } else {
      RangeCardinality(q - {hi - 1}, lo, hi - 1);
      CardinalityRemove(q, hi - 1);
    }
  }

  lemma LoadedOrder(s: State, t: State, ids: seq<int>)
    requires InfosLoaded(s, t, ids, |ids|)
    ensures OrderOk(t)
  {
    forall j | 0 <= j < |ids| ensures t.infos[j].randomPos == j {
      assert t.infos[j].(refCount := 0).randomPos == j;
    }
  }

  lemma LoadedCounts(s: State, t: State, ids: seq<int>, n: nat)
    requires InfosLoaded(s, t, ids, |ids|) && n <= |ids|
    requires forall j :: 0 <= j < |ids| ==> (s.infos[ids[j]].inTried <==> j >= n)
    ensures |NewIds(t)| == n && |TriedIds(t)| == |ids| - n
  {
    forall j | 0 <= j < |ids| ensures t.infos[j].inTried <==> j >= n {
      assert t.infos[j].(refCount := 0).inTried == t.infos[j].inTried;
    }
    RangeCardinality(NewIds(t), 0, n);
    RangeCardinality(TriedIds(t), n, |ids|);
  }

  lemma LoadedIsConsistent(s: State, t: State)
    requires Consistent(s) && Saveable(s, FileOrder(s), s.newCount)
    requires Loading(s, t, FileOrder(s), s.newCount, NEW_BUCKET_COUNT, {})
    ensures Consistent(t)
  {
    var ids := FileOrder(s);
    var f := Renumbering(s, ids);
    AllListed(s);
    LoadedIsRenamed(s, t);
    LoadedOrder(s, t, ids);
    LoadedCounts(s, t, ids, s.newCount);
    RenamedAddresses(s, t, f);
    RenamedNewSlots(s, t, f);
    RenamedTriedSlots(s, t, f);
    RenamedRefCounts(s, t, f);
  }

  // ---- the round trip ----

  /** Nothing is pruned from a consistent manager. */
  lemma {:induction false} PrunesNothing(t: State, id: int, end: int)
    requires OrderOk(t) && RefCountsOk(t, {})
    ensures Pruned(t, id, end) == t
    decreases end - id
  {
    if id < end { PrunesNothing(t, id + 1, end); }
  }

  lemma BlankIsLoading(s: State, t: State, ids: seq<int>, n: nat)
    requires EntriesLoaded(s, t, ids, |ids|) && TriedLoaded(s, t, ids, n, |ids|) && ZeroRefs(t) && t.newTable == map[]
    requires t.newCount == n && t.nextId == |ids| && t.triedCount == |ids| - n
    ensures Loading(s, t, ids, n, 0, {})
  {
    forall j | 0 <= j < |ids| ensures j in t.infos && |Below(HeldBy(s, ids[j]), 0)| == 0 {
      assert Below(HeldBy(s, ids[j]), 0) == {};
    }
  }

  /** A fresh manager into which `n` untried and |ids| - n tried entries are read. */
  function Opened(s: State, ids: seq<int>, n: nat): State {
    Initial(s.h, s.key).(newCount := n, triedCount := |ids| - n)
  }

  lemma NothingLoaded(s: State, ids: seq<int>, n: nat)
    requires (forall j :: 0 <= j < |ids| ==> ids[j] in s.infos)
    ensures UntriedStage(s, Opened(s, ids, n), ids, n, 0)
  {
  }

  lemma NewPhase(s: State, ids: seq<int>, n: nat, rest: seq<Token>) returns (u: State)
    requires AddressesOk(s) && Distinct(ids) && n <= |ids| && forall j :: 0 <= j < |ids| ==> ids[j] in s.infos
    requires forall j :: 0 <= j < n ==> !s.infos[ids[j]].inTried
    ensures var r := ReadNew(Opened(s, ids, n), Entries(s, ids[..n]) + rest, 0, n, true);
      r.Read? && r.rest == rest && r.state.(nextId := n) == u
    ensures TriedStage(s, u, ids, n, n)
  {
    var t := Opened(s, ids, n);
    NothingLoaded(s, ids, n);
    assert ids[0..n] == ids[..n];
    ReadNewLoads(s, t, ids, 0, n, rest);
    u := ReadNew(t, Entries(s, ids[..n]) + rest, 0, n, true).state.(nextId := n);
  }

  lemma ConcatShape<T>(a: seq<T>, b: seq<T>, c: seq<T>, d: seq<T>)
    ensures (a + b + c + d)[|a|..] == b + (c + (d + []))
    ensures (a + b + c + d)[..|a|] == a
  {
  }

  lemma SavedShape(s: State)
    requires Linked(s, {})
    ensures var ids := FileOrder(s); var n := |NewUpTo(s, s.nextId)|; var toks := Saved(s);
      && (forall k :: 0 <= k < |ids| ==> ids[k] in s.infos)
      && |toks| >= 6 && toks[..6] == Header(s)
      && toks[6..] == Entries(s, ids[..n]) + (Entries(s, ids[n..]) + (BucketsFrom(s, 0, NEW_BUCKET_COUNT) + []))
  {
    var n := |NewUpTo(s, s.nextId)|;
    UpToKnown(s, s.nextId);
    FileOrderProps(s);
    var ids := FileOrder(s);
    assert ids[..n] == NewUpTo(s, s.nextId) && ids[n..] == TriedUpTo(s, s.nextId);
    ConcatShape(Header(s), Entries(s, NewUpTo(s, s.nextId)), Entries(s, TriedUpTo(s, s.nextId)),
      BucketsFrom(s, 0, NEW_BUCKET_COUNT));
  }

  lemma HeaderReads(s: State, toks: seq<Token>)
    requires |toks| >= 6 && toks[..6] == Header(s)
    ensures HeaderOk(toks) && toks[0].b == 1 && toks[2].key == s.key
    ensures toks[3].n == s.newCount && toks[4].n == s.triedCount
    ensures StoredBuckets(toks[0].b, toks[5].n) == NEW_BUCKET_COUNT
  {
    assert forall k :: 0 <= k < 6 ==> toks[k] == toks[..6][k];
  }

  /** The orders of the random list are in order after each phase. */
  lemma PhasesNumbered(s0: State, toks: seq<Token>, usable: bool, t1: State, t2: State,
      rest1: seq<Token>, rest2: seq<Token>)
    requires Blank(s0)
    requires var r := ReadNew(s0, toks, 0, s0.newCount, usable); r.Read? && r.state.(nextId := s0.newCount) == t1
    requires ReadTried(t1, rest1, 0, s0.triedCount, 0) == Read(t2, rest2, 0)
    ensures Numbered(t1, t1.nextId) && OrderOk(t2)
  {
    ReadNewNumbered(s0, toks, 0, s0.newCount, usable);
    ReadTriedNumbered(t1, rest1, 0, s0.triedCount, 0);
  }

  /** `LoadNew` on a body whose phases are known. */
  lemma LoadPhases(s0: State, toks: seq<Token>, usable: bool, t1: State, t2: State, t3: State,
      rest1: seq<Token>, rest2: seq<Token>)
    requires Blank(s0) && Numbered(t1, t1.nextId) && OrderOk(t2) && OrderOk(t3)
    requires var r := ReadNew(s0, toks, 0, s0.newCount, usable);
      r.Read? && r.rest == rest1 && r.state.(nextId := s0.newCount) == t1
    requires ReadTried(t1, rest1, 0, s0.triedCount, 0) == Read(t2, rest2, 0)
    requires t1.triedCount == t2.triedCount == s0.triedCount
    requires ReadBuckets(t2, rest2, 0, NEW_BUCKET_COUNT, usable) == Read(t3, [], 0)
    ensures LoadNew(s0, toks, NEW_BUCKET_COUNT, usable) == Read(Pruned(t3, 0, t3.nextId), [], 0)
  {
    LoadTriedIs(t1, rest1, t2, rest2, t3, usable);
    LoadNewIs(s0, toks, t1, rest1, usable);
  }

  lemma LoadTriedIs(t1: State, rest1: seq<Token>, t2: State, rest2: seq<Token>, t3: State, usable: bool)
    requires Numbered(t1, t1.nextId) && OrderOk(t2) && OrderOk(t3) && t2.triedCount == t1.triedCount
    requires AddrManStore.ReadTried(t1, rest1, 0, t1.triedCount, 0) == Read(t2, rest2, 0)
    requires ReadBuckets(t2, rest2, 0, NEW_BUCKET_COUNT, usable) == Read(t3, [], 0)
    ensures LoadTried(t1, rest1, NEW_BUCKET_COUNT, usable) == Read(Pruned(t3, 0, t3.nextId), [], 0)
  {
    assert t2.(triedCount := t1.triedCount - 0) == t2;
  }

  lemma LoadNewIs(s0: State, toks: seq<Token>, t1: State, rest1: seq<Token>, usable: bool)
    requires Blank(s0) && Numbered(t1, t1.nextId)
    requires var r := AddrManStore.ReadNew(s0, toks, 0, s0.newCount, usable);
      r.Read? && r.rest == rest1 && r.state.(nextId := s0.newCount) == t1
    ensures LoadNew(s0, toks, NEW_BUCKET_COUNT, usable) == LoadTried(t1, rest1, NEW_BUCKET_COUNT, usable)
  {
  }

  /** Saving any consistent manager and loading the file into a fresh one succeeds, reads the
      whole file, loses nothing, and gives the same manager up to the numbering of entries. */
  lemma SaveLoadRoundTrip(s: State)
    requires Consistent(s)
    ensures var r := Load(s.h, Saved(s));
      && r.Read? && r.rest == [] && r.lost == 0
      && Consistent(r.state)
      && SameUpToIds(s, r.state, Renumbering(s, FileOrder(s)))
  {
    var t3 := SavedFileLoads(s);
    LoadedIsRenamed(s, t3);
    LoadedIsConsistent(s, t3);
    PrunesNothing(t3, 0, t3.nextId);
  }

  /** The reading loops for the tried entries and the buckets of a saved file. */
  lemma LastPhases(s: State, t1: State, ids: seq<int>, n: nat, rest1: seq<Token>, rest2: seq<Token>)
      returns (t2: State, t3: State)
    requires AddressesOk(s) && TriedSlotsOk(s) && Saveable(s, ids, n) && TriedStage(s, t1, ids, n, n)
    requires forall j :: n <= j < |ids| ==> s.infos[ids[j]].inTried
    requires rest2 == BucketsFrom(s, 0, NEW_BUCKET_COUNT) + [] && rest1 == Entries(s, ids[n..]) + rest2
    ensures ReadTried(t1, rest1, 0, |ids| - n, 0) == Read(t2, rest2, 0) && t2.triedCount == |ids| - n
    ensures ReadBuckets(t2, rest2, 0, NEW_BUCKET_COUNT, true) == Read(t3, [], 0)
    ensures Loading(s, t3, ids, n, NEW_BUCKET_COUNT, {})
  {
    t2 := TriedPhase(s, t1, ids, n, rest2);
    BlankIsLoading(s, t2, ids, n);
    t3 := BucketPhase(s, t2, ids, n, []);
  }

  /** A header for `n` untried entries among |ids|; bucket data of version 1 only is usable. */
  ghost predicate FileHeader(s: State, ids: seq<int>, n: nat, toks: seq<Token>, usable: bool) {
    && HeaderOk(toks) && (usable <==> toks[0].b == 1) && StoredBuckets(toks[0].b, toks[5].n) == NEW_BUCKET_COUNT
    && toks[2].key == s.key && toks[3].n == n && toks[4].n == |ids| - n
  }

  /** The state the entries are read into. */
  lemma HeaderOpens(s: State, ids: seq<int>, n: nat, toks: seq<Token>, usable: bool)
    requires FileHeader(s, ids, n, toks, usable)
    ensures Blank(Opened(s, ids, n))
    ensures Load(s.h, toks) == LoadNew(Opened(s, ids, n), toks[6..], NEW_BUCKET_COUNT, usable)
  {
    var s0 := Initial(s.h, toks[2].key).(newCount := toks[3].n, triedCount := toks[4].n);
    assert s0 == Opened(s, ids, n);
    LoadOpens(s.h, toks, s0, usable);
  }

  lemma LoadOpens(h: Hasher, toks: seq<Token>, s0: State, usable: bool)
    requires HeaderOk(toks) && (usable <==> toks[0].b == 1) && StoredBuckets(toks[0].b, toks[5].n) == NEW_BUCKET_COUNT
    requires s0 == Initial(h, toks[2].key).(newCount := toks[3].n, triedCount := toks[4].n)
    ensures Blank(s0) && Load(h, toks) == LoadNew(s0, toks[6..], NEW_BUCKET_COUNT, usable)
  {
  }

  /** `Load` on a file whose header and phases are known. */
  lemma PhasesLoad(s: State, ids: seq<int>, n: nat, toks: seq<Token>, usable: bool, t1: State, t2: State, t3: State,
      rest1: seq<Token>, rest2: seq<Token>)
    requires FileHeader(s, ids, n, toks, usable) && n <= |ids|
    requires var r := ReadNew(Opened(s, ids, n), toks[6..], 0, n, usable);
      r.Read? && r.rest == rest1 && r.state.(nextId := n) == t1
    requires t1.triedCount == t2.triedCount == |ids| - n
    requires ReadTried(t1, rest1, 0, |ids| - n, 0) == Read(t2, rest2, 0)
    requires ReadBuckets(t2, rest2, 0, NEW_BUCKET_COUNT, usable) == Read(t3, [], 0) && OrderOk(t3)
    ensures Load(s.h, toks) == Read(Pruned(t3, 0, t3.nextId), [], 0)
  {
    HeaderOpens(s, ids, n, toks, usable);
    PhasesNumbered(Opened(s, ids, n), toks[6..], usable, t1, t2, rest1, rest2);
    LoadPhases(Opened(s, ids, n), toks[6..], usable, t1, t2, t3, rest1, rest2);
  }

  lemma FileLoads(s: State, ids: seq<int>, n: nat, toks: seq<Token>) returns (t3: State)
    requires AddressesOk(s) && TriedSlotsOk(s) && Saveable(s, ids, n)
    requires forall j :: 0 <= j < |ids| ==> (s.infos[ids[j]].inTried <==> j >= n)
    requires FileHeader(s, ids, n, toks, true)
    requires toks[6..] == Entries(s, ids[..n]) + (Entries(s, ids[n..]) + (BucketsFrom(s, 0, NEW_BUCKET_COUNT) + []))
    ensures Loading(s, t3, ids, n, NEW_BUCKET_COUNT, {})
    ensures OrderOk(t3) && Load(s.h, toks) == Read(Pruned(t3, 0, t3.nextId), [], 0)
  {
    var rest2 := BucketsFrom(s, 0, NEW_BUCKET_COUNT) + [];
    var rest1 := Entries(s, ids[n..]) + rest2;
    var t1 := NewPhase(s, ids, n, rest1);
    var t2;
    t2, t3 := LastPhases(s, t1, ids, n, rest1, rest2);
    LoadedOrder(s, t3, ids);
    PhasesLoad(s, ids, n, toks, true, t1, t2, t3, rest1, rest2);
  }

  lemma SavedFileLoads(s: State) returns (t3: State)
    requires Consistent(s)
    ensures Saveable(s, FileOrder(s), s.newCount) && Loading(s, t3, FileOrder(s), s.newCount, NEW_BUCKET_COUNT, {})
    ensures OrderOk(t3) && Load(s.h, Saved(s)) == Read(Pruned(t3, 0, t3.nextId), [], 0)
  {
    AllListed(s);
    ListSizes(s);
    SavedShape(s);
    HeaderReads(s, Saved(s));
    t3 := FileLoads(s, FileOrder(s), s.newCount, Saved(s));
  }
}
