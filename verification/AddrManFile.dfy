/** Writing an address manager to a stream and filling a new one from it, loop by loop
    (src/addrman.h:280-426). */
module AddrManFile {
  import opened AddrManState
  import opened AddrManInvariant
  import opened AddrManOps
  import opened AddrManStore
  import opened AddrManRoundTrip
  import opened AddrMan

  // ---- Writing ----

  /** The file index of every entry up to `n`. */
  ghost predicate IndexedUpTo(s: State, index: map<int, int>, n: nat) {
    forall i :: 0 <= i < n && i in s.infos ==> i in index && index[i] == FileIndex(s, i)
  }

  ghost predicate KnownIds(s: State, ids: seq<int>) {
    forall k :: 0 <= k < |ids| ==> ids[k] in s.infos
  }

  lemma EntriesGrow(s: State, ids: seq<int>, id: int)
    requires KnownIds(s, ids) && id in s.infos
    ensures KnownIds(s, ids + [id])
    ensures Entries(s, ids + [id]) == Entries(s, ids) + [Entry(RecordOf(s.infos[id]))]
  {
  }

  /** The referenced entries, numbered as they are written; the counter does not reach nNew while
      there is one left to write (src/addrman.h:294-304). */
  method WriteNewEntries(infos: map<int, Info>, nextId: nat, newCount: int, ghost s: State)
    returns (toks: seq<Token>, index: map<int, int>)
    requires s.infos == infos && s.nextId == nextId && newCount == |NewUpTo(s, nextId)|
    ensures KnownIds(s, NewUpTo(s, nextId)) && toks == Entries(s, NewUpTo(s, nextId))
    ensures IndexedUpTo(s, index, nextId)
  {
    toks, index := [], map[];
    var count := 0;
    for id := 0 to nextId
      invariant KnownIds(s, NewUpTo(s, id))
      invariant toks == Entries(s, NewUpTo(s, id)) && count == |NewUpTo(s, id)|
      invariant IndexedUpTo(s, index, id)
    {
      if id in infos {
        index := index[id := count];
        if infos[id].refCount != 0 {
          NewIndex(s, nextId, id);
          assert count != newCount;
          EntriesGrow(s, NewUpTo(s, id), id);
          toks := toks + [Entry(RecordOf(infos[id]))];
          count := count + 1;
        }
      }
    }
  }

  /** src/addrman.h:305-313 */
  method WriteTriedEntries(infos: map<int, Info>, nextId: nat, triedCount: int, ghost s: State)
    returns (toks: seq<Token>)
    requires s.infos == infos && s.nextId == nextId && triedCount == |TriedUpTo(s, nextId)|
    ensures KnownIds(s, TriedUpTo(s, nextId)) && toks == Entries(s, TriedUpTo(s, nextId))
  {
    toks := [];
    var count := 0;
    for id := 0 to nextId
      invariant KnownIds(s, TriedUpTo(s, id))
      invariant toks == Entries(s, TriedUpTo(s, id)) && count == |TriedUpTo(s, id)|
    {
      if id in infos && infos[id].inTried {
        TriedIndex(s, nextId, id);
        assert count != triedCount;
        EntriesGrow(s, TriedUpTo(s, id), id);
        toks := toks + [Entry(RecordOf(infos[id]))];
        count := count + 1;
      }
    }
  }

  lemma IndicesGrow(s: State, ids: seq<int>, id: int)
    ensures Indices(s, ids + [id]) == Indices(s, ids) + [Number(FileIndex(s, id))]
  {
  }

  /** The slots of a new bucket. */
  ghost predicate IsRow(s: State, b: nat, row: seq<int>) {
    |row| == BUCKET_SIZE && forall p: nat :: p < BUCKET_SIZE ==> row[p] == At(s.newTable, (b, p))
  }

  method ReadRow(m: Manager, b: nat) returns (row: seq<int>)
    requires m.Shaped() && b < NEW_BUCKET_COUNT
    ensures IsRow(m.Abs(), b, row)
  {
    row := seq(BUCKET_SIZE, p
      requires 0 <= p < BUCKET_SIZE && m.Shaped()
      reads m, m.newTable, m.triedTable => m.ReadNew((b, p)));
  }

  method BucketSize(row: seq<int>, ghost s: State, ghost b: nat) returns (size: nat)
    requires IsRow(s, b, row)
    ensures size == |Occupants(s.newTable, b, BUCKET_SIZE)|
  {
    size := 0;
    for p := 0 to BUCKET_SIZE
      invariant size == |Occupants(s.newTable, b, p)|
    {
      if row[p] != EMPTY {
        size := size + 1;
      }
    }
  }

  /** One bucket: its size, then the indices of its occupants (src/addrman.h:314-327). */
  method WriteBucket(row: seq<int>, index: map<int, int>, ghost s: State, ghost b: nat) returns (toks: seq<Token>)
    requires IsRow(s, b, row)
    requires forall p: nat :: p < BUCKET_SIZE && row[p] != EMPTY ==>
      row[p] in index && index[row[p]] == FileIndex(s, row[p])
    ensures toks == BucketTokens(s, b)
  {
    var size := BucketSize(row, s, b);
    toks := [];
    for p := 0 to BUCKET_SIZE
      invariant toks == Indices(s, Occupants(s.newTable, b, p))
    {
      if row[p] != EMPTY {
        IndicesGrow(s, Occupants(s.newTable, b, p), row[p]);
        toks := toks + [Number(index[row[p]])];
      }
    }
    toks := [Number(size)] + toks;
  }

  lemma BucketsGrow(s: State, b: nat, end: nat, last: nat)
    requires b <= end && last == end + 1
    ensures BucketsFrom(s, b, last) == BucketsFrom(s, b, end) + BucketTokens(s, end)
    decreases end - b
  {
    if b < end {
      BucketsGrow(s, b + 1, end, last);
    } else {
      assert BucketsFrom(s, last, last) == [];
      assert BucketTokens(s, end) + [] == BucketTokens(s, end);
    }
  }

  lemma OccupantsIndexed(s: State, index: map<int, int>, b: nat, row: seq<int>)
    requires NewSlotsOk(s) && RefCountsOk(s, {}) && 0 <= s.nextId && IndexedUpTo(s, index, s.nextId) && IsRow(s, b, row)
    ensures forall p: nat :: p < BUCKET_SIZE && row[p] != EMPTY ==>
      row[p] in index && index[row[p]] == FileIndex(s, row[p])
  {
    forall p: nat | p < BUCKET_SIZE && row[p] != EMPTY
      ensures row[p] in index && index[row[p]] == FileIndex(s, row[p])
    {
      OccupantIsReferenced(s, (b, p), {});
      ReferencedIsUntried(s, row[p]);
    }
  }

  method WriteBuckets(m: Manager, index: map<int, int>) returns (toks: seq<Token>)
    requires m.Shaped() && NewSlotsOk(m.Abs()) && RefCountsOk(m.Abs(), {}) && 0 <= m.nextId
    requires IndexedUpTo(m.Abs(), index, m.nextId)
    ensures toks == BucketsFrom(m.Abs(), 0, NEW_BUCKET_COUNT)
  {
    ghost var s := m.Abs();
    toks := [];
    for b := 0 to NEW_BUCKET_COUNT
      invariant toks == BucketsFrom(s, 0, b)
    {
      var row := ReadRow(m, b);
      OccupantsIndexed(s, index, b, row);
      BucketsGrow(s, 0, b, b + 1);
      var bucket := WriteBucket(row, index, s, b);
      toks := toks + bucket;
    }
  }

  /** src/addrman.h:280-328 */
  method Serialize(m: Manager) returns (toks: seq<Token>)
    requires m.Valid()
    ensures 0 <= m.nextId && toks == Saved(m.Abs())
  {
    ListSizes(m.Abs());
    toks := WriteAll(m);
  }

  method WriteAll(m: Manager) returns (toks: seq<Token>)
    requires m.Shaped() && NewSlotsOk(m.Abs()) && RefCountsOk(m.Abs(), {}) && 0 <= m.nextId
    requires |NewUpTo(m.Abs(), m.nextId)| == m.newCount && |TriedUpTo(m.Abs(), m.nextId)| == m.triedCount
    ensures toks == Saved(m.Abs())
  {
    var header := [Byte(1), Byte(32), KeyToken(m.key), Number(m.newCount), Number(m.triedCount),
                   Number(NEW_BUCKET_COUNT + BUCKET_MARK)];
    var news, index := WriteNewEntries(m.infos, m.nextId, m.newCount, m.Abs());
    var tried := WriteTriedEntries(m.infos, m.nextId, m.triedCount, m.Abs());
    var buckets := WriteBuckets(m, index);
    toks := header + news + tried + buckets;
  }

  // ---- Reading ----

  /** src/addrman.h:352-367 */
  method InsertNewEntry(m: Manager, n: int, r: Record, usable: bool)
    requires m.Shaped()
    modifies m, m.newTable
    ensures m.Shaped() && m.Abs() == InsertNew(old(m.Abs()), n, r, usable)
  {
    var i := InfoOf(r).(randomPos := |m.order|);
    m.infos := m.infos[n := i];
    m.idOf := m.idOf[i.service.ip := n];
    m.order := m.order + [n];
    if !usable {
      var slot := NewSlot(m.h, m.key, NewBucket(m.h, m.key, i.service, i.source), i.service);
      if m.ReadNew(slot) == EMPTY {
        m.Reference(n, slot);
      }
    }
  }

  method ReadNewEntries(m: Manager, toks: seq<Token>, end: int, usable: bool) returns (ok: bool, rest: seq<Token>)
    requires m.Shaped()
    modifies m, m.newTable
    ensures m.Shaped()
    ensures ok ==> AddrManStore.ReadNew(old(m.Abs()), toks, 0, end, usable) == Read(m.Abs(), rest, 0)
    ensures !ok ==> AddrManStore.ReadNew(old(m.Abs()), toks, 0, end, usable) == Failed
  {
    rest := toks;
    var n := 0;
    while n < end
      invariant m.Shaped() && n >= 0
      invariant AddrManStore.ReadNew(old(m.Abs()), toks, 0, end, usable) ==
                AddrManStore.ReadNew(m.Abs(), rest, n, end, usable)
    {
      if |rest| == 0 || !rest[0].Entry? {
        return false, rest;
      }
      InsertNewEntry(m, n, rest[0].r, usable);
      rest := rest[1..];
      n := n + 1;
    }
    ok := true;
  }

  /** src/addrman.h:375-388 */
  method InsertTriedEntry(m: Manager, r: Record) returns (kept: bool)
    requires m.Shaped()
    modifies m, m.triedTable
    ensures m.Shaped() && m.Abs() == InsertTried(old(m.Abs()), r) && kept == TriedSlotFree(old(m.Abs()), r)
  {
    var slot := TriedSlot(m.h, m.key, r.service);
    kept := m.ReadTried(slot) == EMPTY;
    if kept {
      ListTriedEntry(m, r);
      m.WriteTried(slot, m.nextId);
      m.nextId := m.nextId + 1;
    }
  }

  /** The entry, its address and its place in the random order (src/addrman.h:380-384). */
  method ListTriedEntry(m: Manager, r: Record)
    requires m.Shaped()
    modifies m
    ensures m.Shaped()
    ensures var s := old(m.Abs()); m.Abs() == s.(
      infos := s.infos[s.nextId := InfoOf(r).(randomPos := |s.order|, inTried := true)],
      idOf := s.idOf[r.service.ip := s.nextId], order := s.order + [s.nextId])
  {
    var i := InfoOf(r).(randomPos := |m.order|, inTried := true);
    m.order := m.order + [m.nextId];
    m.infos := m.infos[m.nextId := i];
    m.idOf := m.idOf[i.service.ip := m.nextId];
  }

  method ReadTriedEntries(m: Manager, toks: seq<Token>, end: int) returns (ok: bool, rest: seq<Token>, lost: nat)
    requires m.Shaped()
    modifies m, m.triedTable
    ensures m.Shaped()
    ensures ok ==> AddrManStore.ReadTried(old(m.Abs()), toks, 0, end, 0) == Read(m.Abs(), rest, lost)
    ensures !ok ==> AddrManStore.ReadTried(old(m.Abs()), toks, 0, end, 0) == Failed
  {
    rest, lost := toks, 0;
    var n := 0;
    while n < end
      invariant m.Shaped() && n >= 0
      invariant AddrManStore.ReadTried(old(m.Abs()), toks, 0, end, 0) ==
                AddrManStore.ReadTried(m.Abs(), rest, n, end, lost)
    {
      if |rest| == 0 || !rest[0].Entry? {
        return false, rest, lost;
      }
      var kept := InsertTriedEntry(m, rest[0].r);
      lost := if kept then lost else lost + 1;
      rest := rest[1..];
      n := n + 1;
    }
    ok := true;
  }

  /** src/addrman.h:399-406 */
  method InsertIndexEntry(m: Manager, bucket: nat, index: int, usable: bool)
    requires m.Shaped() && (usable ==> bucket < NEW_BUCKET_COUNT)
    modifies m, m.newTable
    ensures m.Shaped() && m.Abs() == InsertIndex(old(m.Abs()), bucket, index, usable)
  {
    if 0 <= index < m.newCount && index in m.infos && usable {
      var slot := NewSlot(m.h, m.key, bucket, m.infos[index].service);
      if m.ReadNew(slot) == EMPTY && m.infos[index].refCount < NEW_BUCKETS_PER_ADDRESS {
        m.Reference(index, slot);
      }
    }
  }

  method ReadBucketIndices(m: Manager, toks: seq<Token>, bucket: nat, size: int, usable: bool)
    returns (ok: bool, rest: seq<Token>)
    requires m.Shaped() && (usable ==> bucket < NEW_BUCKET_COUNT)
    modifies m, m.newTable
    ensures m.Shaped()
    ensures ok ==> ReadIndices(old(m.Abs()), toks, bucket, 0, size, usable) == Read(m.Abs(), rest, 0)
    ensures !ok ==> ReadIndices(old(m.Abs()), toks, bucket, 0, size, usable) == Failed
  {
    rest := toks;
    var n := 0;
    while n < size
      invariant m.Shaped() && n >= 0
      invariant ReadIndices(old(m.Abs()), toks, bucket, 0, size, usable) ==
                ReadIndices(m.Abs(), rest, bucket, n, size, usable)
    {
      if |rest| == 0 || !rest[0].Number? {
        return false, rest;
      }
      InsertIndexEntry(m, bucket, rest[0].n, usable);
      rest := rest[1..];
      n := n + 1;
    }
    ok := true;
  }

  method ReadAllBuckets(m: Manager, toks: seq<Token>, end: int, usable: bool) returns (ok: bool, rest: seq<Token>)
    requires m.Shaped() && (usable ==> end == NEW_BUCKET_COUNT)
    modifies m, m.newTable
    ensures m.Shaped()
    ensures ok ==> ReadBuckets(old(m.Abs()), toks, 0, end, usable) == Read(m.Abs(), rest, 0)
    ensures !ok ==> ReadBuckets(old(m.Abs()), toks, 0, end, usable) == Failed
  {
    rest := toks;
    var bucket := 0;
    while bucket < end
      invariant m.Shaped() && bucket >= 0
      invariant ReadBuckets(old(m.Abs()), toks, 0, end, usable) == ReadBuckets(m.Abs(), rest, bucket, end, usable)
    {
      if |rest| == 0 || !rest[0].Number? {
        return false, rest;
      }
      ok, rest := ReadBucketIndices(m, rest[1..], bucket, rest[0].n, usable);
      if !ok {
        return;
      }
      bucket := bucket + 1;
    }
    ok := true;
  }

  /** Entries left in neither table are deleted (src/addrman.h:410-420). */
  method Prune(m: Manager)
    requires m.Shaped() && OrderOk(m.Abs())
    modifies m
    ensures m.Shaped() && m.Abs() == Pruned(old(m.Abs()), 0, old(m.nextId))
  {
    var end := m.nextId;
    var id := 0;
    while id < end
      invariant m.Shaped() && OrderOk(m.Abs()) && id >= 0
      invariant Pruned(m.Abs(), id, end) == Pruned(old(m.Abs()), 0, end)
    {
      if id in m.infos && !m.infos[id].inTried && m.infos[id].refCount == 0 {
        DeleteOrder(m.Abs(), id);
        m.DeleteEntry(id);
      }
      id := id + 1;
    }
  }

  method FinishBuckets(m: Manager, toks: seq<Token>, buckets: int, usable: bool, ghost lost: nat)
    returns (ok: bool, rest: seq<Token>)
    requires m.Shaped() && OrderOk(m.Abs()) && (usable ==> buckets == NEW_BUCKET_COUNT)
    modifies m, m.newTable
    ensures m.Shaped()
    ensures ok ==> LoadBuckets(old(m.Abs()), toks, buckets, usable, lost) == Read(m.Abs(), rest, lost)
    ensures !ok ==> LoadBuckets(old(m.Abs()), toks, buckets, usable, lost) == Failed
  {
    ReadBucketsOrder(m.Abs(), toks, 0, buckets, usable);
    ok, rest := ReadAllBuckets(m, toks, buckets, usable);
    if ok {
      Prune(m);
    }
  }

  /** The loop over the tried entries and the corrected counter (src/addrman.h:371-390). */
  method TriedStage(m: Manager, toks: seq<Token>, ghost buckets: int, ghost usable: bool)
    returns (ok: bool, rest: seq<Token>, lost: nat)
    requires m.Shaped() && Numbered(m.Abs(), m.nextId)
    modifies m, m.triedTable
    ensures m.Shaped() && (ok ==> OrderOk(m.Abs()))
    ensures ok ==> LoadTried(old(m.Abs()), toks, buckets, usable) == LoadBuckets(m.Abs(), rest, buckets, usable, lost)
    ensures !ok ==> LoadTried(old(m.Abs()), toks, buckets, usable) == Failed
  {
    var triedCount := m.triedCount;
    ReadTriedNumbered(m.Abs(), toks, 0, triedCount, 0);
    ok, rest, lost := ReadTriedEntries(m, toks, triedCount);
    if ok {
      m.triedCount := triedCount - lost;
    }
  }

  method FinishTried(m: Manager, toks: seq<Token>, buckets: int, usable: bool)
    returns (ok: bool, rest: seq<Token>, lost: nat)
    requires m.Shaped() && Numbered(m.Abs(), m.nextId) && (usable ==> buckets == NEW_BUCKET_COUNT)
    modifies m, m.newTable, m.triedTable
    ensures m.Shaped()
    ensures ok ==> LoadTried(old(m.Abs()), toks, buckets, usable) == Read(m.Abs(), rest, lost)
    ensures !ok ==> LoadTried(old(m.Abs()), toks, buckets, usable) == Failed
  {
    ok, rest, lost := TriedStage(m, toks, buckets, usable);
    if ok {
      ok, rest := FinishBuckets(m, rest, buckets, usable, lost);
    }
  }

  /** The loop over the new entries and the id counter (src/addrman.h:351-369). */
  method NewStage(m: Manager, toks: seq<Token>, usable: bool, ghost buckets: int) returns (ok: bool, rest: seq<Token>)
    requires m.Shaped() && Blank(m.Abs())
    modifies m, m.newTable
    ensures m.Shaped() && (ok ==> Numbered(m.Abs(), m.nextId))
    ensures ok ==> LoadNew(old(m.Abs()), toks, buckets, usable) == LoadTried(m.Abs(), rest, buckets, usable)
    ensures !ok ==> LoadNew(old(m.Abs()), toks, buckets, usable) == Failed
  {
    var newCount := m.newCount;
    ReadNewNumbered(m.Abs(), toks, 0, newCount, usable);
    ok, rest := ReadNewEntries(m, toks, newCount, usable);
    if ok {
      m.nextId := newCount;
    }
  }

  method FinishNew(m: Manager, toks: seq<Token>, buckets: int, usable: bool)
    returns (ok: bool, rest: seq<Token>, lost: nat)
    requires m.Shaped() && Blank(m.Abs()) && (usable ==> buckets == NEW_BUCKET_COUNT)
    modifies m, m.newTable, m.triedTable
    ensures m.Shaped()
    ensures ok ==> LoadNew(old(m.Abs()), toks, buckets, usable) == Read(m.Abs(), rest, lost)
    ensures !ok ==> LoadNew(old(m.Abs()), toks, buckets, usable) == Failed
  {
    lost := 0;
    ok, rest := NewStage(m, toks, usable, buckets);
    if ok {
      ok, rest, lost := FinishTried(m, rest, buckets, usable);
    }
  }

  /** Unserialize into a manager without entries, whatever else it holds: it is cleared first
      (src/addrman.h:330-426). */
  method Unserialize(m: Manager, key: Key, toks: seq<Token>) returns (ok: bool, rest: seq<Token>, lost: nat)
    requires m.Shaped() && m.infos == map[] && m.idOf == map[]
    modifies m, m.newTable, m.triedTable
    ensures ok ==> m.Shaped() && Load(m.h, toks) == Read(m.Abs(), rest, lost)
    ensures !ok ==> Load(m.h, toks) == Failed
  {
    m.Clear(key);
    if !HeaderOk(toks) {
      return false, toks, 0;
    }
    m.key := toks[2].key;
    m.newCount := toks[3].n;
    m.triedCount := toks[4].n;
    var buckets := StoredBuckets(toks[0].b, toks[5].n);
    var usable := toks[0].b == 1 && buckets == NEW_BUCKET_COUNT;
    ok, rest, lost := FinishNew(m, toks[6..], buckets, usable);
  }

  /** What Serialize wrote, Unserialize reads back into a new manager: nothing is left over or
      lost, and only the ids may differ. */
  method Copy(m: Manager, key: Key) returns (n: Manager)
    requires m.Valid()
    ensures n.Valid() && SameUpToIds(m.Abs(), n.Abs(), Renumbering(m.Abs(), FileOrder(m.Abs())))
  {
    var toks := Serialize(m);
    LoadedBack(m.Abs(), toks, Load(m.h, toks));
    n := Restore(m.h, key, toks);
  }

  /** A new manager filled from a stream that can be read. */
  method Restore(h: Hasher, key: Key, toks: seq<Token>) returns (n: Manager)
    requires Load(h, toks).Read?
    ensures n.Shaped() && n.Abs() == Load(h, toks).state
  {
    n := new Manager(h, key);
    var ok, rest, lost := Unserialize(n, key, toks);
  }

  lemma LoadedBack(s: State, toks: seq<Token>, r: Read)
    requires Consistent(s) && toks == Saved(s) && r == Load(s.h, toks)
    ensures r.Read? && r.rest == [] && r.lost == 0 && Consistent(r.state)
    ensures SameUpToIds(s, r.state, Renumbering(s, FileOrder(s)))
  {
    SaveLoadRoundTrip(s);
  }
}
