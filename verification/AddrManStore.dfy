/** Saving the address manager and loading it back (src/addrman.h:280-426). The format keeps
    neither ids, positions nor the tried table: they are rebuilt, with ids renumbered. */
module AddrManStore {
  import opened AddrManState
  import opened AddrManInvariant
  import opened AddrManOps

  /** The fields of an entry that are written out (src/addrman.h:58-64). */
  datatype Record = Record(service: Service, time: nat, services: nat, source: NetAddr, lastSuccess: int, attempts: int)

  /** One value written to, or read from, the stream. */
  datatype Token = Byte(b: nat) | KeyToken(key: Key) | Number(n: int) | Entry(r: Record)

  function RecordOf(i: Info): Record {
    Record(i.service, i.time, i.services, i.source, i.lastSuccess, i.attempts)
  }

  /** An entry as read back: the memory-only fields start from their initial values. */
  function InfoOf(r: Record): Info {
    Info(r.service, r.time, r.services, r.source, 0, r.lastSuccess, r.attempts, 0, false, -1)
  }

  // The bucket count is stored xor 2^30, which it does not overlap (src/addrman.h:292, 347-349).
  const BUCKET_MARK := 0x4000_0000

  // ---- writing ----

  /** The ids below `n` of the entries with references, in increasing order. */
  function NewUpTo(s: State, n: nat): seq<int> {
    if n == 0 then []
    else if (n - 1) in s.infos && s.infos[n - 1].refCount != 0 then NewUpTo(s, n - 1) + [n - 1]
    else NewUpTo(s, n - 1)
  }

  /** The ids below `n` of the tried entries, in increasing order. */
  function TriedUpTo(s: State, n: nat): seq<int> {
    if n == 0 then []
    else if (n - 1) in s.infos && s.infos[n - 1].inTried then TriedUpTo(s, n - 1) + [n - 1]
    else TriedUpTo(s, n - 1)
  }

  function Entries(s: State, ids: seq<int>): seq<Token>
    requires forall k :: 0 <= k < |ids| ==> ids[k] in s.infos
  {
    seq(|ids|, k requires 0 <= k < |ids| => Entry(RecordOf(s.infos[ids[k]])))
  }

  /** The entries in the first `p` slots of new bucket `b`, in slot order. */
  function Occupants(t: Table, b: nat, p: nat): seq<int> {
    if p == 0 then []
    else if At(t, (b, p - 1)) != EMPTY then Occupants(t, b, p - 1) + [At(t, (b, p - 1))]
    else Occupants(t, b, p - 1)
  }

  /** The number an entry gets in the file: how many referenced entries have a smaller id. */
  function FileIndex(s: State, id: int): nat {
    if id < 0 then 0 else |NewUpTo(s, id)|
  }

  function Indices(s: State, ids: seq<int>): seq<Token> {
    seq(|ids|, k requires 0 <= k < |ids| => Number(FileIndex(s, ids[k])))
  }

  function BucketTokens(s: State, b: nat): seq<Token> {
    var ids := Occupants(s.newTable, b, BUCKET_SIZE);
    [Number(|ids|)] + Indices(s, ids)
  }

  function BucketsFrom(s: State, b: nat, end: nat): seq<Token>
    decreases end - b
  {
    if b >= end then [] else BucketTokens(s, b) + BucketsFrom(s, b + 1, end)
  }

  function Header(s: State): seq<Token> {
    [Byte(1), Byte(32), KeyToken(s.key), Number(s.newCount), Number(s.triedCount),
     Number(NEW_BUCKET_COUNT + BUCKET_MARK)]
  }

  lemma {:induction false} UpToKnown(s: State, n: nat)
    ensures forall k :: 0 <= k < |NewUpTo(s, n)| ==> 0 <= NewUpTo(s, n)[k] < n && NewUpTo(s, n)[k] in s.infos
    ensures forall k :: 0 <= k < |TriedUpTo(s, n)| ==> 0 <= TriedUpTo(s, n)[k] < n && TriedUpTo(s, n)[k] in s.infos
  {
    if n > 0 { UpToKnown(s, n - 1); }
  }

  /** The whole file for a manager whose ids are below `nextId`. */
  function Saved(s: State): seq<Token>
    requires 0 <= s.nextId
  {
    UpToKnown(s, s.nextId);
    Header(s) + Entries(s, NewUpTo(s, s.nextId)) + Entries(s, TriedUpTo(s, s.nextId)) +
    BucketsFrom(s, 0, NEW_BUCKET_COUNT)
  }

  // ---- reading ----

  datatype Read = Failed | Read(state: State, rest: seq<Token>, lost: nat)

  /** A new-table entry becomes entry number `n`; unless the bucket data is usable it gets a
      reference in the bucket of its own source (src/addrman.h:353-367). */
  function InsertNew(s: State, n: int, r: Record, usable: bool): State {
    var i := InfoOf(r).(randomPos := |s.order|);
    var s1 := s.(infos := s.infos[n := i], idOf := s.idOf[i.service.ip := n], order := s.order + [n]);
    var slot := NewSlot(s.h, s.key, NewBucket(s.h, s.key, i.service, i.source), i.service);
    if !usable && At(s.newTable, slot) == EMPTY then AddReference(s1, n, slot) else s1
  }

  function ReadNew(s: State, toks: seq<Token>, n: nat, end: int, usable: bool): Read
    decreases end - n
  {
    if n >= end then Read(s, toks, 0)
    else if |toks| == 0 || !toks[0].Entry? then Failed
    else ReadNew(InsertNew(s, n, toks[0].r, usable), toks[1..], n + 1, end, usable)
  }

  predicate TriedSlotFree(s: State, r: Record) {
    At(s.triedTable, TriedSlot(s.h, s.key, r.service)) == EMPTY
  }

  /** A tried entry takes its own slot, or is lost if that slot is taken (src/addrman.h:373-389). */
  function InsertTried(s: State, r: Record): State {
    var i := InfoOf(r).(randomPos := |s.order|, inTried := true);
    var slot := TriedSlot(s.h, s.key, i.service);
    if TriedSlotFree(s, r) then
      s.(infos := s.infos[s.nextId := i], idOf := s.idOf[i.service.ip := s.nextId], order := s.order + [s.nextId],
         triedTable := s.triedTable[slot := s.nextId], nextId := s.nextId + 1)
    else s
  }

  function ReadTried(s: State, toks: seq<Token>, n: nat, end: int, lost: nat): Read
    decreases end - n
  {
    if n >= end then Read(s, toks, lost)
    else if |toks| == 0 || !toks[0].Entry? then Failed
    else
      ReadTried(InsertTried(s, toks[0].r), toks[1..], n + 1, end,
                if TriedSlotFree(s, toks[0].r) then lost else lost + 1)
  }

  /** One index of a bucket (src/addrman.h:399-406). */
  function InsertIndex(s: State, bucket: nat, index: int, usable: bool): State {
    if 0 <= index < s.newCount && index in s.infos then
      var slot := NewSlot(s.h, s.key, bucket, s.infos[index].service);
      if usable && At(s.newTable, slot) == EMPTY && s.infos[index].refCount < NEW_BUCKETS_PER_ADDRESS
      then AddReference(s, index, slot) else s
    else s
  }

  function ReadIndices(s: State, toks: seq<Token>, bucket: nat, n: nat, size: int, usable: bool): Read
    decreases size - n
  {
    if n >= size then Read(s, toks, 0)
    else if |toks| == 0 || !toks[0].Number? then Failed
    else ReadIndices(InsertIndex(s, bucket, toks[0].n, usable), toks[1..], bucket, n + 1, size, usable)
  }

  function ReadBuckets(s: State, toks: seq<Token>, bucket: nat, end: int, usable: bool): Read
    decreases end - bucket
  {
    if bucket >= end then Read(s, toks, 0)
    else if |toks| == 0 || !toks[0].Number? then Failed
    else
      var r := ReadIndices(s, toks[1..], bucket, 0, toks[0].n, usable);
      if r.Failed? then Failed else ReadBuckets(r.state, r.rest, bucket + 1, end, usable)
  }

  // ---- reading keeps the random order usable for any input ----

  ghost predicate Numbered(s: State, n: int) {
    OrderOk(s) && forall id :: id in s.infos ==> id < n
  }

  lemma AppendOrder(s: State, t: State, n: int, i: Info)
    requires OrderOk(s) && n !in s.infos && i.randomPos == |s.order|
    requires t.infos == s.infos[n := i] && t.order == s.order + [n]
    ensures OrderOk(t)
  {
  }

  lemma InsertNewNumbered(s: State, n: int, r: Record, usable: bool)
    requires Numbered(s, n)
    ensures Numbered(InsertNew(s, n, r, usable), n + 1)
  {
    var t := InsertNew(s, n, r, usable);
    AppendOrder(s, t, n, t.infos[n]);
  }

  lemma {:induction false} ReadNewNumbered(s: State, toks: seq<Token>, n: nat, end: int, usable: bool)
    requires Numbered(s, n)
    ensures var r := ReadNew(s, toks, n, end, usable);
      r.Read? ==> Numbered(r.state, if n < end then end else n) && (end <= n ==> r.state == s)
    decreases end - n
  {
    if n < end && |toks| > 0 && toks[0].Entry? {
      InsertNewNumbered(s, n, toks[0].r, usable);
      ReadNewNumbered(InsertNew(s, n, toks[0].r, usable), toks[1..], n + 1, end, usable);
    }
  }

  lemma InsertTriedNumbered(s: State, r: Record)
    requires Numbered(s, s.nextId)
    ensures Numbered(InsertTried(s, r), InsertTried(s, r).nextId)
  {
    if TriedSlotFree(s, r) {
      var t := InsertTried(s, r);
      AppendOrder(s, t, s.nextId, t.infos[s.nextId]);
    }
  }

  lemma {:induction false} ReadTriedNumbered(s: State, toks: seq<Token>, n: nat, end: int, lost: nat)
    requires Numbered(s, s.nextId)
    ensures var r := ReadTried(s, toks, n, end, lost);
      r.Read? ==> Numbered(r.state, r.state.nextId)
    decreases end - n
  {
    if n < end && |toks| > 0 && toks[0].Entry? {
      InsertTriedNumbered(s, toks[0].r);
      ReadTriedNumbered(InsertTried(s, toks[0].r), toks[1..], n + 1, end,
        if TriedSlotFree(s, toks[0].r) then lost else lost + 1);
    }
  }

  lemma InsertIndexOrder(s: State, bucket: nat, index: int, usable: bool)
    requires OrderOk(s)
    ensures OrderOk(InsertIndex(s, bucket, index, usable))
  {
    var t := InsertIndex(s, bucket, index, usable);
    assert SameLinks(s.infos, t.infos);
    FrameOrder(s, t);
  }

  lemma {:induction false} ReadIndicesOrder(s: State, toks: seq<Token>, bucket: nat, n: nat, size: int, usable: bool)
    requires OrderOk(s)
    ensures var r := ReadIndices(s, toks, bucket, n, size, usable); r.Read? ==> OrderOk(r.state)
    decreases size - n
  {
    if n < size && |toks| > 0 && toks[0].Number? {
      InsertIndexOrder(s, bucket, toks[0].n, usable);
      ReadIndicesOrder(InsertIndex(s, bucket, toks[0].n, usable), toks[1..], bucket, n + 1, size, usable);
    }
  }

  lemma {:induction false} ReadBucketsOrder(s: State, toks: seq<Token>, bucket: nat, end: int, usable: bool)
    requires OrderOk(s)
    ensures var r := ReadBuckets(s, toks, bucket, end, usable); r.Read? ==> OrderOk(r.state)
    decreases end - bucket
  {
    if bucket < end && |toks| > 0 && toks[0].Number? {
      ReadIndicesOrder(s, toks[1..], bucket, 0, toks[0].n, usable);
      var r := ReadIndices(s, toks[1..], bucket, 0, toks[0].n, usable);
      if r.Read? { ReadBucketsOrder(r.state, r.rest, bucket + 1, end, usable); }
    }
  }

  /** Deletes the entries from id `id` on that ended up in neither table (src/addrman.h:410-420). */
  ghost function Pruned(s: State, id: int, end: int): State
    requires OrderOk(s)
    decreases end - id
  {
    if id >= end then s
    else if id in s.infos && !s.infos[id].inTried && s.infos[id].refCount == 0 then
      DeleteOrder(s, id);
      Pruned(Delete(s, id), id + 1, end)
    else Pruned(s, id + 1, end)
  }

  predicate HeaderOk(toks: seq<Token>) {
    && |toks| >= 6 && toks[0].Byte? && toks[1].Byte? && toks[1].b == 32
    && toks[2].KeyToken? && toks[3].Number? && toks[4].Number? && toks[5].Number?
  }

  /** The stored bucket count; versions other than 0 keep it with bit 30 flipped. */
  function StoredBuckets(version: nat, n: int): int {
    if version == 0 then n else if (n / BUCKET_MARK) % 2 == 0 then n + BUCKET_MARK else n - BUCKET_MARK
  }

  /** The bucket data and the pruning (src/addrman.h:391-420). */
  ghost function LoadBuckets(s: State, toks: seq<Token>, buckets: int, usable: bool, lost: nat): Read
    requires OrderOk(s)
  {
    var r := ReadBuckets(s, toks, 0, buckets, usable);
    if r.Failed? then Failed
    else
      ReadBucketsOrder(s, toks, 0, buckets, usable);
      Read(Pruned(r.state, 0, r.state.nextId), r.rest, lost)
  }

  /** The tried entries and what follows (src/addrman.h:371-420). */
  ghost function LoadTried(s: State, toks: seq<Token>, buckets: int, usable: bool): Read
    requires Numbered(s, s.nextId)
  {
    var r := ReadTried(s, toks, 0, s.triedCount, 0);
    if r.Failed? then Failed
    else
      ReadTriedNumbered(s, toks, 0, s.triedCount, 0);
      LoadBuckets(r.state.(triedCount := s.triedCount - r.lost), r.rest, buckets, usable, r.lost)
  }

  ghost predicate Blank(s: State) {
    s.infos == map[] && s.order == []
  }

  /** The new entries and what follows (src/addrman.h:351-420). */
  ghost function LoadNew(s: State, toks: seq<Token>, buckets: int, usable: bool): Read
    requires Blank(s)
  {
    var r := ReadNew(s, toks, 0, s.newCount, usable);
    if r.Failed? then Failed
    else
      ReadNewNumbered(s, toks, 0, s.newCount, usable);
      LoadTried(r.state.(nextId := s.newCount), r.rest, buckets, usable)
  }

  /** Loading into a manager just constructed (src/addrman.h:330-426). */
  ghost function Load(h: Hasher, toks: seq<Token>): Read {
    if !HeaderOk(toks) then Failed
    else
      var buckets := StoredBuckets(toks[0].b, toks[5].n);
      var usable := toks[0].b == 1 && buckets == NEW_BUCKET_COUNT;
      LoadNew(Initial(h, toks[2].key).(newCount := toks[3].n, triedCount := toks[4].n), toks[6..], buckets, usable)
  }
}
