/** What the consistency check of the address manager (src/addrman.cpp:378-452) accepts. */
module AddrManChecked {
  import opened AddrManState
  import opened AddrManOps
  import opened SetFacts

  // ---- The entries ----

  /** What `mapAddr[info]` yields; a missing address reads as 0. */
  function AddressId(idOf: map<NetAddr, int>, ip: NetAddr): int {
    if ip in idOf then idOf[ip] else 0
  }

  /** The verdict on one entry (src/addrman.cpp:389-413). */
  function EntryCode(i: Info, n: int, idOf: map<NetAddr, int>, order: seq<int>): int {
    if i.inTried && i.lastSuccess == 0 then -1
    else if i.inTried && i.refCount != 0 then -2
    else if !i.inTried && !(0 <= i.refCount <= NEW_BUCKETS_PER_ADDRESS) then -3
    else if !i.inTried && i.refCount == 0 then -4
    else if AddressId(idOf, i.service.ip) != n then -5
    else if !(0 <= i.randomPos < |order|) || order[i.randomPos] != n then -14
    else if i.lastTry < 0 then -6
    else if i.lastSuccess < 0 then -8
    else 0
  }

  ghost predicate EntriesPass(infos: map<int, Info>, idOf: map<NetAddr, int>, order: seq<int>) {
    forall id :: id in infos ==> EntryCode(infos[id], id, idOf, order) == 0
  }

  // ---- What the whole check accepts ----

  ghost predicate AddressesFound(s: State) {
    forall id :: id in s.infos ==> AddressId(s.idOf, s.infos[id].service.ip) == id
  }

  ghost predicate RefsCounted(s: State) {
    forall id :: id in s.infos ==>
      && s.infos[id].refCount == |Holding(s.h, s.key, s.newTable, s.infos[id].service, id)|
      && (if s.infos[id].inTried then s.infos[id].refCount == 0
          else 1 <= s.infos[id].refCount <= NEW_BUCKETS_PER_ADDRESS)
  }

  /** The invariant and its clock part, but for addresses that lead nowhere and the bounds of ids. */
  ghost predicate Checked(s: State) {
    && EMPTY !in s.infos
    && OrderOk(s) && AddressesFound(s)
    && NewSlotsOk(s) && TriedSlotsOk(s) && RefsCounted(s)
    && Counted(s, 0) && TimesOk(s)
  }

  /** What the check does not look at: every known address leads to its entry, and ids lie below
      the next one. */
  ghost predicate Unchecked(s: State) {
    && (forall ip :: ip in s.idOf ==> s.idOf[ip] in s.infos && s.infos[s.idOf[ip]].service.ip == ip)
    && (forall id :: id in s.infos ==> s.infos[id].service.ip in s.idOf && 0 <= id < s.nextId)
    && 0 <= s.nextId
  }

  /** The invariant is exactly what the check accepts together with what it does not look at. */
  lemma ConsistentIsChecked(s: State)
    ensures Consistent(s) && TimesOk(s) <==> Checked(s) && Unchecked(s)
  {
    if Consistent(s) && TimesOk(s) {
      assert AddressesFound(s);
      assert RefsCounted(s);
    }
    if Checked(s) && Unchecked(s) {
      assert AddressesOk(s);
      assert RefCountsOk(s, {});
    }
  }

  /** An address that leads to no entry goes unnoticed. */
  lemma StaleAddressPasses(h: Hasher, key: Key, ip: NetAddr, id: int)
    ensures var s := Initial(h, key).(idOf := map[ip := id]); Checked(s) && !Consistent(s)
  {
    var s := Initial(h, key).(idOf := map[ip := id]);
    InitialConsistent(h, key);
    ConsistentIsChecked(Initial(h, key));
    assert NewIds(s) == {} && TriedIds(s) == {};
    assert ip in s.idOf && s.idOf[ip] !in s.infos;
  }

  // ---- The order is a permutation of the ids ----

  predicate PlacedAt(s: State, id: int)
    requires id in s.infos
  {
    0 <= s.infos[id].randomPos < |s.order| && s.order[s.infos[id].randomPos] == id
  }

  ghost predicate Placed(s: State) {
    forall id :: id in s.infos ==> PlacedAt(s, id)
  }

  function Range(n: nat): (r: set<nat>)
    ensures forall k: nat :: k in r <==> k < n
    ensures |r| == n
  {
    if n == 0 then {} else Range(n - 1) + {n - 1}
  }

  function Taken(s: State): set<nat> {
    set k | 0 <= k < |s.order| && s.order[k] in s.infos && s.infos[s.order[k]].randomPos == k
  }

  /** With as many positions as entries, each entry at its own, none is left over. */
  lemma OrderIsFull(s: State)
    requires Placed(s) && |s.order| == |s.infos.Keys|
    ensures OrderOk(s)
  {
    var at: map<int, nat> := map id | id in s.infos && PlacedAt(s, id) :: s.infos[id].randomPos;
    assert at.Keys == s.infos.Keys;
    forall x, y | x in at && y in at && at[x] == at[y] ensures x == y {
      assert s.order[at[x]] == x && s.order[at[y]] == y;
    }
    InjectionCardinality(at, Taken(s));
    SubsetCardinality(Taken(s), Range(|s.order|));
    forall k: nat | k < |s.order| ensures s.order[k] in s.infos && s.infos[s.order[k]].randomPos == k {
      assert k in Taken(s);
    }
  }

  lemma KeysSplit(s: State)
    ensures |s.infos.Keys| == |NewIds(s)| + |TriedIds(s)|
  {
    assert s.infos.Keys == NewIds(s) + TriedIds(s);
  }
}
