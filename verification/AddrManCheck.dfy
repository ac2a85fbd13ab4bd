/** The consistency check the address manager runs on itself in debug builds
    (src/addrman.cpp:378-452), loop by loop. */
module AddrManCheck {
  import opened AddrManState
  import opened AddrManOps
  import opened AddrMan
  import opened AddrManChecked
  import opened AddrManSweep
  import opened SetFacts
  import AddrManRuns
  import opened AddrManFile

  // ---- The entries ----

  /** `there` is `idOf` with some missing addresses entered as 0, as looking them up does. */
  ghost predicate LookedUp(idOf: map<NetAddr, int>, there: map<NetAddr, int>) {
    forall ip :: AddressId(there, ip) == AddressId(idOf, ip) && (ip in idOf ==> ip in there)
  }

  /** One entry (src/addrman.cpp:389-413); its address is looked up unless a fault was found before. */
  method CheckEntry(i: Info, n: int, idOf: map<NetAddr, int>, order: seq<int>)
    returns (code: int, there: map<NetAddr, int>)
    ensures code == EntryCode(i, n, idOf, order) && LookedUp(idOf, there)
    ensures code == 0 ==> there == if i.service.ip in idOf then idOf else idOf[i.service.ip := 0]
  {
    there := idOf;
    if i.inTried {
      if i.lastSuccess == 0 {
        return -1, there;
      }
      if i.refCount != 0 {
        return -2, there;
      }
    } else {
      if i.refCount < 0 || i.refCount > NEW_BUCKETS_PER_ADDRESS {
        return -3, there;
      }
      if i.refCount == 0 {
        return -4, there;
      }
    }
    if i.service.ip !in there {
      there := there[i.service.ip := 0];
    }
    if there[i.service.ip] != n {
      return -5, there;
    }
    if i.randomPos < 0 || i.randomPos >= |order| || order[i.randomPos] != n {
      return -14, there;
    }
    if i.lastTry < 0 {
      return -6, there;
    }
    if i.lastSuccess < 0 {
      return -8, there;
    }
    code := 0;
  }

  /** The first loop: the verdict, the tried ids, the reference counts of the others and the
      addresses as they then stand. A missing address goes unnoticed for entry 0 alone. */
  method CheckEntries(infos: map<int, Info>, idOf: map<NetAddr, int>, order: seq<int>)
    returns (code: int, tried: set<int>, news: map<int, int>, there: map<NetAddr, int>)
    ensures code == 0 <==> EntriesPass(infos, idOf, order)
    ensures code != 0 ==> exists id :: id in infos && EntryCode(infos[id], id, idOf, order) == code
    ensures code == 0 ==> tried == set id | id in infos && infos[id].inTried
    ensures code == 0 ==> news == map id | id in infos && !infos[id].inTried :: infos[id].refCount
    ensures LookedUp(idOf, there)
    ensures code == 0 ==> forall ip :: ip in there ==> ip in idOf || (0 in infos && infos[0].service.ip == ip)
  {
    code, tried, news, there := 0, {}, map[], idOf;
    var todo := infos.Keys;
    while todo != {}
      invariant todo <= infos.Keys && code == 0
      invariant forall id :: id in infos && id !in todo ==> EntryCode(infos[id], id, idOf, order) == 0
      invariant tried == set id | id in infos && id !in todo && infos[id].inTried
      invariant news == map id | id in infos && id !in todo && !infos[id].inTried :: infos[id].refCount
      invariant LookedUp(idOf, there)
      invariant forall ip :: ip in there ==> ip in idOf || (0 in infos && infos[0].service.ip == ip)
      decreases todo
    {
      ghost var some := PickOne(todo);
      var n :| n in todo;
      ghost var before := there;
      code, there := CheckEntry(infos[n], n, there, order);
      LookedUpCode(infos[n], n, idOf, before, order);
      if code != 0 {
        return;
      }
      if infos[n].inTried {
        tried := tried + {n};
      } else {
        news := news[n := infos[n].refCount];
      }
      todo := todo - {n};
    }
  }

  lemma LookedUpCode(i: Info, n: int, idOf: map<NetAddr, int>, there: map<NetAddr, int>, order: seq<int>)
    requires LookedUp(idOf, there)
    ensures EntryCode(i, n, there, order) == EntryCode(i, n, idOf, order)
    ensures EntryCode(i, n, idOf, order) == 0 && i.service.ip !in there ==> n == 0
  {
  }

  // ---- The sweeps ----

  method CheckTriedSlot(m: Manager, left: set<int>, n: nat, i: nat) returns (code: int, rest: set<int>)
    requires m.Shaped() && n < TRIED_BUCKET_COUNT && i < BUCKET_SIZE
    requires TriedLeft(m.Abs(), left, n, i) && TriedCellsOk(m.Abs(), n, i)
    ensures code == 0 <==> TriedCellOk(m.Abs(), (n, i))
    ensures code == 0 ==> TriedLeft(m.Abs(), rest, n, i + 1) && TriedCellsOk(m.Abs(), n, i + 1)
  {
    code, rest := 0, left;
    var id := m.ReadTried((n, i));
    if id == EMPTY {
      TriedCellEmpty(m.Abs(), left, n, i);
    } else {
      TriedCellFull(m.Abs(), left, n, i);
      code := TriedCode(m.h, m.key, m.infos, left, id, n, i);
      rest := left - {id};
    }
  }

  method CheckTriedBucket(m: Manager, tried: set<int>, n: nat) returns (code: int, left: set<int>)
    requires m.Shaped() && n < TRIED_BUCKET_COUNT
    requires TriedLeft(m.Abs(), tried, n, 0) && TriedCellsOk(m.Abs(), n, 0)
    ensures code == 0 <==> TriedCellsOk(m.Abs(), n + 1, 0)
    ensures code == 0 ==> TriedLeft(m.Abs(), left, n + 1, 0)
  {
    left, code := tried, 0;
    ghost var s := m.Abs();
    for i := 0 to BUCKET_SIZE
      invariant code == 0 && TriedLeft(s, left, n, i) && TriedCellsOk(s, n, i)
    {
      code, left := CheckTriedSlot(m, left, n, i);
      if code != 0 {
        assert Visited((n, i), n + 1, 0);
        return;
      }
    }
    TriedNextBucket(s, left, n);
    TriedNextCells(s, n);
  }

  /** The sweep of the tried table finds no fault and leaves no id over exactly when every
      occupied slot holds a tried entry whose slot it is and every tried entry is in its slot. */
  method CheckTriedTable(m: Manager, tried: set<int>) returns (code: int, left: set<int>)
    requires m.Shaped() && tried == TriedIds(m.Abs())
    ensures code == 0 && left == {} <==> TriedGood(m.Abs())
    ensures code == 0 <==> forall slot: Slot :: slot in m.triedMap ==> TriedCellOk(m.Abs(), slot)
  {
    left, code := tried, 0;
    ghost var s := m.Abs();
    FitsArrays(m);
    TriedCellsMean(s);
    if TriedGood(s) {
      TriedGoodCells(s);
    }
    for n := 0 to TRIED_BUCKET_COUNT
      invariant code == 0 && TriedLeft(s, left, n, 0) && TriedCellsOk(s, n, 0)
    {
      code, left := CheckTriedBucket(m, left, n);
      if code != 0 {
        TriedCellsEarlier(s, n + 1);
        return;
      }
    }
    TriedSweepMeans(s, left);
  }

  lemma TriedCellsEarlier(s: State, n: nat)
    requires n <= TRIED_BUCKET_COUNT
    ensures TriedCellsOk(s, TRIED_BUCKET_COUNT, 0) ==> TriedCellsOk(s, n, 0)
  {
    if TriedCellsOk(s, TRIED_BUCKET_COUNT, 0) {
      forall slot: Slot | Visited(slot, n, 0) && slot.1 < BUCKET_SIZE ensures TriedCellOk(s, slot) {
        assert Visited(slot, TRIED_BUCKET_COUNT, 0);
      }
    }
  }

  lemma FitsArrays(m: Manager)
    requires m.Shaped()
    ensures TablesFit(m.Abs())
  {
  }

  method CheckNewSlot(ghost s: State, h: Hasher, key: Key, infos: map<int, Info>, left: map<int, int>, n: nat, i: nat,
      id: int)
    returns (code: int, rest: map<int, int>)
    requires s.h == h && s.key == key && s.infos == infos
    requires n < NEW_BUCKET_COUNT && i < BUCKET_SIZE && id == At(s.newTable, (n, i))
    requires NewLeft(s, left, n, i) && NewPasses(s, n, i)
    ensures code == 0 <==> NewPasses(s, n, i + 1)
    ensures code == 0 ==> NewLeft(s, rest, n, i + 1)
  {
    code, rest := 0, left;
    if id == EMPTY {
      NewCellEmpty(s, left, n, i);
    } else {
      NewCellFull(s, left, n, i);
      code := NewCode(h, key, infos, left, id, n, i);
      rest := if id in left then Lowered(left, id) else left;
    }
  }

  lemma NewFailsLater(s: State, n: nat, i: nat, m: nat)
    requires !NewPasses(s, n, i) && (n < m || (n == m && i == 0))
    ensures !NewPasses(s, m, 0)
  {
    if NewPasses(s, m, 0) {
      NewPassesEarlier(s, n, i, m, 0);
    }
  }

  /** One bucket, read slot by slot from its `row`. */
  method CheckNewRow(ghost s: State, h: Hasher, key: Key, infos: map<int, Info>, row: seq<int>, news: map<int, int>,
      n: nat)
    returns (code: int, left: map<int, int>)
    requires s.h == h && s.key == key && s.infos == infos && n < NEW_BUCKET_COUNT && IsRow(s, n, row)
    requires NewLeft(s, news, n, 0) && NewPasses(s, n, 0)
    ensures code == 0 <==> NewPasses(s, n + 1, 0)
    ensures code == 0 ==> NewLeft(s, left, n + 1, 0)
  {
    left, code := news, 0;
    for i := 0 to BUCKET_SIZE
      invariant code == 0 && NewLeft(s, left, n, i) && NewPasses(s, n, i)
    {
      code, left := CheckNewSlot(s, h, key, infos, left, n, i, row[i]);
      if code != 0 {
        NewFailsLater(s, n, i + 1, n + 1);
        return;
      }
    }
    NewNextBucket(s, left, n);
  }

  method CheckNewBucket(ghost s: State, m: Manager, news: map<int, int>, n: nat)
      returns (code: int, left: map<int, int>)
    requires m.Shaped() && s == m.Abs() && n < NEW_BUCKET_COUNT
    requires NewLeft(s, news, n, 0) && NewPasses(s, n, 0)
    ensures code == 0 <==> NewPasses(s, n + 1, 0)
    ensures code == 0 ==> NewLeft(s, left, n + 1, 0)
  {
    var row := ReadRow(m, n);
    code, left := CheckNewRow(s, m.h, m.key, m.infos, row, news, n);
  }

  method SweepNewTable(ghost s: State, m: Manager, news: map<int, int>) returns (code: int, left: map<int, int>)
    requires m.Shaped() && s == m.Abs()
    requires NewLeft(s, news, 0, 0) && NewPasses(s, 0, 0)
    ensures code == 0 <==> NewPasses(s, NEW_BUCKET_COUNT, 0)
    ensures code == 0 ==> NewLeft(s, left, NEW_BUCKET_COUNT, 0)
  {
    left, code := news, 0;
    var n := 0;
    while n < NEW_BUCKET_COUNT && code == 0
      invariant n <= NEW_BUCKET_COUNT && SweptTo(s, left, n, code)
    {
      code, left := CheckNewBucket(s, m, left, n);
      n := n + 1;
    }
    if code != 0 && n < NEW_BUCKET_COUNT {
      NewFailsLater(s, n, 0, NEW_BUCKET_COUNT);
    }
  }

  /** How the sweep stands before bucket `n`. */
  ghost predicate SweptTo(s: State, left: map<int, int>, n: nat, code: int) {
    (code == 0 <==> NewPasses(s, n, 0)) && (code == 0 ==> NewLeft(s, left, n, 0))
  }

  ghost predicate RefsPositive(s: State) {
    forall id :: IsUntried(s, id) ==> s.infos[id].refCount >= 1
  }

  /** The sweep of the new table finds no fault and leaves no reference over exactly when every
      occupied slot holds an untried entry at its position and every untried entry sits in as
      many slots as it counts references. */
  method CheckNewTable(m: Manager, news: map<int, int>) returns (code: int, left: map<int, int>)
    requires m.Shaped() && RefsPositive(m.Abs())
    requires news == map id | id in m.infos && !m.infos[id].inTried :: m.infos[id].refCount
    ensures code == 0 && left.Keys == {} <==> NewGood(m.Abs())
    ensures code == 0 <==> NewPasses(m.Abs(), NEW_BUCKET_COUNT, 0)
  {
    ghost var s := m.Abs();
    FitsArrays(m);
    NewSweepStarts(s, news);
    if NewGood(s) {
      NewGoodPasses(s);
    }
    code, left := SweepNewTable(s, m, news);
    if code == 0 {
      NewSweepMeans(s, left);
    }
  }

  // ---- The whole check ----

  /** src/addrman.cpp:419-449, once the entries have passed. */
  method CheckTables(m: Manager, tried: set<int>, news: map<int, int>) returns (code: int)
    requires m.Shaped() && RefsPositive(m.Abs()) && tried == TriedIds(m.Abs())
    requires news == map id | id in m.infos && !m.infos[id].inTried :: m.infos[id].refCount
    ensures code == 0 <==> TriedGood(m.Abs()) && NewGood(m.Abs()) && m.key != 0
  {
    var triedLeft, newLeft;
    code, triedLeft := CheckTriedTable(m, tried);
    if code != 0 {
      return;
    }
    code, newLeft := CheckNewTable(m, news);
    if code != 0 {
      return;
    }
    if triedLeft != {} {
      return -13;
    }
    if newLeft.Keys != {} {
      return -15;
    }
    if m.key == 0 {
      return -16;
    }
  }

  ghost predicate SizesMatch(s: State) {
    |TriedIds(s)| == s.triedCount && |NewIds(s)| == s.newCount
  }

  /** src/addrman.cpp:416-449, once the entries have passed. */
  method CheckFound(m: Manager, tried: set<int>, news: map<int, int>) returns (code: int)
    requires m.Shaped() && RefsPositive(m.Abs()) && tried == TriedIds(m.Abs()) && news.Keys == NewIds(m.Abs())
    requires news == map id | id in m.infos && !m.infos[id].inTried :: m.infos[id].refCount
    ensures code == 0 <==> SizesMatch(m.Abs()) && TriedGood(m.Abs()) && NewGood(m.Abs()) && m.key != 0
  {
    if |tried| != m.triedCount {
      return -9;
    }
    if |news.Keys| != m.newCount {
      return -10;
    }
    code := CheckTables(m, tried, news);
  }

  /** What Check_ looks at before the key, in its order. */
  ghost predicate Accepted(s: State) {
    && |s.order| == s.triedCount + s.newCount && EntriesPass(s.infos, s.idOf, s.order)
    && SizesMatch(s) && TriedGood(s) && NewGood(s)
  }

  /** `ip` is known to `s` or is the address of the one entry whose missing address goes unnoticed. */
  ghost predicate MayBeThere(s: State, ip: NetAddr) {
    ip in s.idOf || (0 in s.infos && s.infos[0].service.ip == ip)
  }

  method CheckEntered(m: Manager) returns (code: int)
    requires m.Shaped()
    modifies m`idOf
    ensures code == 0 <==> Accepted(old(m.Abs())) && m.key != 0
    ensures m.Abs() == old(m.Abs()).(idOf := m.idOf) && LookedUp(old(m.idOf), m.idOf)
    ensures code == 0 ==> forall ip :: ip in m.idOf ==> MayBeThere(old(m.Abs()), ip)
    ensures |m.order| == m.triedCount + m.newCount && !EntriesPass(m.infos, old(m.idOf), m.order) ==>
      exists id :: id in m.infos && EntryCode(m.infos[id], id, old(m.idOf), m.order) == code
  {
    ghost var s := m.Abs();
    if |m.order| != m.triedCount + m.newCount {
      return -7;
    }
    var tried, news, there;
    code, tried, news, there := CheckEntries(m.infos, m.idOf, m.order);
    if code != 0 {
      m.idOf := there;
      return;
    }
    FoundParts(s, tried, news);
    m.idOf := there;
    AddressesDoNotMatter(s, m.Abs());
    code := CheckFound(m, tried, news);
  }

  /** Check_ accepts exactly the managers described by `Checked` whose key is not null. It changes
      nothing but the addresses, in which a missing one that it looked up now leads to 0. Once
      the sizes agree, a fault among the entries is what it reports. */
  method Check(m: Manager) returns (code: int)
    requires m.Shaped()
    modifies m`idOf
    ensures code == 0 <==> Checked(old(m.Abs())) && m.key != 0
    ensures m.Abs() == old(m.Abs()).(idOf := m.idOf) && LookedUp(old(m.idOf), m.idOf)
    ensures Consistent(old(m.Abs())) && code == 0 ==> m.idOf == old(m.idOf)
    ensures |m.order| == m.triedCount + m.newCount && !EntriesPass(m.infos, old(m.idOf), m.order) ==>
      exists id :: id in m.infos && EntryCode(m.infos[id], id, old(m.idOf), m.order) == code
  {
    ghost var s := m.Abs();
    CheckedParts(s);
    code := CheckEntered(m);
    if AddressesOk(s) && code == 0 {
      NothingEntered(s, m.idOf);
    }
  }

  lemma NothingEntered(s: State, there: map<NetAddr, int>)
    requires AddressesOk(s) && LookedUp(s.idOf, there) && forall ip :: ip in there ==> MayBeThere(s, ip)
    ensures there == s.idOf
  {
    forall ip | ip in s.idOf ensures ip in there && there[ip] == s.idOf[ip] {
      assert AddressId(there, ip) == AddressId(s.idOf, ip);
    }
  }

  lemma CheckedParts(s: State)
    ensures Checked(s) <==> Accepted(s)
  {
    if Checked(s) {
      AddrManRuns.OrderSize(s);
      CheckedEntries(s);
    }
    if Accepted(s) {
      PassedEntries(s);
    }
  }

  lemma CheckedEntries(s: State)
    requires Checked(s)
    ensures EntriesPass(s.infos, s.idOf, s.order)
  {
    forall id | id in s.infos ensures EntryCode(s.infos[id], id, s.idOf, s.order) == 0 {
      assert AddressId(s.idOf, s.infos[id].service.ip) == id;
    }
  }

  lemma PassedEntries(s: State)
    requires Accepted(s)
    ensures Checked(s)
  {
    forall id | id in s.infos
      ensures PlacedAt(s, id) && AddressId(s.idOf, s.infos[id].service.ip) == id && id != EMPTY
    {
      assert EntryCode(s.infos[id], id, s.idOf, s.order) == 0;
      assert !s.infos[id].inTried ==> IsUntried(s, id);
    }
    KeysSplit(s);
    OrderIsFull(s);
    PassedRefs(s);
  }

  lemma PassedRefs(s: State)
    requires EntriesPass(s.infos, s.idOf, s.order) && TriedGood(s) && NewGood(s)
    ensures RefsCounted(s) && TimesOk(s)
  {
    forall id | id in s.infos
      ensures s.infos[id].refCount == |Holding(s.h, s.key, s.newTable, s.infos[id].service, id)|
    {
      assert EntryCode(s.infos[id], id, s.idOf, s.order) == 0;
      if s.infos[id].inTried {
        assert Holding(s.h, s.key, s.newTable, s.infos[id].service, id) == {};
      } else {
        assert IsUntried(s, id);
      }
    }
    forall id | id in s.infos ensures EntryCode(s.infos[id], id, s.idOf, s.order) == 0 {
    }
  }

  lemma FoundParts(s: State, tried: set<int>, news: map<int, int>)
    requires EntriesPass(s.infos, s.idOf, s.order)
    requires tried == set id | id in s.infos && s.infos[id].inTried
    requires news == map id | id in s.infos && !s.infos[id].inTried :: s.infos[id].refCount
    ensures tried == TriedIds(s) && news.Keys == NewIds(s) && RefsPositive(s)
  {
    forall id | IsUntried(s, id) ensures s.infos[id].refCount >= 1 {
      assert EntryCode(s.infos[id], id, s.idOf, s.order) == 0;
    }
  }

  lemma AddressesDoNotMatter(s: State, t: State)
    requires t == s.(idOf := t.idOf)
    ensures TriedGood(t) <==> TriedGood(s)
    ensures NewGood(t) <==> NewGood(s)
    ensures RefsPositive(t) <==> RefsPositive(s)
    ensures TriedIds(t) == TriedIds(s) && NewIds(t) == NewIds(s)
  {
  }

  /** A run the check rejects: an address added to a new manager and marked good at time 0. */
  method ZeroTimeRun(h: Hasher, key: Key, svc: Service, rnd: nat) returns (code: int)
    requires h.routable(svc.ip)
    ensures code == -1
  {
    var m := ZeroTimeManager(h, key, svc, rnd);
    code := CheckOnlyEntry(m);
  }

  method ZeroTimeManager(h: Hasher, key: Key, svc: Service, rnd: nat) returns (m: Manager)
    requires h.routable(svc.ip)
    ensures m.Shaped() && fresh(m) && m.infos.Keys == {0} && |m.order| == m.triedCount + m.newCount
    ensures EntryCode(m.infos[0], 0, m.idOf, m.order) == -1
  {
    m := AddedAndGood(h, key, svc, rnd);
    AddrManRuns.ZeroTimeBreaks(h, key, svc);
  }

  method AddedAndGood(h: Hasher, key: Key, svc: Service, rnd: nat) returns (m: Manager)
    requires h.routable(svc.ip)
    ensures m.Shaped() && fresh(m)
    ensures Consistent(Initial(h, key)) && Consistent(Add(Initial(h, key), Address(svc, 1, 0), 0, 0, 0, 0, 0))
    ensures m.Abs() == Good(Add(Initial(h, key), Address(svc, 1, 0), 0, 0, 0, 0, 0), svc, 0)
  {
    m := new Manager(h, key);
    var isNew := m.Add(Address(svc, 1, 0), 0, 0, 0, 0, 0);
    m.Good(svc, 0, rnd);
  }

  method CheckOnlyEntry(m: Manager) returns (code: int)
    requires m.Shaped() && m.infos.Keys == {0} && |m.order| == m.triedCount + m.newCount
    requires EntryCode(m.infos[0], 0, m.idOf, m.order) == -1
    modifies m`idOf
    ensures code == -1
  {
    code := Check(m);
  }
}
