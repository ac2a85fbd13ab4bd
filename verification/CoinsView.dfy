/** The layered write-back cache of unspent outputs (src/coins.cpp:88-209, 271-279): caches with
    DIRTY and FRESH flags stacked over a plain store, as values. */
module CoinsView {
  import opened Basics
  import opened Coins

  type Txid = nat

  datatype Entry = Entry(coins: Coins, isDirty: bool, isFresh: bool)

  type Cache = map<Txid, Entry>

  datatype View = Store(db: map<Txid, Coins>) | Layer(cache: Cache, base: View)

  // ---- reading ----

  /** What GetCoins returns (src/coins.cpp:106-114; src/txdb.cpp:37-40 for the store). */
  function Lookup(v: View, t: Txid): Option<Coins> {
    match v
    case Store(db) => if t in db then Some(db[t]) else None
    case Layer(cache, base) => if t in cache then Some(cache[t].coins) else Lookup(base, t)
  }

  function FetchedEntry(c: Coins): Entry {
    Entry(c, false, IsPruned(c))
  }

  /** The view after FetchCoins: what was found is now cached in every layer (src/coins.cpp:88-104). */
  function Fetch(v: View, t: Txid): View {
    match v
    case Store(_) => v
    case Layer(cache, base) =>
      if t in cache then v
      else match Lookup(base, t)
        case None => Layer(cache, Fetch(base, t))
        case Some(c) => Layer(cache[t := FetchedEntry(c)], Fetch(base, t))
  }

  // ---- modifying ----

  /** The entry ModifyCoins starts from (src/coins.cpp:119-130). */
  function EntryFor(cache: Cache, base: View, t: Txid): Entry {
    if t in cache then cache[t]
    else match Lookup(base, t)
      case None => Entry(EMPTY_COINS, false, true)
      case Some(c) => FetchedEntry(c)
  }

  /** What the modifier's destructor leaves: the cleaned-up coins, or nothing if the entry is
      fresh and fully spent (src/coins.cpp:271-279). */
  function Settle(cache: Cache, t: Txid, e: Entry): Cache {
    if e.isFresh && IsPruned(e.coins) then cache - {t} else cache[t := e]
  }

  function Modify(v: View, t: Txid, f: Coins -> Coins): View
    requires v.Layer?
  {
    var e := EntryFor(v.cache, v.base, t);
    var base := if t in v.cache then v.base else Fetch(v.base, t);
    Layer(Settle(v.cache, t, Entry(Cleanup(f(e.coins)), true, e.isFresh)), base)
  }

  // ---- flushing ----

  /** What one child entry does to a parent cache's entry (src/coins.cpp:171-195). */
  function Merge(ours: Option<Entry>, child: Entry): Option<Entry> {
    if !child.isDirty then ours
    else match ours
      case None => if IsPruned(child.coins) then None else Some(Entry(child.coins, true, true))
      case Some(e) =>
        if e.isFresh && IsPruned(child.coins) then None else Some(Entry(child.coins, true, e.isFresh))
  }

  /** What one child entry does to the store (src/txdb.cpp:20-26, 60-68). */
  function MergeStore(ours: Option<Coins>, child: Entry): Option<Coins> {
    if !child.isDirty then ours else if IsPruned(child.coins) then None else Some(child.coins)
  }

  function Get<V>(m: map<Txid, V>, t: Txid): Option<V> {
    if t in m then Some(m[t]) else None
  }

  function Put<V>(m: map<Txid, V>, t: Txid, v: Option<V>): map<Txid, V> {
    match v
    case None => m - {t}
    case Some(x) => m[t := x]
  }

  function MergedEntry(cache: Cache, child: Cache, t: Txid): Option<Entry> {
    if t in child then Merge(Get(cache, t), child[t]) else Get(cache, t)
  }

  function MergedCoins(db: map<Txid, Coins>, child: Cache, t: Txid): Option<Coins> {
    if t in child then MergeStore(Get(db, t), child[t]) else Get(db, t)
  }

  function BatchWrite(v: View, child: Cache): View {
    match v
    case Store(db) =>
      Store(map t | t in db.Keys + child.Keys && MergedCoins(db, child, t).Some? :: MergedCoins(db, child, t).value)
    case Layer(cache, base) =>
      Layer(map t | t in cache.Keys + child.Keys && MergedEntry(cache, child, t).Some? ::
              MergedEntry(cache, child, t).value, base)
  }

  /** src/coins.cpp:204-209 */
  function Flush(v: View): View
    requires v.Layer?
  {
    Layer(map[], BatchWrite(v.base, v.cache))
  }

  // ---- what a view means ----

  /** A coins value as others see it: fully spent is the same as absent. */
  function Visible(c: Option<Coins>): Option<Coins> {
    if c.Some? && !IsPruned(c.value) then c else None
  }

  /** The unspent outputs the view shows for a transaction. */
  function Showing(v: View, t: Txid): Option<Coins> {
    Visible(Lookup(v, t))
  }

  /** The flags tell the truth, at every layer: a FRESH entry has nothing unspent below it, a
      non-DIRTY one agrees with the view below, and a non-FRESH one over another cache is
      present in that cache. */
  ghost predicate Coherent(v: View) {
    v.Layer? ==>
      && Coherent(v.base)
      && forall t :: t in v.cache ==> EntryOk(v.cache[t], v.base, t)
  }

  ghost predicate EntryOk(e: Entry, base: View, t: Txid) {
    && (e.isFresh ==> Showing(base, t) == None)
    && (!e.isDirty ==> Visible(Some(e.coins)) == Showing(base, t))
    && (!e.isFresh && base.Layer? ==> t in base.cache)
  }

  // ---- reads are transparent ----

  lemma {:induction false} FetchKeepsLookup(v: View, t: Txid, u: Txid)
    ensures Lookup(Fetch(v, t), u) == Lookup(v, u)
    ensures Lookup(v, t).Some? && v.Layer? ==> Fetch(v, t).Layer? && t in Fetch(v, t).cache
    ensures v.Layer? ==> Fetch(v, t).Layer? && v.cache.Keys <= Fetch(v, t).cache.Keys
  {
    match v
    case Store(_) =>
    case Layer(cache, base) => FetchKeepsLookup(base, t, u);
  }

  /** A base that shows the same and caches no less keeps an entry right. */
  lemma EntryOkMonotone(e: Entry, base: View, base': View, t: Txid)
    requires EntryOk(e, base, t) && Showing(base', t) == Showing(base, t)
    requires base'.Layer? <==> base.Layer?
    requires base.Layer? ==> base.cache.Keys <= base'.cache.Keys
    ensures EntryOk(e, base', t)
  {
  }

  lemma {:induction false} FetchCoherent(v: View, t: Txid)
    requires Coherent(v)
    ensures Coherent(Fetch(v, t))
  {
    match v
    case Store(_) =>
    case Layer(cache, base) =>
      FetchCoherent(base, t);
      var w := Fetch(v, t);
      forall u | u in w.cache ensures EntryOk(w.cache[u], w.base, u) {
        FetchKeepsLookup(base, t, u);
        if u in cache {
          EntryOkMonotone(cache[u], base, w.base, u);
        }
      }
  }

  // ---- modifying changes one transaction ----

  lemma EntryForOk(cache: Cache, base: View, t: Txid)
    requires Coherent(Layer(cache, base))
    ensures EntryOk(EntryFor(cache, base, t), if t in cache then base else Fetch(base, t), t)
  {
    FetchKeepsLookup(base, t, t);
  }

  /** The view after a modification shows the modified coins there and the old ones elsewhere. */
  lemma ModifyShows(v: View, t: Txid, f: Coins -> Coins, u: Txid)
    requires v.Layer? && Coherent(v)
    ensures Showing(Modify(v, t, f), u) ==
      if u == t then Visible(Some(Cleanup(f(EntryFor(v.cache, v.base, t).coins)))) else Showing(v, u)
  {
    FetchKeepsLookup(v.base, t, u);
    EntryForOk(v.cache, v.base, t);
  }

  lemma ModifyCoherent(v: View, t: Txid, f: Coins -> Coins)
    requires v.Layer? && Coherent(v)
    ensures Coherent(Modify(v, t, f))
  {
    var w := Modify(v, t, f);
    EntryForOk(v.cache, v.base, t);
    if t !in v.cache { FetchCoherent(v.base, t); }
    forall u | u in w.cache ensures EntryOk(w.cache[u], w.base, u) {
      FetchKeepsLookup(v.base, t, u);
      if u != t {
        EntryOkMonotone(v.cache[u], v.base, w.base, u);
      }
    }
  }

  // ---- flushing moves the child's view into the parent ----

  /** The assertion of BatchWrite (src/coins.cpp:179). */
  lemma FlushAssertHolds(cache: Cache, parent: View, t: Txid)
    requires Coherent(Layer(cache, parent)) && parent.Layer?
    requires t in cache && cache[t].isDirty && t !in parent.cache && !IsPruned(cache[t].coins)
    ensures cache[t].isFresh
  {
  }

  lemma BatchWriteLookup(v: View, child: Cache, t: Txid)
    ensures v.Layer? ==> var w := BatchWrite(v, child);
      w.Layer? && w.base == v.base && Get(w.cache, t) == MergedEntry(v.cache, child, t)
    ensures v.Store? ==> var w := BatchWrite(v, child); w.Store? && Get(w.db, t) == MergedCoins(v.db, child, t)
  {
  }

  /** The parent's view after the flush is the child's view before it. */
  lemma FlushMovesView(cache: Cache, parent: View, t: Txid)
    requires Coherent(Layer(cache, parent))
    ensures Showing(BatchWrite(parent, cache), t) == Showing(Layer(cache, parent), t)
  {
    var w := BatchWrite(parent, cache);
    BatchWriteLookup(parent, cache, t);
    if t in cache { assert EntryOk(cache[t], parent, t); }
    match parent
    case Store(db) =>
      assert Lookup(w, t) == Get(w.db, t) && Lookup(parent, t) == Get(db, t);
    case Layer(ours, base) =>
      if t in ours { assert EntryOk(ours[t], base, t); }
      assert Lookup(w, t) == if t in w.cache then Some(w.cache[t].coins) else Lookup(base, t);
      assert Lookup(parent, t) == if t in ours then Some(ours[t].coins) else Lookup(base, t);
  }

  lemma FlushCoherent(cache: Cache, parent: View)
    requires Coherent(Layer(cache, parent))
    ensures Coherent(BatchWrite(parent, cache))
  {
    if parent.Layer? {
      var w := BatchWrite(parent, cache);
      assert w.base == parent.base;
      forall t | t in w.cache ensures EntryOk(w.cache[t], w.base, t) {
        BatchWriteLookup(parent, cache, t);
        if t in cache { assert EntryOk(cache[t], parent, t); }
        if t in parent.cache { assert EntryOk(parent.cache[t], parent.base, t); }
      }
    }
  }

  // ---- what is held where ----

  /** After a read every layer above the place where the coins were found holds them; nothing else
      comes or goes, and what is cached is marked FRESH exactly when it is fully spent. */
  lemma FetchCaches(cache: Cache, base: View, t: Txid, u: Txid)
    ensures var w := Fetch(Layer(cache, base), t);
      && w.Layer? && (u in w.cache <==> u in cache || (u == t && Lookup(base, t).Some?))
      && (u in cache ==> w.cache[u] == cache[u])
      && (u in w.cache && u !in cache ==>
            w.cache[u] == Entry(Lookup(base, u).value, false, IsPruned(Lookup(base, u).value)))
      && w.base == (if t in cache then base else Fetch(base, t))
  {
  }

  /** A change leaves a dirty entry, unless the coins are fully spent and were FRESH, so that nothing
      below has them. */
  lemma ModifyKeepsEntry(v: View, t: Txid, f: Coins -> Coins)
    requires v.Layer? && Coherent(v)
    ensures var w := Modify(v, t, f);
      && var e := EntryFor(v.cache, v.base, t);
      && (t !in w.cache <==> IsPruned(f(e.coins)) && e.isFresh)
      && (t !in w.cache ==> Showing(v.base, t) == None == Showing(w, t))
      && (t in w.cache ==> w.cache[t].isDirty)
  {
    EntryForOk(v.cache, v.base, t);
    CleanupKeepsPruned(f(EntryFor(v.cache, v.base, t).coins));
    FetchKeepsLookup(v.base, t, t);
  }

  /** Fully spent coins are erased from the store, never written to it. */
  lemma StoreHoldsNoPruned(db: map<Txid, Coins>, child: Cache)
    requires forall t :: t in db ==> !IsPruned(db[t])
    ensures var w := BatchWrite(Store(db), child).db;
      && (forall t :: t in w ==> !IsPruned(w[t]))
      && (forall t :: t in child && child[t].isDirty ==> (t in w <==> !IsPruned(child[t].coins)))
  {
  }
}
