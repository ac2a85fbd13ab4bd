/** The cache objects themselves (src/coins.cpp): views linked to the view below them, whose
    entries are inserted, replaced and erased in place. */
module CoinsCache {
  import opened Basics
  import opened Coins
  import opened CoinsView

  class CoinsViewCache {
    /** The view below, or null when this object is the plain store at the bottom. */
    const base: CoinsViewCache?
    var store: map<Txid, Coins>
    var cacheCoins: Cache
    var hasModifier: bool
    ghost const repr: set<CoinsViewCache>

    ghost predicate Valid()
      decreases repr
    {
      && this in repr
      && (base != null ==> base in repr && base.repr == repr - {this} && this !in base.repr && base.Valid())
    }

    /** The whole stack from this view down, as a value. */
    ghost function Abs(): View
      requires Valid()
      reads repr
      decreases repr
    {
      if base == null then Store(store) else Layer(cacheCoins, base.Abs())
    }

    constructor Bottom(db: map<Txid, Coins>)
      ensures Valid() && fresh(repr) && Abs() == Store(db) && !hasModifier
    {
      base := null;
      store := db;
      cacheCoins := map[];
      hasModifier := false;
      repr := {this};
    }

    /** src/coins.cpp:81 */
    constructor OnTop(base: CoinsViewCache)
      requires base.Valid()
      ensures Valid() && this.base == base && fresh(this) && repr == base.repr + {this}
      ensures Abs() == Layer(map[], base.Abs()) && !hasModifier
    {
      this.base := base;
      store := map[];
      cacheCoins := map[];
      hasModifier := false;
      repr := base.repr + {this};
    }

    /** GetCoins with the caching of FetchCoins (src/coins.cpp:88-114); the store only looks up. */
    method GetCoins(t: Txid) returns (r: Option<Coins>)
      requires Valid()
      modifies repr`cacheCoins
      ensures r == Lookup(old(Abs()), t) && Abs() == Fetch(old(Abs()), t)
      decreases repr
    {
      if base == null {
        r := if t in store then Some(store[t]) else None;
      } else if t in cacheCoins {
        r := Some(cacheCoins[t].coins);
      } else {
        r := base.GetCoins(t);
        if r.Some? {
          cacheCoins := cacheCoins[t := Entry(r.value, false, false)];
          if IsPruned(r.value) {
            cacheCoins := cacheCoins[t := cacheCoins[t].(isFresh := true)];
          }
        }
      }
    }

    /** ModifyCoins, the modification `f` made through the modifier, and the modifier's
        destructor (src/coins.cpp:116-133, 265-279). */
    method ModifyCoins(t: Txid, f: Coins -> Coins)
      requires Valid() && base != null && !hasModifier
      modifies repr`cacheCoins, this`hasModifier
      ensures Abs() == Modify(old(Abs()), t, f) && !hasModifier
    {
      ThreeSteps(Abs(), t, f);
      BeginModify(t);
      Alter(t, f);
      EndModify(t);
    }

    /** The change made while the modifier is out. */
    method Alter(t: Txid, f: Coins -> Coins)
      requires Valid() && base != null && t in cacheCoins && !hasModifier
      modifies this`cacheCoins, this`hasModifier
      ensures Abs() == Altered(old(Abs()), t, f) && !hasModifier
    {
      hasModifier := true;
      cacheCoins := cacheCoins[t := cacheCoins[t].(coins := f(cacheCoins[t].coins))];
      hasModifier := false;
    }

    /** src/coins.cpp:118-131 */
    method BeginModify(t: Txid)
      requires Valid() && base != null
      modifies repr`cacheCoins
      ensures Abs() == Begun(old(Abs()), t)
    {
      if t !in cacheCoins {
        var r := base.GetCoins(t);
        if r.None? {
          cacheCoins := cacheCoins[t := Entry(EMPTY_COINS, false, true)];
        } else if IsPruned(r.value) {
          cacheCoins := cacheCoins[t := Entry(r.value, false, true)];
        } else {
          cacheCoins := cacheCoins[t := Entry(r.value, false, false)];
        }
      }
      cacheCoins := cacheCoins[t := cacheCoins[t].(isDirty := true)];
    }

    /** src/coins.cpp:275-278 */
    method EndModify(t: Txid)
      requires Valid() && base != null && t in cacheCoins
      modifies this`cacheCoins
      ensures Abs() == Ended(old(Abs()), t)
    {
      var c := CleanupLoop(cacheCoins[t].coins);
      cacheCoins := cacheCoins[t := cacheCoins[t].(coins := c)];
      if cacheCoins[t].isFresh && IsPruned(cacheCoins[t].coins) {
        cacheCoins := cacheCoins - {t};
      }
    }

    /** BatchWrite into this view (src/coins.cpp:167-202; src/txdb.cpp:55-68 for the store): the
        child's entries are taken in no particular order. */
    method BatchWriteFrom(child: Cache)
      requires Valid() && !hasModifier
      requires base != null ==>
        forall t :: t in child && child[t].isDirty && t !in cacheCoins && !IsPruned(child[t].coins) ==>
        child[t].isFresh
      modifies this`cacheCoins, this`store
      ensures Abs() == BatchWrite(old(Abs()), child)
    {
      if base == null {
        WriteStore(child);
      } else {
        WriteCache(child);
      }
    }

    /** src/txdb.cpp:20-26, 60-68 */
    method WriteCoins(t: Txid, e: Entry)
      modifies this`store
      ensures store == Put(old(store), t, MergeStore(Get(old(store), t), e))
    {
      if e.isDirty {
        if IsPruned(e.coins) {
          store := store - {t};
        } else {
          store := store[t := e.coins];
        }
      }
    }

    method WriteStore(child: Cache)
      requires Valid() && base == null
      modifies this`store
      ensures Store(store) == BatchWrite(Store(old(store)), child)
    {
      ghost var db := store;
      var todo := child;
      assert child - todo.Keys == map[];
      assert BatchWrite(Store(db), map[]) == Store(db);
      while todo.Keys != {}
        invariant todo.Keys <= child.Keys && forall t :: t in todo ==> todo[t] == child[t]
        invariant Store(store) == BatchWrite(Store(db), child - todo.Keys)
        decreases todo.Keys
      {
        var t :| t in todo.Keys;
        StoreStep(db, child, todo.Keys, t);
        WriteCoins(t, todo[t]);
        todo := todo - {t};
      }
      assert child - todo.Keys == child;
    }

    /** src/coins.cpp:171-195 */
    method TakeEntry(t: Txid, e: Entry)
      requires e.isDirty && t !in cacheCoins && !IsPruned(e.coins) ==> e.isFresh
      modifies this`cacheCoins
      ensures cacheCoins == Put(old(cacheCoins), t, Merge(Get(old(cacheCoins), t), e))
    {
      if e.isDirty {
        if t !in cacheCoins {
          if !IsPruned(e.coins) {
            assert e.isFresh;
            cacheCoins := cacheCoins[t := Entry(e.coins, true, true)];
          }
        } else if cacheCoins[t].isFresh && IsPruned(e.coins) {
          cacheCoins := cacheCoins - {t};
        } else {
          cacheCoins := cacheCoins[t := Entry(e.coins, true, cacheCoins[t].isFresh)];
        }
      }
    }

    method WriteCache(child: Cache)
      requires Valid() && base != null
      requires forall t :: t in child && child[t].isDirty && t !in cacheCoins && !IsPruned(child[t].coins) ==>
        child[t].isFresh
      modifies this`cacheCoins
      ensures forall b: View :: Layer(cacheCoins, b) == BatchWrite(Layer(old(cacheCoins), b), child)
    {
      ghost var ours := cacheCoins;
      var todo := child;
      assert child - todo.Keys == map[];
      assert Merged(ours, map[]) == ours;
      while todo.Keys != {}
        invariant todo.Keys <= child.Keys && forall t :: t in todo ==> todo[t] == child[t]
        invariant cacheCoins == Merged(ours, child - todo.Keys)
        decreases todo.Keys
      {
        var t :| t in todo.Keys;
        CacheStep(ours, child, todo.Keys, t);
        TakeEntry(t, todo[t]);
        todo := todo - {t};
      }
      assert child - todo.Keys == child;
    }

    /** src/coins.cpp:204-209 */
    method FlushDown()
      requires Valid() && base != null && !base.hasModifier && Coherent(Abs())
      modifies repr
      ensures Abs() == Flush(old(Abs())) && Coherent(Abs())
    {
      FlushCoherent(cacheCoins, base.Abs());
      base.BatchWriteFrom(cacheCoins);
      cacheCoins := map[];
    }
  }

  // ---- The three steps of a modification ----

  /** The entry is in the cache and dirty. */
  function Begun(v: View, t: Txid): (r: View)
    requires v.Layer?
    ensures r.Layer? && t in r.cache
  {
    Layer(v.cache[t := EntryFor(v.cache, v.base, t).(isDirty := true)],
          if t in v.cache then v.base else Fetch(v.base, t))
  }

  function Altered(v: View, t: Txid, f: Coins -> Coins): (r: View)
    requires v.Layer? && t in v.cache
    ensures r.Layer? && t in r.cache
  {
    Layer(v.cache[t := v.cache[t].(coins := f(v.cache[t].coins))], v.base)
  }

  function Ended(v: View, t: Txid): View
    requires v.Layer? && t in v.cache
  {
    Layer(Settle(v.cache - {t}, t, v.cache[t].(coins := Cleanup(v.cache[t].coins))), v.base)
  }

  lemma ThreeSteps(v: View, t: Txid, f: Coins -> Coins)
    requires v.Layer?
    ensures Ended(Altered(Begun(v, t), t, f), t) == Modify(v, t, f)
  {
  }

  /** src/coins.h:123-129 */
  method CleanupLoop(c: Coins) returns (r: Coins)
    ensures r == Cleanup(c)
  {
    var vout := c.vout;
    while |vout| > 0 && vout[|vout| - 1].IsNull()
      invariant Trimmed(vout) == Trimmed(c.vout)
    {
      vout := vout[..|vout| - 1];
    }
    r := c.(vout := vout);
  }

  /** A parent cache with the child's entries merged in. */
  ghost function Merged(ours: Cache, child: Cache): Cache {
    BatchWrite(Layer(ours, Store(map[])), child).cache
  }

  lemma CacheStep(ours: Cache, child: Cache, todo: set<Txid>, t: Txid)
    requires t in todo && t in child
    ensures Get(Merged(ours, child - todo), t) == Get(ours, t)
    ensures Merged(ours, child - (todo - {t})) == Put(Merged(ours, child - todo), t, Merge(Get(ours, t), child[t]))
  {
  }

  lemma StoreStep(db: map<Txid, Coins>, child: Cache, todo: set<Txid>, t: Txid)
    requires t in todo && t in child
    ensures Get(BatchWrite(Store(db), child - todo).db, t) == Get(db, t)
    ensures BatchWrite(Store(db), child - (todo - {t})) ==
      Store(Put(BatchWrite(Store(db), child - todo).db, t, MergeStore(Get(db, t), child[t])))
  {
  }
}
