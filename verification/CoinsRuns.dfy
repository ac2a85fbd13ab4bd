/** Whole runs on a stack of caches refine a stack of plain maps of unspent outputs. */
module CoinsRuns {
  import opened Basics
  import opened Coins
  import opened CoinsView

  /** The reference model: what a view shows, as one map. */
  type Shown = map<Txid, Coins>

  function Domain(v: View): set<Txid> {
    match v
    case Store(db) => db.Keys
    case Layer(cache, base) => cache.Keys + Domain(base)
  }

  function ShownBy(v: View): Shown {
    map t | t in Domain(v) && Showing(v, t).Some? :: Showing(v, t).value
  }

  lemma {:induction false} DomainCovers(v: View, t: Txid)
    ensures Lookup(v, t).Some? ==> t in Domain(v)
  {
    match v
    case Store(_) =>
    case Layer(cache, base) => DomainCovers(base, t);
  }

  lemma ShownMatches(v: View, t: Txid)
    ensures Get(ShownBy(v), t) == Showing(v, t)
  {
    DomainCovers(v, t);
  }

  /** Views that show the same for every transaction show the same map. */
  lemma SameShown(v: View, w: View)
    requires forall t :: Showing(v, t) == Showing(w, t)
    ensures ShownBy(v) == ShownBy(w)
  {
    forall t ensures Get(ShownBy(v), t) == Get(ShownBy(w), t) {
      ShownMatches(v, t);
      ShownMatches(w, t);
      assert Showing(v, t) == Showing(w, t);
    }
    GetDetermines(ShownBy(v), ShownBy(w));
  }

  lemma GetDetermines(m: Shown, n: Shown)
    requires forall t :: Get(m, t) == Get(n, t)
    ensures m == n
  {
    forall t ensures t in m <==> t in n {
      assert Get(m, t) == Get(n, t);
    }
    forall t | t in m ensures m[t] == n[t] {
      assert Get(m, t) == Get(n, t);
    }
  }

  /** What each layer shows, from the top of the stack down to the store. */
  function Levels(v: View): (r: seq<Shown>)
    ensures r != []
  {
    match v
    case Store(_) => [ShownBy(v)]
    case Layer(_, base) => [ShownBy(v)] + Levels(base)
  }

  // ---- operations ----

  datatype Op =
    | Push
    | Pop
    | Read(level: nat, t: Txid)
    | Change(t: Txid, f: Coins -> Coins)
    | FlushTop

  /** GetCoins on the view `level` layers below the top. */
  function FetchAt(v: View, level: nat, t: Txid): View {
    if level == 0 then Fetch(v, t)
    else match v
      case Store(_) => v
      case Layer(cache, base) => Layer(cache, FetchAt(base, level - 1, t))
  }

  function Apply(v: View, op: Op): View {
    match op
    case Push => Layer(map[], v)
    case Pop => if v.Layer? then v.base else v
    case Read(level, t) => FetchAt(v, level, t)
    case Change(t, f) => if v.Layer? then Modify(v, t, f) else v
    case FlushTop => if v.Layer? then Flush(v) else v
  }

  function Changed(m: Shown, t: Txid, f: Coins -> Coins): Shown {
    var c := Cleanup(f(if t in m then m[t] else EMPTY_COINS));
    if IsPruned(c) then m - {t} else m[t := c]
  }

  /** The same operations on the reference model: reads do nothing at all, and a flush copies
      the top map over the one below it. */
  function ApplyShown(levels: seq<Shown>, op: Op): (r: seq<Shown>)
    requires levels != []
    ensures r != []
  {
    match op
    case Push => [levels[0]] + levels
    case Pop => if |levels| > 1 then levels[1..] else levels
    case Read(_, _) => levels
    case Change(t, f) => if |levels| > 1 then levels[0 := Changed(levels[0], t, f)] else levels
    case FlushTop => if |levels| > 1 then levels[1 := levels[0]] else levels
  }

  /** A change that treats all fully spent coins alike. */
  ghost predicate Blind(f: Coins -> Coins) {
    forall c, d :: IsPruned(c) && IsPruned(d) ==> Visible(Some(Cleanup(f(c)))) == Visible(Some(Cleanup(f(d))))
  }

  /** Both changes block connection makes are of that kind: spending an output and writing all
      the outputs of a transaction (src/main.cpp:1799-1813). */
  function SpendChange(n: nat): Coins -> Coins {
    c => if Spend(c, n).Spent? then Spend(c, n).coins else c
  }

  lemma SpendIsBlind(n: nat)
    ensures Blind(SpendChange(n))
  {
    forall c | IsPruned(c) ensures Visible(Some(Cleanup(SpendChange(n)(c)))) == None {
      CleanupKeepsPruned(c);
    }
  }

  lemma WriteIsBlind(c: Coins)
    ensures Blind(_ => c)
  {
  }

  // ---- every operation keeps the flags right ----

  lemma {:induction false} FetchAtKeepsLookup(v: View, level: nat, t: Txid, u: Txid)
    ensures Lookup(FetchAt(v, level, t), u) == Lookup(v, u)
    ensures v.Layer? <==> FetchAt(v, level, t).Layer?
    ensures v.Layer? ==> v.cache.Keys <= FetchAt(v, level, t).cache.Keys
  {
    if level == 0 {
      FetchKeepsLookup(v, t, u);
    } else if v.Layer? {
      FetchAtKeepsLookup(v.base, level - 1, t, u);
    }
  }

  lemma {:induction false} FetchAtCoherent(v: View, level: nat, t: Txid)
    requires Coherent(v)
    ensures Coherent(FetchAt(v, level, t))
  {
    if level == 0 {
      FetchCoherent(v, t);
    } else if v.Layer? {
      FetchAtCoherent(v.base, level - 1, t);
      var w := FetchAt(v, level, t);
      forall u | u in w.cache ensures EntryOk(w.cache[u], w.base, u) {
        FetchAtKeepsLookup(v.base, level - 1, t, u);
        EntryOkMonotone(v.cache[u], v.base, w.base, u);
      }
    }
  }

  lemma ApplyCoherent(v: View, op: Op)
    requires Coherent(v)
    ensures Coherent(Apply(v, op))
  {
    match op
    case Push =>
    case Pop =>
    case Read(level, t) => FetchAtCoherent(v, level, t);
    case Change(t, f) => if v.Layer? { ModifyCoherent(v, t, f); }
    case FlushTop => if v.Layer? { FlushCoherent(v.cache, v.base); }
  }

  // ---- every operation refines its reference ----

  lemma {:induction false} LevelsFetchAt(v: View, level: nat, t: Txid)
    ensures Levels(FetchAt(v, level, t)) == Levels(v)
  {
    var w := FetchAt(v, level, t);
    forall u ensures Showing(w, u) == Showing(v, u) {
      FetchAtKeepsLookup(v, level, t, u);
    }
    SameShown(w, v);
    if v.Layer? {
      if level == 0 {
        if t !in v.cache { LevelsFetchAt(v.base, 0, t); }
      } else {
        LevelsFetchAt(v.base, level - 1, t);
      }
    }
  }

  lemma {:induction false} LevelsDepth(v: View)
    ensures |Levels(v)| > 1 <==> v.Layer?
    ensures Levels(v)[0] == ShownBy(v)
    ensures v.Layer? ==> Levels(v)[1..] == Levels(v.base) && Levels(v)[1] == ShownBy(v.base)
  {
  }

  lemma ChangeShown(v: View, t: Txid, f: Coins -> Coins)
    requires v.Layer? && Coherent(v) && Blind(f)
    ensures ShownBy(Modify(v, t, f)) == Changed(ShownBy(v), t, f)
  {
    var w := Modify(v, t, f);
    var m := Changed(ShownBy(v), t, f);
    forall u ensures Get(ShownBy(w), u) == Get(m, u) {
      ShownMatches(w, u);
      ShownMatches(v, u);
      ShownMatches(v, t);
      ModifyShows(v, t, f, u);
      ChangedEntry(v, t, f);
    }
    GetDetermines(ShownBy(w), m);
  }

  lemma ChangedEntry(v: View, t: Txid, f: Coins -> Coins)
    requires v.Layer? && Coherent(v) && Blind(f)
    ensures Get(Changed(ShownBy(v), t, f), t) == Visible(Some(Cleanup(f(EntryFor(v.cache, v.base, t).coins))))
  {
    ShownMatches(v, t);
    var e := EntryFor(v.cache, v.base, t);
    assert IsPruned(EMPTY_COINS);
    if IsPruned(e.coins) {
      assert Showing(v, t) == None;
    } else {
      assert Showing(v, t) == Some(e.coins);
    }
  }

  lemma ApplyRefines(v: View, op: Op)
    requires Coherent(v) && (op.Change? ==> Blind(op.f))
    ensures Levels(Apply(v, op)) == ApplyShown(Levels(v), op)
  {
    LevelsDepth(v);
    match op
    case Push => SameShown(Layer(map[], v), v);
    case Pop =>
    case Read(level, t) => LevelsFetchAt(v, level, t);
    case Change(t, f) =>
      if v.Layer? {
        ChangeShown(v, t, f);
        LevelsFetchAt(v.base, 0, t);
        LevelsDepth(Modify(v, t, f));
      }
    case FlushTop =>
      if v.Layer? {
        FlushRefines(v);
      }
  }

  lemma FlushRefines(v: View)
    requires v.Layer? && Coherent(v)
    ensures Levels(Flush(v)) == Levels(v)[1 := Levels(v)[0]]
  {
    LevelsDepth(v);
    var w := BatchWrite(v.base, v.cache);
    forall t ensures Showing(w, t) == Showing(v, t) {
      FlushMovesView(v.cache, v.base, t);
    }
    SameShown(w, v);
    SameShown(Flush(v), w);
    LevelsDepth(Flush(v));
    LevelsDepth(w);
    LevelsDepth(v.base);
  }

  // ---- runs ----

  function Run(v: View, ops: seq<Op>): View {
    if ops == [] then v else Apply(Run(v, ops[..|ops| - 1]), ops[|ops| - 1])
  }

  function RunShown(levels: seq<Shown>, ops: seq<Op>): (r: seq<Shown>)
    requires levels != []
    ensures r != []
  {
    if ops == [] then levels else ApplyShown(RunShown(levels, ops[..|ops| - 1]), ops[|ops| - 1])
  }

  /** On any run from a bare store the flags stay right, whatever the changes do. */
  lemma {:induction false} RunCoherent(db: map<Txid, Coins>, ops: seq<Op>)
    ensures Coherent(Run(Store(db), ops))
  {
    if ops != [] {
      RunCoherent(db, ops[..|ops| - 1]);
      ApplyCoherent(Run(Store(db), ops[..|ops| - 1]), ops[|ops| - 1]);
    }
  }

  /** On any run every layer of the stack shows exactly what the reference model holds there. */
  lemma {:induction false} RunRefines(db: map<Txid, Coins>, ops: seq<Op>)
    requires forall i :: 0 <= i < |ops| && ops[i].Change? ==> Blind(ops[i].f)
    ensures Levels(Run(Store(db), ops)) == RunShown(Levels(Store(db)), ops)
  {
    if ops != [] {
      RunRefines(db, ops[..|ops| - 1]);
      RunCoherent(db, ops[..|ops| - 1]);
      ApplyRefines(Run(Store(db), ops[..|ops| - 1]), ops[|ops| - 1]);
    }
  }

  /** Reading the top of any run's stack returns what the reference model holds. */
  lemma RunReads(db: map<Txid, Coins>, ops: seq<Op>, t: Txid)
    requires forall i :: 0 <= i < |ops| && ops[i].Change? ==> Blind(ops[i].f)
    ensures Visible(Lookup(Run(Store(db), ops), t)) == Get(RunShown(Levels(Store(db)), ops)[0], t)
  {
    RunRefines(db, ops);
    ShownMatches(Run(Store(db), ops), t);
    LevelsDepth(Run(Store(db), ops));
  }
}
