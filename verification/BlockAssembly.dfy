/** The choice of pool transactions for a new block (src/miner.cpp:203-377): a priority queue of
    transactions ready to go in, and orphans that wait for transactions they spend from. */
module BlockAssembly {
  import opened Basics
  import SetFacts

  type TxId = nat

  datatype Tx = Tx(id: TxId, inputs: seq<Outpoint>, outs: seq<int>, size: nat, sigops: nat)

  /** The unspent outputs and their values. */
  type View = map<Outpoint, int>

  /** What the choice goes by: the limits, each transaction's priority and fee rate, whether it
      counts as free, which priorities go in free of charge, the signature operations behind
      script hashes, and the check of its inputs. */
  datatype Env = Env(maxSize: nat, minSize: nat, prioritySize: nat,
                     priority: TxId -> real, feeRate: TxId -> real, free: TxId -> bool, allowFree: real -> bool,
                     p2shSigops: (Tx, View) -> nat, check: (Tx, View) -> bool)

  const MAX_BLOCK_SIGOPS: nat := 2_000_000 / 50
  const HEADER_SIZE: nat := 1000
  const HEADER_SIGOPS: nat := 100

  /** The mempool, the transactions in it that may go into this block, and the chain's view. */
  datatype Pool = Pool(txs: map<TxId, Tx>, final: set<TxId>, view: View)

  predicate HaveCoins(v: View, h: TxId) {
    exists o :: o in v && o.txid == h
  }

  predicate HaveInputs(v: View, t: Tx) {
    forall i :: 0 <= i < |t.inputs| ==> t.inputs[i] in v
  }

  /** The pool transactions a transaction has to wait for. */
  function Deps(p: Pool, t: Tx): set<TxId> {
    set i | 0 <= i < |t.inputs| && !HaveCoins(p.view, t.inputs[i].txid) :: t.inputs[i].txid
  }

  /** Neither in the chain nor in the pool. */
  predicate Missing(p: Pool, h: TxId) {
    !HaveCoins(p.view, h) && h !in p.txs
  }

  /** Every input is in the chain or spends a pool transaction; others are passed over. */
  predicate Connects(p: Pool, t: Tx) {
    forall i :: 0 <= i < |t.inputs| ==> !Missing(p, t.inputs[i].txid)
  }

  /** Where the first missing input stands, or the number of inputs. */
  function FirstMissing(p: Pool, t: Tx): (n: nat)
    ensures n <= |t.inputs| && (n < |t.inputs| ==> Missing(p, t.inputs[n].txid))
    ensures forall i :: 0 <= i < n ==> !Missing(p, t.inputs[i].txid)
  {
    MissingFrom(p, t, 0)
  }

  function MissingFrom(p: Pool, t: Tx, k: nat): (n: nat)
    requires k <= |t.inputs|
    ensures k <= n <= |t.inputs| && (n < |t.inputs| ==> Missing(p, t.inputs[n].txid))
    ensures forall i :: k <= i < n ==> !Missing(p, t.inputs[i].txid)
    decreases |t.inputs| - k
  {
    if k == |t.inputs| || Missing(p, t.inputs[k].txid) then k else MissingFrom(p, t, k + 1)
  }

  /** Every input before the first missing one is in the chain. */
  predicate MissesFirst(p: Pool, t: Tx) {
    forall i :: 0 <= i < FirstMissing(p, t) ==> HaveCoins(p.view, t.inputs[i].txid)
  }

  /** The dependencies among the first `n` inputs. */
  function DepsUpTo(p: Pool, t: Tx, n: nat): set<TxId>
    requires n <= |t.inputs|
  {
    set i | 0 <= i < n && !HaveCoins(p.view, t.inputs[i].txid) :: t.inputs[i].txid
  }

  /** What a transaction is registered under: its dependencies before the first missing input. */
  function Registrations(p: Pool, t: Tx): set<TxId> {
    DepsUpTo(p, t, FirstMissing(p, t))
  }

  lemma ConnectedRegistrations(p: Pool, t: Tx)
    requires Connects(p, t)
    ensures Registrations(p, t) == Deps(p, t)
  {
    assert FirstMissing(p, t) == |t.inputs|;
  }

  /** Keys match. */
  predicate WellFormed(p: Pool) {
    (forall k :: k in p.txs ==> p.txs[k].id == k) && p.final <= p.txs.Keys
  }

  /** A transaction that was passed over is still registered under `h`: the source keeps a pointer
      to the orphan it has removed. */
  predicate HasStray(p: Pool, h: TxId) {
    exists i :: i in p.final && i in p.txs && !Connects(p, p.txs[i]) && h in Registrations(p, p.txs[i])
  }

  function Outputs(t: Tx): View {
    map o | o in (set i | 0 <= i < |t.outs| :: Outpoint(t.id, i)) :: t.outs[o.n]
  }

  function Spent(t: Tx): set<Outpoint> {
    set i | 0 <= i < |t.inputs| :: t.inputs[i]
  }

  /** UpdateCoins: the inputs are spent, the outputs become available. */
  function Apply(v: View, t: Tx): View {
    (v - Spent(t)) + Outputs(t)
  }

  function ApplyAll(v: View, ts: seq<Tx>): View {
    if ts == [] then v else Apply(ApplyAll(v, ts[..|ts| - 1]), ts[|ts| - 1])
  }

  function ValueIn(v: View, inputs: seq<Outpoint>): int {
    if inputs == [] then 0
    else
      var o := inputs[|inputs| - 1];
      ValueIn(v, inputs[..|inputs| - 1]) + if o in v then v[o] else 0
  }

  function SumOf(vs: seq<int>): int {
    if vs == [] then 0 else SumOf(vs[..|vs| - 1]) + vs[|vs| - 1]
  }

  function Fee(v: View, t: Tx): int {
    ValueIn(v, t.inputs) - SumOf(t.outs)
  }

  // ---- The state of the selection ----

  /** `waiting` holds the setDependsOn of each orphan, `dependers` the orphans registered under
      each transaction (an orphan once per input it spends there), `heap` the transactions ready;
      `popped` records those taken off the heap, `followed` whether an orphan already removed was
      read. */
  datatype State = State(view: View, block: seq<Tx>, size: nat, sigops: nat, fees: int, byFee: bool,
                         heap: seq<TxId>, waiting: map<TxId, set<TxId>>, dependers: map<TxId, seq<TxId>>,
                         popped: set<TxId>, followed: bool)

  function Ids(ts: seq<Tx>): set<TxId> {
    set i | 0 <= i < |ts| :: ts[i].id
  }

  function InHeap(heap: seq<TxId>): set<TxId> {
    set i | 0 <= i < |heap| :: heap[i]
  }

  /** Releasing the orphans registered in `ds` from the transaction `h` (src/miner.cpp:365-376). */
  datatype Released = Released(waiting: map<TxId, set<TxId>>, heap: seq<TxId>)

  function Release(waiting: map<TxId, set<TxId>>, heap: seq<TxId>, ds: seq<TxId>, h: TxId): (r: Released)
    ensures r.waiting.Keys == waiting.Keys
  {
    if ds == [] then Released(waiting, heap)
    else
      var r := Release(waiting, heap, ds[..|ds| - 1], h);
      var o := ds[|ds| - 1];
      if o !in r.waiting || r.waiting[o] == {} then r
      else
        var left := r.waiting[o] - {h};
        Released(r.waiting[o := left], if left == {} then r.heap + [o] else r.heap)
  }

  function At(d: map<TxId, seq<TxId>>, h: TxId): seq<TxId> {
    if h in d then d[h] else []
  }

  function DependersOf(s: State, h: TxId): seq<TxId> {
    At(s.dependers, h)
  }

  /** An entry among the dependers is no orphan any more. */
  predicate FollowsStray(s: State, h: TxId) {
    StrayIn(s.waiting, DependersOf(s, h))
  }

  predicate StrayIn(waiting: map<TxId, set<TxId>>, ds: seq<TxId>) {
    exists k :: 0 <= k < |ds| && ds[k] !in waiting
  }

  function Include(s: State, t: Tx, sigops: nat): State {
    var r := Release(s.waiting, s.heap, DependersOf(s, t.id), t.id);
    s.(view := Apply(s.view, t), block := s.block + [t], size := s.size + t.size, sigops := s.sigops + sigops,
       fees := s.fees + Fee(s.view, t), heap := r.heap, waiting := r.waiting,
       followed := s.followed || FollowsStray(s, t.id))
  }

  /** Whether the size, the signature operations and the fee let a transaction be looked at
      further (src/miner.cpp:303-320). */
  predicate FirstLook(s: State, t: Tx, e: Env) {
    s.size + t.size < e.maxSize &&
    s.sigops + t.sigops < MAX_BLOCK_SIGOPS &&
    !(s.byFee && e.free(t.id) && s.size + t.size >= e.minSize)
  }

  /** Whether the order changes to fee rates here (src/miner.cpp:322-329). */
  predicate TurnsToFees(s: State, t: Tx, e: Env) {
    !s.byFee && (s.size + t.size >= e.prioritySize || !e.allowFree(e.priority(t.id)))
  }

  function AllSigops(s: State, t: Tx, e: Env): nat {
    t.sigops + e.p2shSigops(t, s.view)
  }

  predicate SecondLook(s: State, t: Tx, e: Env) {
    HaveInputs(s.view, t) && s.sigops + AllSigops(s, t, e) < MAX_BLOCK_SIGOPS && e.check(t, s.view)
  }

  /** One turn of the loop on the transaction `t` just taken off the heap. */
  function Process(s: State, t: Tx, e: Env): State {
    if !FirstLook(s, t, e) then s
    else
      var s1 := if TurnsToFees(s, t, e) then s.(byFee := true) else s;
      if SecondLook(s1, t, e) then Include(s1, t, AllSigops(s1, t, e)) else s1
  }

  function Removed(heap: seq<TxId>, k: nat): seq<TxId>
    requires k < |heap|
  {
    heap[..k] + heap[k + 1..]
  }

  function Pop(s: State, k: nat): State
    requires k < |s.heap|
  {
    s.(heap := Removed(s.heap, k), popped := s.popped + {s.heap[k]})
  }

  // ---- The invariant ----

  ghost predicate Ready(p: Pool, block: seq<Tx>, i: TxId) {
    i in p.final && i in p.txs && Connects(p, p.txs[i]) && Deps(p, p.txs[i]) <= Ids(block)
  }

  ghost predicate IsOrphan(p: Pool, i: TxId) {
    i in p.final && i in p.txs && Connects(p, p.txs[i]) && Deps(p, p.txs[i]) != {}
  }

  /** Each orphan waits for those of its dependencies that are not in the block yet. */
  ghost predicate WaitsRight(p: Pool, s: State) {
    forall i :: i in s.waiting <==> IsOrphan(p, i)
  }

  ghost predicate WaitSets(p: Pool, s: State) {
    forall i :: i in s.waiting && i in p.txs ==> s.waiting[i] == Deps(p, p.txs[i]) - Ids(s.block)
  }

  predicate IsRegistered(p: Pool, h: TxId, o: TxId) {
    o in p.final && o in p.txs && h in Registrations(p, p.txs[o])
  }

  ghost predicate Registered(p: Pool, dependers: map<TxId, seq<TxId>>) {
    forall h, o :: o in At(dependers, h) <==> IsRegistered(p, h, o)
  }

  /** What is on the heap or was taken off it is what is ready; nothing is there twice. */
  ghost predicate HeapRight(p: Pool, s: State) {
    SetFacts.Distinct(s.heap) && InHeap(s.heap) !! s.popped &&
    forall i :: i in InHeap(s.heap) || i in s.popped <==> Ready(p, s.block, i)
  }

  ghost predicate BlockRight(p: Pool, s: State) {
    Ids(s.block) <= s.popped &&
    (forall i :: 0 <= i < |s.block| ==> s.block[i].id in p.txs && s.block[i] == p.txs[s.block[i].id]) &&
    (forall i, j :: 0 <= i < j < |s.block| ==> s.block[i].id != s.block[j].id)
  }

  /** In every position the inputs are available from the chain and the transactions before. */
  ghost predicate Connected(v: View, ts: seq<Tx>) {
    forall i :: 0 <= i < |ts| ==> HaveInputs(ApplyAll(v, ts[..i]), ts[i])
  }

  function SizeOf(ts: seq<Tx>): nat {
    if ts == [] then 0 else SizeOf(ts[..|ts| - 1]) + ts[|ts| - 1].size
  }

  function SigopsOf(v: View, ts: seq<Tx>, e: Env): nat {
    if ts == [] then 0
    else
      var t := ts[|ts| - 1];
      SigopsOf(v, ts[..|ts| - 1], e) + t.sigops + e.p2shSigops(t, ApplyAll(v, ts[..|ts| - 1]))
  }

  function FeesOf(v: View, ts: seq<Tx>): int {
    if ts == [] then 0
    else FeesOf(v, ts[..|ts| - 1]) + Fee(ApplyAll(v, ts[..|ts| - 1]), ts[|ts| - 1])
  }

  ghost predicate TotalsRight(p: Pool, s: State, e: Env) {
    s.view == ApplyAll(p.view, s.block) && Connected(p.view, s.block) &&
    s.size == HEADER_SIZE + SizeOf(s.block) &&
    s.sigops == HEADER_SIGOPS + SigopsOf(p.view, s.block, e) &&
    s.fees == FeesOf(p.view, s.block) &&
    (s.block != [] ==> s.size < e.maxSize && s.sigops < MAX_BLOCK_SIGOPS)
  }

  /** A removed orphan is read exactly when the last transaction put in has one registered. */
  ghost predicate FollowRight(p: Pool, s: State) {
    (s.followed ==> s.block != []) &&
    forall i :: 0 <= i < |s.block| ==> (HasStray(p, s.block[i].id) <==> s.followed && i == |s.block| - 1)
  }

  ghost predicate Inv(p: Pool, s: State, e: Env) {
    WaitsRight(p, s) && WaitSets(p, s) && Registered(p, s.dependers) &&
    HeapRight(p, s) && BlockRight(p, s) && TotalsRight(p, s, e) && FollowRight(p, s)
  }

  // ---- Releasing orphans ----

  /** Orphans on the heap wait for nothing any more. */
  ghost predicate HeapFree(waiting: map<TxId, set<TxId>>, heap: seq<TxId>) {
    forall k :: 0 <= k < |heap| && heap[k] in waiting ==> waiting[heap[k]] == {}
  }

  function Freed(waiting: map<TxId, set<TxId>>, ds: seq<TxId>, h: TxId): set<TxId> {
    set o | o in ds && o in waiting && waiting[o] != {} && waiting[o] - {h} == {}
  }

  lemma {:induction false} ReleaseWaiting(waiting: map<TxId, set<TxId>>, heap: seq<TxId>, ds: seq<TxId>, h: TxId,
      o: TxId)
    requires o in waiting
    ensures Release(waiting, heap, ds, h).waiting[o] == if o in ds then waiting[o] - {h} else waiting[o]
  {
    if ds != [] {
      var front, last := ds[..|ds| - 1], ds[|ds| - 1];
      ReleaseWaiting(waiting, heap, front, h, o);
      assert ds == front + [last];
    }
  }

  lemma {:induction false} ReleaseHeap(waiting: map<TxId, set<TxId>>, heap: seq<TxId>, ds: seq<TxId>, h: TxId)
    requires HeapFree(waiting, heap) && SetFacts.Distinct(heap)
    ensures var r := Release(waiting, heap, ds, h);
            HeapFree(r.waiting, r.heap) && SetFacts.Distinct(r.heap) &&
            InHeap(r.heap) == InHeap(heap) + Freed(waiting, ds, h)
  {
    if ds == [] {
      assert Freed(waiting, ds, h) == {};
    } else {
      var front, o := ds[..|ds| - 1], ds[|ds| - 1];
      ReleaseHeap(waiting, heap, front, h);
      assert ds == front + [o];
      if o in waiting {
        ReleaseWaiting(waiting, heap, front, h, o);
      }
      ReleaseOne(waiting, heap, front, o, h, Release(waiting, heap, front, h), Release(waiting, heap, ds, h));
    }
  }

  lemma ReleaseOne(waiting: map<TxId, set<TxId>>, heap: seq<TxId>, front: seq<TxId>, o: TxId, h: TxId, r: Released,
      q: Released)
    requires r.waiting.Keys == waiting.Keys
    requires o in waiting ==> r.waiting[o] == if o in front then waiting[o] - {h} else waiting[o]
    requires HeapFree(r.waiting, r.heap) && SetFacts.Distinct(r.heap)
    requires InHeap(r.heap) == InHeap(heap) + Freed(waiting, front, h)
    requires q == if o !in r.waiting || r.waiting[o] == {} then r
                  else Released(r.waiting[o := r.waiting[o] - {h}],
                                if r.waiting[o] - {h} == {} then r.heap + [o] else r.heap)
    ensures HeapFree(q.waiting, q.heap) && SetFacts.Distinct(q.heap)
    ensures InHeap(q.heap) == InHeap(heap) + Freed(waiting, front + [o], h)
  {
    FreedStep(waiting, front, o, h);
    if o in r.waiting && r.waiting[o] != {} && r.waiting[o] - {h} == {} {
      HeapGrows(r.heap, o);
      assert o !in r.heap;
    }
  }

  lemma FreedStep(waiting: map<TxId, set<TxId>>, front: seq<TxId>, o: TxId, h: TxId)
    ensures Freed(waiting, front + [o], h) == Freed(waiting, front, h) +
            (if o in waiting && waiting[o] != {} && waiting[o] - {h} == {} then {o} else {})
  {
  }

  lemma HeapGrows(heap: seq<TxId>, o: TxId)
    ensures InHeap(heap + [o]) == InHeap(heap) + {o}
  {
    assert (heap + [o])[|heap|] == o;
    forall i | 0 <= i < |heap| ensures (heap + [o])[i] == heap[i] {}
  }

  lemma IdsGrow(ts: seq<Tx>, t: Tx)
    ensures Ids(ts + [t]) == Ids(ts) + {t.id}
  {
    assert (ts + [t])[|ts|] == t;
    forall i | 0 <= i < |ts| ensures (ts + [t])[i] == ts[i] {}
  }

  // ---- Taking one off ----

  lemma RemovedProps(heap: seq<TxId>, k: nat)
    requires k < |heap| && SetFacts.Distinct(heap)
    ensures SetFacts.Distinct(Removed(heap, k)) && InHeap(Removed(heap, k)) == InHeap(heap) - {heap[k]}
  {
    var r := Removed(heap, k);
    forall i | 0 <= i < |heap| && i != k ensures heap[i] in InHeap(r) {
      assert heap[i] == r[if i < k then i else i - 1];
    }
    forall i | 0 <= i < |r| ensures r[i] in InHeap(heap) && r[i] != heap[k] {
      assert r[i] == heap[if i < k then i else i + 1];
    }
  }

  lemma PopHeap(p: Pool, s: State, k: nat)
    requires HeapRight(p, s) && k < |s.heap|
    ensures HeapRight(p, Pop(s, k)) && s.heap[k] !in s.popped && Ready(p, s.block, s.heap[k])
  {
    RemovedProps(s.heap, k);
    assert s.heap[k] in InHeap(s.heap);
  }

  // ---- Putting one into the block ----

  lemma IncludeWaits(p: Pool, s: State, t: Tx, sigops: nat)
    requires WaitsRight(p, s) && WaitSets(p, s) && Registered(p, s.dependers)
    ensures WaitsRight(p, Include(s, t, sigops)) && WaitSets(p, Include(s, t, sigops))
  {
    var q := Include(s, t, sigops);
    IdsGrow(s.block, t);
    forall i | i in q.waiting && i in p.txs ensures q.waiting[i] == Deps(p, p.txs[i]) - Ids(q.block) {
      ReleaseWaiting(s.waiting, s.heap, DependersOf(s, t.id), t.id, i);
      assert IsOrphan(p, i);
    }
  }

  /** What becomes ready with `t` in the block is what is freed. */
  lemma BecomesReady(p: Pool, s: State, t: Tx, i: TxId)
    requires WaitsRight(p, s) && WaitSets(p, s) && Registered(p, s.dependers) && t.id !in Ids(s.block)
    ensures Ready(p, s.block + [t], i) <==>
            Ready(p, s.block, i) || i in Freed(s.waiting, DependersOf(s, t.id), t.id)
    ensures i in Freed(s.waiting, DependersOf(s, t.id), t.id) ==> !Ready(p, s.block, i)
  {
    IdsGrow(s.block, t);
    if Ready(p, s.block + [t], i) && !Ready(p, s.block, i) {
      assert t.id in Deps(p, p.txs[i]);
      ConnectedRegistrations(p, p.txs[i]);
      assert IsRegistered(p, t.id, i);
      assert IsOrphan(p, i);
      assert s.waiting[i] == Deps(p, p.txs[i]) - Ids(s.block);
      assert t.id in s.waiting[i];
    }
    if i in Freed(s.waiting, DependersOf(s, t.id), t.id) {
      assert IsOrphan(p, i);
      assert s.waiting[i] == Deps(p, p.txs[i]) - Ids(s.block);
    }
  }

  lemma HeapIsFree(p: Pool, s: State)
    requires WaitSets(p, s) && HeapRight(p, s)
    ensures HeapFree(s.waiting, s.heap)
  {
    forall k | 0 <= k < |s.heap| && s.heap[k] in s.waiting ensures s.waiting[s.heap[k]] == {} {
      assert s.heap[k] in InHeap(s.heap);
      assert Ready(p, s.block, s.heap[k]);
    }
  }

  lemma IncludeHeap(p: Pool, s: State, t: Tx, sigops: nat)
    requires WaitsRight(p, s) && WaitSets(p, s) && Registered(p, s.dependers) && HeapRight(p, s)
    requires t.id !in Ids(s.block)
    ensures HeapRight(p, Include(s, t, sigops))
  {
    var q := Include(s, t, sigops);
    HeapIsFree(p, s);
    ReleaseHeap(s.waiting, s.heap, DependersOf(s, t.id), t.id);
    var freed := Freed(s.waiting, DependersOf(s, t.id), t.id);
    assert InHeap(q.heap) == InHeap(s.heap) + freed;
    forall i ensures i in InHeap(q.heap) || i in q.popped <==> Ready(p, q.block, i) {
      BecomesReady(p, s, t, i);
    }
    forall i | i in freed ensures i !in s.popped {
      BecomesReady(p, s, t, i);
    }
  }

  lemma IncludeBlock(p: Pool, s: State, t: Tx, sigops: nat)
    requires BlockRight(p, s) && t.id in p.txs && t == p.txs[t.id] && t.id !in Ids(s.block) && t.id in s.popped
    ensures BlockRight(p, Include(s, t, sigops))
  {
    var q := Include(s, t, sigops);
    IdsGrow(s.block, t);
    forall i, j | 0 <= i < j < |q.block| ensures q.block[i].id != q.block[j].id {
      assert s.block[i].id in Ids(s.block);
    }
  }

  lemma IncludeTotals(p: Pool, s: State, t: Tx, e: Env)
    requires TotalsRight(p, s, e) && SecondLook(s, t, e) && s.size + t.size < e.maxSize
    ensures TotalsRight(p, Include(s, t, AllSigops(s, t, e)), e)
  {
    var q := Include(s, t, AllSigops(s, t, e));
    assert q.block[..|q.block| - 1] == s.block;
    ConnectedGrows(p.view, s.block, t);
  }

  lemma ConnectedGrows(v: View, ts: seq<Tx>, t: Tx)
    requires Connected(v, ts) && HaveInputs(ApplyAll(v, ts), t)
    ensures Connected(v, ts + [t])
  {
    var us := ts + [t];
    forall i | 0 <= i < |us| ensures HaveInputs(ApplyAll(v, us[..i]), us[i]) {
      assert us[..i] == ts[..i];
      assert i == |ts| ==> ts[..i] == ts;
    }
  }

  /** Among the dependers of a transaction a removed orphan stands exactly when one was left there. */
  lemma StrayIsFollowed(p: Pool, s: State, h: TxId)
    requires WaitsRight(p, s) && Registered(p, s.dependers)
    ensures FollowsStray(s, h) <==> HasStray(p, h)
  {
    var ds := DependersOf(s, h);
    if k :| 0 <= k < |ds| && ds[k] !in s.waiting {
      assert ds[k] in At(s.dependers, h);
      assert IsRegistered(p, h, ds[k]);
      RegisteredOrphan(p, h, ds[k]);
    }
    if i :| i in p.final && i in p.txs && !Connects(p, p.txs[i]) && h in Registrations(p, p.txs[i]) {
      assert IsRegistered(p, h, i);
      assert i in ds;
      assert i !in s.waiting;
    }
  }

  lemma RegisteredOrphan(p: Pool, h: TxId, o: TxId)
    requires IsRegistered(p, h, o)
    ensures Connects(p, p.txs[o]) ==> IsOrphan(p, o)
  {
    if Connects(p, p.txs[o]) {
      ConnectedRegistrations(p, p.txs[o]);
    }
  }

  lemma IncludeFollows(p: Pool, s: State, t: Tx, sigops: nat)
    requires WaitsRight(p, s) && Registered(p, s.dependers) && FollowRight(p, s) && !s.followed
    ensures FollowRight(p, Include(s, t, sigops))
  {
    StrayIsFollowed(p, s, t.id);
  }

  // ---- One turn of the loop ----

  lemma FlagIsFree(p: Pool, s: State, e: Env)
    requires Inv(p, s, e)
    ensures Inv(p, s.(byFee := true), e)
  {
  }

  lemma PopKeeps(p: Pool, s: State, e: Env, k: nat)
    requires Inv(p, s, e) && k < |s.heap|
    ensures Inv(p, Pop(s, k), e)
    ensures s.heap[k] !in Ids(s.block) && s.heap[k] in p.txs && s.heap[k] in Pop(s, k).popped
  {
    PopHeap(p, s, k);
  }

  lemma IncludeKeeps(p: Pool, s: State, t: Tx, e: Env)
    requires Inv(p, s, e) && !s.followed && SecondLook(s, t, e) && s.size + t.size < e.maxSize
    requires t.id in p.txs && t == p.txs[t.id] && t.id !in Ids(s.block) && t.id in s.popped
    ensures Inv(p, Include(s, t, AllSigops(s, t, e)), e)
  {
    IncludeWaits(p, s, t, AllSigops(s, t, e));
    IncludeHeap(p, s, t, AllSigops(s, t, e));
    IncludeBlock(p, s, t, AllSigops(s, t, e));
    IncludeTotals(p, s, t, e);
    IncludeFollows(p, s, t, AllSigops(s, t, e));
  }

  /** Every turn keeps the invariant, whichever transaction the heap gives. */
  lemma TurnKeeps(p: Pool, s: State, e: Env, k: nat)
    requires WellFormed(p) && Inv(p, s, e) && !s.followed && k < |s.heap|
    ensures s.heap[k] in p.txs && Inv(p, Process(Pop(s, k), p.txs[s.heap[k]], e), e)
    ensures Process(Pop(s, k), p.txs[s.heap[k]], e).popped == s.popped + {s.heap[k]}
    ensures s.heap[k] !in s.popped && s.heap[k] in p.final
  {
    PopKeeps(p, s, e, k);
    PopHeap(p, s, k);
    ProcessKeeps(p, Pop(s, k), p.txs[s.heap[k]], e);
  }

  lemma ProcessKeeps(p: Pool, s: State, t: Tx, e: Env)
    requires !s.followed && Inv(p, s, e) && t.id in p.txs && t == p.txs[t.id] && t.id !in Ids(s.block)
    requires t.id in s.popped
    ensures Inv(p, Process(s, t, e), e) && Process(s, t, e).popped == s.popped
  {
    if FirstLook(s, t, e) {
      var s1 := if TurnsToFees(s, t, e) then s.(byFee := true) else s;
      FlagIsFree(p, s, e);
      if SecondLook(s1, t, e) {
        IncludeKeeps(p, s1, t, e);
      }
    }
  }

  // ---- What the block is like ----

  /** An output available after some transactions was there before or is theirs. */
  lemma {:induction false} ComesFrom(v: View, ts: seq<Tx>, o: Outpoint)
    requires o in ApplyAll(v, ts)
    ensures o in v || exists j :: 0 <= j < |ts| && o in Outputs(ts[j])
  {
    if ts != [] && o !in Outputs(ts[|ts| - 1]) {
      ComesFrom(v, ts[..|ts| - 1], o);
    }
  }

  /** An output spent along the way and not created again is gone. */
  lemma {:induction false} SpentIsGone(v: View, ts: seq<Tx>, j: nat, o: Outpoint)
    requires j < |ts| && o in Spent(ts[j])
    requires forall k :: j <= k < |ts| ==> o !in Outputs(ts[k])
    ensures o !in ApplyAll(v, ts)
  {
    var n := |ts| - 1;
    assert o !in Outputs(ts[n]);
    if j < n {
      SpentIsGone(v, ts[..n], j, o);
    }
  }

  /** Every input of a transaction in the block comes from the chain or from a transaction
      before it. */
  lemma InputsAvailable(p: Pool, s: State, e: Env, i: nat, n: nat)
    requires Inv(p, s, e) && i < |s.block| && n < |s.block[i].inputs|
    ensures s.block[i].inputs[n] in p.view || exists j :: 0 <= j < i && s.block[i].inputs[n] in Outputs(s.block[j])
  {
    var o := s.block[i].inputs[n];
    assert HaveInputs(ApplyAll(p.view, s.block[..i]), s.block[i]);
    ComesFrom(p.view, s.block[..i], o);
    if o !in p.view {
      var j :| 0 <= j < i && o in Outputs(s.block[..i][j]);
      assert o in Outputs(s.block[j]);
    }
  }

  /** Pool transactions a transaction depends on stand before it. */
  lemma ParentsFirst(p: Pool, s: State, e: Env, i: nat, h: TxId)
    requires Inv(p, s, e) && i < |s.block| && h in Deps(p, s.block[i])
    ensures exists j :: 0 <= j < i && s.block[j].id == h
  {
    var n :| 0 <= n < |s.block[i].inputs| && s.block[i].inputs[n].txid == h && !HaveCoins(p.view, h);
    InputsAvailable(p, s, e, i, n);
    var j :| 0 <= j < i && s.block[i].inputs[n] in Outputs(s.block[j]);
    assert s.block[j].id == h;
  }

  predicate NotInChain(p: Pool) {
    forall k :: k in p.txs ==> !HaveCoins(p.view, k)
  }

  /** No output is spent twice in the block. */
  lemma NoDoubleSpend(p: Pool, s: State, e: Env, i: nat, j: nat, o: Outpoint)
    requires Inv(p, s, e) && NotInChain(p) && i < j < |s.block| && o in Spent(s.block[i])
    ensures o !in Spent(s.block[j])
  {
    forall k | i <= k < j ensures o !in Outputs(s.block[..j][k]) {
      NotCreatedAgain(p, s, e, i, k, o);
    }
    SpentIsGone(p.view, s.block[..j], i, o);
    assert HaveInputs(ApplyAll(p.view, s.block[..j]), s.block[j]);
  }

  /** What a transaction spends, no later one creates. */
  lemma NotCreatedAgain(p: Pool, s: State, e: Env, i: nat, k: nat, o: Outpoint)
    requires Inv(p, s, e) && NotInChain(p) && i <= k < |s.block| && o in Spent(s.block[i])
    ensures o !in Outputs(s.block[k])
  {
    var n :| 0 <= n < |s.block[i].inputs| && s.block[i].inputs[n] == o;
    InputsAvailable(p, s, e, i, n);
    if o in p.view {
      assert HaveCoins(p.view, o.txid);
      assert s.block[k].id != o.txid;
    } else {
      var l :| 0 <= l < i && o in Outputs(s.block[l]);
      assert s.block[l].id == o.txid;
    }
  }

  /** At the end, every transaction that may go in and whose pool parents all did was looked at. */
  lemma EveryoneHeard(p: Pool, s: State, e: Env, i: TxId)
    requires Inv(p, s, e) && s.heap == []
    ensures i in s.popped <==> i in p.final && i in p.txs && Connects(p, p.txs[i]) && Deps(p, p.txs[i]) <= Ids(s.block)
  {
    assert i in InHeap(s.heap) || i in s.popped <==> Ready(p, s.block, i);
  }
}
