/** The stake modifier (src/kernel.cpp): 64 bits drawn from past blocks, one block per round. */
module StakeModifier {
  import opened Basics

  /** A block of the index. A chain is a sequence of blocks, the genesis block first: a block's
      ancestors are the ones before it. */
  datatype Block = Block(hash: nat, time: nat, height: int, pos: bool, modifier: nat, generated: bool)

  /** An entry of vSortedByTimestamp. */
  datatype Item = Item(time: nat, hash: nat)

  /** The hash of a block's proof and the previous modifier, the height at which the new rule
      sets in, and the constant given to the first block. */
  datatype Rules = Rules(hash: (nat, nat) -> nat, upgrade: int, first: nat)

  const INTERVAL: nat := 60
  const RATIO: nat := 3
  const ROUNDS: nat := 64

  function Entropy(b: Block): bool { b.hash % 2 == 1 }

  /** src/kernel.cpp:57-62 */
  function Section(n: nat): nat
    requires n < ROUNDS
  {
    INTERVAL * 63 / (63 + (63 - n) * (RATIO - 1))
  }

  /** The sections of the first `n` rounds. */
  function Sections(n: nat): nat
    requires n <= ROUNDS
  {
    if n == 0 then 0 else Sections(n - 1) + Section(n - 1)
  }

  // ---- One round ----

  /** The hash candidates compete with; proof-of-stake blocks are favoured
      (src/kernel.cpp:107-121). */
  function SelectionHash(b: Block, v2: bool, prev: nat, r: Rules): int {
    var h := r.hash(if v2 || !b.pos then b.hash else 0, prev);
    if b.pos then h / 0x1_0000_0000 else h
  }

  datatype Scanned = Missing | Best(best: Option<Block>)

  /** What a round goes by: the candidates, the block index, the hashes selected before, the end
      of the round's interval, and the previous modifier. */
  datatype Round = Round(items: seq<Item>, index: map<nat, Block>, selected: set<nat>, stop: int, prev: nat,
      rules: Rules)

  predicate NewRule(r: Round)
    requires r.items != [] && r.items[0].hash in r.index
  {
    r.index[r.items[0].hash].height >= r.rules.upgrade
  }

  function Rank(r: Round, b: Block): int
    requires r.items != [] && r.items[0].hash in r.index
  {
    SelectionHash(b, NewRule(r), r.prev, r.rules)
  }

  /** The scan over the candidates from position `k` on (src/kernel.cpp:89-131). */
  function Scan(r: Round, k: nat, best: Option<Block>): Scanned
    requires k <= |r.items| && (k > 0 ==> r.items[0].hash in r.index)
    decreases |r.items| - k
  {
    if k == |r.items| then Best(best)
    else if r.items[k].hash !in r.index then Missing
    else
      var b := r.index[r.items[k].hash];
      if best.Some? && b.time > r.stop then Best(best)
      else if b.hash in r.selected then Scan(r, k + 1, best)
      else if best.None? || Rank(r, b) < Rank(r, best.value) then Scan(r, k + 1, Some(b))
      else Scan(r, k + 1, best)
  }

  // ---- What a round picks ----

  function Items(bs: seq<Block>): seq<Item> {
    seq(|bs|, i requires 0 <= i < |bs| => Item(bs[i].time, bs[i].hash))
  }

  /** The order of the sorted candidates: by time, then by hash. */
  predicate Precedes(a: Block, b: Block) {
    a.time < b.time || (a.time == b.time && a.hash <= b.hash)
  }

  predicate InOrder(bs: seq<Block>) {
    forall i, j :: 0 <= i < j < |bs| ==> Precedes(bs[i], bs[j])
  }

  predicate Indexed(bs: seq<Block>, index: map<nat, Block>) {
    forall i :: 0 <= i < |bs| ==> bs[i].hash in index && index[bs[i].hash] == bs[i]
  }

  predicate Eligible(r: Round, b: Block) { b.hash !in r.selected }

  /** The round is over the sorted, indexed blocks `bs`. */
  predicate Over(r: Round, bs: seq<Block>) {
    r.items == Items(bs) && InOrder(bs) && Indexed(bs, r.index) && bs != []
  }

  /** Block `j` is the one to pick: the least in rank of the eligible blocks up to the stop time,
      the first of equals; or, if there is none up to that time, the earliest eligible block. */
  predicate IsPick(r: Round, bs: seq<Block>, j: nat)
    requires Over(r, bs)
  {
    j < |bs| && Eligible(r, bs[j]) &&
    (forall i :: 0 <= i < |bs| && Eligible(r, bs[i]) && bs[i].time <= r.stop ==>
       Rank(r, bs[j]) <= Rank(r, bs[i]) && (i < j ==> Rank(r, bs[j]) < Rank(r, bs[i]))) &&
    (bs[j].time <= r.stop ||
     forall i :: 0 <= i < |bs| && Eligible(r, bs[i]) ==> j <= i && bs[i].time > r.stop)
  }

  /** After `k` candidates: `j` holds the best so far. Only the first eligible block may lie past
      the stop time. */
  predicate SoFar(r: Round, bs: seq<Block>, k: nat, j: nat)
    requires Over(r, bs) && k <= |bs|
  {
    j < k && Eligible(r, bs[j]) &&
    (forall i :: 0 <= i < k && Eligible(r, bs[i]) ==>
       Rank(r, bs[j]) <= Rank(r, bs[i]) && (i < j ==> Rank(r, bs[j]) < Rank(r, bs[i]))) &&
    (bs[j].time <= r.stop || forall i :: 0 <= i < k && Eligible(r, bs[i]) ==> i == j)
  }

  predicate NoneEligible(r: Round, bs: seq<Block>, k: nat)
    requires k <= |bs|
  {
    forall i :: 0 <= i < k ==> !Eligible(r, bs[i])
  }

  lemma StopsAtPick(r: Round, bs: seq<Block>, k: nat, j: nat)
    requires Over(r, bs) && k <= |bs| && SoFar(r, bs, k, j) && (k < |bs| ==> bs[k].time > r.stop)
    ensures IsPick(r, bs, j)
  {
    forall i | k <= i < |bs| ensures bs[i].time > r.stop {
      assert i > k ==> Precedes(bs[k], bs[i]);
    }
  }

  /** The scan ends at the pick, and finds one if there is any eligible block. */
  lemma {:induction false} ScanPicks(r: Round, bs: seq<Block>, k: nat, j: nat)
    returns (p: nat)
    requires Over(r, bs) && 0 < k <= |bs| && SoFar(r, bs, k, j)
    ensures IsPick(r, bs, p) && Scan(r, k, Some(bs[j])) == Best(Some(bs[p]))
    decreases |bs| - k
  {
    if k == |bs| || bs[k].time > r.stop {
      StopsAtPick(r, bs, k, j);
      p := j;
    } else if !Eligible(r, bs[k]) {
      p := ScanPicks(r, bs, k + 1, j);
    } else if Rank(r, bs[k]) < Rank(r, bs[j]) {
      p := ScanPicks(r, bs, k + 1, k);
    } else {
      p := ScanPicks(r, bs, k + 1, j);
    }
  }

  lemma {:induction false} ScanStarts(r: Round, bs: seq<Block>, k: nat, e: nat)
    returns (p: nat)
    requires Over(r, bs) && k <= e < |bs| && NoneEligible(r, bs, k) && Eligible(r, bs[e])
    ensures IsPick(r, bs, p) && Scan(r, k, None) == Best(Some(bs[p]))
    decreases |bs| - k
  {
    if Eligible(r, bs[k]) {
      p := ScanPicks(r, bs, k + 1, k);
    } else {
      p := ScanStarts(r, bs, k + 1, e);
    }
  }
}
