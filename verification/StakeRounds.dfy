/** The rounds of the stake modifier and the modifiers along a chain (src/kernel.cpp:43-241). */
module StakeRounds {
  import opened Basics
  import opened StakeModifier
  import Bits
  import SetFacts

  // ---- Candidates ----

  /** The blocks from the tip back to the first one older than `start` (src/kernel.cpp:184-187). */
  function Candidates(chain: seq<Block>, start: int): (r: seq<Block>)
    ensures |r| <= |chain| && r == chain[|chain| - |r|..]
    ensures forall i :: 0 <= i < |r| ==> r[i].time >= start
    ensures |r| < |chain| ==> chain[|chain| - |r| - 1].time < start
  {
    if chain == [] || chain[|chain| - 1].time < start then []
    else
      var n := |chain| - 1;
      var r := Candidates(chain[..n], start);
      assert chain[n - |r|..] == chain[..n][n - |r|..] + [chain[n]];
      r + [chain[n]]
  }

  function Insert(bs: seq<Block>, b: Block): seq<Block> {
    if bs == [] then [b]
    else if Precedes(b, bs[0]) then [b] + bs
    else [bs[0]] + Insert(bs[1..], b)
  }

  /** Sorted by time, then by hash. */
  function Sorted(bs: seq<Block>): seq<Block> {
    if bs == [] then [] else Insert(Sorted(bs[1..]), bs[0])
  }

  lemma {:induction false} InsertProps(bs: seq<Block>, b: Block)
    requires InOrder(bs)
    ensures InOrder(Insert(bs, b)) && multiset(Insert(bs, b)) == multiset(bs) + multiset{b}
    ensures |Insert(bs, b)| == |bs| + 1
    ensures forall x :: Precedes(x, b) && (bs != [] ==> Precedes(x, bs[0])) ==> Precedes(x, Insert(bs, b)[0])
  {
    if bs != [] && !Precedes(b, bs[0]) {
      InsertProps(bs[1..], b);
      assert bs == [bs[0]] + bs[1..];
      var rest := Insert(bs[1..], b);
      assert Precedes(bs[0], rest[0]);
      ConsInOrder(bs[0], rest);
    } else if bs != [] {
      ConsInOrder(b, bs);
    }
  }

  lemma ConsInOrder(a: Block, bs: seq<Block>)
    requires InOrder(bs) && (bs != [] ==> Precedes(a, bs[0]))
    ensures InOrder([a] + bs)
  {
    var s := [a] + bs;
    forall i, j | 0 <= i < j < |s| ensures Precedes(s[i], s[j]) {
      assert bs[0] == s[1];
      assert j > 1 ==> Precedes(bs[0], bs[j - 1]);
      assert i > 0 ==> Precedes(bs[i - 1], bs[j - 1]);
    }
  }

  lemma {:induction false} SortedProps(bs: seq<Block>)
    ensures InOrder(Sorted(bs)) && multiset(Sorted(bs)) == multiset(bs) && |Sorted(bs)| == |bs|
  {
    if bs != [] {
      SortedProps(bs[1..]);
      InsertProps(Sorted(bs[1..]), bs[0]);
      assert bs == [bs[0]] + bs[1..];
    }
  }

  function HashesOf(bs: seq<Block>): set<nat> {
    set i | 0 <= i < |bs| :: bs[i].hash
  }

  predicate DistinctHashes(bs: seq<Block>) {
    forall i, j :: 0 <= i < j < |bs| ==> bs[i].hash != bs[j].hash
  }

  // ---- The rounds ----

  function RoundAt(items: seq<Item>, index: map<nat, Block>, picks: seq<Block>, start: int, prev: nat, r: Rules): Round
    requires |picks| < ROUNDS
  {
    Round(items, index, HashesOf(picks), start + Sections(|picks| + 1), prev, r)
  }

  /** The blocks picked in the first `n` rounds, or none if a round fails (src/kernel.cpp:197-215). */
  function Rounds(items: seq<Item>, index: map<nat, Block>, n: nat, start: int, prev: nat,
      r: Rules): (picks: Option<seq<Block>>)
    requires n <= ROUNDS
    ensures picks.Some? ==> |picks.value| == n
  {
    if n == 0 then Some([])
    else
      match Rounds(items, index, n - 1, start, prev, r)
      case None => None
      case Some(picks) =>
        match Scan(RoundAt(items, index, picks, start, prev, r), 0, None)
        case Missing => None
        case Best(None) => None
        case Best(Some(b)) => Some(picks + [b])
  }

  /** The candidates with the picks' positions: round `k` picks `at[k]`. */
  ghost predicate PicksAt(bs: seq<Block>, at: seq<nat>, index: map<nat, Block>, picks: seq<Block>, start: int,
      prev: nat, r: Rules)
    requires |picks| <= ROUNDS
  {
    |at| == |picks| && SetFacts.Distinct(at) &&
    forall k :: 0 <= k < |at| ==>
      at[k] < |bs| && picks[k] == bs[at[k]] &&
      Over(RoundAt(Items(bs), index, picks[..k], start, prev, r), bs) &&
      IsPick(RoundAt(Items(bs), index, picks[..k], start, prev, r), bs, at[k])
  }

  lemma HashesGrow(front: seq<Block>, b: Block)
    ensures HashesOf(front + [b]) == HashesOf(front) + {b.hash}
  {
    var bs := front + [b];
    assert bs[|front|] == b;
    forall i | 0 <= i < |front| ensures bs[i] == front[i] {}
  }

  lemma {:induction false} HashesExact(bs: seq<Block>)
    requires DistinctHashes(bs)
    ensures |HashesOf(bs)| == |bs|
  {
    if bs != [] {
      var front, b := bs[..|bs| - 1], bs[|bs| - 1];
      HashesExact(front);
      HashesGrow(front, b);
      assert bs == front + [b];
      NewHash(bs, front, b);
    }
  }

  lemma NewHash(bs: seq<Block>, front: seq<Block>, b: Block)
    requires bs == front + [b] && DistinctHashes(bs)
    ensures b.hash !in HashesOf(front)
  {
    forall i | 0 <= i < |front| ensures front[i].hash != b.hash {
      assert bs[i] == front[i] && bs[|front|] == b;
    }
  }

  /** Fewer picks than candidates leave one that is not selected. */
  lemma SomeEligible(bs: seq<Block>, picks: seq<Block>) returns (e: nat)
    requires DistinctHashes(bs) && |picks| < |bs|
    ensures e < |bs| && bs[e].hash !in HashesOf(picks)
  {
    HashesExact(bs);
    HashesBound(picks);
    if HashesOf(bs) <= HashesOf(picks) {
      SetFacts.SubsetCardinality(HashesOf(bs), HashesOf(picks));
    }
    assert !(HashesOf(bs) <= HashesOf(picks));
    e :| 0 <= e < |bs| && bs[e].hash !in HashesOf(picks);
  }

  lemma {:induction false} HashesBound(bs: seq<Block>)
    ensures |HashesOf(bs)| <= |bs|
  {
    if bs != [] {
      var front, b := bs[..|bs| - 1], bs[|bs| - 1];
      HashesBound(front);
      HashesGrow(front, b);
      assert bs == front + [b];
    }
  }

  /** With `n` candidates the first `n` rounds, up to 64, all succeed: each picks what the rules
      ask for, and no block twice. */
  lemma {:induction false} RoundsSucceed(bs: seq<Block>, index: map<nat, Block>, n: nat, start: int, prev: nat,
      r: Rules)
    returns (at: seq<nat>)
    requires InOrder(bs) && DistinctHashes(bs) && Indexed(bs, index) && n <= |bs| && n <= ROUNDS
    ensures var picks := Rounds(Items(bs), index, n, start, prev, r);
            picks.Some? && PicksAt(bs, at, index, picks.value, start, prev, r)
  {
    if n == 0 {
      at := [];
    } else {
      var rest := RoundsSucceed(bs, index, n - 1, start, prev, r);
      var picks := Rounds(Items(bs), index, n - 1, start, prev, r).value;
      var round := RoundAt(Items(bs), index, picks, start, prev, r);
      var e := SomeEligible(bs, picks);
      var p := ScanStarts(round, bs, 0, e);
      at := rest + [p];
      ExtendPicks(bs, rest, index, picks, start, prev, r, p);
    }
  }

  lemma ExtendPicks(bs: seq<Block>, at: seq<nat>, index: map<nat, Block>, picks: seq<Block>, start: int, prev: nat,
      r: Rules, p: nat)
    requires |picks| < ROUNDS && PicksAt(bs, at, index, picks, start, prev, r)
    requires Over(RoundAt(Items(bs), index, picks, start, prev, r), bs)
    requires IsPick(RoundAt(Items(bs), index, picks, start, prev, r), bs, p)
    ensures PicksAt(bs, at + [p], index, picks + [bs[p]], start, prev, r)
  {
    var more := picks + [bs[p]];
    forall k | 0 <= k < |at| ensures at[k] != p {
      assert picks[k].hash in HashesOf(picks);
    }
    assert more[..|picks|] == picks;
    forall k | 0 <= k < |picks| ensures more[..k] == picks[..k] {
    }
  }

  // ---- The modifier of the next block ----

  datatype Outcome = Failed | Computed(modifier: nat, generated: bool)

  /** The nearest block that generated a modifier (src/kernel.cpp:43-54). */
  function LastGenerated(chain: seq<Block>): (g: Option<nat>)
    requires chain != []
    ensures g.Some? ==> g.value < |chain| && chain[g.value].generated
    ensures g.Some? ==> forall k :: g.value < k < |chain| ==> !chain[k].generated
    ensures g.None? ==> !chain[0].generated
  {
    var n := |chain| - 1;
    if chain[n].generated then Some(n)
    else if n == 0 then None
    else LastGenerated(chain[..n])
  }

  /** Where the selection interval of a block on top of one at `time` begins. */
  function Start(time: nat): int { time / INTERVAL * INTERVAL - Sections(ROUNDS) }

  function SortedCandidates(chain: seq<Block>): seq<Block>
    requires chain != []
  {
    Sorted(Candidates(chain, Start(chain[|chain| - 1].time)))
  }

  function AllRounds(chain: seq<Block>, index: map<nat, Block>, prev: nat, r: Rules): Option<seq<Block>>
    requires chain != []
  {
    var bs := SortedCandidates(chain);
    Rounds(Items(bs), index, Min(ROUNDS, |bs|), Start(chain[|chain| - 1].time), prev, r)
  }

  function EntropyBits(picks: seq<Block>): seq<bool> {
    seq(|picks|, i requires 0 <= i < |picks| => Entropy(picks[i]))
  }

  /** The modifier of a block whose ancestors are `chain` (src/kernel.cpp:150-241). */
  function Compute(chain: seq<Block>, index: map<nat, Block>, r: Rules): Outcome {
    if chain == [] then Computed(0, true)
    else
      var tip := chain[|chain| - 1];
      if tip.height == 0 then Computed(r.first, true)
      else
        match LastGenerated(chain)
        case None => Failed
        case Some(g) =>
          if chain[g].time / INTERVAL >= tip.time / INTERVAL then Computed(chain[g].modifier, false)
          else
            match AllRounds(chain, index, chain[g].modifier, r)
            case None => Failed
            case Some(picks) => Computed(Bits.Pack(EntropyBits(picks)), true)
  }

  // ---- Along a chain ----

  predicate InIndex(chain: seq<Block>, index: map<nat, Block>) {
    DistinctHashes(chain) && Indexed(chain, index) && forall i :: 0 <= i < |chain| ==> chain[i].height == i
  }

  /** Every block carries what was computed for it when it was added (src/main.cpp:2873-2878). */
  predicate Built(chain: seq<Block>, index: map<nat, Block>, r: Rules) {
    InIndex(chain, index) &&
    forall i :: 0 <= i < |chain| ==> Compute(chain[..i], index, r) == Computed(chain[i].modifier, chain[i].generated)
  }

  /** The candidates are indexed and distinct like the chain they come from. */
  lemma CandidatesFit(chain: seq<Block>, index: map<nat, Block>)
    requires chain != [] && DistinctHashes(chain) && Indexed(chain, index)
    ensures var bs := SortedCandidates(chain); InOrder(bs) && DistinctHashes(bs) && Indexed(bs, index)
    ensures |SortedCandidates(chain)| == |Candidates(chain, Start(chain[|chain| - 1].time))|
  {
    var cs := Candidates(chain, Start(chain[|chain| - 1].time));
    SuffixFits(chain, |chain| - |cs|, index);
    SortedFits(cs, index);
  }

  lemma SuffixFits(chain: seq<Block>, j: nat, index: map<nat, Block>)
    requires j <= |chain| && DistinctHashes(chain) && Indexed(chain, index)
    ensures DistinctHashes(chain[j..]) && Indexed(chain[j..], index)
  {
  }

  lemma SortedFits(cs: seq<Block>, index: map<nat, Block>)
    requires DistinctHashes(cs) && Indexed(cs, index)
    ensures InOrder(Sorted(cs)) && DistinctHashes(Sorted(cs)) && Indexed(Sorted(cs), index) && |Sorted(cs)| == |cs|
  {
    SortedProps(cs);
    PermutedIndexed(cs, Sorted(cs), index);
    PermutedDistinct(cs, Sorted(cs));
  }

  lemma PermutedIndexed(cs: seq<Block>, bs: seq<Block>, index: map<nat, Block>)
    requires multiset(cs) == multiset(bs) && Indexed(cs, index)
    ensures Indexed(bs, index)
  {
    forall i | 0 <= i < |bs| ensures bs[i].hash in index && index[bs[i].hash] == bs[i] {
      assert bs[i] in multiset(bs);
      assert bs[i] in cs;
    }
  }

  lemma {:induction false} DistinctOnce(cs: seq<Block>, b: Block)
    requires DistinctHashes(cs)
    ensures multiset(cs)[b] <= 1
  {
    if cs != [] {
      assert cs == [cs[0]] + cs[1..];
      if b == cs[0] {
        forall i | 0 <= i < |cs[1..]| ensures cs[1..][i] != b {
          assert cs[1..][i] == cs[i + 1];
        }
        assert b !in multiset(cs[1..]);
      } else {
        DistinctOnce(cs[1..], b);
      }
    }
  }

  lemma PermutedDistinct(cs: seq<Block>, bs: seq<Block>)
    requires multiset(cs) == multiset(bs) && DistinctHashes(cs)
    ensures DistinctHashes(bs)
  {
    forall i, j | 0 <= i < j < |bs| ensures bs[i].hash != bs[j].hash {
      assert bs == bs[..i] + [bs[i]] + bs[i + 1..j] + [bs[j]] + bs[j + 1..];
      DistinctOnce(cs, bs[i]);
      assert bs[i] != bs[j];
      assert bs[i] in multiset(cs) && bs[j] in multiset(cs);
      SameHashSameBlock(cs, bs[i], bs[j]);
    }
  }

  lemma SameHashSameBlock(cs: seq<Block>, a: Block, b: Block)
    requires DistinctHashes(cs) && a in cs && b in cs && a != b
    ensures a.hash != b.hash
  {
    var i :| 0 <= i < |cs| && cs[i] == a;
    var j :| 0 <= j < |cs| && cs[j] == b;
  }

  /** Whether the modifier is due to be generated anew on top of `past`. */
  predicate Advanced(past: seq<Block>)
    requires past != [] && past[0].generated
  {
    past[|past| - 1].time / INTERVAL > past[LastGenerated(past).value].time / INTERVAL
  }

  function PreviousModifier(past: seq<Block>): nat
    requires past != [] && past[0].generated
  {
    past[LastGenerated(past).value].modifier
  }

  /** All rounds on top of an indexed chain succeed. */
  lemma AllRoundsSucceed(past: seq<Block>, index: map<nat, Block>, prev: nat, r: Rules)
    returns (at: seq<nat>)
    requires past != [] && DistinctHashes(past) && Indexed(past, index)
    ensures var picks := AllRounds(past, index, prev, r);
            picks.Some? && |picks.value| == Min(ROUNDS, |SortedCandidates(past)|) &&
            PicksAt(SortedCandidates(past), at, index, picks.value, Start(past[|past| - 1].time), prev, r)
  {
    CandidatesFit(past, index);
    var bs := SortedCandidates(past);
    at := RoundsSucceed(bs, index, Min(ROUNDS, |bs|), Start(past[|past| - 1].time), prev, r);
  }

  lemma ComputeCases(past: seq<Block>, index: map<nat, Block>, r: Rules)
    requires past != [] && past[|past| - 1].height != 0 && past[0].generated
    requires AllRounds(past, index, PreviousModifier(past), r).Some?
    ensures Compute(past, index, r) ==
            if Advanced(past) then
              Computed(Bits.Pack(EntropyBits(AllRounds(past, index, PreviousModifier(past), r).value)), true)
            else Computed(PreviousModifier(past), false)
  {
  }

  lemma GenesisGenerates(chain: seq<Block>, index: map<nat, Block>, r: Rules)
    requires chain != [] && Built(chain, index, r)
    ensures chain[0].generated && chain[0].modifier == 0
  {
    assert chain[..0] == [];
    assert Compute(chain[..0], index, r) == Computed(chain[0].modifier, chain[0].generated);
  }

  /** The first block on top of the genesis block is given a fixed modifier. */
  lemma FirstBlockGenerates(chain: seq<Block>, index: map<nat, Block>, r: Rules)
    requires |chain| >= 2 && Built(chain, index, r)
    ensures chain[1].generated && chain[1].modifier == r.first
  {
    assert chain[..1][0] == chain[0];
    assert Compute(chain[..1], index, r) == Computed(chain[1].modifier, chain[1].generated);
  }

  /** On a built chain the next modifier can always be computed: no round fails and no lookup
      misses. */
  lemma NeverFails(chain: seq<Block>, index: map<nat, Block>, r: Rules)
    requires Built(chain, index, r)
    ensures Compute(chain, index, r).Computed?
  {
    if chain != [] && chain[|chain| - 1].height != 0 {
      GenesisGenerates(chain, index, r);
      var at := AllRoundsSucceed(chain, index, PreviousModifier(chain), r);
      ComputeCases(chain, index, r);
    }
  }

  /** What the chain before a block past the first two gives it. */
  lemma BuiltPast(chain: seq<Block>, index: map<nat, Block>, r: Rules, i: nat) returns (past: seq<Block>)
    requires Built(chain, index, r) && 2 <= i < |chain|
    ensures past == chain[..i] && InIndex(past, index) && past[0].generated && past[i - 1].height != 0
    ensures Compute(past, index, r) == Computed(chain[i].modifier, chain[i].generated)
  {
    past := chain[..i];
    GenesisGenerates(chain, index, r);
  }

  /** Along a built chain, a block past the first two generates a modifier exactly when the
      interval index of its parent has advanced beyond that of the last generating block; the
      others carry that block's modifier. */
  lemma GeneratesWhenAdvanced(chain: seq<Block>, index: map<nat, Block>, r: Rules, i: nat) returns (g: nat)
    requires Built(chain, index, r) && 2 <= i < |chain|
    ensures g < i && chain[g].generated && (forall k :: g < k < i ==> !chain[k].generated)
    ensures chain[i].generated <==> chain[i - 1].time / INTERVAL > chain[g].time / INTERVAL
    ensures !chain[i].generated ==> chain[i].modifier == chain[g].modifier
  {
    var past := BuiltPast(chain, index, r, i);
    var at := AllRoundsSucceed(past, index, PreviousModifier(past), r);
    ComputeCases(past, index, r);
    g := LastGenerated(past).value;
    forall k | g < k < i ensures !chain[k].generated {
      assert past[k] == chain[k];
    }
  }

  /** Bit `k` of a generated modifier is the entropy bit of the block picked in round `k`, and
      there are as many rounds as candidates, up to 64. */
  lemma GeneratedBits(chain: seq<Block>, index: map<nat, Block>, r: Rules, i: nat, k: nat)
    returns (g: nat, picks: seq<Block>, at: seq<nat>)
    requires Built(chain, index, r) && 2 <= i < |chain| && chain[i].generated
    ensures g < i && chain[g].generated && (forall k :: g < k < i ==> !chain[k].generated)
    ensures |picks| == Min(ROUNDS, |SortedCandidates(chain[..i])|)
    ensures PicksAt(SortedCandidates(chain[..i]), at, index, picks, Start(chain[i - 1].time), chain[g].modifier, r)
    ensures Bits.TestBit(chain[i].modifier, k) <==> k < |picks| && picks[k].hash % 2 == 1
  {
    g := GeneratesWhenAdvanced(chain, index, r, i);
    at, picks := PastBits(chain, index, r, i, k, g);
  }

  lemma PastBits(chain: seq<Block>, index: map<nat, Block>, r: Rules, i: nat, k: nat, g: nat)
    returns (at: seq<nat>, picks: seq<Block>)
    requires Built(chain, index, r) && 2 <= i < |chain| && chain[i].generated
    requires g < i && chain[g].generated && (forall k :: g < k < i ==> !chain[k].generated)
    ensures |picks| == Min(ROUNDS, |SortedCandidates(chain[..i])|)
    ensures PicksAt(SortedCandidates(chain[..i]), at, index, picks, Start(chain[i - 1].time), chain[g].modifier, r)
    ensures Bits.TestBit(chain[i].modifier, k) <==> k < |picks| && picks[k].hash % 2 == 1
  {
    var past := BuiltPast(chain, index, r, i);
    OnlyLast(chain, past, i, g);
    at := AllRoundsSucceed(past, index, chain[g].modifier, r);
    ComputeCases(past, index, r);
    picks := AllRounds(past, index, chain[g].modifier, r).value;
    PickedBits(picks, k);
  }

  lemma PickedBits(picks: seq<Block>, k: nat)
    ensures Bits.TestBit(Bits.Pack(EntropyBits(picks)), k) <==> k < |picks| && Entropy(picks[k])
  {
    Bits.PackBits(EntropyBits(picks), k);
  }

  lemma OnlyLast(chain: seq<Block>, past: seq<Block>, i: nat, g: nat)
    requires g < i <= |chain| && past == chain[..i] && past[0].generated
    requires chain[g].generated && (forall k :: g < k < i ==> !chain[k].generated)
    ensures LastGenerated(past) == Some(g)
  {
    var l := LastGenerated(past).value;
    assert past[l] == chain[l] && past[g] == chain[g];
  }
}
