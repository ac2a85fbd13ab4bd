/** The computation of the stake modifier as src/kernel.cpp carries it out. */
module StakeKernel {
  import opened Basics
  import opened StakeModifier
  import opened StakeRounds
  import Bits

  /** src/kernel.cpp:43-54 */
  method GetLastStakeModifier(chain: seq<Block>) returns (g: Option<nat>)
    requires chain != []
    ensures g == LastGenerated(chain)
  {
    var i := |chain| - 1;
    assert chain[..i + 1] == chain;
    while i > 0 && !chain[i].generated
      invariant 0 <= i < |chain| && LastGenerated(chain[..i + 1]) == LastGenerated(chain)
    {
      assert chain[..i + 1][..i] == chain[..i];
      i := i - 1;
    }
    if !chain[i].generated {
      return None;
    }
    g := Some(i);
  }

  /** src/kernel.cpp:65-72 */
  method GetStakeModifierSelectionInterval() returns (r: nat)
    ensures r == Sections(ROUNDS)
  {
    r := 0;
    for n := 0 to ROUNDS
      invariant r == Sections(n)
    {
      r := r + Section(n);
    }
  }

  /** src/kernel.cpp:77-135 */
  method SelectBlockFromCandidates(r: Round) returns (ok: bool, picked: Option<Block>)
    ensures ok ==> picked.Some? && Scan(r, 0, None) == Best(picked)
    ensures !ok ==> Scan(r, 0, None) in {Missing, Best(None)}
  {
    picked := None;
    var k := 0;
    var v2 := false;
    var best := 0;
    while k < |r.items|
      invariant 0 <= k <= |r.items| && (k > 0 ==> r.items[0].hash in r.index)
      invariant Scan(r, 0, None) == Scan(r, k, picked)
      invariant picked.Some? ==> k > 0 && best == Rank(r, picked.value)
      invariant k > 0 ==> v2 == NewRule(r)
    {
      if r.items[k].hash !in r.index {
        return false, None;
      }
      var b := r.index[r.items[k].hash];
      if picked.Some? && b.time > r.stop {
        break;
      }
      if k == 0 {
        v2 := b.height >= r.rules.upgrade;
      }
      k := k + 1;
      if b.hash !in r.selected {
        var hash := SelectionHash(b, v2, r.prev, r.rules);
        if picked.None? || hash < best {
          best := hash;
          picked := Some(b);
        }
      }
    }
    ok := picked.Some?;
  }

  /** The candidates, collected from the tip backwards (src/kernel.cpp:184-187). */
  method CollectCandidates(chain: seq<Block>, start: int) returns (cs: seq<Block>)
    ensures cs == Candidates(chain, start)
  {
    var i := |chain|;
    cs := [];
    while i > 0 && chain[i - 1].time >= start
      invariant 0 <= i <= |chain| && cs == chain[i..]
      invariant forall k :: i <= k < |chain| ==> chain[k].time >= start
    {
      i := i - 1;
      cs := [chain[i]] + cs;
    }
    CandidatesAre(chain, start, i);
  }

  lemma CandidatesAre(chain: seq<Block>, start: int, i: nat)
    requires i <= |chain| && (i > 0 ==> chain[i - 1].time < start)
    requires forall k :: i <= k < |chain| ==> chain[k].time >= start
    ensures Candidates(chain, start) == chain[i..]
  {
    var r := Candidates(chain, start);
    var j := |chain| - |r|;
    forall k | j <= k < |chain| ensures chain[k].time >= start {
      assert chain[k] == r[k - j];
    }
  }

  /** src/kernel.cpp:194-215; `bits` is nStakeModifierNew. */
  method RunRounds(items: seq<Item>, index: map<nat, Block>, start: int, prev: nat, r: Rules)
    returns (ok: bool, bits: nat)
    ensures var picks := Rounds(items, index, Min(ROUNDS, |items|), start, prev, r);
            ok == picks.Some? && (ok ==> bits == Bits.Pack(EntropyBits(picks.value)))
  {
    bits := 0;
    var n := Min(ROUNDS, |items|);
    var stop := start;
    var selected: set<nat> := {};
    ghost var picks: seq<Block> := [];
    for k := 0 to n
      invariant Rounds(items, index, k, start, prev, r) == Some(picks) && |picks| == k
      invariant stop == start + Sections(k) && selected == HashesOf(picks)
      invariant bits == Bits.Pack(EntropyBits(picks))
    {
      stop := stop + Section(k);
      var found, b := SelectBlockFromCandidates(Round(items, index, selected, stop, prev, r));
      if !found {
        FailedRound(items, index, k + 1, n, start, prev, r);
        return false, 0;
      }
      bits := SetBit(bits, EntropyBits(picks), k, Entropy(b.value));
      MorePicks(picks, b.value);
      NextRound(items, index, picks, start, prev, r, b.value);
      picks := picks + [b.value];
      selected := selected + {b.value.hash};
    }
    ok := true;
  }

  lemma MorePicks(picks: seq<Block>, b: Block)
    ensures EntropyBits(picks + [b]) == EntropyBits(picks) + [Entropy(b)]
    ensures HashesOf(picks + [b]) == HashesOf(picks) + {b.hash}
  {
    HashesGrow(picks, b);
  }

  /** A failed round is not made good by later ones. */
  lemma {:induction false} FailedRound(items: seq<Item>, index: map<nat, Block>, k: nat, n: nat, start: int, prev: nat,
      r: Rules)
    requires k <= n <= ROUNDS && Rounds(items, index, k, start, prev, r).None?
    ensures Rounds(items, index, n, start, prev, r).None?
  {
    if k < n {
      FailedRound(items, index, k, n - 1, start, prev, r);
    }
  }

  /** The bit of this round, or-ed in above those of the rounds before (src/kernel.cpp:206). */
  method SetBit(bits: nat, ghost sofar: seq<bool>, k: nat, b: bool) returns (r: nat)
    requires bits == Bits.Pack(sofar) && k == |sofar|
    ensures r == Bits.Pack(sofar + [b])
  {
    Bits.PackAppend(sofar, b);
    r := bits + if b then Bits.Pow2(k) else 0;
  }

  lemma NextRound(items: seq<Item>, index: map<nat, Block>, picks: seq<Block>, start: int, prev: nat, r: Rules,
      b: Block)
    requires |picks| < ROUNDS && Rounds(items, index, |picks|, start, prev, r) == Some(picks)
    requires Scan(RoundAt(items, index, picks, start, prev, r), 0, None) == Best(Some(b))
    ensures Rounds(items, index, |picks| + 1, start, prev, r) == Some(picks + [b])
  {
  }

  /** src/kernel.cpp:150-241 */
  method ComputeNextStakeModifier(chain: seq<Block>, index: map<nat, Block>, r: Rules) returns (o: Outcome)
    ensures o == Compute(chain, index, r)
  {
    if |chain| == 0 {
      return Computed(0, true);
    }
    var tip := chain[|chain| - 1];
    if tip.height == 0 {
      return Computed(r.first, true);
    }
    var g := GetLastStakeModifier(chain);
    if g.None? {
      return Failed;
    }
    var last := chain[g.value];
    if last.time / INTERVAL >= tip.time / INTERVAL {
      return Computed(last.modifier, false);
    }
    var ok, bits := Generate(chain, index, last.modifier, r);
    o := if ok then Computed(bits, true) else Failed;
  }

  method Generate(chain: seq<Block>, index: map<nat, Block>, prev: nat, r: Rules) returns (ok: bool, bits: nat)
    requires chain != []
    ensures var picks := AllRounds(chain, index, prev, r);
            ok == picks.Some? && (ok ==> bits == Bits.Pack(EntropyBits(picks.value)))
  {
    var start := SelectionIntervalStart(chain[|chain| - 1].time);
    var cs := CollectCandidates(chain, start);
    ok, bits := RunRounds(Items(Sorted(cs)), index, start, prev, r);
  }

  /** src/kernel.cpp:180-181 */
  method SelectionIntervalStart(time: nat) returns (start: int)
    ensures start == Start(time)
  {
    var interval := GetStakeModifierSelectionInterval();
    start := time / INTERVAL * INTERVAL - interval;
  }
}
