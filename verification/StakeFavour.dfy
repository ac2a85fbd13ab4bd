/** Which blocks a round of the stake modifier favours (src/kernel.cpp:57-131), in terms of the
    hashes of the candidates. */
module StakeFavour {
  import opened Basics
  import opened StakeModifier
  import opened StakeRounds
  import Nonlinear

  const SHIFT: nat := 0x1_0000_0000
  const LIMIT224: nat := 0x1_00000000_00000000_00000000_00000000_00000000_00000000_00000000
  const LIMIT256: nat := 0x1_00000000_00000000_00000000_00000000_00000000_00000000_00000000_00000000

  /** The first candidate is high enough for every block to count with its own hash. */
  predicate Upgraded(r: Round, bs: seq<Block>)
    requires bs != []
  {
    bs[0].height >= r.rules.upgrade
  }

  function Own(r: Round, b: Block): nat { r.rules.hash(b.hash, r.prev) }

  /** What a proof-of-stake block is hashed to: all the same before the upgrade. */
  function Staked(r: Round, bs: seq<Block>, b: Block): nat
    requires bs != []
  {
    if Upgraded(r, bs) then Own(r, b) else r.rules.hash(0, r.prev)
  }

  /** `a` is at least as good as `b`: a proof-of-work hash weighs 2^32 times as much as that of
      proof of stake, and of the latter the low 32 bits do not matter. */
  predicate AsGood(r: Round, bs: seq<Block>, a: Block, b: Block)
    requires bs != []
  {
    if !a.pos && !b.pos then Own(r, a) <= Own(r, b)
    else if a.pos && b.pos then Upgraded(r, bs) ==> Own(r, a) / SHIFT <= Own(r, b) / SHIFT
    else if a.pos then Staked(r, bs, a) < (Own(r, b) + 1) * SHIFT
    else Own(r, a) * SHIFT <= Staked(r, bs, b)
  }

  lemma DivLe(x: nat, y: nat)
    ensures x / SHIFT <= y <==> x < (y + 1) * SHIFT
    ensures y <= x / SHIFT <==> y * SHIFT <= x
  {
  }

  lemma RankIsAsGood(r: Round, bs: seq<Block>, a: Block, b: Block)
    requires Over(r, bs)
    ensures Rank(r, a) <= Rank(r, b) <==> AsGood(r, bs, a, b)
  {
    assert r.items[0].hash == bs[0].hash && r.index[bs[0].hash] == bs[0];
    if a.pos && !b.pos {
      DivLe(Staked(r, bs, a), Own(r, b));
    } else if !a.pos && b.pos {
      DivLe(Staked(r, bs, b), Own(r, a));
    }
  }

  /** With an eligible block up to the stop time, the pick is the one that is as good as every
      other such block and better than every earlier one. */
  predicate Favoured(r: Round, bs: seq<Block>, j: nat)
    requires bs != []
  {
    && j < |bs| && bs[j].hash !in r.selected && bs[j].time <= r.stop
    && forall i :: 0 <= i < |bs| && bs[i].hash !in r.selected && bs[i].time <= r.stop ==>
         AsGood(r, bs, bs[j], bs[i]) && (i < j ==> !AsGood(r, bs, bs[i], bs[j]))
  }

  lemma PickIsFavoured(r: Round, bs: seq<Block>, j: nat, e: nat)
    requires Over(r, bs) && e < |bs| && bs[e].hash !in r.selected && bs[e].time <= r.stop
    ensures IsPick(r, bs, j) <==> Favoured(r, bs, j)
  {
    if j < |bs| {
      forall i | 0 <= i < |bs|
        ensures Rank(r, bs[j]) <= Rank(r, bs[i]) <==> AsGood(r, bs, bs[j], bs[i])
        ensures Rank(r, bs[i]) <= Rank(r, bs[j]) <==> AsGood(r, bs, bs[i], bs[j])
      {
        RankIsAsGood(r, bs, bs[j], bs[i]);
        RankIsAsGood(r, bs, bs[i], bs[j]);
      }
      if IsPick(r, bs, j) {
        assert Eligible(r, bs[e]);
      }
      if Favoured(r, bs, j) {
        forall i | 0 <= i < |bs| && Eligible(r, bs[i]) && bs[i].time <= r.stop
          ensures Rank(r, bs[j]) <= Rank(r, bs[i]) && (i < j ==> Rank(r, bs[j]) < Rank(r, bs[i]))
        {
          assert AsGood(r, bs, bs[j], bs[i]);
        }
      }
    }
  }

  /** While a proof-of-stake block is eligible up to the stop time, a proof-of-work block is picked
      only if its 256-bit hash begins with 32 zero bits. */
  lemma WorkNeedsSmallHash(r: Round, bs: seq<Block>, j: nat, e: nat)
    requires Over(r, bs) && IsPick(r, bs, j) && !bs[j].pos
    requires e < |bs| && bs[e].pos && bs[e].hash !in r.selected && bs[e].time <= r.stop
    requires forall h :: r.rules.hash(h, r.prev) < LIMIT256
    ensures Own(r, bs[j]) < LIMIT224
  {
    PickIsFavoured(r, bs, j, e);
    assert AsGood(r, bs, bs[j], bs[e]);
  }

  /** Among proof-of-work blocks the hash decides; among proof-of-stake blocks, the place before
      the upgrade and the hash divided by 2^32 from then on. */
  lemma AmongAlike(r: Round, bs: seq<Block>, j: nat, i: nat)
    requires Over(r, bs) && IsPick(r, bs, j)
    requires i < |bs| && bs[i].hash !in r.selected && bs[i].time <= r.stop && bs[i].pos == bs[j].pos
    ensures !bs[j].pos ==> Own(r, bs[j]) <= Own(r, bs[i])
    ensures bs[j].pos && !Upgraded(r, bs) ==> j <= i
    ensures bs[j].pos && Upgraded(r, bs) ==> Own(r, bs[j]) / SHIFT <= Own(r, bs[i]) / SHIFT
  {
    PickIsFavoured(r, bs, j, i);
    assert AsGood(r, bs, bs[j], bs[i]);
  }

  lemma QuotientFalls(a: nat, d: nat, e: nat)
    requires d >= e >= 1
    ensures a / d <= a / e
  {
    var q := a / d;
    Nonlinear.DivMod(a, d);
    Nonlinear.DivMod(a, e);
    Nonlinear.MulLe(e, d, q);
    if q > a / e {
      Nonlinear.MulLe(a / e + 1, q, e);
      Nonlinear.MulAdd(a / e, 1, e);
    }
  }

  /** The sections of the interval grow from round to round, from a third of it to all of it. */
  lemma SectionsGrow(n: nat)
    requires n < ROUNDS
    ensures INTERVAL / RATIO == Section(0) <= Section(n) <= Section(ROUNDS - 1) == INTERVAL
    ensures n + 1 < ROUNDS ==> Section(n) <= Section(n + 1)
  {
    QuotientFalls(INTERVAL * 63, 189, 189 - 2 * n);
    QuotientFalls(INTERVAL * 63, 189 - 2 * n, 63);
    if n + 1 < ROUNDS {
      QuotientFalls(INTERVAL * 63, 189 - 2 * n, 189 - 2 * (n + 1));
    }
  }

  lemma {:induction false} SectionsBound(n: nat)
    requires n <= ROUNDS
    ensures 20 * n <= Sections(n) <= 60 * n
  {
    if n > 0 {
      SectionsBound(n - 1);
      SectionsGrow(n - 1);
    }
  }

  lemma MinuteStart(time: nat, start: int, length: nat)
    requires start == time / 60 * 60 - length
    ensures (start + length) % 60 == 0 && start + length <= time < start + length + 60
  {
  }

  /** The candidates of a block on top of one at `time` reach back from the last full minute by the
      length of all sections, between 64 times 20 and 64 times 60 seconds. */
  lemma StartIsBeforeMinute(time: nat) returns (length: nat)
    ensures length == Sections(ROUNDS) && 64 * 20 <= length <= 64 * 60
    ensures (Start(time) + length) % 60 == 0 && Start(time) + length <= time < Start(time) + length + 60
  {
    SectionsBound(ROUNDS);
    length := Sections(ROUNDS);
    MinuteStart(time, Start(time), length);
  }
}
