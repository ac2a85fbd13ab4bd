/** What each level is paid, and when the subsidy is cut (src/main.cpp:1610-1656,
    src/masternode-payments.cpp, src/miner.cpp:380-408). */
module PaymentShares {
  import opened Basics
  import opened PaymentVotes
  import opened PaymentRules

  /** As long as the full subsidy fits under the maximum supply it is paid in full; after that only
      what is left, so that the supply never passes the maximum. */
  lemma SupplyIsCapped(height: int, m: Money)
    ensures m.supply <= m.maxOut ==> m.supply + BlockValue(height, m) <= m.maxOut
    ensures m.supply + (if height < 1 then 100_000_000_000_000 else 20_000_000) <= m.maxOut ==>
      BlockValue(height, m) == if height < 1 then 100_000_000_000_000 else 20_000_000
    ensures BlockValue(height, m) < (if height < 1 then 100_000_000_000_000 else 20_000_000) && m.supply <= m.maxOut ==>
      m.supply + BlockValue(height, m) == m.maxOut
    ensures m.supply >= m.maxOut ==> BlockValue(height, m) == 0
  {
  }

  /** The payee with the most votes of its level, the first of equals. */
  predicate Leads(ps: seq<Payee>, level: nat, i: nat) {
    i < |ps| && ps[i].level == level &&
    forall j :: 0 <= j < |ps| && ps[j].level == level ==>
      ps[j].votes <= ps[i].votes && (j < i ==> ps[j].votes < ps[i].votes)
  }

  /** The one payment of a level: its percentage of the block value to the leading payee or, if the
      level has none, to the masternode next in line; none if there is neither, or nothing to pay. */
  ghost predicate PaysLevel(outs: seq<Out>, ps: seq<Payee>, level: nat, percent: nat, value: int,
                            next: Option<Script>)
  {
    var amount := value * percent / 100;
    && (amount == 0 ==> outs == [])
    && (amount != 0 ==>
          && (forall i: nat :: Leads(ps, level, i) ==> outs == [Out(amount, ps[i].script)])
          && ((forall i :: 0 <= i < |ps| ==> ps[i].level != level) ==>
                outs == if next.Some? then [Out(amount, next.value)] else []))
  }

  lemma LevelIsPaid(ps: seq<Payee>, level: nat, percent: nat, tip: int, m: Money, next: nat -> Option<Script>)
    requires percent == Percent(level)
    ensures PaysLevel(LevelPayment(ps, level, tip, m, next), ps, level, percent, BlockValue(tip, m), next(level))
  {
    var amount := BlockValue(tip, m) * percent / 100;
    assert amount == MasternodePayment(tip, level, m);
    forall i: nat | Leads(ps, level, i) ensures Best(ps, level) == Some(i) {
      assert ps[i].level == level;
      var b := Best(ps, level).value;
      assert ps[b].votes == ps[i].votes;
    }
    if forall i :: 0 <= i < |ps| ==> ps[i].level != level {
      assert Best(ps, level).None?;
    }
  }

  /** The payments of a new block are those of the levels 1 to 4, in this order, with 7, 20, 30
      and 40 percent of the block value. */
  lemma PaymentsByLevel(ps: seq<Payee>, tip: int, m: Money, next: nat -> Option<Script>)
    returns (a: seq<Out>, b: seq<Out>, c: seq<Out>, d: seq<Out>)
    ensures Payments(ps, tip, m, next) == a + b + c + d
    ensures var value := BlockValue(tip, m);
      && PaysLevel(a, ps, 1, 7, value, next(1)) && PaysLevel(b, ps, 2, 20, value, next(2))
      && PaysLevel(c, ps, 3, 30, value, next(3)) && PaysLevel(d, ps, 4, 40, value, next(4))
  {
    a, b := LevelPayment(ps, 1, tip, m, next), LevelPayment(ps, 2, tip, m, next);
    c, d := LevelPayment(ps, 3, tip, m, next), LevelPayment(ps, 4, tip, m, next);
    LevelIsPaid(ps, 1, 7, tip, m, next);
    LevelIsPaid(ps, 2, 20, tip, m, next);
    LevelIsPaid(ps, 3, 30, tip, m, next);
    LevelIsPaid(ps, 4, 40, tip, m, next);
    Unrolled(ps, tip, m, next);
  }

  lemma Unrolled(ps: seq<Payee>, tip: int, m: Money, next: nat -> Option<Script>)
    ensures Payments(ps, tip, m, next) ==
      LevelPayment(ps, 1, tip, m, next) + LevelPayment(ps, 2, tip, m, next) +
      LevelPayment(ps, 3, tip, m, next) + LevelPayment(ps, 4, tip, m, next)
  {
    assert PaymentsBelow(ps, 1, tip, m, next) == [];
    assert PaymentsBelow(ps, 2, tip, m, next) == LevelPayment(ps, 1, tip, m, next);
    assert PaymentsBelow(ps, 3, tip, m, next) == PaymentsBelow(ps, 2, tip, m, next) + LevelPayment(ps, 2, tip, m, next);
    assert PaymentsBelow(ps, 4, tip, m, next) == PaymentsBelow(ps, 3, tip, m, next) + LevelPayment(ps, 3, tip, m, next);
  }
}
