/** Which payments a block owes its masternodes, how a block is checked for them and how a new
    block is given them (src/masternode-payments.cpp, src/miner.cpp:380-408, src/main.cpp:1610-1656). */
module PaymentRules {
  import opened Basics
  import opened PaymentVotes

  datatype Out = Out(value: int, script: Script)

  /** The money supply at the tip and the most there can ever be. */
  datatype Money = Money(supply: int, maxOut: int)

  const COIN: int := 100_000_000
  const REQUIRED: int := 6
  const LAST_POW_HEIGHT: nat := 200
  const MIN_LEVEL: nat := 1
  const MAX_LEVEL: nat := 4

  /** src/main.cpp:1610-1631 */
  function BlockValue(height: int, m: Money): (r: int)
    ensures r >= 0
  {
    var subsidy := if height < 1 then 1_000_000 * COIN else COIN / 5;
    if m.supply >= m.maxOut then 0
    else if m.supply + subsidy >= m.maxOut then m.maxOut - m.supply
    else subsidy
  }

  function Percent(level: nat): nat {
    match level
    case 1 => 7
    case 2 => 20
    case 3 => 30
    case 4 => 40
    case _ => 0
  }

  /** src/main.cpp:1633-1656 */
  function MasternodePayment(height: int, level: nat, m: Money): (r: int)
    ensures r >= 0
  {
    BlockValue(height, m) * Percent(level) / 100
  }

  // ---- The payee of a level ----

  /** The first of the payees of a level with the most votes (src/masternode-payments.h:122-134). */
  function Best(ps: seq<Payee>, level: nat): (r: Option<nat>)
    ensures r.Some? ==> r.value < |ps| && ps[r.value].level == level
    ensures r.Some? ==> forall i :: 0 <= i < |ps| && ps[i].level == level ==> ps[i].votes <= ps[r.value].votes
    ensures r.Some? ==> forall i :: 0 <= i < r.value && ps[i].level == level ==> ps[i].votes < ps[r.value].votes
    ensures r.None? ==> forall i :: 0 <= i < |ps| ==> ps[i].level != level
  {
    if ps == [] then None
    else
      var r := Best(ps[..|ps| - 1], level);
      var p := ps[|ps| - 1];
      if p.level != level then r
      else if r.None? || p.votes > ps[r.value].votes then Some(|ps| - 1)
      else r
  }

  method GetPayee(ps: seq<Payee>, level: nat) returns (r: Option<Script>)
    ensures r == (match Best(ps, level) case None => None case Some(i) => Some(ps[i].script))
  {
    var best := |ps|;
    for i := 0 to |ps|
      invariant match Best(ps[..i], level) case None => best == |ps| case Some(b) => best == b < i
    {
      assert ps[..i + 1][..i] == ps[..i];
      if ps[i].level == level && (best == |ps| || ps[i].votes > ps[best].votes) {
        best := i;
      }
    }
    assert ps[..|ps|] == ps;
    if best == |ps| {
      return None;
    }
    r := Some(ps[best].script);
  }

  // ---- Checking a block ----

  predicate Strong(p: Payee) { p.votes >= REQUIRED }

  predicate Paid(p: Payee, outs: seq<Out>, required: int) {
    exists j :: 0 <= j < |outs| && outs[j].script == p.script && outs[j].value >= required
  }

  /** A payee of this level with enough votes is paid what the level is due. */
  predicate LevelPaid(e: BlockPayees, level: nat, outs: seq<Out>, m: Money) {
    exists i :: 0 <= i < |e.payments| && Strong(e.payments[i]) && e.payments[i].level == level
                && Paid(e.payments[i], outs, MasternodePayment(e.height, level, m))
  }

  /** Every level that has a payee with enough votes has such a payee paid. */
  predicate PaysRequired(e: BlockPayees, outs: seq<Out>, m: Money) {
    forall i :: 0 <= i < |e.payments| && Strong(e.payments[i]) ==> LevelPaid(e, e.payments[i].level, outs, m)
  }

  function StrongLevels(ps: seq<Payee>): set<nat> {
    set i | 0 <= i < |ps| && Strong(ps[i]) :: ps[i].level
  }

  /** The levels paid among the first `n` payees. */
  function PaidLevels(e: BlockPayees, n: nat, outs: seq<Out>, m: Money): set<nat>
    requires n <= |e.payments|
  {
    set i | 0 <= i < n && Counting(e, e.payments[i], outs, m) :: e.payments[i].level
  }

  predicate Counting(e: BlockPayees, p: Payee, outs: seq<Out>, m: Money) {
    Strong(p) && Paid(p, outs, MasternodePayment(e.height, p.level, m))
  }

  method CountsAsPaid(e: BlockPayees, p: Payee, outs: seq<Out>, m: Money) returns (r: bool)
    ensures r == Counting(e, p, outs, m)
  {
    r := false;
    if p.votes >= REQUIRED {
      r := IsPaid(p, outs, MasternodePayment(e.height, p.level, m));
    }
  }

  method IsPaid(p: Payee, outs: seq<Out>, required: int) returns (r: bool)
    ensures r == Paid(p, outs, required)
  {
    for j := 0 to |outs|
      invariant forall k :: 0 <= k < j ==> !(outs[k].script == p.script && outs[k].value >= required)
    {
      if outs[j].script == p.script && outs[j].value >= required {
        return true;
      }
    }
    r := false;
  }

  /** The most votes a payee of each level has, among those with enough
      (src/masternode-payments.cpp:495-509). */
  method MaxSignatures(ps: seq<Payee>) returns (most: map<nat, int>)
    ensures most.Keys == StrongLevels(ps)
    ensures forall l :: l in most ==>
      exists i :: 0 <= i < |ps| && Strong(ps[i]) && ps[i].level == l && ps[i].votes == most[l]
    ensures forall i :: 0 <= i < |ps| && Strong(ps[i]) ==> ps[i].votes <= most[ps[i].level]
  {
    most := map[];
    for i := 0 to |ps|
      invariant forall l :: l in most ==>
        exists k :: 0 <= k < i && Strong(ps[k]) && ps[k].level == l && ps[k].votes == most[l]
      invariant forall k :: 0 <= k < i && Strong(ps[k]) ==> ps[k].level in most && ps[k].votes <= most[ps[k].level]
    {
      if ps[i].votes >= REQUIRED {
        if ps[i].level !in most || ps[i].votes >= most[ps[i].level] {
          most := most[ps[i].level := ps[i].votes];
        }
      }
    }
  }

  /** src/masternode-payments.cpp:489-563 */
  method IsTransactionValid(e: BlockPayees, outs: seq<Out>, m: Money) returns (ok: bool)
    ensures ok == PaysRequired(e, outs, m)
  {
    var most := MaxSignatures(e.payments);
    if most.Keys == {} {
      NothingRequired(e, outs, m);
      return true;
    }
    for i := 0 to |e.payments|
      invariant most.Keys != {} && most.Keys == StrongLevels(e.payments) - PaidLevels(e, i, outs, m)
    {
      PaidLevelsStep(e, i, outs, m);
      var counts := CountsAsPaid(e, e.payments[i], outs, m);
      if counts {
        most := most - {e.payments[i].level};
        if most.Keys == {} {
          AllPaid(e, i + 1, outs, m);
          return true;
        }
      }
    }
    var l :| l in most.Keys;
    SomeUnpaid(e, l, outs, m);
    ok := false;
  }

  lemma NothingRequired(e: BlockPayees, outs: seq<Out>, m: Money)
    requires StrongLevels(e.payments) == {}
    ensures PaysRequired(e, outs, m)
  {
    forall i | 0 <= i < |e.payments| ensures !Strong(e.payments[i]) {
      if Strong(e.payments[i]) {
        StrongIsListed(e.payments, i);
      }
    }
  }

  lemma StrongIsListed(ps: seq<Payee>, i: nat)
    requires i < |ps| && Strong(ps[i])
    ensures ps[i].level in StrongLevels(ps)
  {
  }

  lemma PaidLevelsStep(e: BlockPayees, i: nat, outs: seq<Out>, m: Money)
    requires i < |e.payments|
    ensures var p := e.payments[i];
            PaidLevels(e, i + 1, outs, m) ==
              PaidLevels(e, i, outs, m) + (if Counting(e, p, outs, m) then {p.level} else {})
  {
  }

  lemma AllPaid(e: BlockPayees, n: nat, outs: seq<Out>, m: Money)
    requires n <= |e.payments| && StrongLevels(e.payments) - PaidLevels(e, n, outs, m) == {}
    ensures PaysRequired(e, outs, m)
  {
    forall i | 0 <= i < |e.payments| && Strong(e.payments[i])
      ensures LevelPaid(e, e.payments[i].level, outs, m)
    {
      var l := e.payments[i].level;
      assert l in StrongLevels(e.payments);
      assert l !in StrongLevels(e.payments) - PaidLevels(e, n, outs, m);
    }
  }

  lemma SomeUnpaid(e: BlockPayees, l: nat, outs: seq<Out>, m: Money)
    requires l in StrongLevels(e.payments) && l !in PaidLevels(e, |e.payments|, outs, m)
    ensures !PaysRequired(e, outs, m)
  {
    assert !LevelPaid(e, l, outs, m);
  }

  // ---- Building a block ----

  /** The voted payee of a level or, failing that, the masternode next in line. */
  function PayeeFor(ps: seq<Payee>, level: nat, next: nat -> Option<Script>): Option<Script> {
    match Best(ps, level)
    case Some(i) => Some(ps[i].script)
    case None => next(level)
  }

  /** What is added for one level on top of a tip at height `tip`. */
  function LevelPayment(ps: seq<Payee>, level: nat, tip: int, m: Money, next: nat -> Option<Script>): seq<Out> {
    var payee := PayeeFor(ps, level, next);
    var amount := MasternodePayment(tip, level, m);
    if payee.None? || amount == 0 then [] else [Out(amount, payee.value)]
  }

  /** The payments of the levels below `level`, lowest first. */
  function PaymentsBelow(ps: seq<Payee>, level: nat, tip: int, m: Money, next: nat -> Option<Script>): seq<Out> {
    if level <= MIN_LEVEL then []
    else PaymentsBelow(ps, level - 1, tip, m, next) + LevelPayment(ps, level - 1, tip, m, next)
  }

  function Payments(ps: seq<Payee>, tip: int, m: Money, next: nat -> Option<Script>): seq<Out> {
    PaymentsBelow(ps, MAX_LEVEL + 1, tip, m, next)
  }

  function Total(outs: seq<Out>): int {
    if outs == [] then 0 else Total(outs[..|outs| - 1]) + outs[|outs| - 1].value
  }

  lemma {:induction false} TotalAppend(a: seq<Out>, b: seq<Out>)
    ensures Total(a + b) == Total(a) + Total(b)
  {
    if b == [] {
      assert a + b == a;
    } else {
      assert (a + b)[..|a + b| - 1] == a + b[..|b| - 1];
      TotalAppend(a, b[..|b| - 1]);
    }
  }

  lemma {:induction false} TotalUpdate(outs: seq<Out>, i: nat, v: int)
    requires i < |outs|
    ensures Total(outs[i := outs[i].(value := v)]) == Total(outs) - outs[i].value + v
  {
    var us := outs[i := outs[i].(value := v)];
    if i == |outs| - 1 {
      assert us[..i] == outs[..i];
    } else {
      assert us[..|outs| - 1] == outs[..|outs| - 1][i := outs[i].(value := v)];
      TotalUpdate(outs[..|outs| - 1], i, v);
    }
  }

  /** src/masternode-payments.cpp:238-286; `ps` are the payees recorded for the next height. */
  method FillBlockPayee(outs: seq<Out>, ps: seq<Payee>, tip: int, m: Money, next: nat -> Option<Script>)
    returns (r: seq<Out>, total: int)
    ensures r == outs + Payments(ps, tip, m, next)
    ensures total == Total(Payments(ps, tip, m, next))
  {
    r, total := FillLevels(outs, ps, MAX_LEVEL + 1, tip, m, next);
  }

  /** The loop over the levels below `end`. */
  method FillLevels(outs: seq<Out>, ps: seq<Payee>, end: nat, tip: int, m: Money, next: nat -> Option<Script>)
    returns (r: seq<Out>, total: int)
    requires end >= MIN_LEVEL
    ensures r == outs + PaymentsBelow(ps, end, tip, m, next)
    ensures total == Total(PaymentsBelow(ps, end, tip, m, next))
  {
    r, total := outs, 0;
    NothingPaid(outs, ps, tip, m, next);
    for level := MIN_LEVEL to end
      invariant PaidBelow(outs, r, total, ps, level, tip, m, next)
    {
      ghost var before, sum := r, total;
      r, total := PayLevel(r, total, ps, level, tip, m, next);
      OneLevelMore(outs, before, sum, r, total, ps, level, tip, m, next);
    }
  }

  lemma NothingPaid(outs: seq<Out>, ps: seq<Payee>, tip: int, m: Money, next: nat -> Option<Script>)
    ensures PaidBelow(outs, outs, 0, ps, MIN_LEVEL, tip, m, next)
  {
  }

  lemma OneLevelMore(outs: seq<Out>, before: seq<Out>, sum: int, r: seq<Out>, total: int, ps: seq<Payee>, level: nat,
                     tip: int, m: Money, next: nat -> Option<Script>)
    requires level >= MIN_LEVEL && PaidBelow(outs, before, sum, ps, level, tip, m, next)
    requires r == before + LevelPayment(ps, level, tip, m, next)
    requires total == sum + Total(LevelPayment(ps, level, tip, m, next))
    ensures PaidBelow(outs, r, total, ps, level + 1, tip, m, next)
  {
    PaymentsNext(outs, ps, level, tip, m, next);
  }

  /** The levels below `end` are paid in `r`, with their total. */
  ghost predicate PaidBelow(outs: seq<Out>, r: seq<Out>, total: int, ps: seq<Payee>, end: nat, tip: int, m: Money,
                            next: nat -> Option<Script>)
  {
    r == outs + PaymentsBelow(ps, end, tip, m, next) && total == Total(PaymentsBelow(ps, end, tip, m, next))
  }

  lemma PaymentsNext(outs: seq<Out>, ps: seq<Payee>, level: nat, tip: int, m: Money, next: nat -> Option<Script>)
    requires level >= MIN_LEVEL
    ensures outs + PaymentsBelow(ps, level + 1, tip, m, next) ==
            (outs + PaymentsBelow(ps, level, tip, m, next)) + LevelPayment(ps, level, tip, m, next)
    ensures Total(PaymentsBelow(ps, level + 1, tip, m, next)) ==
            Total(PaymentsBelow(ps, level, tip, m, next)) + Total(LevelPayment(ps, level, tip, m, next))
  {
    TotalAppend(PaymentsBelow(ps, level, tip, m, next), LevelPayment(ps, level, tip, m, next));
  }

  method PayLevel(outs: seq<Out>, sum: int, ps: seq<Payee>, level: nat, tip: int, m: Money,
                  next: nat -> Option<Script>) returns (r: seq<Out>, total: int)
    ensures r == outs + LevelPayment(ps, level, tip, m, next)
    ensures total == sum + Total(LevelPayment(ps, level, tip, m, next))
  {
    r, total := outs, sum;
    var payee := GetPayee(ps, level);
    if payee.None? {
      payee := next(level);
    }
    var amount := MasternodePayment(tip, level, m);
    if payee.Some? && amount != 0 {
      r := r + [Out(amount, payee.value)];
      total := total + amount;
      assert [Out(amount, payee.value)][..0] == [];
    }
  }

  /** The levels' shares never exceed the block value. */
  lemma SharesFit(v: nat)
    ensures v * 7 / 100 + v * 20 / 100 + v * 30 / 100 + v * 40 / 100 <= v * 97 / 100 <= v
  {
  }

  lemma LevelTotal(ps: seq<Payee>, level: nat, tip: int, m: Money, next: nat -> Option<Script>)
    ensures 0 <= Total(LevelPayment(ps, level, tip, m, next)) <= MasternodePayment(tip, level, m)
  {
    var outs := LevelPayment(ps, level, tip, m, next);
    assert outs != [] ==> outs[..0] == [];
  }

  lemma PaymentsStep(ps: seq<Payee>, level: nat, tip: int, m: Money, next: nat -> Option<Script>)
    requires level >= MIN_LEVEL
    ensures Total(PaymentsBelow(ps, level, tip, m, next))
            <= Total(PaymentsBelow(ps, level + 1, tip, m, next))
            <= Total(PaymentsBelow(ps, level, tip, m, next)) + MasternodePayment(tip, level, m)
  {
    TotalAppend(PaymentsBelow(ps, level, tip, m, next), LevelPayment(ps, level, tip, m, next));
    LevelTotal(ps, level, tip, m, next);
  }

  lemma PaymentsFit(ps: seq<Payee>, tip: int, m: Money, next: nat -> Option<Script>)
    ensures 0 <= Total(Payments(ps, tip, m, next)) <= BlockValue(tip, m) * 97 / 100
  {
    assert PaymentsBelow(ps, 1, tip, m, next) == [];
    PaymentsStep(ps, 1, tip, m, next);
    PaymentsStep(ps, 2, tip, m, next);
    PaymentsStep(ps, 3, tip, m, next);
    PaymentsStep(ps, 4, tip, m, next);
    SharesFit(BlockValue(tip, m));
  }

  /** The reward of a proof-of-work block on a tip at height `tip` (src/miner.cpp:382-408): none
      above height 200. The masternodes' payments are added behind the miner's output and taken
      out of it, but not in the first block, which is the premine. All outputs together stay at
      the block value plus the fees, and the miner keeps at least 3% of the value and every fee. */
  method SplitReward(script: Script, fees: nat, ps: seq<Payee>, tip: nat, m: Money, next: nat -> Option<Script>)
    returns (r: Option<seq<Out>>)
    ensures r.None? <==> tip + 1 > LAST_POW_HEIGHT
    ensures r.Some? ==> Total(r.value) == BlockValue(tip, m) + fees && |r.value| >= 1 && r.value[0].script == script
    ensures r.Some? ==> r.value[1..] == if tip == 0 then [] else Payments(ps, tip, m, next)
    ensures r.Some? ==> r.value[0].value >= BlockValue(tip, m) - BlockValue(tip, m) * 97 / 100 + fees
  {
    var height := tip + 1;
    if height > LAST_POW_HEIGHT {
      return None;
    }
    var reward := [Out(BlockValue(tip, m) + fees, script)];
    assert reward[..0] == [];
    if height > 1 {
      reward := TakeOut(reward, ps, tip, m, next);
    }
    r := Some(reward);
  }

  /** src/miner.cpp:396-408 */
  method TakeOut(reward: seq<Out>, ps: seq<Payee>, tip: nat, m: Money, next: nat -> Option<Script>)
    returns (outs: seq<Out>)
    requires reward != []
    ensures Total(outs) == Total(reward)
    ensures |outs| >= |reward| && outs[|reward|..] == Payments(ps, tip, m, next)
    ensures outs[..|reward|] ==
      var last := |reward| - 1;
      reward[last := reward[last].(value := reward[last].value - Total(Payments(ps, tip, m, next)))]
    ensures 0 <= Total(Payments(ps, tip, m, next)) <= BlockValue(tip, m) * 97 / 100
  {
    var idx := |reward| - 1;
    var total;
    outs, total := FillBlockPayee(reward, ps, tip, m, next);
    TotalAppend(reward, Payments(ps, tip, m, next));
    TotalUpdate(outs, idx, outs[idx].value - total);
    PaymentsFit(ps, tip, m, next);
    outs := outs[idx := outs[idx].(value := outs[idx].value - total)];
  }

  // ---- A built block passes the check ----

  /** The builder goes by the tip's height, the check by the next one: it pays no less. */
  lemma BuilderPaysEnough(tip: int, level: nat, m: Money)
    requires tip >= 0
    ensures MasternodePayment(tip, level, m) >= MasternodePayment(tip + 1, level, m)
  {
    var a, b := BlockValue(tip, m), BlockValue(tip + 1, m);
    assert a >= b;
    assert a * Percent(level) >= b * Percent(level);
  }

  lemma {:induction false} LevelIsIn(ps: seq<Payee>, level: nat, bound: nat, tip: int, m: Money,
      next: nat -> Option<Script>)
    returns (j: nat)
    requires MIN_LEVEL <= level < bound && LevelPayment(ps, level, tip, m, next) != []
    ensures j < |PaymentsBelow(ps, bound, tip, m, next)|
    ensures PaymentsBelow(ps, bound, tip, m, next)[j] == LevelPayment(ps, level, tip, m, next)[0]
  {
    if level == bound - 1 {
      j := |PaymentsBelow(ps, level, tip, m, next)|;
    } else {
      j := LevelIsIn(ps, level, bound - 1, tip, m, next);
    }
  }

  predicate LevelsInRange(e: BlockPayees) {
    forall i :: 0 <= i < |e.payments| && Strong(e.payments[i]) ==> MIN_LEVEL <= e.payments[i].level <= MAX_LEVEL
  }

  /** The best payee of a level with a strong payee is strong, and the builder pays it. */
  lemma BuilderPaysLevel(e: BlockPayees, i: nat, outs: seq<Out>, tip: int, m: Money, next: nat -> Option<Script>)
    requires i < |e.payments| && Strong(e.payments[i]) && e.height == tip + 1 && tip >= 0
    requires MIN_LEVEL <= e.payments[i].level <= MAX_LEVEL
    requires MasternodePayment(tip, e.payments[i].level, m) != 0
    ensures LevelPaid(e, e.payments[i].level, outs + Payments(e.payments, tip, m, next), m)
  {
    var level := e.payments[i].level;
    var b := Best(e.payments, level).value;
    var j := LevelIsIn(e.payments, level, MAX_LEVEL + 1, tip, m, next);
    BuilderPaysEnough(tip, level, m);
    var all := outs + Payments(e.payments, tip, m, next);
    assert all[|outs| + j] == LevelPayment(e.payments, level, tip, m, next)[0];
    assert Paid(e.payments[b], all, MasternodePayment(e.height, level, m));
  }

  /** The payees of the recorded entry appear in no other output. */
  predicate NoOtherPay(e: BlockPayees, outs: seq<Out>, next: nat -> Option<Script>) {
    (forall j :: 0 <= j < |outs| ==> !Lists(e.payments, outs[j].script)) &&
    (forall l: nat | l <= MAX_LEVEL :: next(l).Some? ==> !Lists(e.payments, next(l).value))
  }

  lemma {:induction false} ComesFromLevel(ps: seq<Payee>, bound: nat, tip: int, m: Money, next: nat -> Option<Script>,
      j: nat)
    returns (l: nat)
    requires j < |PaymentsBelow(ps, bound, tip, m, next)|
    ensures MIN_LEVEL <= l < bound && LevelPayment(ps, l, tip, m, next) != []
    ensures PaymentsBelow(ps, bound, tip, m, next)[j] == LevelPayment(ps, l, tip, m, next)[0]
  {
    if j < |PaymentsBelow(ps, bound - 1, tip, m, next)| {
      l := ComesFromLevel(ps, bound - 1, tip, m, next, j);
    } else {
      l := bound - 1;
    }
  }

  /** An output of the built block is one of the first or the payment of some level. */
  lemma OutputComes(outs: seq<Out>, ps: seq<Payee>, tip: int, m: Money, next: nat -> Option<Script>, j: nat)
    requires j < |outs + Payments(ps, tip, m, next)|
    ensures var out := (outs + Payments(ps, tip, m, next))[j];
      (j < |outs| && out == outs[j]) ||
      exists l: nat :: PaysAt(ps, l, tip, m, next, out.script)
  {
    if j >= |outs| {
      var l := ComesFromLevel(ps, MAX_LEVEL + 1, tip, m, next, j - |outs|);
      assert LevelPayment(ps, l, tip, m, next) == [Out(MasternodePayment(tip, l, m), PayeeFor(ps, l, next).value)];
      assert PaysAt(ps, l, tip, m, next, (outs + Payments(ps, tip, m, next))[j].script);
    }
  }

  /** The builder pays something to a script as the payee of level `l`. */
  predicate PaysAt(ps: seq<Payee>, l: nat, tip: int, m: Money, next: nat -> Option<Script>, script: Script) {
    MIN_LEVEL <= l <= MAX_LEVEL && MasternodePayment(tip, l, m) != 0 && PayeeFor(ps, l, next) == Some(script)
  }

  /** A script that is paid although its level is due nothing: among the other outputs, or as the
      payee of a level that is due something. */
  predicate PaidAnyway(script: Script, outs: seq<Out>, ps: seq<Payee>, tip: int, m: Money,
      next: nat -> Option<Script>) {
    (exists j :: 0 <= j < |outs| && outs[j].script == script && outs[j].value >= 0) ||
    (exists l: nat | l <= MAX_LEVEL :: PaysAt(ps, l, tip, m, next, script))
  }

  /** The level is due something, or one of its payees with enough votes is paid anyway. */
  predicate LevelCovered(e: BlockPayees, level: nat, outs: seq<Out>, tip: int, m: Money, next: nat -> Option<Script>) {
    MasternodePayment(tip, level, m) != 0 ||
    exists i :: 0 <= i < |e.payments| && Strong(e.payments[i]) && e.payments[i].level == level
                && PaidAnyway(e.payments[i].script, outs, e.payments, tip, m, next)
  }

  predicate AllCovered(e: BlockPayees, outs: seq<Out>, tip: int, m: Money, next: nat -> Option<Script>) {
    forall i :: 0 <= i < |e.payments| && Strong(e.payments[i]) ==>
      LevelCovered(e, e.payments[i].level, outs, tip, m, next)
  }

  /** What is paid anyway satisfies a level that is due nothing. */
  lemma AnywaySuffices(e: BlockPayees, i: nat, outs: seq<Out>, tip: int, m: Money, next: nat -> Option<Script>)
    requires i < |e.payments| && Strong(e.payments[i]) && e.height == tip + 1 && tip >= 0
    requires MasternodePayment(tip, e.payments[i].level, m) == 0
    requires PaidAnyway(e.payments[i].script, outs, e.payments, tip, m, next)
    ensures LevelPaid(e, e.payments[i].level, outs + Payments(e.payments, tip, m, next), m)
  {
    var all := outs + Payments(e.payments, tip, m, next);
    BuilderPaysEnough(tip, e.payments[i].level, m);
    if j :| 0 <= j < |outs| && outs[j].script == e.payments[i].script && outs[j].value >= 0 {
      assert all[j] == outs[j];
    } else {
      var l: nat :| l <= MAX_LEVEL && PaysAt(e.payments, l, tip, m, next, e.payments[i].script);
      var j := LevelIsIn(e.payments, l, MAX_LEVEL + 1, tip, m, next);
      assert all[|outs| + j] == LevelPayment(e.payments, l, tip, m, next)[0];
    }
    assert Paid(e.payments[i], all, MasternodePayment(e.height, e.payments[i].level, m));
  }

  lemma PaidIsCovered(e: BlockPayees, level: nat, outs: seq<Out>, tip: int, m: Money, next: nat -> Option<Script>)
    requires LevelPaid(e, level, outs + Payments(e.payments, tip, m, next), m)
    ensures LevelCovered(e, level, outs, tip, m, next)
  {
    var all := outs + Payments(e.payments, tip, m, next);
    var i :| 0 <= i < |e.payments| && Strong(e.payments[i]) && e.payments[i].level == level
             && Paid(e.payments[i], all, MasternodePayment(e.height, level, m));
    var j :| 0 <= j < |all| && all[j].script == e.payments[i].script &&
      all[j].value >= MasternodePayment(e.height, level, m);
    OutputComes(outs, e.payments, tip, m, next, j);
    if j < |outs| {
      assert outs[j] == all[j];
    }
    assert PaidAnyway(e.payments[i].script, outs, e.payments, tip, m, next);
  }

  /** A built block passes the check for its height if and only if every level that has a payee
      with enough votes is due a non-zero payment or has such a payee paid anyway. */
  lemma BuiltBlockPasses(e: BlockPayees, outs: seq<Out>, tip: int, m: Money, next: nat -> Option<Script>)
    requires e.height == tip + 1 && tip >= 0
    ensures PaysRequired(e, outs + Payments(e.payments, tip, m, next), m) <==> AllCovered(e, outs, tip, m, next)
  {
    var all := outs + Payments(e.payments, tip, m, next);
    if PaysRequired(e, all, m) {
      forall i | 0 <= i < |e.payments| && Strong(e.payments[i])
        ensures LevelCovered(e, e.payments[i].level, outs, tip, m, next)
      {
        PaidIsCovered(e, e.payments[i].level, outs, tip, m, next);
      }
    }
    if AllCovered(e, outs, tip, m, next) {
      forall i | 0 <= i < |e.payments| && Strong(e.payments[i]) ensures LevelPaid(e, e.payments[i].level, all, m) {
        CoveredIsPaid(e, i, outs, tip, m, next);
      }
    }
  }

  lemma CoveredIsPaid(e: BlockPayees, i: nat, outs: seq<Out>, tip: int, m: Money, next: nat -> Option<Script>)
    requires i < |e.payments| && Strong(e.payments[i]) && e.height == tip + 1 && tip >= 0
    requires LevelCovered(e, e.payments[i].level, outs, tip, m, next)
    ensures LevelPaid(e, e.payments[i].level, outs + Payments(e.payments, tip, m, next), m)
  {
    var level := e.payments[i].level;
    if MasternodePayment(tip, level, m) != 0 {
      DueLevels(tip, level, m);
      BuilderPaysLevel(e, i, outs, tip, m, next);
    } else {
      var q :| 0 <= q < |e.payments| && Strong(e.payments[q]) && e.payments[q].level == level
               && PaidAnyway(e.payments[q].script, outs, e.payments, tip, m, next);
      AnywaySuffices(e, q, outs, tip, m, next);
    }
  }

  /** Only the four levels are ever due anything. */
  lemma DueLevels(tip: int, level: nat, m: Money)
    requires MasternodePayment(tip, level, m) != 0
    ensures MIN_LEVEL <= level <= MAX_LEVEL
  {
  }

  /** Every level that has a payee with enough votes is due something. */
  predicate AllDue(e: BlockPayees, tip: int, m: Money) {
    forall i :: 0 <= i < |e.payments| && Strong(e.payments[i]) ==> MasternodePayment(tip, e.payments[i].level, m) != 0
  }

  /** Where nothing else pays the recorded payees, being due something is what decides. */
  lemma NothingElsePays(e: BlockPayees, outs: seq<Out>, tip: int, m: Money, next: nat -> Option<Script>)
    requires OneEach(e.payments) && NoOtherPay(e, outs, next)
    ensures AllCovered(e, outs, tip, m, next) <==> AllDue(e, tip, m)
  {
    forall i | 0 <= i < |e.payments| && MasternodePayment(tip, e.payments[i].level, m) == 0
      ensures !PaidAnyway(e.payments[i].script, outs, e.payments, tip, m, next)
    {
      assert Lists(e.payments, e.payments[i].script);
      forall l: nat | l <= MAX_LEVEL ensures !PaysAt(e.payments, l, tip, m, next, e.payments[i].script) {
        if Best(e.payments, l).Some? && Best(e.payments, l).value != i {
          assert e.payments[Best(e.payments, l).value].script != e.payments[i].script;
        }
      }
    }
  }

  /** Fifteen units of block value are enough for every level to be due something. */
  lemma EnoughValue(e: BlockPayees, tip: int, m: Money)
    requires LevelsInRange(e) && BlockValue(tip, m) >= 15
    ensures AllDue(e, tip, m)
  {
    forall i | 0 <= i < |e.payments| && Strong(e.payments[i])
      ensures MasternodePayment(tip, e.payments[i].level, m) != 0
    {
      assert Percent(e.payments[i].level) >= 7;
      Share(BlockValue(tip, m), Percent(e.payments[i].level));
    }
  }

  lemma Share(v: nat, percent: nat)
    requires v >= 15 && percent >= 7
    ensures v * percent / 100 >= 1
  {
    assert v * percent >= 15 * 7;
  }

  /** Once the money supply is exhausted, the builder's own block passes the check if and only if
      every level with a payee of six votes has such a payee among the other outputs: its payment
      is omitted when it is zero, yet one is demanded. */
  lemma ExhaustedSupply(e: BlockPayees, outs: seq<Out>, tip: int, m: Money, next: nat -> Option<Script>)
    requires e.height == tip + 1 && tip >= 0 && m.supply >= m.maxOut
    ensures PaysRequired(e, outs + Payments(e.payments, tip, m, next), m) <==>
            forall i :: 0 <= i < |e.payments| && Strong(e.payments[i]) ==> AmongOuts(e, e.payments[i].level, outs)
  {
    BuiltBlockPasses(e, outs, tip, m, next);
    forall l: nat ensures MasternodePayment(tip, l, m) == 0 {
      assert BlockValue(tip, m) == 0;
    }
    forall level: nat ensures LevelCovered(e, level, outs, tip, m, next) <==> AmongOuts(e, level, outs) {
      NothingDue(e, level, outs, tip, m, next);
    }
  }

  predicate AmongOuts(e: BlockPayees, level: nat, outs: seq<Out>) {
    exists i, j :: 0 <= i < |e.payments| && Strong(e.payments[i]) && e.payments[i].level == level
                   && 0 <= j < |outs| && outs[j].script == e.payments[i].script && outs[j].value >= 0
  }

  lemma NothingDue(e: BlockPayees, level: nat, outs: seq<Out>, tip: int, m: Money, next: nat -> Option<Script>)
    requires forall l: nat :: MasternodePayment(tip, l, m) == 0
    ensures LevelCovered(e, level, outs, tip, m, next) <==> AmongOuts(e, level, outs)
  {
    if LevelCovered(e, level, outs, tip, m, next) {
      var i :| 0 <= i < |e.payments| && Strong(e.payments[i]) && e.payments[i].level == level
               && PaidAnyway(e.payments[i].script, outs, e.payments, tip, m, next);
      forall l: nat ensures !PaysAt(e.payments, l, tip, m, next, e.payments[i].script) {
      }
      var j :| 0 <= j < |outs| && outs[j].script == e.payments[i].script && outs[j].value >= 0;
    }
    if i, j :| 0 <= i < |e.payments| && Strong(e.payments[i]) && e.payments[i].level == level
               && 0 <= j < |outs| && outs[j].script == e.payments[i].script && outs[j].value >= 0 {
      assert PaidAnyway(e.payments[i].script, outs, e.payments, tip, m, next);
    }
  }

  /** In particular it fails where nothing else pays the recorded payees. */
  lemma ExhaustedSupplyFails(e: BlockPayees, i: nat, outs: seq<Out>, tip: int, m: Money, next: nat -> Option<Script>)
    requires i < |e.payments| && Strong(e.payments[i]) && m.supply >= m.maxOut
    requires OneEach(e.payments) && NoOtherPay(e, outs, next)
    ensures !PaysRequired(e, outs + Payments(e.payments, tip, m, next), m)
  {
    NothingElsePays(e, outs, tip, m, next);
    assert MasternodePayment(tip, e.payments[i].level, m) == 0;
    if PaysRequired(e, outs + Payments(e.payments, tip, m, next), m) {
      forall k | 0 <= k < |e.payments| && Strong(e.payments[k])
        ensures LevelCovered(e, e.payments[k].level, outs, tip, m, next)
      {
        PaidIsCovered(e, e.payments[k].level, outs, tip, m, next);
      }
    }
  }

  // ---- Over every run of the vote keeping ----

  predicate VoteLevels(votes: map<Hash, Vote>) {
    forall k :: k in votes ==> MIN_LEVEL <= votes[k].level <= MAX_LEVEL
  }

  predicate LevelsGiven(es: seq<Event>) {
    forall i :: 0 <= i < |es| && es[i].AddEv? ==> MIN_LEVEL <= es[i].vote.level <= MAX_LEVEL
  }

  lemma {:induction false} RunLevels(es: seq<Event>, hash: Ballot -> Hash)
    requires LevelsGiven(es)
    ensures VoteLevels(Run(es, hash).votes)
  {
    if es != [] {
      RunLevels(es[..|es| - 1], hash);
      assert es[|es| - 1].AddEv? ==> MIN_LEVEL <= es[|es| - 1].vote.level <= MAX_LEVEL;
    }
  }

  /** Whatever votes were recorded, as long as each carried a real level, the block built on a
      tip with at least fifteen units of block value passes the check for its height. */
  lemma RunBuildsPassing(es: seq<Event>, hash: Ballot -> Hash, outs: seq<Out>, tip: int, m: Money,
                         next: nat -> Option<Script>)
    requires LevelsGiven(es) && tip >= 0 && BlockValue(tip, m) >= 15
    ensures var e := EntryAt(Run(es, hash), tip + 1);
            PaysRequired(e, outs + Payments(e.payments, tip, m, next), m)
  {
    var s := Run(es, hash);
    var e := EntryAt(s, tip + 1);
    RunKeeps(es, hash);
    RunLevels(es, hash);
    AddedHeight(s, tip + 1, hash);
    forall i | 0 <= i < |e.payments| ensures MIN_LEVEL <= e.payments[i].level <= MAX_LEVEL {
      assert EntryOk(s.votes, tip + 1, e);
      assert Counted(s.votes, tip + 1, e.payments[i]);
    }
    EnoughValue(e, tip, m);
    assert AllCovered(e, outs, tip, m, next);
    BuiltBlockPasses(e, outs, tip, m, next);
  }
}
