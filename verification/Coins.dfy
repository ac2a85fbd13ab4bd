/** The unspent outputs of one transaction (src/coins.h:77-289, src/coins.cpp:38-54). */
module Coins {

  /** A transaction output; the value -1 marks a spent one (src/primitives/transaction.h:137-147). */
  datatype TxOut = TxOut(value: int, script: seq<nat>) {
    predicate IsNull() { value == -1 }
  }

  const NULL_OUT := TxOut(-1, [])

  datatype Coins = Coins(coinBase: bool, coinStake: bool, vout: seq<TxOut>, height: int, version: int)

  const EMPTY_COINS := Coins(false, false, [], 0, 0)

  /** Every output is spent. */
  predicate IsPruned(c: Coins) {
    forall i :: 0 <= i < |c.vout| ==> c.vout[i].IsNull()
  }

  function Trimmed(vout: seq<TxOut>): (r: seq<TxOut>)
    ensures r <= vout
    ensures r != [] ==> !r[|r| - 1].IsNull()
    ensures forall i :: |r| <= i < |vout| ==> vout[i].IsNull()
  {
    if vout != [] && vout[|vout| - 1].IsNull() then Trimmed(vout[..|vout| - 1]) else vout
  }

  /** Drops the spent outputs at the end (src/coins.h:123-129). */
  function Cleanup(c: Coins): Coins {
    c.(vout := Trimmed(c.vout))
  }

  lemma CleanupKeepsPruned(c: Coins)
    ensures IsPruned(Cleanup(c)) <==> IsPruned(c)
    ensures IsPruned(c) ==> Cleanup(c).vout == []
  {
    var r := Trimmed(c.vout);
    assert forall i :: 0 <= i < |r| ==> r[i] == c.vout[i];
  }

  predicate Unspent(vout: seq<TxOut>, n: nat) {
    n < |vout| && !vout[n].IsNull()
  }

  predicate IsAvailable(c: Coins, n: nat) {
    Unspent(c.vout, n)
  }

  /** What is remembered to undo a spend; the metadata is kept only with the last output. */
  datatype Undo = Undo(out: TxOut, height: int, coinBase: bool, coinStake: bool, version: int)

  datatype SpendResult = NotSpent | Spent(coins: Coins, undo: Undo)

  /** src/coins.cpp:38-54 */
  function Spend(c: Coins, n: nat): SpendResult {
    if n >= |c.vout| || c.vout[n].IsNull() then NotSpent
    else
      var c' := Cleanup(c.(vout := c.vout[n := NULL_OUT]));
      Spent(c', if |c'.vout| == 0 then Undo(c.vout[n], c.height, c.coinBase, c.coinStake, c.version)
                else Undo(c.vout[n], 0, false, false, 0))
  }

  /** Spending makes exactly one output unavailable and keeps the metadata. */
  lemma SpendProps(c: Coins, n: nat)
    ensures Spend(c, n).Spent? <==> IsAvailable(c, n)
    ensures Spend(c, n).Spent? ==> var r := Spend(c, n);
      && (forall m: nat :: IsAvailable(r.coins, m) <==> m != n && IsAvailable(c, m))
      && (forall m: nat :: IsAvailable(r.coins, m) ==> r.coins.vout[m] == c.vout[m])
      && r.undo.out == c.vout[n] && r.coins == c.(vout := r.coins.vout)
      && (|r.coins.vout| == 0 <==> forall m: nat :: IsAvailable(c, m) ==> m == n)
      && (if forall m: nat :: IsAvailable(c, m) ==> m == n then
            r.undo == Undo(c.vout[n], c.height, c.coinBase, c.coinStake, c.version)
          else r.undo == Undo(c.vout[n], 0, false, false, 0))
  {
    if IsAvailable(c, n) {
      var v := c.vout[n := NULL_OUT];
      var r := Trimmed(v);
      assert forall m :: 0 <= m < |r| ==> r[m] == v[m];
      assert forall m :: 0 <= m < |v| && m != n ==> v[m] == c.vout[m];
      assert v[n].IsNull();
      if r != [] { assert IsAvailable(Spend(c, n).coins, |r| - 1); }
    }
  }
}
