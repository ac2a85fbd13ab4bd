/** The gate that decides whether a masternode may vote for a height
    (src/masternode-payments.cpp:445-464). */
module VoteGate {
  import opened Basics
  import Nonlinear

  const TWO256: nat := 0x1_0000000000000000_0000000000000000_0000000000000000_0000000000000000

  /** The key a masternode's votes at a level go under: a 256-bit sum. */
  function KeyOf(o: Outpoint, level: nat): nat {
    (o.txid + o.n + level) % TWO256
  }

  datatype Ask = Ask(key: nat, height: int)

  predicate Lets(last: map<nat, int>, a: Ask) {
    a.key !in last || a.height < last[a.key]
  }

  function Noted(last: map<nat, int>, a: Ask): map<nat, int> {
    if Lets(last, a) then last[a.key := a.height] else last
  }

  function LastAfter(asks: seq<Ask>): map<nat, int> {
    if asks == [] then map[] else Noted(LastAfter(asks[..|asks| - 1]), asks[|asks| - 1])
  }

  class Gate {
    var last: map<nat, int>

    constructor ()
      ensures last == map[]
    {
      last := map[];
    }

    method CanVote(o: Outpoint, level: nat, height: int) returns (ok: bool)
      modifies this
      ensures ok == Lets(old(last), Ask(KeyOf(o, level), height))
      ensures last == Noted(old(last), Ask(KeyOf(o, level), height))
    {
      var key := KeyOf(o, level);
      if key !in last {
        last := last[key := height];
      } else {
        if last[key] <= height {
          return false;
        }
        last := last[key := height];
      }
      ok := true;
    }
  }

  /** What is remembered for a key is the lowest height ever asked for. */
  lemma {:induction false} RemembersLowest(asks: seq<Ask>, key: nat)
    ensures key in LastAfter(asks) <==> exists i :: 0 <= i < |asks| && asks[i].key == key
    ensures key in LastAfter(asks) ==> exists i :: 0 <= i < |asks| && asks[i] == Ask(key, LastAfter(asks)[key])
    ensures forall i :: 0 <= i < |asks| && asks[i].key == key ==>
      key in LastAfter(asks) && LastAfter(asks)[key] <= asks[i].height
  {
    if asks != [] {
      var n := |asks| - 1;
      var front := asks[..n];
      RemembersLowest(front, key);
      if asks[n].key == key {
        assert asks[n] == Ask(key, asks[n].height);
      }
      if key in LastAfter(front) {
        var i :| 0 <= i < n && front[i] == Ask(key, LastAfter(front)[key]);
        assert asks[i] == front[i];
      }
      forall i | 0 <= i < |asks| && asks[i].key == key
        ensures key in LastAfter(asks) && LastAfter(asks)[key] <= asks[i].height
      {
        if i < n {
          assert front[i] == asks[i];
        }
      }
    }
  }

  /** A vote is let through if and only if every earlier one under the same key, let through or
      not, was for a greater height. */
  lemma LetThroughWhenLower(asks: seq<Ask>, a: Ask)
    ensures Lets(LastAfter(asks), a) <==>
      forall i :: 0 <= i < |asks| && asks[i].key == a.key ==> a.height < asks[i].height
  {
    RemembersLowest(asks, a.key);
  }

  /** Outputs of one transaction share a key exactly when their index and level have the same sum. */
  lemma KeysShared(txid: nat, n: nat, level: nat, n': nat, level': nat)
    requires n + level < TWO256 && n' + level' < TWO256
    ensures KeyOf(Outpoint(txid, n), level) == KeyOf(Outpoint(txid, n'), level') <==> n + level == n' + level'
  {
    var a, b := txid + n + level, txid + n' + level';
    Nonlinear.DivMod(a, TWO256);
    Nonlinear.DivMod(b, TWO256);
  }
}
