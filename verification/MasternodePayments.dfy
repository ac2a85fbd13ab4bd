/** The object that keeps the masternode payment votes (src/masternode-payments.h:237-292). */
module MasternodePayments {
  import opened Basics
  import opened PaymentVotes
  import opened PaymentRecords

  class Payments {
    var votes: map<Hash, Vote>
    var blocks: map<int, BlockPayees>
    const hash: Ballot -> Hash

    ghost function Abs(): State
      reads this
    {
      State(votes, blocks)
    }

    constructor (hash: Ballot -> Hash)
      ensures Abs() == NO_VOTES && this.hash == hash
    {
      this.hash := hash;
      votes, blocks := map[], map[];
    }

    method Clear()
      modifies this
      ensures Abs() == NO_VOTES
    {
      votes, blocks := map[], map[];
    }

    /** src/masternode-payments.cpp:466-487 */
    method AddWinningMasternode(v: Vote, known: bool) returns (ok: bool)
      modifies this
      ensures Abs() == AddWinning(old(Abs()), v, hash, known)
      ensures ok <==> known && hash(BallotOf(v)) !in old(votes)
      ensures ok ==> v.outpoint in Voters(votes, v.height, v.payee)
      ensures ok && Inv(old(Abs()), hash) ==>
        Tally(Abs(), v.height, v.payee) == old(Tally(Abs(), v.height, v.payee)) + 1
    {
      if !known {
        return false;
      }
      var key := hash(BallotOf(v));
      if key in votes {
        return false;
      }
      if Inv(Abs(), hash) {
        AddRecords(Abs(), v, hash);
      }
      votes := votes[key := v];
      if v.height !in blocks {
        blocks := blocks[v.height := BlockPayees(v.height, [])];
      }
      var e := blocks[v.height];
      var ps := AddToPayments(e.payments, v.level, v.payee, 1);
      blocks := blocks[v.height := e.(payments := ps)];
      assert votes[key] == v;
      ok := true;
    }

    /** src/masternode-payments.cpp:613-640 */
    method CleanPaymentList(tip: int, masternodes: nat)
      modifies this
      ensures Abs() == Clean(old(Abs()), tip, Limit(masternodes))
    {
      var limit := Max(masternodes * 5 / 4, 1000);
      ghost var votes0, blocks0 := votes, blocks;
      var todo := votes.Keys;
      while todo != {}
        invariant todo <= votes0.Keys
        invariant votes == Swept(votes0, tip, limit, todo)
        invariant blocks == SweptBlocks(votes0, blocks0, tip, limit, todo)
        decreases todo
      {
        var k :| k in todo;
        var winner := votes[k];
        SweepOne(votes0, blocks0, tip, limit, todo, k);
        if tip - winner.height > limit {
          votes := votes - {k};
          blocks := blocks - {winner.height};
        }
        todo := todo - {k};
      }
      SweepAll(Abs(), State(votes0, blocks0), tip, limit);
    }
  }

  /** src/masternode-payments.h:108-120 */
  method AddToPayments(ps: seq<Payee>, level: nat, script: Script, inc: int) returns (r: seq<Payee>)
    ensures r == AddPayee(ps, level, script, inc)
  {
    var i := 0;
    while i < |ps| && ps[i].script != script
      invariant 0 <= i <= |ps|
      invariant forall j :: 0 <= j < i ==> ps[j].script != script
    {
      i := i + 1;
    }
    assert i == Find(ps, script);
    if i == |ps| {
      r := ps + [Payee(level, script, inc)];
    } else {
      r := ps[i := ps[i].(votes := ps[i].votes + inc)];
    }
  }

  // ---- The sweep, with the keys in `todo` not yet visited ----

  function Swept(votes: map<Hash, Vote>, tip: int, limit: int, todo: set<Hash>): map<Hash, Vote> {
    map k | k in votes && (k in todo || !Stale(tip, limit, votes[k].height)) :: votes[k]
  }

  predicate Visited(votes: map<Hash, Vote>, tip: int, limit: int, todo: set<Hash>, h: int) {
    exists k :: k in votes && k !in todo && votes[k].height == h && Stale(tip, limit, h)
  }

  function SweptBlocks(votes: map<Hash, Vote>, blocks: map<int, BlockPayees>, tip: int, limit: int,
                       todo: set<Hash>): map<int, BlockPayees>
  {
    map h | h in blocks && !Visited(votes, tip, limit, todo, h) :: blocks[h]
  }

  lemma SweepOne(votes: map<Hash, Vote>, blocks: map<int, BlockPayees>, tip: int, limit: int,
                 todo: set<Hash>, k: Hash)
    requires todo <= votes.Keys && k in todo
    ensures Swept(votes, tip, limit, todo - {k}) ==
            Swept(votes, tip, limit, todo) - (if Stale(tip, limit, votes[k].height) then {k} else {})
    ensures SweptBlocks(votes, blocks, tip, limit, todo - {k}) ==
            SweptBlocks(votes, blocks, tip, limit, todo)
            - (if Stale(tip, limit, votes[k].height) then {votes[k].height} else {})
  {
    forall h | h in blocks
      ensures Visited(votes, tip, limit, todo - {k}, h) <==>
              Visited(votes, tip, limit, todo, h) || (h == votes[k].height && Stale(tip, limit, h))
    {
    }
  }

  lemma SweepAll(t: State, s: State, tip: int, limit: int)
    requires t.votes == Swept(s.votes, tip, limit, {}) && t.blocks == SweptBlocks(s.votes, s.blocks, tip, limit, {})
    ensures t == Clean(s, tip, limit)
  {
    assert t.votes == Clean(s, tip, limit).votes;
    forall h | h in s.blocks ensures Visited(s.votes, tip, limit, {}, h) <==> Dropped(s.votes, tip, limit, h) {
    }
    assert t.blocks == Clean(s, tip, limit).blocks;
  }
}
