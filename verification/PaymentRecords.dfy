/** What a vote does to the records (src/masternode-payments.cpp:466-487), one by one and over
    whole runs. */
module PaymentRecords {
  import opened Basics
  import opened PaymentVotes
  import SetFacts

  // ---- One vote ----

  /** The level at which a script is listed at a height. */
  function LevelOf(s: State, height: int, script: Script): Option<nat> {
    var ps := EntryAt(s, height).payments;
    var i := Find(ps, script);
    if i < |ps| then Some(ps[i].level) else None
  }

  lemma FindIn(ps: seq<Payee>, script: Script, r: nat)
    requires r < |ps| && ps[r].script == script && forall i :: 0 <= i < r ==> ps[i].script != script
    ensures Find(ps, script) == r
  {
  }

  lemma FindNone(ps: seq<Payee>, script: Script)
    requires forall i :: 0 <= i < |ps| ==> ps[i].script != script
    ensures Find(ps, script) == |ps|
  {
  }

  /** The entry of the script itself: raised by one, or new with the level voted for. */
  lemma AddedSelf(ps: seq<Payee>, level: nat, script: Script)
    ensures var qs := AddPayee(ps, level, script, 1); var i := Find(ps, script);
      && Find(qs, script) == i < |qs|
      && qs[i] == if i < |ps| then ps[i].(votes := ps[i].votes + 1) else Payee(level, script, 1)
  {
    var qs, i := AddPayee(ps, level, script, 1), Find(ps, script);
    FindIn(qs, script, i);
  }

  lemma AddedShape(ps: seq<Payee>, level: nat, script: Script)
    ensures var qs := AddPayee(ps, level, script, 1); var i := Find(ps, script);
      && |ps| <= |qs| && (forall k :: 0 <= k < |ps| ==> qs[k].script == ps[k].script)
      && (forall k :: 0 <= k < |ps| && k != i ==> qs[k] == ps[k])
      && (forall k :: |ps| <= k < |qs| ==> qs[k].script == script)
  {
  }

  lemma AddedOther(ps: seq<Payee>, qs: seq<Payee>, level: nat, script: Script, other: Script)
    requires qs == AddPayee(ps, level, script, 1) && other != script
    ensures var j := Find(ps, other);
      if j < |ps| then Find(qs, other) == j < |qs| && qs[j] == ps[j] else Find(qs, other) == |qs|
  {
    AddedShape(ps, level, script);
    var j := Find(ps, other);
    if j < |ps| {
      FindIn(qs, other, j);
    } else {
      FindNone(qs, other);
    }
  }

  /** A vote whose hash is new and whose block is known is recorded and counted once. */
  lemma AddRecords(s: State, v: Vote, hash: Ballot -> Hash)
    requires Inv(s, hash) && hash(BallotOf(v)) !in s.votes
    ensures var t := AddWinning(s, v, hash, true);
      && v.outpoint !in Voters(s.votes, v.height, v.payee)
      && Voters(t.votes, v.height, v.payee) == Voters(s.votes, v.height, v.payee) + {v.outpoint}
      && Tally(t, v.height, v.payee) == Tally(s, v.height, v.payee) + 1
      && LevelOf(t, v.height, v.payee) ==
           if LevelOf(s, v.height, v.payee) == None then Some(v.level) else LevelOf(s, v.height, v.payee)
  {
    VotersGain(s.votes, hash, v);
    AddCounts(s, v, hash);
  }

  lemma AddCounts(s: State, v: Vote, hash: Ballot -> Hash)
    requires hash(BallotOf(v)) !in s.votes
    ensures var t := AddWinning(s, v, hash, true);
      && Tally(t, v.height, v.payee) == Tally(s, v.height, v.payee) + 1
      && LevelOf(t, v.height, v.payee) ==
           if LevelOf(s, v.height, v.payee) == None then Some(v.level) else LevelOf(s, v.height, v.payee)
  {
    var ps := EntryAt(s, v.height).payments;
    AddedSelf(ps, v.level, v.payee);
    assert EntryAt(AddWinning(s, v, hash, true), v.height).payments == AddPayee(ps, v.level, v.payee, 1);
  }

  /** No other script, and no other height, is affected by it. */
  lemma AddSparesOthers(s: State, v: Vote, hash: Ballot -> Hash, known: bool, height: int, script: Script)
    requires height != v.height || script != v.payee
    ensures var t := AddWinning(s, v, hash, known);
      && Voters(t.votes, height, script) == Voters(s.votes, height, script)
      && Tally(t, height, script) == Tally(s, height, script)
      && LevelOf(t, height, script) == LevelOf(s, height, script)
  {
    if known && hash(BallotOf(v)) !in s.votes {
      VotersUnaffected(s.votes, hash(BallotOf(v)), v, height, script);
      if height == v.height {
        var ps := EntryAt(s, v.height).payments;
        AddedOther(ps, AddPayee(ps, v.level, v.payee, 1), v.level, v.payee, script);
      }
    }
  }

  /** A vote for an unknown block, or one whose hash is already there, changes nothing. */
  lemma RefusedChangesNothing(s: State, v: Vote, hash: Ballot -> Hash, known: bool)
    ensures !known || hash(BallotOf(v)) in s.votes ==> AddWinning(s, v, hash, known) == s
  {
  }

  // ---- Whole runs ----

  /** What happens later neither clears the records nor drops the height. */
  predicate Spares(e: Event, height: int) {
    match e
    case AddEv(_, _) => true
    case CleanEv(tip, masternodes) => tip - height <= Max(masternodes * 5 / 4, 1000)
    case ClearEv => false
  }

  predicate Survives(es: seq<Event>, n: nat, height: int) {
    forall m :: n < m < |es| ==> Spares(es[m], height)
  }

  /** Event `n` is a vote of `o` for the script and height, on a known block. */
  predicate VotedAt(es: seq<Event>, n: nat, height: int, script: Script, o: Outpoint) {
    n < |es| && es[n].AddEv? && es[n].known && BallotOf(es[n].vote) == Ballot(script, height, o)
  }

  lemma SparedStays(s: State, e: Event, hash: Ballot -> Hash, k: Hash)
    requires k in s.votes && Spares(e, s.votes[k].height)
    ensures var t := Next(s, e, hash); k in t.votes && t.votes[k] == s.votes[k]
  {
  }

  lemma {:induction false} RecordStays(es: seq<Event>, hash: Ballot -> Hash, n: nat, k: Hash)
    requires n < |es| && k in Run(es[..n + 1], hash).votes
    requires Survives(es, n, Run(es[..n + 1], hash).votes[k].height)
    ensures k in Run(es, hash).votes && Run(es, hash).votes[k] == Run(es[..n + 1], hash).votes[k]
  {
    if n + 1 == |es| {
      assert es[..n + 1] == es;
    } else {
      var front := es[..|es| - 1];
      assert front[..n + 1] == es[..n + 1];
      RecordStays(front, hash, n, k);
      SparedStays(Run(front, hash), es[|es| - 1], hash, k);
    }
  }

  /** Right after a vote on a known block its ballot is on record, accepted or not. */
  lemma VoteIsThere(es: seq<Event>, hash: Ballot -> Hash, v: Vote)
    requires Injective(hash) && es != [] && es[|es| - 1] == AddEv(v, true)
    ensures var k := hash(BallotOf(v));
      k in Run(es, hash).votes && BallotOf(Run(es, hash).votes[k]) == BallotOf(v)
  {
    RunKeeps(es, hash);
  }

  /** Every record comes from a vote that survived. */
  lemma {:induction false} RecordOrigin(es: seq<Event>, hash: Ballot -> Hash, k: Hash) returns (n: nat)
    requires k in Run(es, hash).votes
    ensures n < |es| && es[n] == AddEv(Run(es, hash).votes[k], true)
    ensures Survives(es, n, Run(es, hash).votes[k].height)
  {
    var front, last := es[..|es| - 1], es[|es| - 1];
    var s := Run(front, hash);
    if k in s.votes {
      n := RecordOrigin(front, hash, k);
    } else {
      n := |es| - 1;
    }
  }

  /** With an injective vote hash, in every run: a masternode is on record for a script at a
      height if and only if it voted so on a known block and, since, the records were not cleared
      and the height was never stale at a cleaning. With the tallies being the numbers of those on
      record, the events alone decide every tally. */
  lemma RecordedExactly(es: seq<Event>, hash: Ballot -> Hash, height: int, script: Script, o: Outpoint)
    requires Injective(hash)
    ensures o in Voters(Run(es, hash).votes, height, script) <==>
      exists n: nat :: VotedAt(es, n, height, script, o) && Survives(es, n, height)
  {
    var s := Run(es, hash);
    if o in Voters(s.votes, height, script) {
      var k :| k in s.votes && s.votes[k].height == height && s.votes[k].payee == script && s.votes[k].outpoint == o;
      var n := RecordOrigin(es, hash, k);
      assert VotedAt(es, n, height, script, o);
    }
    if n: nat :| VotedAt(es, n, height, script, o) && Survives(es, n, height) {
      VoteIsThere(es[..n + 1], hash, es[n].vote);
      RecordStays(es, hash, n, hash(BallotOf(es[n].vote)));
    }
  }

  /** Without that hypothesis an accepted vote still stays. */
  lemma AcceptedStays(es: seq<Event>, hash: Ballot -> Hash, n: nat, v: Vote)
    requires n < |es| && es[n] == AddEv(v, true) && hash(BallotOf(v)) !in Run(es[..n], hash).votes
    requires Survives(es, n, v.height)
    ensures v.outpoint in Voters(Run(es, hash).votes, v.height, v.payee)
  {
    var k := hash(BallotOf(v));
    assert es[..n + 1][..n] == es[..n];
    RecordStays(es, hash, n, k);
    assert Run(es, hash).votes[k] == v;
  }
}
