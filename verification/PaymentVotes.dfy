/** Masternode payment votes (src/masternode-payments.cpp, src/masternode-payments.h): the votes
    recorded by hash, and the tally of payees for each block height. */
module PaymentVotes {
  import opened Basics
  import SetFacts

  type Script = seq<nat>
  type Hash = nat

  /** A vote of the masternode at `outpoint` (CMasternodePaymentWinner). */
  datatype Vote = Vote(outpoint: Outpoint, height: int, payee: Script, level: nat)

  /** The part of a vote that is hashed (src/masternode-payments.h:187-195). */
  datatype Ballot = Ballot(payee: Script, height: int, outpoint: Outpoint)

  function BallotOf(v: Vote): Ballot { Ballot(v.payee, v.height, v.outpoint) }

  datatype Payee = Payee(level: nat, script: Script, votes: int)

  datatype BlockPayees = BlockPayees(height: int, payments: seq<Payee>)

  datatype State = State(votes: map<Hash, Vote>, blocks: map<int, BlockPayees>)

  const NO_VOTES: State := State(map[], map[])

  // ---- Operations ----

  /** The first payee with the script, or the end; the level is not looked at. */
  function Find(ps: seq<Payee>, script: Script): (r: nat)
    ensures r <= |ps| && (r < |ps| ==> ps[r].script == script)
    ensures forall i :: 0 <= i < r ==> ps[i].script != script
  {
    if ps == [] then 0
    else
      var r := Find(ps[..|ps| - 1], script);
      if r < |ps| - 1 then r
      else if ps[|ps| - 1].script == script then |ps| - 1
      else |ps|
  }

  /** src/masternode-payments.h:108-120 */
  function AddPayee(ps: seq<Payee>, level: nat, script: Script, inc: int): seq<Payee> {
    var i := Find(ps, script);
    if i == |ps| then ps + [Payee(level, script, inc)]
    else ps[i := ps[i].(votes := ps[i].votes + inc)]
  }

  function EntryAt(s: State, height: int): BlockPayees {
    if height in s.blocks then s.blocks[height] else BlockPayees(height, [])
  }

  predicate Accepts(s: State, v: Vote, hash: Ballot -> Hash, known: bool) {
    known && hash(BallotOf(v)) !in s.votes
  }

  /** src/masternode-payments.cpp:466-487; `known` says whether the block 100 below is known. */
  function AddWinning(s: State, v: Vote, hash: Ballot -> Hash, known: bool): State {
    if !Accepts(s, v, hash, known) then s
    else
      var e := EntryAt(s, v.height);
      State(s.votes[hash(BallotOf(v)) := v],
            s.blocks[v.height := e.(payments := AddPayee(e.payments, v.level, v.payee, 1))])
  }

  /** src/masternode-payments.cpp:625 */
  function Limit(masternodes: nat): int { Max(masternodes * 5 / 4, 1000) }

  predicate Stale(tip: int, limit: int, height: int) { tip - height > limit }

  /** Whether some stale vote is for this height. */
  predicate Dropped(votes: map<Hash, Vote>, tip: int, limit: int, height: int) {
    exists k :: k in votes && votes[k].height == height && Stale(tip, limit, height)
  }

  /** src/masternode-payments.cpp:613-640 */
  function Clean(s: State, tip: int, limit: int): State {
    State(map k | k in s.votes && !Stale(tip, limit, s.votes[k].height) :: s.votes[k],
          map h | h in s.blocks && !Dropped(s.votes, tip, limit, h) :: s.blocks[h])
  }

  // ---- The invariant ----

  /** The masternodes recorded as voting for a script at a height. */
  function Voters(votes: map<Hash, Vote>, height: int, script: Script): set<Outpoint> {
    set k | k in votes && votes[k].height == height && votes[k].payee == script :: votes[k].outpoint
  }

  predicate Keyed(votes: map<Hash, Vote>, hash: Ballot -> Hash) {
    forall k :: k in votes ==> k == hash(BallotOf(votes[k]))
  }

  predicate OneEach(ps: seq<Payee>) {
    forall i, j :: 0 <= i < j < |ps| ==> ps[i].script != ps[j].script
  }

  /** A payee's votes are its voters, and one of them gave its level. */
  predicate Counted(votes: map<Hash, Vote>, height: int, p: Payee) {
    p.votes == |Voters(votes, height, p.script)| &&
    exists k :: k in votes && votes[k].height == height && votes[k].payee == p.script && votes[k].level == p.level
  }

  predicate EntryOk(votes: map<Hash, Vote>, height: int, e: BlockPayees) {
    e.height == height && e.payments != [] && OneEach(e.payments) &&
    forall i :: 0 <= i < |e.payments| ==> Counted(votes, height, e.payments[i])
  }

  predicate EntriesOk(s: State) {
    forall h :: h in s.blocks ==> EntryOk(s.votes, h, s.blocks[h])
  }

  predicate Lists(ps: seq<Payee>, script: Script) {
    Find(ps, script) < |ps|
  }

  predicate Listed(s: State) {
    forall k :: k in s.votes ==> ListedAt(s.blocks, s.votes[k])
  }

  predicate Inv(s: State, hash: Ballot -> Hash) {
    Keyed(s.votes, hash) && EntriesOk(s) && Listed(s)
  }

  // ---- Adding a vote ----

  lemma VotersUnaffected(votes: map<Hash, Vote>, k: Hash, v: Vote, height: int, script: Script)
    requires k !in votes && (v.height != height || v.payee != script)
    ensures Voters(votes[k := v], height, script) == Voters(votes, height, script)
  {
    var w := votes[k := v];
    forall o | o in Voters(votes, height, script) ensures o in Voters(w, height, script) {
      var j :| j in votes && votes[j].height == height && votes[j].payee == script && votes[j].outpoint == o;
      assert w[j] == votes[j];
    }
  }

  lemma VotersGain(votes: map<Hash, Vote>, hash: Ballot -> Hash, v: Vote)
    requires Keyed(votes, hash) && hash(BallotOf(v)) !in votes
    ensures Voters(votes[hash(BallotOf(v)) := v], v.height, v.payee) ==
            Voters(votes, v.height, v.payee) + {v.outpoint}
    ensures v.outpoint !in Voters(votes, v.height, v.payee)
  {
    var k := hash(BallotOf(v));
    var w := votes[k := v];
    forall o | o in Voters(votes, v.height, v.payee) ensures o in Voters(w, v.height, v.payee) {
      var j :| j in votes && votes[j].height == v.height && votes[j].payee == v.payee && votes[j].outpoint == o;
      assert w[j] == votes[j];
    }
    assert w[k] == v;
  }

  lemma CountedElsewhere(votes: map<Hash, Vote>, k: Hash, v: Vote, height: int, p: Payee)
    requires k !in votes && (v.height != height || v.payee != p.script) && Counted(votes, height, p)
    ensures Counted(votes[k := v], height, p)
  {
    VotersUnaffected(votes, k, v, height, p.script);
    var j :| j in votes && votes[j].height == height && votes[j].payee == p.script && votes[j].level == p.level;
    assert votes[k := v][j] == votes[j];
  }

  lemma EntryElsewhere(votes: map<Hash, Vote>, k: Hash, v: Vote, height: int, e: BlockPayees)
    requires k !in votes && v.height != height && EntryOk(votes, height, e)
    ensures EntryOk(votes[k := v], height, e)
  {
    forall i | 0 <= i < |e.payments| ensures Counted(votes[k := v], height, e.payments[i]) {
      CountedElsewhere(votes, k, v, height, e.payments[i]);
    }
  }

  lemma CountedMore(votes: map<Hash, Vote>, hash: Ballot -> Hash, v: Vote, p: Payee)
    requires Keyed(votes, hash) && hash(BallotOf(v)) !in votes
    requires p.script == v.payee && Counted(votes, v.height, p)
    ensures Counted(votes[hash(BallotOf(v)) := v], v.height, p.(votes := p.votes + 1))
  {
    VotersGain(votes, hash, v);
    SetFacts.CardinalityAdd(Voters(votes, v.height, v.payee), v.outpoint);
    var j :| j in votes && votes[j].height == v.height && votes[j].payee == p.script && votes[j].level == p.level;
    assert votes[hash(BallotOf(v)) := v][j] == votes[j];
  }

  lemma CountedFirst(votes: map<Hash, Vote>, hash: Ballot -> Hash, v: Vote)
    requires Keyed(votes, hash) && hash(BallotOf(v)) !in votes && Voters(votes, v.height, v.payee) == {}
    ensures Counted(votes[hash(BallotOf(v)) := v], v.height, Payee(v.level, v.payee, 1))
  {
    VotersGain(votes, hash, v);
    assert votes[hash(BallotOf(v)) := v][hash(BallotOf(v))] == v;
    assert {} + {v.outpoint} == {v.outpoint};
  }

  /** A script with a voter is listed. */
  lemma NotListed(s: State, height: int, script: Script)
    requires Listed(s) && Find(EntryAt(s, height).payments, script) == |EntryAt(s, height).payments|
    ensures Voters(s.votes, height, script) == {}
  {
    forall k | k in s.votes ensures !(s.votes[k].height == height && s.votes[k].payee == script) {
    }
  }

  lemma AddedPayees(s: State, v: Vote, hash: Ballot -> Hash)
    requires Inv(s, hash) && hash(BallotOf(v)) !in s.votes
    ensures var ps := AddPayee(EntryAt(s, v.height).payments, v.level, v.payee, 1);
            EntryOk(s.votes[hash(BallotOf(v)) := v], v.height, BlockPayees(v.height, ps))
  {
    var ps := EntryAt(s, v.height).payments;
    var i := Find(ps, v.payee);
    var w := s.votes[hash(BallotOf(v)) := v];
    var qs := AddPayee(ps, v.level, v.payee, 1);
    assert v.height in s.blocks ==> EntryOk(s.votes, v.height, s.blocks[v.height]);
    forall j | 0 <= j < |qs| ensures Counted(w, v.height, qs[j]) {
      if j != i {
        CountedElsewhere(s.votes, hash(BallotOf(v)), v, v.height, ps[j]);
      } else if i < |ps| {
        CountedMore(s.votes, hash, v, ps[i]);
      } else {
        NotListed(s, v.height, v.payee);
        CountedFirst(s.votes, hash, v);
      }
    }
  }

  predicate ListedAt(blocks: map<int, BlockPayees>, w: Vote) {
    w.height in blocks && Lists(blocks[w.height].payments, w.payee)
  }

  lemma AddListed(s: State, v: Vote, hash: Ballot -> Hash, known: bool)
    requires Listed(s) && Accepts(s, v, hash, known)
    ensures Listed(AddWinning(s, v, hash, known))
  {
    var t := AddWinning(s, v, hash, known);
    forall k | k in t.votes ensures ListedAt(t.blocks, t.votes[k]) {
      StillListed(EntryAt(s, v.height).payments, v.level, v.payee, t.votes[k].payee);
      assert k in s.votes ==> ListedAt(s.blocks, s.votes[k]);
    }
  }

  lemma StillListed(ps: seq<Payee>, level: nat, script: Script, other: Script)
    ensures Lists(AddPayee(ps, level, script, 1), script)
    ensures Lists(ps, other) ==> Lists(AddPayee(ps, level, script, 1), other)
  {
    var qs := AddPayee(ps, level, script, 1);
    assert qs[Find(ps, script)].script == script;
    if Lists(ps, other) {
      assert qs[Find(ps, other)].script == other;
    }
  }

  lemma AddKeeps(s: State, v: Vote, hash: Ballot -> Hash, known: bool)
    requires Inv(s, hash)
    ensures Inv(AddWinning(s, v, hash, known), hash)
  {
    if Accepts(s, v, hash, known) {
      var t := AddWinning(s, v, hash, known);
      AddListed(s, v, hash, known);
      AddedPayees(s, v, hash);
      AddedHeight(s, v.height, hash);
      forall h | h in t.blocks ensures EntryOk(t.votes, h, t.blocks[h]) {
        if h != v.height {
          EntryElsewhere(s.votes, hash(BallotOf(v)), v, h, s.blocks[h]);
        }
      }
    }
  }

  lemma AddedHeight(s: State, height: int, hash: Ballot -> Hash)
    requires Inv(s, hash)
    ensures EntryAt(s, height).height == height
  {
  }

  // ---- Cleaning ----

  lemma CleanKeepsEntry(s: State, tip: int, limit: int, h: int)
    requires EntriesOk(s) && h in Clean(s, tip, limit).blocks
    ensures EntryOk(Clean(s, tip, limit).votes, h, s.blocks[h])
  {
    var w := Clean(s, tip, limit).votes;
    assert EntryOk(s.votes, h, s.blocks[h]);
    forall i | 0 <= i < |s.blocks[h].payments| ensures Counted(w, h, s.blocks[h].payments[i]) {
      CleanKeepsCount(s.votes, w, h, s.blocks[h].payments[i]);
    }
  }

  lemma CleanKeepsCount(votes: map<Hash, Vote>, w: map<Hash, Vote>, h: int, p: Payee)
    requires Counted(votes, h, p)
    requires forall k :: k in w ==> k in votes && w[k] == votes[k]
    requires forall k :: k in votes && votes[k].height == h ==> k in w
    ensures Counted(w, h, p)
  {
    var j :| j in votes && votes[j].height == h && votes[j].payee == p.script && votes[j].level == p.level;
    assert j in w;
    assert Voters(w, h, p.script) == Voters(votes, h, p.script);
  }

  lemma CleanKeeps(s: State, tip: int, limit: int, hash: Ballot -> Hash)
    requires Inv(s, hash)
    ensures Inv(Clean(s, tip, limit), hash)
  {
    var t := Clean(s, tip, limit);
    forall h | h in t.blocks ensures EntryOk(t.votes, h, t.blocks[h]) {
      CleanKeepsEntry(s, tip, limit, h);
    }
  }

  /** Cleaning drops exactly the heights too far below the tip, votes and entries alike. */
  lemma CleanIsByHeight(s: State, tip: int, limit: int, hash: Ballot -> Hash, h: int)
    requires Inv(s, hash)
    ensures h in Clean(s, tip, limit).blocks <==> h in s.blocks && !Stale(tip, limit, h)
  {
    if h in s.blocks {
      var k := SomeVote(s, h, hash);
    }
  }

  lemma SomeVote(s: State, h: int, hash: Ballot -> Hash) returns (k: Hash)
    requires Inv(s, hash) && h in s.blocks
    ensures k in s.votes && s.votes[k].height == h
  {
    var e := s.blocks[h];
    assert EntryOk(s.votes, h, e);
    assert Counted(s.votes, h, e.payments[0]);
    k :| k in s.votes && s.votes[k].height == h && s.votes[k].payee == e.payments[0].script
      && s.votes[k].level == e.payments[0].level;
  }

  // ---- Every run ----

  datatype Event = AddEv(vote: Vote, known: bool) | CleanEv(tip: int, masternodes: nat) | ClearEv

  function Next(s: State, e: Event, hash: Ballot -> Hash): State {
    match e
    case AddEv(v, known) => AddWinning(s, v, hash, known)
    case CleanEv(tip, masternodes) => Clean(s, tip, Limit(masternodes))
    case ClearEv => NO_VOTES
  }

  function Run(es: seq<Event>, hash: Ballot -> Hash): State {
    if es == [] then NO_VOTES else Next(Run(es[..|es| - 1], hash), es[|es| - 1], hash)
  }

  lemma {:induction false} RunKeeps(es: seq<Event>, hash: Ballot -> Hash)
    ensures Inv(Run(es, hash), hash)
  {
    if es != [] {
      var s := Run(es[..|es| - 1], hash);
      RunKeeps(es[..|es| - 1], hash);
      match es[|es| - 1]
      case AddEv(v, known) => AddKeeps(s, v, hash, known);
      case CleanEv(tip, masternodes) => CleanKeeps(s, tip, Limit(masternodes), hash);
      case ClearEv =>
    }
  }

  /** The votes counted for a script at a height: zero where there is no entry. */
  function Tally(s: State, height: int, script: Script): int {
    var ps := EntryAt(s, height).payments;
    var i := Find(ps, script);
    if i < |ps| then ps[i].votes else 0
  }

  /** After every run the tally of every script at every height is the number of distinct
      masternodes recorded as voting for it there, and a height has an entry exactly when it has a
      recorded vote. */
  lemma RunTallies(es: seq<Event>, hash: Ballot -> Hash, height: int, script: Script)
    ensures var s := Run(es, hash);
            Tally(s, height, script) == |Voters(s.votes, height, script)| &&
            (height in s.blocks <==> exists k :: k in s.votes && s.votes[k].height == height)
  {
    var s := Run(es, hash);
    RunKeeps(es, hash);
    var ps := EntryAt(s, height).payments;
    var i := Find(ps, script);
    if i < |ps| {
      assert EntryOk(s.votes, height, s.blocks[height]);
      assert Counted(s.votes, height, ps[i]);
    } else {
      NotListed(s, height, script);
    }
    if height in s.blocks {
      var k := SomeVote(s, height, hash);
    }
  }

  /** No script is listed twice at a height, so the tally is all there is. */
  lemma RunListsOnce(es: seq<Event>, hash: Ballot -> Hash, height: int, i: nat)
    requires i < |EntryAt(Run(es, hash), height).payments|
    ensures var s := Run(es, hash); var p := EntryAt(s, height).payments[i];
            Find(EntryAt(s, height).payments, p.script) == i && p.votes == Tally(s, height, p.script) >= 1
  {
    var s := Run(es, hash);
    RunKeeps(es, hash);
    var ps := EntryAt(s, height).payments;
    assert EntryOk(s.votes, height, s.blocks[height]);
    assert Counted(s.votes, height, ps[i]);
    var k :| k in s.votes && s.votes[k].height == height && s.votes[k].payee == ps[i].script
      && s.votes[k].level == ps[i].level;
    assert s.votes[k].outpoint in Voters(s.votes, height, ps[i].script);
  }

  ghost predicate Injective(hash: Ballot -> Hash) {
    forall a, b :: hash(a) == hash(b) ==> a == b
  }

  /** With an injective vote hash, a vote is refused only if the same masternode already has a
      recorded vote for the same script at the same height. */
  lemma RefusedOnlyIfRecorded(es: seq<Event>, hash: Ballot -> Hash, v: Vote)
    requires Injective(hash)
    ensures var s := Run(es, hash);
            Accepts(s, v, hash, true) <==> v.outpoint !in Voters(s.votes, v.height, v.payee)
  {
    var s := Run(es, hash);
    RunKeeps(es, hash);
    if hash(BallotOf(v)) in s.votes {
      var w := s.votes[hash(BallotOf(v))];
      assert BallotOf(w) == BallotOf(v);
      assert w.outpoint == v.outpoint;
    } else {
      VotersGain(s.votes, hash, v);
    }
  }
}
