/** What a partial Merkle tree proves: round trips, authenticity and size bounds. */
module MerkleProofs {
  import opened Bits
  import opened Nonlinear
  import opened MerkleTree

  // ---- the transactions below a node ----

  function Lo(height: nat, pos: nat): nat { pos * Pow2(height) }

  function Hi(n: nat, height: nat, pos: nat): nat {
    var end := (pos + 1) * Pow2(height);
    if end < n then end else n
  }

  lemma NodeRange(n: nat, height: nat, pos: nat)
    requires Node(n, height, pos)
    ensures Lo(height, pos) < Hi(n, height, pos) <= n
  {
    WidthBounds(n, height);
    MulLe(pos, Width(n, height) - 1, Pow2(height));
    MulAdd(pos, 1, Pow2(height));
  }

  /** A node's range is the concatenation of its children's ranges. */
  lemma RangeSplits(n: nat, height: nat, pos: nat)
    requires height > 0 && Node(n, height, pos)
    ensures Lo(height, pos) == Lo(height - 1, pos * 2)
    ensures HasRight(n, height, pos) ==>
      Hi(n, height - 1, pos * 2) == Lo(height - 1, pos * 2 + 1) && Hi(n, height - 1, pos * 2 + 1) == Hi(n, height, pos)
    ensures !HasRight(n, height, pos) ==> Hi(n, height - 1, pos * 2) == Hi(n, height, pos)
  {
    var d := Pow2(height - 1);
    MulAssoc(pos, 2, d);
    MulAssoc(pos + 1, 2, d);
    MulAdd(pos * 2 + 1, 1, d);
    assert (pos + 1) * Pow2(height) == (pos * 2 + 2) * d;
    if HasRight(n, height, pos) {
      NodeRange(n, height - 1, pos * 2 + 1);
    } else {
      WidthBounds(n, height - 1);
      MulLe(Width(n, height - 1), pos * 2 + 1, d);
      MulNonNegative(1, d);
    }
  }

  /** The matched transactions with positions in [lo, hi), in order. */
  function MatchedIn(txids: seq<Hash>, match_: seq<bool>, lo: nat, hi: nat): seq<Hash>
    requires hi <= |txids| == |match_|
  {
    if lo >= hi then []
    else MatchedIn(txids, match_, lo, hi - 1) + if match_[hi - 1] then [txids[hi - 1]] else []
  }

  lemma {:induction false} MatchedSplits(txids: seq<Hash>, match_: seq<bool>, lo: nat, mid: nat, hi: nat)
    requires lo <= mid <= hi <= |txids| == |match_|
    ensures MatchedIn(txids, match_, lo, hi) == MatchedIn(txids, match_, lo, mid) + MatchedIn(txids, match_, mid, hi)
  {
    if mid < hi { MatchedSplits(txids, match_, lo, mid, hi - 1); }
  }

  lemma {:induction false} MatchesAreSelected(txids: seq<Hash>, match_: seq<bool>, height: nat, pos: nat)
    requires |txids| == |match_| && Node(|txids|, height, pos)
    ensures Lo(height, pos) <= Hi(|txids|, height, pos) <= |txids|
    ensures Matches(txids, match_, height, pos) == MatchedIn(txids, match_, Lo(height, pos), Hi(|txids|, height, pos))
  {
    var n := |txids|;
    NodeRange(n, height, pos);
    if height == 0 {
      assert Lo(0, pos) == pos && Hi(n, 0, pos) == pos + 1;
    } else {
      MatchesAreSelected(txids, match_, height - 1, pos * 2);
      if HasRight(n, height, pos) {
        MatchesAreSelected(txids, match_, height - 1, pos * 2 + 1);
      }
      SelectedSplits(txids, match_, height, pos);
    }
  }

  lemma SelectedSplits(txids: seq<Hash>, match_: seq<bool>, height: nat, pos: nat)
    requires height > 0 && |txids| == |match_| && Node(|txids|, height, pos) && Node(|txids|, height - 1, pos * 2)
    requires Hi(|txids|, height - 1, pos * 2) <= |txids| && Hi(|txids|, height, pos) <= |txids|
    requires HasRight(|txids|, height, pos) ==> Hi(|txids|, height - 1, pos * 2 + 1) <= |txids|
    ensures MatchedIn(txids, match_, Lo(height, pos), Hi(|txids|, height, pos)) ==
            MatchedIn(txids, match_, Lo(height - 1, pos * 2), Hi(|txids|, height - 1, pos * 2)) +
            if HasRight(|txids|, height, pos) then
              MatchedIn(txids, match_, Lo(height - 1, pos * 2 + 1), Hi(|txids|, height - 1, pos * 2 + 1)) else []
  {
    var n := |txids|;
    RangeSplits(n, height, pos);
    if HasRight(n, height, pos) {
      NodeRange(n, height - 1, pos * 2);
      NodeRange(n, height - 1, pos * 2 + 1);
      MatchedSplits(txids, match_, Lo(height, pos), Hi(n, height - 1, pos * 2), Hi(n, height, pos));
    }
  }

  lemma {:induction false} MatchedInNonEmpty(txids: seq<Hash>, match_: seq<bool>, lo: nat, hi: nat)
    requires hi <= |txids| == |match_|
    ensures MatchedIn(txids, match_, lo, hi) != [] <==> exists p :: lo <= p < hi && match_[p]
  {
    if lo < hi {
      MatchedInNonEmpty(txids, match_, lo, hi - 1);
      MatchUpTo(match_, lo, hi);
    }
  }

  lemma MatchUpTo(match_: seq<bool>, lo: nat, hi: nat)
    requires lo < hi <= |match_|
    ensures (exists p :: lo <= p < hi && match_[p]) <==> (exists p :: lo <= p < hi - 1 && match_[p]) || match_[hi - 1]
  {
  }

  /** The flag of a node says whether some position in its range is matched: what the loop over
      positions computes (src/merkleblock.cpp:58-61). */
  lemma AnyMatchIsScan(txids: seq<Hash>, match_: seq<bool>, height: nat, pos: nat)
    requires |txids| == |match_| && Node(|txids|, height, pos)
    ensures Hi(|txids|, height, pos) <= |match_|
    ensures AnyMatch(match_, height, pos) <==> exists p :: Lo(height, pos) <= p < Hi(|txids|, height, pos) && match_[p]
  {
    NodeRange(|txids|, height, pos);
    NoMatchNothing(txids, match_, height, pos);
    MatchesAreSelected(txids, match_, height, pos);
    MatchedInNonEmpty(txids, match_, Lo(height, pos), Hi(|txids|, height, pos));
  }

  lemma RootCoversAll(n: nat)
    requires n > 0
    ensures var h := HeightFrom(n, 0); Node(n, h, 0) && Lo(h, 0) == 0 && Hi(n, h, 0) == n
  {
    var h := HeightFrom(n, 0);
    RootNode(n);
    WidthBounds(n, h);
  }

  // ---- size bounds (src/merkleblock.h:35-48) ----

  lemma {:induction false} HashesFit(comb: Combine, txids: seq<Hash>, match_: seq<bool>, height: nat, pos: nat)
    requires |txids| == |match_| && Node(|txids|, height, pos)
    ensures var b := Build(comb, txids, match_, height, pos);
      1 <= |b.hashes| <= Hi(|txids|, height, pos) - Lo(height, pos) && |b.hashes| <= |b.bits|
  {
    var n := |txids|;
    NodeRange(n, height, pos);
    if height > 0 && AnyMatch(match_, height, pos) {
      RangeSplits(n, height, pos);
      HashesFit(comb, txids, match_, height - 1, pos * 2);
      if HasRight(n, height, pos) {
        HashesFit(comb, txids, match_, height - 1, pos * 2 + 1);
      }
    }
  }

  lemma {:induction false} HashesPerMatch(comb: Combine, txids: seq<Hash>, match_: seq<bool>, height: nat, pos: nat)
    requires |txids| == |match_| && Node(|txids|, height, pos)
    ensures |Build(comb, txids, match_, height, pos).hashes| <= 1 + |Matches(txids, match_, height, pos)| * height
  {
    MulNonNegative(|Matches(txids, match_, height, pos)|, height);
    if height > 0 && AnyMatch(match_, height, pos) {
      NoMatchNothing(txids, match_, height, pos);
      HashesPerMatch(comb, txids, match_, height - 1, pos * 2);
      var k := |Matches(txids, match_, height - 1, pos * 2)|;
      if HasRight(|txids|, height, pos) {
        HashesPerMatch(comb, txids, match_, height - 1, pos * 2 + 1);
        MatchBound(k, |Matches(txids, match_, height - 1, pos * 2 + 1)|, height);
      } else {
        MatchBound(k, 0, height);
      }
    }
  }

  /** A partial tree has at most one hash per transaction, at most 1 + matches * height hashes,
      and at least one bit per hash. */
  lemma BuildSizes(comb: Combine, txids: seq<Hash>, match_: seq<bool>, height: nat, pos: nat)
    requires |txids| == |match_| && Node(|txids|, height, pos)
    ensures var b := Build(comb, txids, match_, height, pos);
      && 1 <= |b.hashes| <= Hi(|txids|, height, pos) - Lo(height, pos)
      && |b.hashes| <= 1 + |Matches(txids, match_, height, pos)| * height
      && |b.hashes| <= |b.bits|
  {
    HashesFit(comb, txids, match_, height, pos);
    HashesPerMatch(comb, txids, match_, height, pos);
  }

  lemma MatchBound(k: nat, m: nat, height: nat)
    requires k + m >= 1 && height >= 1
    ensures (1 + k * (height - 1)) + (1 + m * (height - 1)) <= 1 + (k + m) * height
    ensures 1 + k * (height - 1) <= 1 + k * height
  {
  }

  /** The inner nodes of the partial tree that have only one child. */
  function OnlyChildren(match_: seq<bool>, height: nat, pos: nat): nat
    requires Node(|match_|, height, pos)
  {
    if height == 0 || !AnyMatch(match_, height, pos) then 0
    else if HasRight(|match_|, height, pos) then
      OnlyChildren(match_, height - 1, pos * 2) + OnlyChildren(match_, height - 1, pos * 2 + 1)
    else OnlyChildren(match_, height - 1, pos * 2) + 1
  }

  lemma {:induction false} BitsExact(comb: Combine, txids: seq<Hash>, match_: seq<bool>, height: nat, pos: nat)
    requires |txids| == |match_| && Node(|txids|, height, pos)
    ensures var b := Build(comb, txids, match_, height, pos);
      |b.bits| + 1 == 2 * |b.hashes| + OnlyChildren(match_, height, pos)
  {
    if height > 0 && AnyMatch(match_, height, pos) {
      BitsExact(comb, txids, match_, height - 1, pos * 2);
      if HasRight(|txids|, height, pos) { BitsExact(comb, txids, match_, height - 1, pos * 2 + 1); }
    }
  }

  /** Only the last node of a level can have a single child. */
  lemma {:induction false} InnerNodesAreFull(match_: seq<bool>, height: nat, pos: nat)
    requires pos + 1 < Width(|match_|, height)
    ensures OnlyChildren(match_, height, pos) == 0
  {
    if height > 0 && AnyMatch(match_, height, pos) {
      InnerNodesAreFull(match_, height - 1, pos * 2);
      InnerNodesAreFull(match_, height - 1, pos * 2 + 1);
    }
  }

  function Last(n: nat, height: nat): (pos: nat)
    requires n > 0
    ensures Node(n, height, pos) && pos + 1 == Width(n, height)
  {
    WidthBounds(n, height);
    Width(n, height) - 1
  }

  /** The last node of level `k` has a single child and a match below it. */
  predicate LoneMatch(match_: seq<bool>, k: nat)
    requires |match_| > 0 && k > 0
  {
    Width(|match_|, k - 1) % 2 == 1 && AnyMatch(match_, k, Last(|match_|, k))
  }

  /** No level up to `height` has a match below a single child. */
  ghost predicate NoLoneMatch(match_: seq<bool>, height: nat)
    requires |match_| > 0
  {
    forall k :: 1 <= k <= height ==> !LoneMatch(match_, k)
  }

  lemma NoLoneMatchStep(match_: seq<bool>, height: nat)
    requires |match_| > 0 && height > 0
    ensures NoLoneMatch(match_, height) <==> NoLoneMatch(match_, height - 1) && !LoneMatch(match_, height)
  {
  }

  lemma LastNodeSplits(n: nat, height: nat)
    requires n > 0 && height > 0
    ensures Width(n, height - 1) % 2 == 1 ==>
      !HasRight(n, height, Last(n, height)) && Last(n, height) * 2 == Last(n, height - 1)
    ensures Width(n, height - 1) % 2 == 0 ==>
      HasRight(n, height, Last(n, height)) && Last(n, height) * 2 + 1 == Last(n, height - 1)
  {
  }

  lemma {:induction false} LastHasNone(match_: seq<bool>, height: nat)
    requires |match_| > 0
    ensures OnlyChildren(match_, height, Last(|match_|, height)) == 0 <==> NoLoneMatch(match_, height)
    ensures !AnyMatch(match_, height, Last(|match_|, height)) ==> NoLoneMatch(match_, height)
    ensures OnlyChildren(match_, height, Last(|match_|, height)) <= height
  {
    if height > 0 {
      var last := Last(|match_|, height);
      LastNodeSplits(|match_|, height);
      NoLoneMatchStep(match_, height);
      LastHasNone(match_, height - 1);
      if Width(|match_|, height - 1) % 2 == 0 {
        InnerNodesAreFull(match_, height - 1, last * 2);
      }
    }
  }

  /** The documented bound of 2 * N - 1 flag bits for N hashes (src/merkleblock.h:48) holds if
      and only if no single-child node has a match below it; the general bound adds the height. */
  lemma DocumentedBitBound(comb: Combine, txids: seq<Hash>, match_: seq<bool>, height: nat)
    requires |txids| == |match_| > 0 && Width(|txids|, height) == 1
    ensures var b := Build(comb, txids, match_, height, 0);
      && (|b.bits| <= 2 * |b.hashes| - 1 <==> NoLoneMatch(match_, height))
      && |b.bits| <= 2 * |b.hashes| - 1 + height
  {
    BitsExact(comb, txids, match_, height, 0);
    LastHasNone(match_, height);
  }

  /** Three transactions with only the last one matched need four bits for two hashes. */
  lemma BitBoundFails(comb: Combine, a: Hash, b: Hash, c: Hash)
    ensures Width(3, 2) == 1
    ensures var t := Build(comb, [a, b, c], [false, false, true], 2, 0); |t.bits| == 4 && |t.hashes| == 2
  {
    var txids, m := [a, b, c], [false, false, true];
    assert Width(3, 1) == 2 && Width(3, 2) == 1;
    assert AnyMatch(m, 0, 2) && AnyMatch(m, 1, 1) && !AnyMatch(m, 1, 0) && AnyMatch(m, 2, 0);
    var right := Build(comb, txids, m, 1, 1);
    assert !HasRight(3, 1, 1) && right.bits == [true] + Build(comb, txids, m, 0, 2).bits;
    assert HasRight(3, 2, 0);
  }

  // ---- authenticity ----

  ghost predicate Injective(comb: Combine) {
    forall a, b, c, d :: comb(a, b) == comb(c, d) ==> a == c && b == d
  }

  /** `matches` are transactions of the block at increasing positions in [lo, hi). */
  ghost predicate PickedFrom(txids: seq<Hash>, matches: seq<Hash>, q: seq<nat>, lo: nat, hi: nat) {
    && |q| == |matches| && hi <= |txids|
    && (forall i :: 0 <= i < |q| ==> lo <= q[i] < hi && matches[i] == txids[q[i]])
    && (forall i, j :: 0 <= i < j < |q| ==> q[i] < q[j])
  }

  lemma PickedConcat(txids: seq<Hash>, a: seq<Hash>, b: seq<Hash>, q: seq<nat>, r: seq<nat>, lo: nat, mid: nat, hi: nat)
    requires PickedFrom(txids, a, q, lo, mid) && PickedFrom(txids, b, r, mid, hi) && lo <= mid <= hi
    ensures PickedFrom(txids, a + b, q + r, lo, hi)
  {
  }

  /** With a hash that cannot collide, whatever the bits and hashes are: if the traversal yields
      the true hash of a node, all it extracts are transactions below that node, in order. */
  lemma {:induction false} ExtractSound(comb: Combine, txids: seq<Hash>, height: nat, pos: nat, p: Partial)
      returns (q: seq<nat>)
    requires Injective(comb) && Node(|txids|, height, pos)
    requires var r := Extract(comb, |txids|, height, pos, p);
      r.Extracted? && r.hash == CalcHash(comb, txids, height, pos)
    ensures PickedFrom(txids, Extract(comb, |txids|, height, pos, p).matches, q,
                       Lo(height, pos), Hi(|txids|, height, pos))
    decreases height, 1
  {
    if height == 0 || !p.bits[0] {
      q := LeafSound(comb, txids, height, pos, p);
    } else {
      InnerParts(comb, txids, height, pos, p);
      var p1 := p.(bits := p.bits[1..]);
      if HasRight(|txids|, height, pos) {
        q := BothSound(comb, txids, height, pos, p1, Extract(comb, |txids|, height - 1, pos * 2, p1));
      } else {
        q := ExtractSound(comb, txids, height - 1, pos * 2, p1);
        RangeSplits(|txids|, height, pos);
      }
    }
  }

  /** The case of two children, the left one extracted as `l`. */
  lemma {:induction false} BothSound(comb: Combine, txids: seq<Hash>, height: nat, pos: nat, p: Partial, l: Extracted)
      returns (q: seq<nat>)
    requires Injective(comb) && height > 0 && Node(|txids|, height, pos)
    requires Node(|txids|, height - 1, pos * 2) && HasRight(|txids|, height, pos)
    requires l == Extract(comb, |txids|, height - 1, pos * 2, p)
    requires l.Extracted? && l.hash == CalcHash(comb, txids, height - 1, pos * 2)
    requires var r := Extract(comb, |txids|, height - 1, pos * 2 + 1, l.rest);
      r.Extracted? && r.hash == CalcHash(comb, txids, height - 1, pos * 2 + 1)
    ensures PickedFrom(txids, l.matches + Extract(comb, |txids|, height - 1, pos * 2 + 1, l.rest).matches, q,
                       Lo(height, pos), Hi(|txids|, height, pos))
    decreases height, 0
  {
    var r := Extract(comb, |txids|, height - 1, pos * 2 + 1, l.rest);
    var ql := ExtractSound(comb, txids, height - 1, pos * 2, p);
    var qr := ExtractSound(comb, txids, height - 1, pos * 2 + 1, l.rest);
    JoinPicked(txids, height, pos, l.matches, r.matches, ql, qr);
    q := ql + qr;
  }

  lemma LeafSound(comb: Combine, txids: seq<Hash>, height: nat, pos: nat, p: Partial) returns (q: seq<nat>)
    requires Node(|txids|, height, pos) && p.bits != [] && (height == 0 || !p.bits[0])
    requires var r := Extract(comb, |txids|, height, pos, p);
      r.Extracted? && r.hash == CalcHash(comb, txids, height, pos)
    ensures PickedFrom(txids, Extract(comb, |txids|, height, pos, p).matches, q,
                       Lo(height, pos), Hi(|txids|, height, pos))
  {
    NodeRange(|txids|, height, pos);
    if height == 0 { assert Lo(0, pos) == pos && Hi(|txids|, 0, pos) == pos + 1; }
    q := if height == 0 && p.bits[0] then [pos] else [];
  }

  /** A true hash at a node that was gone into has true hashes at its children. */
  lemma InnerParts(comb: Combine, txids: seq<Hash>, height: nat, pos: nat, p: Partial)
    requires Injective(comb) && height > 0 && Node(|txids|, height, pos) && p.bits != [] && p.bits[0]
    requires var r := Extract(comb, |txids|, height, pos, p);
      r.Extracted? && r.hash == CalcHash(comb, txids, height, pos)
    ensures Node(|txids|, height - 1, pos * 2)
    ensures var l := Extract(comb, |txids|, height - 1, pos * 2, p.(bits := p.bits[1..]));
            l.Extracted? && l.hash == CalcHash(comb, txids, height - 1, pos * 2) &&
            if HasRight(|txids|, height, pos) then
              var r := Extract(comb, |txids|, height - 1, pos * 2 + 1, l.rest);
              r.Extracted? && r.hash == CalcHash(comb, txids, height - 1, pos * 2 + 1) &&
              Extract(comb, |txids|, height, pos, p).matches == l.matches + r.matches
            else Extract(comb, |txids|, height, pos, p).matches == l.matches
  {
    LeftChild(|txids|, height, pos);
  }

  lemma JoinPicked(txids: seq<Hash>, height: nat, pos: nat, a: seq<Hash>, b: seq<Hash>, q: seq<nat>, r: seq<nat>)
    requires height > 0 && Node(|txids|, height, pos) && HasRight(|txids|, height, pos)
    requires PickedFrom(txids, a, q, Lo(height - 1, pos * 2), Hi(|txids|, height - 1, pos * 2))
    requires PickedFrom(txids, b, r, Lo(height - 1, pos * 2 + 1), Hi(|txids|, height - 1, pos * 2 + 1))
    ensures PickedFrom(txids, a + b, q + r, Lo(height, pos), Hi(|txids|, height, pos))
  {
    RangeSplits(|txids|, height, pos);
    LeftChild(|txids|, height, pos);
    NodeRange(|txids|, height - 1, pos * 2);
    NodeRange(|txids|, height - 1, pos * 2 + 1);
    PickedConcat(txids, a, b, q, r, Lo(height, pos), Hi(|txids|, height - 1, pos * 2), Hi(|txids|, height, pos));
  }
}
