/** The full and the partial Merkle tree of a block (src/merkleblock.cpp:38-104,
    src/merkleblock.h:66-82) as functions. */
module MerkleTree {
  import opened Bits
  import opened Nonlinear

  /** A 256-bit hash; 0 is what a failed extraction returns. */
  type Hash = nat
  type Combine = (Hash, Hash) -> Hash

  // ---- the shape of the tree ----

  /** The number of nodes at a height, each level being half the one below, rounded up. */
  function Width(n: nat, height: nat): nat {
    if height == 0 then n else (Width(n, height - 1) + 1) / 2
  }

  lemma {:induction false} WidthBounds(n: nat, height: nat)
    ensures n <= Width(n, height) * Pow2(height)
    ensures n > 0 ==> Width(n, height) > 0 && (Width(n, height) - 1) * Pow2(height) < n
    ensures n == 0 ==> Width(n, height) == 0
  {
    if height > 0 {
      WidthBounds(n, height - 1);
      HalvedBounds(n, Width(n, height - 1), Width(n, height), Pow2(height - 1));
    }
  }

  lemma HalvedBounds(n: nat, w: nat, v: nat, d: nat)
    requires d >= 1 && 2 * v - 1 <= w <= 2 * v && n <= w * d
    ensures n <= v * (2 * d)
    ensures (w - 1) * d < n ==> (v - 1) * (2 * d) < n
  {
    MulLe(w, 2 * v, d);
    MulLe(2 * v - 2, w - 1, d);
    MulAssoc(v, 2, d);
    MulAssoc(v - 1, 2, d);
  }

  /** The source's expression for the width (src/merkleblock.h:67-70). */
  lemma WidthIsShift(n: nat, height: nat)
    ensures (n + Pow2(height) - 1) / Pow2(height) == Width(n, height)
  {
    WidthBounds(n, height);
    var d := Pow2(height);
    if n == 0 {
      DivUnique(d - 1, d, 0, d - 1);
    } else {
      CeilUnique(n, d, Width(n, height));
    }
  }

  /** A node of the tree over `n` transactions. */
  predicate Node(n: nat, height: nat, pos: nat) {
    pos < Width(n, height)
  }

  predicate HasRight(n: nat, height: nat, pos: nat)
    requires height > 0
  {
    Node(n, height - 1, pos * 2 + 1)
  }

  lemma LeftChild(n: nat, height: nat, pos: nat)
    requires height > 0 && Node(n, height, pos)
    ensures Node(n, height - 1, pos * 2)
  {
  }

  /** The height of the root (src/merkleblock.cpp:112-115). */
  function HeightFrom(n: nat, h: nat): (r: nat)
    ensures r >= h && Width(n, r) <= 1 && forall k :: h <= k < r ==> Width(n, k) > 1
    decreases Width(n, h)
  {
    if Width(n, h) > 1 then HeightFrom(n, h + 1) else h
  }

  lemma RootNode(n: nat)
    requires n > 0
    ensures Node(n, HeightFrom(n, 0), 0) && Width(n, HeightFrom(n, 0)) == 1
  {
    WidthBounds(n, HeightFrom(n, 0));
  }

  // ---- full and partial tree ----

  /** src/merkleblock.cpp:38-54 */
  function CalcHash(comb: Combine, txids: seq<Hash>, height: nat, pos: nat): Hash
    requires Node(|txids|, height, pos)
  {
    if height == 0 then txids[pos]
    else
      var left := CalcHash(comb, txids, height - 1, pos * 2);
      var right := if HasRight(|txids|, height, pos) then CalcHash(comb, txids, height - 1, pos * 2 + 1) else left;
      comb(left, right)
  }

  /** Whether a matched transaction lies below the node. */
  predicate AnyMatch(match_: seq<bool>, height: nat, pos: nat)
    requires Node(|match_|, height, pos)
  {
    if height == 0 then match_[pos]
    else (
      || AnyMatch(match_, height - 1, pos * 2)
      || (HasRight(|match_|, height, pos) && AnyMatch(match_, height - 1, pos * 2 + 1)))
  }

  /** The flag bits and hashes of a partial tree. */
  datatype Partial = Partial(bits: seq<bool>, hashes: seq<Hash>)

  /** src/merkleblock.cpp:56-73 */
  function Build(comb: Combine, txids: seq<Hash>, match_: seq<bool>, height: nat, pos: nat): Partial
    requires |txids| == |match_| && Node(|txids|, height, pos)
  {
    if height == 0 || !AnyMatch(match_, height, pos) then
      Partial([AnyMatch(match_, height, pos)], [CalcHash(comb, txids, height, pos)])
    else
      var l := Build(comb, txids, match_, height - 1, pos * 2);
      if HasRight(|txids|, height, pos) then
        var r := Build(comb, txids, match_, height - 1, pos * 2 + 1);
        Partial([true] + l.bits + r.bits, l.hashes + r.hashes)
      else Partial([true] + l.bits, l.hashes)
  }

  /** The matched transactions below the node, in order. */
  function Matches(txids: seq<Hash>, match_: seq<bool>, height: nat, pos: nat): seq<Hash>
    requires |txids| == |match_| && Node(|txids|, height, pos)
  {
    if height == 0 then
      if match_[pos] then [txids[pos]] else []
    else
      var left := Matches(txids, match_, height - 1, pos * 2);
      if HasRight(|txids|, height, pos) then left + Matches(txids, match_, height - 1, pos * 2 + 1) else left
  }

  /** What a traversal extracts from the remaining bits and hashes, or that they run out. */
  datatype Extracted = Bad | Extracted(hash: Hash, matches: seq<Hash>, rest: Partial)

  /** src/merkleblock.cpp:75-104 */
  function Extract(comb: Combine, n: nat, height: nat, pos: nat, p: Partial): Extracted
    requires Node(n, height, pos)
    decreases height
  {
    if p.bits == [] then Bad
    else if height == 0 || !p.bits[0] then
      if p.hashes == [] then Bad
      else Extracted(p.hashes[0], if height == 0 && p.bits[0] then [p.hashes[0]] else [],
                     Partial(p.bits[1..], p.hashes[1..]))
    else
      var l := Extract(comb, n, height - 1, pos * 2, p.(bits := p.bits[1..]));
      if l.Bad? then Bad
      else if HasRight(n, height, pos) then
        var r := Extract(comb, n, height - 1, pos * 2 + 1, l.rest);
        if r.Bad? then Bad else Extracted(comb(l.hash, r.hash), l.matches + r.matches, r.rest)
      else l.(hash := comb(l.hash, l.hash))
  }

  // ---- extracting what was built ----

  function Append(p: Partial, q: Partial): Partial {
    Partial(p.bits + q.bits, p.hashes + q.hashes)
  }

  lemma {:induction false} NoMatchNothing(txids: seq<Hash>, match_: seq<bool>, height: nat, pos: nat)
    requires |txids| == |match_| && Node(|txids|, height, pos)
    ensures Matches(txids, match_, height, pos) == [] <==> !AnyMatch(match_, height, pos)
  {
    if height > 0 {
      NoMatchNothing(txids, match_, height - 1, pos * 2);
      if HasRight(|txids|, height, pos) { NoMatchNothing(txids, match_, height - 1, pos * 2 + 1); }
    }
  }

  lemma ExtractLeaf(comb: Combine, n: nat, height: nat, pos: nat, bit: bool, hash: Hash, rest: Partial)
    requires Node(n, height, pos) && (height == 0 || !bit)
    ensures Extract(comb, n, height, pos, Append(Partial([bit], [hash]), rest))
      == Extracted(hash, if height == 0 && bit then [hash] else [], rest)
  {
    var p := Append(Partial([bit], [hash]), rest);
    assert p.bits[1..] == rest.bits && p.hashes[1..] == rest.hashes;
  }

  lemma AppendDescends(l: Partial, r: Partial, rest: Partial)
    ensures var p := Append(Partial([true] + l.bits + r.bits, l.hashes + r.hashes), rest);
      p.bits != [] && p.bits[0] && p.(bits := p.bits[1..]) == Append(l, Append(r, rest))
    ensures var p := Append(Partial([true] + l.bits, l.hashes), rest);
      p.bits != [] && p.bits[0] && p.(bits := p.bits[1..]) == Append(l, rest)
  {
    var p := Append(Partial([true] + l.bits + r.bits, l.hashes + r.hashes), rest);
    assert p.bits[1..] == l.bits + (r.bits + rest.bits) && p.hashes == l.hashes + (r.hashes + rest.hashes);
    var q := Append(Partial([true] + l.bits, l.hashes), rest);
    assert q.bits[1..] == l.bits + rest.bits;
  }

  /** Two extracted children make an extracted node. */
  lemma ExtractBoth(comb: Combine, n: nat, height: nat, pos: nat, l: Extracted, r: Extracted, a: Partial, b: Partial)
    requires height > 0 && Node(n, height, pos) && Node(n, height - 1, pos * 2) && HasRight(n, height, pos)
    requires l.Extracted? && r.Extracted? && l.rest == Append(b, r.rest)
    requires Extract(comb, n, height - 1, pos * 2, Append(a, l.rest)) == l
    requires Extract(comb, n, height - 1, pos * 2 + 1, l.rest) == r
    ensures Extract(comb, n, height, pos, Append(Partial([true] + a.bits + b.bits, a.hashes + b.hashes), r.rest))
      == Extracted(comb(l.hash, r.hash), l.matches + r.matches, r.rest)
  {
    AppendDescends(a, b, r.rest);
  }

  lemma ExtractOnly(comb: Combine, n: nat, height: nat, pos: nat, l: Extracted, a: Partial)
    requires height > 0 && Node(n, height, pos) && Node(n, height - 1, pos * 2) && !HasRight(n, height, pos)
    requires l.Extracted? && Extract(comb, n, height - 1, pos * 2, Append(a, l.rest)) == l
    ensures Extract(comb, n, height, pos, Append(Partial([true] + a.bits, a.hashes), l.rest))
      == l.(hash := comb(l.hash, l.hash))
  {
    AppendDescends(a, l.rest, l.rest);
  }

  /** What extraction should give for a node. */
  function Expected(comb: Combine, txids: seq<Hash>, match_: seq<bool>, height: nat, pos: nat, rest: Partial): Extracted
    requires |txids| == |match_| && Node(|txids|, height, pos)
  {
    Extracted(CalcHash(comb, txids, height, pos), Matches(txids, match_, height, pos), rest)
  }

  lemma ExpectedBoth(comb: Combine, txids: seq<Hash>, match_: seq<bool>, height: nat, pos: nat, rest1: Partial,
      rest: Partial)
    requires height > 0 && |txids| == |match_| && Node(|txids|, height, pos)
    requires Node(|txids|, height - 1, pos * 2) && HasRight(|txids|, height, pos)
    ensures var l := Expected(comb, txids, match_, height - 1, pos * 2, rest1);
      var r := Expected(comb, txids, match_, height - 1, pos * 2 + 1, rest);
      Expected(comb, txids, match_, height, pos, rest) == Extracted(comb(l.hash, r.hash), l.matches + r.matches, rest)
  {
  }

  /** Extracting from a built partial tree gives the node's full hash and its matches, and
      leaves whatever follows untouched. */
  lemma {:induction false} BuildExtract(comb: Combine, txids: seq<Hash>, match_: seq<bool>, height: nat, pos: nat,
      rest: Partial)
    requires |txids| == |match_| && Node(|txids|, height, pos)
    ensures Extract(comb, |txids|, height, pos, Append(Build(comb, txids, match_, height, pos), rest))
      == Extracted(CalcHash(comb, txids, height, pos), Matches(txids, match_, height, pos), rest)
    decreases height, 1
  {
    NoMatchNothing(txids, match_, height, pos);
    if height == 0 || !AnyMatch(match_, height, pos) {
      ExtractLeaf(comb, |txids|, height, pos, AnyMatch(match_, height, pos), CalcHash(comb, txids, height, pos), rest);
    } else if HasRight(|txids|, height, pos) {
      BuildExtractBoth(comb, txids, match_, height, pos, rest);
    } else {
      BuildExtractOnly(comb, txids, match_, height, pos, rest);
    }
  }

  lemma {:induction false} BuildExtractBoth(comb: Combine, txids: seq<Hash>, match_: seq<bool>, height: nat, pos: nat,
                                            rest: Partial)
    requires height > 0 && |txids| == |match_| && Node(|txids|, height, pos)
    requires AnyMatch(match_, height, pos) && HasRight(|txids|, height, pos)
    ensures Extract(comb, |txids|, height, pos, Append(Build(comb, txids, match_, height, pos), rest))
      == Extracted(CalcHash(comb, txids, height, pos), Matches(txids, match_, height, pos), rest)
    decreases height, 0
  {
    LeftChild(|txids|, height, pos);
    var a := Build(comb, txids, match_, height - 1, pos * 2);
    var b := Build(comb, txids, match_, height - 1, pos * 2 + 1);
    var l := Expected(comb, txids, match_, height - 1, pos * 2, Append(b, rest));
    var r := Expected(comb, txids, match_, height - 1, pos * 2 + 1, rest);
    BuildExtract(comb, txids, match_, height - 1, pos * 2, Append(b, rest));
    BuildExtract(comb, txids, match_, height - 1, pos * 2 + 1, rest);
    ExtractBoth(comb, |txids|, height, pos, l, r, a, b);
    ExpectedBoth(comb, txids, match_, height, pos, Append(b, rest), rest);
  }

  lemma {:induction false} BuildExtractOnly(comb: Combine, txids: seq<Hash>, match_: seq<bool>, height: nat, pos: nat,
                                            rest: Partial)
    requires height > 0 && |txids| == |match_| && Node(|txids|, height, pos)
    requires AnyMatch(match_, height, pos) && !HasRight(|txids|, height, pos)
    ensures Extract(comb, |txids|, height, pos, Append(Build(comb, txids, match_, height, pos), rest))
      == Extracted(CalcHash(comb, txids, height, pos), Matches(txids, match_, height, pos), rest)
    decreases height, 0
  {
    LeftChild(|txids|, height, pos);
    BuildExtract(comb, txids, match_, height - 1, pos * 2, rest);
    ExtractOnly(comb, |txids|, height, pos, Expected(comb, txids, match_, height - 1, pos * 2, rest),
      Build(comb, txids, match_, height - 1, pos * 2));
  }
}
