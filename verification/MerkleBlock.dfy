/** The partial Merkle tree object (src/merkleblock.cpp:106-155, src/merkleblock.h:84-119): its
    constructor, its byte-packed form and the checked extraction. */
module MerkleBlock {
  import opened Basics
  import opened Bits
  import opened Nonlinear
  import opened MerkleTree
  import opened MerkleProofs

  const MAX_BLOCK_SIZE: nat := 2000000
  const MIN_TX_SIZE: nat := 60

  datatype Found = Rejected | Found(root: Hash, matches: seq<Hash>)

  function ByteLength(bits: nat): nat { (bits + 7) / 8 }

  /** src/merkleblock.cpp:123-155 */
  function Extraction(comb: Combine, n: nat, p: Partial): Found {
    if n == 0 || n > MAX_BLOCK_SIZE / MIN_TX_SIZE || |p.hashes| > n || |p.bits| < |p.hashes| then Rejected
    else
      RootNode(n);
      ExtractRest(comb, n, HeightFrom(n, 0), 0, p);
      match Extract(comb, n, HeightFrom(n, 0), 0, p)
      case Bad => Rejected
      case Extracted(hash, matches, rest) =>
        if ByteLength(|p.bits| - |rest.bits|) != ByteLength(|p.bits|) || rest.hashes != [] then Rejected
        else Found(hash, matches)
  }

  /** The partial tree the constructor builds (src/merkleblock.cpp:106-119). */
  function Built(comb: Combine, txids: seq<Hash>, match_: seq<bool>): Partial
    requires |txids| == |match_| > 0
  {
    RootNode(|txids|);
    Build(comb, txids, match_, HeightFrom(|txids|, 0), 0)
  }

  function MerkleRoot(comb: Combine, txids: seq<Hash>): Hash
    requires |txids| > 0
  {
    RootNode(|txids|);
    CalcHash(comb, txids, HeightFrom(|txids|, 0), 0)
  }

  lemma {:induction false} ExtractRest(comb: Combine, n: nat, height: nat, pos: nat, p: Partial)
    requires Node(n, height, pos)
    ensures var r := Extract(comb, n, height, pos, p);
      r.Extracted? ==> |r.rest.bits| <= |p.bits| && |r.rest.hashes| <= |p.hashes|
    decreases height
  {
    if p.bits != [] && height > 0 && p.bits[0] {
      var l := Extract(comb, n, height - 1, pos * 2, p.(bits := p.bits[1..]));
      ExtractRest(comb, n, height - 1, pos * 2, p.(bits := p.bits[1..]));
      if l.Extracted? && HasRight(n, height, pos) { ExtractRest(comb, n, height - 1, pos * 2 + 1, l.rest); }
    }
  }

  /** Building and extracting, also with fewer than eight padding bits after the built ones,
      returns the full tree's root and exactly the matched transactions in order. */
  lemma BuiltExtracts(comb: Combine, txids: seq<Hash>, match_: seq<bool>, padding: seq<bool>)
    requires 0 < |txids| == |match_| <= MAX_BLOCK_SIZE / MIN_TX_SIZE
    requires var p := Built(comb, txids, match_); ByteLength(|p.bits| + |padding|) == ByteLength(|p.bits|)
    ensures var p := Built(comb, txids, match_);
      Extraction(comb, |txids|, p.(bits := p.bits + padding))
        == Found(MerkleRoot(comb, txids), MatchedIn(txids, match_, 0, |txids|))
  {
    var n := |txids|;
    var h := HeightFrom(n, 0);
    var p := Built(comb, txids, match_);
    RootCoversAll(n);
    BuildSizes(comb, txids, match_, h, 0);
    MatchesAreSelected(txids, match_, h, 0);
    BuildExtract(comb, txids, match_, h, 0, Partial(padding, []));
    assert Append(p, Partial(padding, [])) == p.(bits := p.bits + padding);
  }

  /** With a hash that cannot collide: if an arbitrary partial tree over the true number of
      transactions yields the block's real root, everything it extracts is a transaction of
      that block, in increasing position order. */
  lemma ExtractedIsAuthentic(comb: Combine, txids: seq<Hash>, p: Partial) returns (q: seq<nat>)
    requires Injective(comb) && |txids| > 0
    requires var f := Extraction(comb, |txids|, p); f.Found? && f.root == MerkleRoot(comb, txids)
    ensures PickedFrom(txids, Extraction(comb, |txids|, p).matches, q, 0, |txids|)
  {
    RootCoversAll(|txids|);
    q := ExtractSound(comb, txids, HeightFrom(|txids|, 0), 0, p);
  }

  // ---- the packed form of the bits (src/merkleblock.h:93-106) ----

  /** The bits that byte `b` carries. */
  function Group(bits: seq<bool>, b: nat): seq<bool>
    requires b * 8 <= |bits|
  {
    bits[b * 8..Min(b * 8 + 8, |bits|)]
  }

  function PackBytes(bits: seq<bool>): (r: seq<nat>)
    ensures |r| == ByteLength(|bits|)
  {
    seq(ByteLength(|bits|), b requires 0 <= b < ByteLength(|bits|) => Pack(Group(bits, b)))
  }

  function UnpackBytes(bytes: seq<nat>): (r: seq<bool>)
    ensures |r| == 8 * |bytes| && forall p :: 0 <= p < |r| ==> r[p] == TestBit(bytes[p / 8], p % 8)
  {
    seq(8 * |bytes|, p requires 0 <= p < 8 * |bytes| => TestBit(bytes[p / 8], p % 8))
  }

  lemma PackedIsByte(bits: seq<bool>, b: nat)
    requires b < ByteLength(|bits|)
    ensures PackBytes(bits)[b] < 256
  {
    var g := Group(bits, b);
    PackBound(g);
    Pow2Monotone(|g|, 8);
    assert Pow2(8) == 256;
  }

  function Padding(n: nat): seq<bool> {
    seq(8 * ByteLength(n) - n, _ => false)
  }

  /** Unpacking packed bits gives the bits back, followed by cleared padding bits. */
  lemma PackRoundTrip(bits: seq<bool>)
    ensures UnpackBytes(PackBytes(bits)) == bits + Padding(|bits|)
    ensures ByteLength(|bits| + |Padding(|bits|)|) == ByteLength(|bits|)
  {
    var u := UnpackBytes(PackBytes(bits));
    var v := bits + Padding(|bits|);
    assert |u| == |v|;
    forall p | 0 <= p < |u| ensures u[p] == v[p] {
      var b := p / 8;
      PackBits(Group(bits, b), p % 8);
      assert p == b * 8 + p % 8;
    }
  }

  /** The round trip through the serialized form. */
  lemma PackedExtracts(comb: Combine, txids: seq<Hash>, match_: seq<bool>)
    requires 0 < |txids| == |match_| <= MAX_BLOCK_SIZE / MIN_TX_SIZE
    ensures var p := Built(comb, txids, match_);
      Extraction(comb, |txids|, p.(bits := UnpackBytes(PackBytes(p.bits))))
        == Found(MerkleRoot(comb, txids), MatchedIn(txids, match_, 0, |txids|))
  {
    var p := Built(comb, txids, match_);
    PackRoundTrip(p.bits);
    BuiltExtracts(comb, txids, match_, Padding(|p.bits|));
  }

  // ---- the object ----

  class PartialMerkleTree {
    const comb: Combine
    var transactions: nat
    var bits: seq<bool>
    var hashes: seq<Hash>
    var bad: bool

    ghost function Contents(): Partial
      reads this
    {
      Partial(bits, hashes)
    }

    /** src/merkleblock.cpp:106-119 */
    constructor (comb: Combine, txids: seq<Hash>, match_: seq<bool>)
      requires |txids| == |match_| > 0
      ensures transactions == |txids| && !bad && this.comb == comb
      ensures Contents() == Built(comb, txids, match_)
    {
      this.comb := comb;
      transactions := |txids|;
      bits, hashes := [], [];
      bad := false;
      new;
      RootNode(|txids|);
      var height := TreeHeight();
      TraverseAndBuild(height, 0, txids, match_);
    }

    /** The loop over heights (src/merkleblock.cpp:112-115, 138-141). */
    method TreeHeight() returns (height: nat)
      ensures height == HeightFrom(transactions, 0)
    {
      height := 0;
      WidthIsShift(transactions, 0);
      while (transactions + Pow2(height) - 1) / Pow2(height) > 1
        invariant HeightFrom(transactions, 0) == HeightFrom(transactions, height)
        invariant (transactions + Pow2(height) - 1) / Pow2(height) == Width(transactions, height)
        decreases Width(transactions, height)
      {
        height := height + 1;
        WidthIsShift(transactions, height);
      }
    }

    /** src/merkleblock.cpp:58-61 */
    method ScanMatches(height: nat, pos: nat, txids: seq<Hash>, match_: seq<bool>) returns (any: bool)
      requires |txids| == |match_| == transactions && Node(transactions, height, pos)
      ensures any == AnyMatch(match_, height, pos)
    {
      AnyMatchIsScan(txids, match_, height, pos);
      MulAdd(pos, 1, Pow2(height));
      any := false;
      var p := pos * Pow2(height);
      while p < (pos + 1) * Pow2(height) && p < transactions
        invariant Lo(height, pos) <= p
        invariant p <= Hi(transactions, height, pos) || p == Lo(height, pos)
        invariant any <==> exists i :: Lo(height, pos) <= i < p && i < |match_| && match_[i]
      {
        any := any || match_[p];
        p := p + 1;
      }
    }

    /** src/merkleblock.cpp:56-73 */
    method TraverseAndBuild(height: nat, pos: nat, txids: seq<Hash>, match_: seq<bool>)
      requires |txids| == |match_| == transactions && Node(transactions, height, pos)
      modifies this`bits, this`hashes
      ensures Contents() == Append(old(Contents()), Build(comb, txids, match_, height, pos))
      decreases height
    {
      ghost var p := Contents();
      var any := ScanMatches(height, pos, txids, match_);
      bits := bits + [any];
      if height == 0 || !any {
        hashes := hashes + [CalcHash(comb, txids, height, pos)];
      } else {
        LeftChild(transactions, height, pos);
        TraverseAndBuild(height - 1, pos * 2, txids, match_);
        if HasRight(transactions, height, pos) {
          TraverseAndBuild(height - 1, pos * 2 + 1, txids, match_);
        }
        AppendAssociates(p, [any], comb, txids, match_, height, pos);
      }
    }

    /** src/merkleblock.cpp:75-104: the traversal goes on after a failure, which only the flag
        `bad` records. */
    method TraverseAndExtract(height: nat, pos: nat, bitsUsed: nat, hashUsed: nat, got: seq<Hash>)
        returns (hash: Hash, bitsUsed': nat, hashUsed': nat, got': seq<Hash>)
      requires Node(transactions, height, pos) && bitsUsed <= |bits| && hashUsed <= |hashes|
      modifies this`bad
      ensures bitsUsed <= bitsUsed' <= |bits| && hashUsed <= hashUsed' <= |hashes|
      ensures var r := Extract(comb, transactions, height, pos, Partial(bits[bitsUsed..], hashes[hashUsed..]));
        && bad == (old(bad) || r.Bad?)
        && (r.Extracted? ==>
              hash == r.hash && got' == got + r.matches && r.rest == Partial(bits[bitsUsed'..], hashes[hashUsed'..]))
      decreases height
    {
      bitsUsed', hashUsed', got' := bitsUsed, hashUsed, got;
      if bitsUsed >= |bits| {
        bad := true;
        return 0, bitsUsed', hashUsed', got';
      }
      var any := bits[bitsUsed];
      bitsUsed' := bitsUsed + 1;
      assert bits[bitsUsed..][1..] == bits[bitsUsed'..];
      if height == 0 || !any {
        if hashUsed >= |hashes| {
          bad := true;
          return 0, bitsUsed', hashUsed', got';
        }
        hash := hashes[hashUsed];
        hashUsed' := hashUsed + 1;
        assert hashes[hashUsed..][1..] == hashes[hashUsed'..];
        if height == 0 && any {
          got' := got' + [hash];
        }
      } else {
        LeftChild(transactions, height, pos);
        hash, bitsUsed', hashUsed', got' := Descend(height, pos, bitsUsed', hashUsed', got');
      }
    }

    /** The inner node case of the traversal (src/merkleblock.cpp:96-102). */
    method Descend(height: nat, pos: nat, bitsUsed: nat, hashUsed: nat, got: seq<Hash>)
        returns (hash: Hash, bitsUsed': nat, hashUsed': nat, got': seq<Hash>)
      requires height > 0 && Node(transactions, height, pos) && Node(transactions, height - 1, pos * 2)
      requires bitsUsed <= |bits| && hashUsed <= |hashes|
      modifies this`bad
      ensures bitsUsed <= bitsUsed' <= |bits| && hashUsed <= hashUsed' <= |hashes|
      ensures var r := ExtractInner(comb, transactions, height, pos, Partial(bits[bitsUsed..], hashes[hashUsed..]));
        && bad == (old(bad) || r.Bad?)
        && (r.Extracted? ==>
              hash == r.hash && got' == got + r.matches && r.rest == Partial(bits[bitsUsed'..], hashes[hashUsed'..]))
      decreases height, 0
    {
      ghost var l := Extract(comb, transactions, height - 1, pos * 2, Partial(bits[bitsUsed..], hashes[hashUsed..]));
      var left, right;
      left, bitsUsed', hashUsed', got' := TraverseAndExtract(height - 1, pos * 2, bitsUsed, hashUsed, got);
      if HasRight(transactions, height, pos) {
        ghost var r := Extract(comb, transactions, height - 1, pos * 2 + 1,
          Partial(bits[bitsUsed'..], hashes[hashUsed'..]));
        if l.Extracted? && r.Extracted? {
          Regroup(got, l.matches, r.matches);
        }
        right, bitsUsed', hashUsed', got' := TraverseAndExtract(height - 1, pos * 2 + 1, bitsUsed', hashUsed', got');
      } else {
        right := left;
      }
      hash := comb(left, right);
    }

    /** src/merkleblock.cpp:123-155 */
    method ExtractMatches() returns (root: Hash, got: seq<Hash>)
      modifies this`bad
      ensures old(bad) ==> root == 0
      ensures !old(bad) ==>
        (match Extraction(comb, transactions, Contents())
         case Rejected => root == 0
         case Found(r, m) => root == r && got == m)
    {
      got := [];
      if transactions == 0 { return 0, got; }
      if transactions > MAX_BLOCK_SIZE / MIN_TX_SIZE { return 0, got; }
      if |hashes| > transactions { return 0, got; }
      if |bits| < |hashes| { return 0, got; }
      var height := TreeHeight();
      RootNode(transactions);
      var bitsUsed, hashUsed;
      root, bitsUsed, hashUsed, got := TraverseAndExtract(height, 0, 0, 0, got);
      assert bits[0..] == bits && hashes[0..] == hashes;
      if bad { return 0, got; }
      if (bitsUsed + 7) / 8 != (|bits| + 7) / 8 { return 0, got; }
      if hashUsed != |hashes| { return 0, got; }
    }

    /** Writing the bits as bytes (src/merkleblock.h:102-104). */
    method PackBits() returns (bytes: array<nat>)
      ensures fresh(bytes) && bytes[..] == PackBytes(bits)
      ensures forall b :: 0 <= b < bytes.Length ==> bytes[b] < 256
    {
      bytes := new nat[(|bits| + 7) / 8](_ => 0);
      for p := 0 to |bits|
        invariant forall b :: 0 <= b < bytes.Length ==> bytes[b] == Pack(GroupUpTo(bits, b, p))
      {
        var b := p / 8;
        PackedNext(bits, b, p);
        if bits[p] {
          bytes[b] := bytes[b] + Pow2(p % 8);
        }
      }
      assert bytes[..] == PackBytes(bits);
      forall b | 0 <= b < bytes.Length ensures bytes[b] < 256 {
        PackedIsByte(bits, b);
      }
    }

    /** Reading the bits back from bytes (src/merkleblock.h:97-100). */
    method UnpackBits(bytes: seq<nat>)
      modifies this`bits, this`bad
      ensures bits == UnpackBytes(bytes) && !bad
    {
      bits := seq(|bytes| * 8, _ => false);
      for p := 0 to |bits|
        invariant |bits| == |bytes| * 8
        invariant forall i :: 0 <= i < p ==> bits[i] == TestBit(bytes[i / 8], i % 8)
      {
        bits := bits[p := TestBit(bytes[p / 8], p % 8)];
      }
      bad := false;
    }
  }

  /** The part of byte `b`'s bits that lies below position `p`. */
  function GroupUpTo(bits: seq<bool>, b: nat, p: nat): seq<bool>
    requires p <= |bits|
  {
    if b * 8 >= p then [] else bits[b * 8..Min(b * 8 + 8, p)]
  }

  /** Bit `p` goes to byte `p / 8` and to no other. */
  lemma PackedNext(bits: seq<bool>, b: nat, p: nat)
    requires p < |bits| && b == p / 8
    ensures Pack(GroupUpTo(bits, b, p + 1)) == Pack(GroupUpTo(bits, b, p)) + if bits[p] then Pow2(p % 8) else 0
    ensures forall c: nat :: c != b ==> GroupUpTo(bits, c, p + 1) == GroupUpTo(bits, c, p)
  {
    var g := GroupUpTo(bits, b, p);
    assert |g| == p % 8;
    assert GroupUpTo(bits, b, p + 1) == g + [bits[p]];
    PackAppend(g, bits[p]);
  }

  lemma Regroup(got: seq<Hash>, left: seq<Hash>, right: seq<Hash>)
    ensures got + left + right == got + (left + right)
  {
  }

  function ExtractInner(comb: Combine, n: nat, height: nat, pos: nat, p: Partial): Extracted
    requires height > 0 && Node(n, height, pos) && Node(n, height - 1, pos * 2)
  {
    var l := Extract(comb, n, height - 1, pos * 2, p);
    if l.Bad? then Bad
    else if HasRight(n, height, pos) then
      var r := Extract(comb, n, height - 1, pos * 2 + 1, l.rest);
      if r.Bad? then Bad else Extracted(comb(l.hash, r.hash), l.matches + r.matches, r.rest)
    else l.(hash := comb(l.hash, l.hash))
  }

  lemma AppendAssociates(p: Partial, flag: seq<bool>, comb: Combine, txids: seq<Hash>, match_: seq<bool>, height: nat,
      pos: nat)
    requires |txids| == |match_| && height > 0 && Node(|txids|, height, pos) && AnyMatch(match_, height, pos)
    requires flag == [true]
    ensures var l := Build(comb, txids, match_, height - 1, pos * 2);
      var b := Build(comb, txids, match_, height, pos);
      var p1 := Append(p.(bits := p.bits + flag), l);
      if HasRight(|txids|, height, pos) then
        Append(p, b) == Append(p1, Build(comb, txids, match_, height - 1, pos * 2 + 1))
      else Append(p, b) == p1
  {
    var l := Build(comb, txids, match_, height - 1, pos * 2);
    if HasRight(|txids|, height, pos) {
      var r := Build(comb, txids, match_, height - 1, pos * 2 + 1);
      assert p.bits + ([true] + l.bits + r.bits) == p.bits + flag + l.bits + r.bits;
      assert p.hashes + (l.hashes + r.hashes) == p.hashes + l.hashes + r.hashes;
    } else {
      assert p.bits + ([true] + l.bits) == p.bits + flag + l.bits;
    }
  }
}
