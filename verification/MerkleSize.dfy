/** The size of a partial Merkle tree on the wire, and when it keeps what src/merkleblock.h:32-48
    calls a hard guarantee. */
module MerkleSize {
  import opened Bits
  import opened Nonlinear
  import opened MerkleTree
  import opened MerkleProofs
  import opened MerkleBlock

  /** The bytes that a length takes (src/serialize.h:268-278). */
  function CompactSize(x: nat): nat {
    if x < 253 then 1 else if x <= 0xFFFF then 3 else if x <= 0xFFFF_FFFF then 5 else 9
  }

  /** The number of transactions, the hashes and the packed bits (src/merkleblock.h:92-108). */
  function EncodedSize(p: Partial): nat {
    var bytes := ByteLength(|p.bits|);
    4 + (CompactSize(|p.hashes|) + 32 * |p.hashes|) + (CompactSize(bytes) + bytes)
  }

  function Quarter(n: nat): nat { (n + 3) / 4 }

  /** 10 + ceil(32.25 * n) (src/merkleblock.h:35). */
  function Guaranteed(n: nat): nat { 10 + 32 * n + Quarter(n) }

  /** The bytes of flag bits that the guarantee leaves room for. */
  function Room(hashes: nat, bytes: nat): nat {
    Quarter(hashes) + if hashes < 253 then 4 else if bytes < 253 then 2 else 0
  }

  // ---- how many single-child nodes there can be ----

  lemma HeightBound(n: nat, k: nat)
    requires n <= Pow2(k)
    ensures HeightFrom(n, 0) <= k
  {
    WidthBounds(n, k);
    if Width(n, k) > 1 {
      MulLe(1, Width(n, k) - 1, Pow2(k));
    }
  }

  lemma BuiltBits(comb: Combine, txids: seq<Hash>, match_: seq<bool>, k: nat)
    requires 0 < |txids| == |match_| <= Pow2(k)
    ensures var p := Built(comb, txids, match_);
      0 < |p.hashes| <= |txids| && 2 * |p.hashes| - 1 <= |p.bits| <= 2 * |p.hashes| - 1 + k
  {
    var h := HeightFrom(|txids|, 0);
    HeightBound(|txids|, k);
    RootCoversAll(|txids|);
    RootNode(|txids|);
    BuildSizes(comb, txids, match_, h, 0);
    BitsExact(comb, txids, match_, h, 0);
    LastHasNone(match_, h);
  }

  /** Flag bytes are never fewer than a quarter of the hashes, and few more. */
  lemma BytesNeeded(hashes: nat, bits: nat, extra: nat)
    requires hashes > 0 && 2 * hashes - 1 <= bits <= 2 * hashes - 1 + 8 * extra
    ensures Quarter(hashes) <= ByteLength(bits) <= Quarter(hashes) + extra
  {
  }

  lemma Powers()
    ensures Pow2(16) == 0x1_0000 && Pow2(32) == 0x1_0000_0000
  {
    assert Pow2(8) == 256;
    Doubled(8, 8);
    Doubled(16, 16);
  }

  lemma {:induction false} Doubled(a: nat, b: nat)
    ensures Pow2(a + b) == Pow2(a) * Pow2(b)
  {
    if b > 0 {
      Doubled(a, b - 1);
      MulAssoc(Pow2(a), 2, Pow2(b - 1));
    }
  }

  // ---- the guarantee ----

  lemma SizeFits(hashes: nat, bits: nat, p: Partial)
    requires |p.hashes| == hashes > 0 && |p.bits| == bits && 2 * hashes - 1 <= bits <= 2 * hashes - 1 + 32
    ensures var bytes := ByteLength(bits);
      EncodedSize(p) <= Guaranteed(hashes) <==> hashes < 0x1_0000 && bytes <= Room(hashes, bytes)
  {
    BytesNeeded(hashes, bits, 4);
  }

  /** For every 32-bit number of transactions the guarantee holds if and only if there are
      fewer than 2^16 hashes and the flag bytes find room. They always do below 253 hashes; from
      253 flag bytes on, they do only when there are exactly a quarter as many as hashes. */
  lemma SizeGuarantee(comb: Combine, txids: seq<Hash>, match_: seq<bool>)
    requires 0 < |txids| == |match_| <= 0xFFFF_FFFF
    ensures var p := Built(comb, txids, match_); var bytes := ByteLength(|p.bits|);
      && (EncodedSize(p) <= Guaranteed(|p.hashes|) <==>
            |p.hashes| < 0x1_0000 && bytes <= Room(|p.hashes|, bytes))
      && (|p.hashes| < 253 ==> bytes <= Room(|p.hashes|, bytes))
      && (bytes >= 253 ==> (bytes <= Room(|p.hashes|, bytes) <==> bytes == Quarter(|p.hashes|)))
  {
    var p := Built(comb, txids, match_);
    Powers();
    BuiltBits(comb, txids, match_, 32);
    SizeFits(|p.hashes|, |p.bits|, p);
    BytesNeeded(|p.hashes|, |p.bits|, 4);
  }

  /** In a block of acceptable size fewer than 253 flag bytes always fit. */
  lemma BlockSizeGuarantee(comb: Combine, txids: seq<Hash>, match_: seq<bool>)
    requires 0 < |txids| == |match_| <= MAX_BLOCK_SIZE / MIN_TX_SIZE
    ensures var p := Built(comb, txids, match_); var bytes := ByteLength(|p.bits|);
      EncodedSize(p) <= Guaranteed(|p.hashes|) <==> bytes < 253 || bytes == Quarter(|p.hashes|)
  {
    var p := Built(comb, txids, match_);
    Powers();
    BuiltBits(comb, txids, match_, 16);
    BytesNeeded(|p.hashes|, |p.bits|, 2);
    SizeGuarantee(comb, txids, match_);
  }

  // ---- a tree that breaks it ----

  predicate AllMatched(match_: seq<bool>) {
    forall i :: 0 <= i < |match_| ==> match_[i]
  }

  lemma {:induction false} EveryNodeMatches(match_: seq<bool>, height: nat, pos: nat)
    requires AllMatched(match_) && Node(|match_|, height, pos)
    ensures AnyMatch(match_, height, pos)
  {
    if height > 0 {
      LeftChild(|match_|, height, pos);
      EveryNodeMatches(match_, height - 1, pos * 2);
    }
  }

  lemma {:induction false} EveryLeafIsHashed(comb: Combine, txids: seq<Hash>, match_: seq<bool>, height: nat, pos: nat)
    requires |txids| == |match_| && AllMatched(match_) && Node(|txids|, height, pos)
    ensures |Build(comb, txids, match_, height, pos).hashes| == Hi(|txids|, height, pos) - Lo(height, pos)
  {
    EveryNodeMatches(match_, height, pos);
    if height == 0 {
      assert Lo(0, pos) == pos && Hi(|txids|, 0, pos) == pos + 1;
    } else {
      RangeSplits(|txids|, height, pos);
      EveryLeafIsHashed(comb, txids, match_, height - 1, pos * 2);
      if HasRight(|txids|, height, pos) {
        EveryLeafIsHashed(comb, txids, match_, height - 1, pos * 2 + 1);
      }
    }
  }

  /** With everything matched each level of odd width but the top one adds a single child. */
  lemma OddLevel(match_: seq<bool>, height: nat)
    requires |match_| > 0 && AllMatched(match_) && height > 0
    ensures OnlyChildren(match_, height, Last(|match_|, height)) ==
            OnlyChildren(match_, height - 1, Last(|match_|, height - 1)) + Width(|match_|, height - 1) % 2
  {
    var last := Last(|match_|, height);
    EveryNodeMatches(match_, height, last);
    LastNodeSplits(|match_|, height);
    if Width(|match_|, height - 1) % 2 == 0 {
      InnerNodesAreFull(match_, height - 1, last * 2);
    }
  }

  lemma WidthsOf1025()
    ensures Width(1025, 0) == 1025 && Width(1025, 1) == 513 && Width(1025, 2) == 257 && Width(1025, 3) == 129
    ensures Width(1025, 4) == 65 && Width(1025, 5) == 33 && Width(1025, 6) == 17 && Width(1025, 7) == 9
    ensures Width(1025, 8) == 5 && Width(1025, 9) == 3 && Width(1025, 10) == 2 && Width(1025, 11) == 1
  {
  }

  lemma HeightOf1025()
    ensures HeightFrom(1025, 0) == 11
  {
    WidthsOf1025();
    var h := HeightFrom(1025, 0);
    assert Width(1025, 10) > 1 && Width(1025, 11) <= 1;
    if h < 11 {
      WidthFalls(1025, h, 10);
    }
  }

  lemma {:induction false} WidthFalls(n: nat, a: nat, b: nat)
    requires a <= b && Width(n, a) <= 1
    ensures Width(n, b) <= 1
  {
    if a < b { WidthFalls(n, a, b - 1); }
  }

  lemma {:induction false} SingleChildren(match_: seq<bool>, height: nat)
    requires |match_| == 1025 && AllMatched(match_) && height <= 10
    ensures OnlyChildren(match_, height, Last(1025, height)) == height
  {
    WidthsOf1025();
    if height > 0 {
      SingleChildren(match_, height - 1);
      OddLevel(match_, height);
    }
  }

  lemma BuiltFrom1025(comb: Combine, txids: seq<Hash>, match_: seq<bool>)
    requires |txids| == |match_| == 1025 && AllMatched(match_)
    ensures var p := Built(comb, txids, match_); |p.hashes| == 1025 && |p.bits| == 2059
  {
    HeightOf1025();
    WidthsOf1025();
    RootCoversAll(1025);
    EveryLeafIsHashed(comb, txids, match_, 11, 0);
    SingleChildren(match_, 10);
    OddLevel(match_, 11);
    BitsExact(comb, txids, match_, 11, 0);
  }

  /** A filter that matches all of 1025 transactions: 1025 hashes and 258 flag bytes make one
      byte more than guaranteed. */
  lemma GuaranteeFails(comb: Combine, txids: seq<Hash>, match_: seq<bool>)
    requires |txids| == |match_| == 1025 && AllMatched(match_)
    ensures var p := Built(comb, txids, match_);
      |p.hashes| == 1025 && |p.bits| == 2059 && EncodedSize(p) == 33068 && Guaranteed(1025) == 33067
  {
    BuiltFrom1025(comb, txids, match_);
  }
}
