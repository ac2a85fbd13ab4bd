/** Which partial Merkle trees are accepted (src/merkleblock.cpp:75-155): exactly the flattened
    forms of trees of the right shape, with nothing left over. */
module MerkleParse {
  import opened MerkleTree
  import opened MerkleProofs
  import opened MerkleBlock

  /** A partial tree as a tree: a node not gone into carries its hash and, at the bottom, whether
      it is matched; the others have two children, or one that counts twice. */
  datatype Tree = Stub(bit: bool, hash: Hash) | Fork(left: Tree, right: Tree) | Single(child: Tree)

  /** The tree fits the node: children are where the full tree has them. */
  predicate Shaped(t: Tree, n: nat, height: nat, pos: nat)
    requires Node(n, height, pos)
    decreases t
  {
    match t
    case Stub(bit, _) => height == 0 || !bit
    case Fork(left, right) =>
      height > 0 && HasRight(n, height, pos) && Node(n, height - 1, pos * 2) &&
      Shaped(left, n, height - 1, pos * 2) && Shaped(right, n, height - 1, pos * 2 + 1)
    case Single(child) =>
      height > 0 && !HasRight(n, height, pos) && Node(n, height - 1, pos * 2) && Shaped(child, n, height - 1, pos * 2)
  }

  /** The flags, a node before its children and the left child before the right one. */
  function Flags(t: Tree): (bits: seq<bool>)
    ensures bits != []
  {
    match t
    case Stub(bit, _) => [bit]
    case Fork(left, right) => [true] + Flags(left) + Flags(right)
    case Single(child) => [true] + Flags(child)
  }

  function Hashes(t: Tree): seq<Hash> {
    match t
    case Stub(_, hash) => [hash]
    case Fork(left, right) => Hashes(left) + Hashes(right)
    case Single(child) => Hashes(child)
  }

  function Root(comb: Combine, t: Tree): Hash {
    match t
    case Stub(_, hash) => hash
    case Fork(left, right) => comb(Root(comb, left), Root(comb, right))
    case Single(child) => comb(Root(comb, child), Root(comb, child))
  }

  /** The matched leaves, from left to right. */
  function Matched(t: Tree): seq<Hash> {
    match t
    case Stub(bit, hash) => if bit then [hash] else []
    case Fork(left, right) => Matched(left) + Matched(right)
    case Single(child) => Matched(child)
  }

  function Flat(t: Tree): Partial { Partial(Flags(t), Hashes(t)) }

  function Read(comb: Combine, t: Tree, rest: Partial): Extracted {
    Extracted(Root(comb, t), Matched(t), rest)
  }

  /** Extraction reads any flattened tree. */
  lemma {:induction false} FlatExtracts(comb: Combine, n: nat, height: nat, pos: nat, t: Tree, rest: Partial)
    requires Node(n, height, pos) && Shaped(t, n, height, pos)
    ensures Extract(comb, n, height, pos, Append(Flat(t), rest)) == Read(comb, t, rest)
    decreases t
  {
    match t
    case Stub(bit, hash) => ExtractLeaf(comb, n, height, pos, bit, hash, rest);
    case Fork(left, right) =>
      FlatExtracts(comb, n, height - 1, pos * 2, left, Append(Flat(right), rest));
      FlatExtracts(comb, n, height - 1, pos * 2 + 1, right, rest);
      ExtractBoth(comb, n, height, pos, Read(comb, left, Append(Flat(right), rest)), Read(comb, right, rest),
        Flat(left), Flat(right));
    case Single(child) =>
      FlatExtracts(comb, n, height - 1, pos * 2, child, rest);
      ExtractOnly(comb, n, height, pos, Read(comb, child, rest), Flat(child));
  }

  /** Whatever is extracted was a flattened tree. */
  lemma {:induction false} ExtractedIsFlat(comb: Combine, n: nat, height: nat, pos: nat, p: Partial) returns (t: Tree)
    requires Node(n, height, pos) && Extract(comb, n, height, pos, p).Extracted?
    ensures Shaped(t, n, height, pos)
    ensures var e := Extract(comb, n, height, pos, p); p == Append(Flat(t), e.rest) && e == Read(comb, t, e.rest)
    decreases height
  {
    if height == 0 || !p.bits[0] {
      t := Stub(p.bits[0], p.hashes[0]);
    } else {
      LeftChild(n, height, pos);
      var q := p.(bits := p.bits[1..]);
      var l := Extract(comb, n, height - 1, pos * 2, q);
      var left := ExtractedIsFlat(comb, n, height - 1, pos * 2, q);
      if HasRight(n, height, pos) {
        var r := Extract(comb, n, height - 1, pos * 2 + 1, l.rest);
        var right := ExtractedIsFlat(comb, n, height - 1, pos * 2 + 1, l.rest);
        t := Fork(left, right);
        Reassembled(p, Flat(left), Flat(right), r.rest);
      } else {
        t := Single(left);
        Prefixed(p, Flat(left), l.rest);
      }
    }
  }

  lemma Reassembled(p: Partial, a: Partial, b: Partial, rest: Partial)
    requires p.bits != [] && p.bits[0] && p.(bits := p.bits[1..]) == Append(a, Append(b, rest))
    ensures p == Append(Partial([true] + a.bits + b.bits, a.hashes + b.hashes), rest)
  {
    assert p.bits == [true] + p.bits[1..];
  }

  lemma Prefixed(p: Partial, a: Partial, rest: Partial)
    requires p.bits != [] && p.bits[0] && p.(bits := p.bits[1..]) == Append(a, rest)
    ensures p == Append(Partial([true] + a.bits, a.hashes), rest)
  {
    assert p.bits == [true] + p.bits[1..];
  }

  lemma {:induction false} TreeSizes(t: Tree, n: nat, height: nat, pos: nat)
    requires Node(n, height, pos) && Shaped(t, n, height, pos)
    ensures |Hashes(t)| <= Hi(n, height, pos) - Lo(height, pos) && |Hashes(t)| <= |Flags(t)|
    decreases t
  {
    NodeRange(n, height, pos);
    match t
    case Stub(_, _) =>
    case Fork(left, right) =>
      RangeSplits(n, height, pos);
      TreeSizes(left, n, height - 1, pos * 2);
      TreeSizes(right, n, height - 1, pos * 2 + 1);
    case Single(child) =>
      RangeSplits(n, height, pos);
      TreeSizes(child, n, height - 1, pos * 2);
  }

  /** `p` is the tree `t` over `n` transactions: all hashes used, all flag bytes used. */
  ghost predicate Encodes(p: Partial, n: nat, t: Tree)
    requires n > 0 && Node(n, HeightFrom(n, 0), 0)
  {
    && Shaped(t, n, HeightFrom(n, 0), 0) && p.hashes == Hashes(t)
    && Flags(t) <= p.bits && (|Flags(t)| + 7) / 8 == (|p.bits| + 7) / 8
  }

  /** ExtractMatches yields a root and matches if and only if there is a sensible number of
      transactions and what it was given is a tree over them, with no hash and no flag byte left
      over; the root and the matches are then that tree's. The earlier checks on the numbers of
      hashes and bits never reject such a tree. */
  lemma AcceptedExactly(comb: Combine, n: nat, p: Partial, root: Hash, matches: seq<Hash>)
    requires n > 0 ==> Node(n, HeightFrom(n, 0), 0)
    ensures Extraction(comb, n, p) == Found(root, matches) <==>
      0 < n <= MAX_BLOCK_SIZE / MIN_TX_SIZE &&
      exists t :: Encodes(p, n, t) && Root(comb, t) == root && Matched(t) == matches
  {
    if Extraction(comb, n, p) == Found(root, matches) {
      var t := FoundIsTree(comb, n, p);
      assert Encodes(p, n, t);
    }
    if 0 < n <= MAX_BLOCK_SIZE / MIN_TX_SIZE {
      if t :| Encodes(p, n, t) && Root(comb, t) == root && Matched(t) == matches {
        TreeIsFound(comb, n, p, t);
      }
    }
  }

  lemma FoundIsTree(comb: Combine, n: nat, p: Partial) returns (t: Tree)
    requires n > 0 && Node(n, HeightFrom(n, 0), 0) && Extraction(comb, n, p).Found?
    ensures Encodes(p, n, t) && Extraction(comb, n, p) == Found(Root(comb, t), Matched(t))
  {
    var h := HeightFrom(n, 0);
    t := ExtractedIsFlat(comb, n, h, 0, p);
    assert p.bits == Flags(t) + Extract(comb, n, h, 0, p).rest.bits;
    assert p.hashes == Hashes(t) + [];
  }

  lemma TreeIsFound(comb: Combine, n: nat, p: Partial, t: Tree)
    requires 0 < n <= MAX_BLOCK_SIZE / MIN_TX_SIZE && Node(n, HeightFrom(n, 0), 0) && Encodes(p, n, t)
    ensures Extraction(comb, n, p) == Found(Root(comb, t), Matched(t))
  {
    var h := HeightFrom(n, 0);
    var rest := Partial(p.bits[|Flags(t)|..], []);
    RootCoversAll(n);
    TreeSizes(t, n, h, 0);
    FlatExtracts(comb, n, h, 0, t, rest);
    assert p == Append(Flat(t), rest);
  }
}
