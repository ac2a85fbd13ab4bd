/** The Merkle root as a block computes it, level by level (src/primitives/block.cpp:58-84): what the
    recursion of the partial tree gives. */
module MerkleLevels {
  import opened MerkleTree
  import opened MerkleBlock

  /** Each pair is combined; a last one alone is combined with itself. */
  function NextLevel(comb: Combine, hashes: seq<Hash>): (r: seq<Hash>)
    ensures |r| == (|hashes| + 1) / 2
    ensures forall i :: 0 <= i < |r| ==>
      r[i] == comb(hashes[2 * i], hashes[if 2 * i + 1 < |hashes| then 2 * i + 1 else |hashes| - 1])
  {
    if hashes == [] then []
    else if |hashes| == 1 then [comb(hashes[0], hashes[0])]
    else [comb(hashes[0], hashes[1])] + NextLevel(comb, hashes[2..])
  }

  function Level(comb: Combine, txids: seq<Hash>, height: nat): seq<Hash> {
    if height == 0 then txids else NextLevel(comb, Level(comb, txids, height - 1))
  }

  lemma PairAt(comb: Combine, hashes: seq<Hash>, pos: nat)
    requires 2 * pos < |hashes|
    ensures pos < |NextLevel(comb, hashes)|
    ensures NextLevel(comb, hashes)[pos] ==
      comb(hashes[2 * pos], hashes[if 2 * pos + 1 < |hashes| then 2 * pos + 1 else 2 * pos])
  {
  }

  lemma NodeFromChildren(comb: Combine, txids: seq<Hash>, height: nat, pos: nat, below: seq<Hash>)
    requires height > 0 && Node(|txids|, height, pos) && |below| == Width(|txids|, height - 1)
    requires Node(|txids|, height - 1, pos * 2) && below[2 * pos] == CalcHash(comb, txids, height - 1, pos * 2)
    requires HasRight(|txids|, height, pos) ==> below[2 * pos + 1] == CalcHash(comb, txids, height - 1, pos * 2 + 1)
    ensures |NextLevel(comb, below)| == Width(|txids|, height)
    ensures CalcHash(comb, txids, height, pos) == NextLevel(comb, below)[pos]
  {
    PairAt(comb, below, pos);
  }

  /** The hashes are those of the nodes of a level. */
  ghost predicate AreNodes(comb: Combine, txids: seq<Hash>, height: nat, hashes: seq<Hash>) {
    && |hashes| == Width(|txids|, height)
    && forall pos :: 0 <= pos < |hashes| ==> hashes[pos] == CalcHash(comb, txids, height, pos)
  }

  lemma NextAreNodes(comb: Combine, txids: seq<Hash>, height: nat, below: seq<Hash>)
    requires height > 0 && AreNodes(comb, txids, height - 1, below)
    ensures AreNodes(comb, txids, height, NextLevel(comb, below))
  {
    var hashes := NextLevel(comb, below);
    forall pos | 0 <= pos < |hashes| ensures hashes[pos] == CalcHash(comb, txids, height, pos) {
      LeftChild(|txids|, height, pos);
      NodeFromChildren(comb, txids, height, pos, below);
    }
  }

  lemma {:induction false} LevelAreNodes(comb: Combine, txids: seq<Hash>, height: nat)
    ensures AreNodes(comb, txids, height, Level(comb, txids, height))
  {
    if height > 0 {
      LevelAreNodes(comb, txids, height - 1);
      NextAreNodes(comb, txids, height, Level(comb, txids, height - 1));
    }
  }

  /** The levels are halved until one hash is left. */
  function LevelRoot(comb: Combine, hashes: seq<Hash>): Hash
    requires hashes != []
    decreases |hashes|
  {
    if |hashes| == 1 then hashes[0] else LevelRoot(comb, NextLevel(comb, hashes))
  }

  /** Below the top there is more than one hash; at the top there is the root. */
  lemma LevelShape(comb: Combine, txids: seq<Hash>, height: nat)
    requires |txids| > 0 && height <= HeightFrom(|txids|, 0)
    ensures Level(comb, txids, height) != []
    ensures height < HeightFrom(|txids|, 0) ==> |Level(comb, txids, height)| > 1
    ensures height == HeightFrom(|txids|, 0) ==> Level(comb, txids, height) == [MerkleRoot(comb, txids)]
  {
    RootNode(|txids|);
    WidthBounds(|txids|, height);
    LevelAreNodes(comb, txids, height);
  }

  lemma {:induction false} LevelRootFrom(comb: Combine, txids: seq<Hash>, height: nat, hashes: seq<Hash>)
    requires |txids| > 0 && height <= HeightFrom(|txids|, 0) && hashes == Level(comb, txids, height)
    ensures hashes != [] && LevelRoot(comb, hashes) == MerkleRoot(comb, txids)
    decreases HeightFrom(|txids|, 0) - height
  {
    LevelShape(comb, txids, height);
    if height < HeightFrom(|txids|, 0) {
      var next := NextLevel(comb, hashes);
      LevelRootFrom(comb, txids, height + 1, next);
      HalvedRoot(comb, hashes, next);
    }
  }

  lemma HalvedRoot(comb: Combine, hashes: seq<Hash>, next: seq<Hash>)
    requires |hashes| > 1 && next == NextLevel(comb, hashes)
    ensures LevelRoot(comb, hashes) == LevelRoot(comb, next)
  {
  }

  /** The root of the recursion is the block's Merkle root, which pairs up level by level. */
  lemma RootIsLevelwise(comb: Combine, txids: seq<Hash>)
    requires |txids| > 0
    ensures MerkleRoot(comb, txids) == LevelRoot(comb, txids)
  {
    LevelRootFrom(comb, txids, 0, txids);
  }

  /** The loops of BuildMerkleTree, with the levels kept one at a time. */
  method BuildMerkleTree(comb: Combine, txids: seq<Hash>) returns (root: Hash)
    requires |txids| > 0
    ensures root == MerkleRoot(comb, txids)
  {
    RootIsLevelwise(comb, txids);
    var level := txids;
    while |level| > 1
      invariant level != [] && LevelRoot(comb, level) == LevelRoot(comb, txids)
      decreases |level|
    {
      level := PairUp(comb, level);
    }
    root := level[0];
  }

  method PairUp(comb: Combine, hashes: seq<Hash>) returns (next: seq<Hash>)
    ensures next == NextLevel(comb, hashes)
  {
    next := [];
    var i := 0;
    while i < |hashes|
      invariant 0 <= i && i % 2 == 0 && i <= |hashes| + 1
      invariant |next| == i / 2 && forall k :: 0 <= k < |next| ==> next[k] == NextLevel(comb, hashes)[k]
    {
      var other := if i + 1 < |hashes| then i + 1 else |hashes| - 1;
      PairAt(comb, hashes, i / 2);
      next := next + [comb(hashes[i], hashes[other])];
      i := i + 2;
    }
    assert next == NextLevel(comb, hashes);
  }
}
