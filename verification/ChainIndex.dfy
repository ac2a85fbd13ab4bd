/** Blocks linked to their parents, with a skip pointer to a farther ancestor
    (src/chain.h, src/main.cpp:3523-3570). */
module ChainIndex {

  /** `n & (n - 1)`: the lowest 1 bit turned into a 0. */
  function InvertLowestOne(n: nat): (r: nat)
    ensures n > 0 ==> r < n
    ensures n == 0 ==> r == 0
  {
    if n == 0 then 0
    else if n % 2 == 1 then n - 1
    else 2 * InvertLowestOne(n / 2)
  }

  /** The height the skip pointer of a block leads to (src/main.cpp:3527-3536). */
  function SkipHeight(height: nat): (r: nat)
    ensures height > 0 ==> r < height
  {
    if height < 2 then 0
    else if height % 2 == 1 then InvertLowestOne(InvertLowestOne(height - 1)) + 1
    else InvertLowestOne(height)
  }

  class BlockIndex {
    const hash: nat
    const pprev: BlockIndex?
    const pskip: BlockIndex?
    const height: nat

    constructor Genesis(hash: nat)
      ensures Linked(this) && this.hash == hash && pprev == null && height == 0
    {
      this.hash := hash;
      pprev, pskip, height := null, null, 0;
    }

    /** A block on top of `parent`, its skip pointer built (src/main.cpp:3566-3570). */
    constructor (hash: nat, parent: BlockIndex)
      requires Linked(parent)
      ensures Linked(this) && this.hash == hash && pprev == parent
    {
      var skip := parent.GetAncestor(SkipHeight(parent.height + 1));
      this.hash := hash;
      pprev, pskip, height := parent, skip, parent.height + 1;
    }

    /** src/main.cpp:3538-3559 */
    method GetAncestor(target: int) returns (r: BlockIndex?)
      requires Linked(this)
      ensures 0 <= target <= height ==> r == Path(this)[target]
      ensures !(0 <= target <= height) ==> r == null
    {
      if target > height || target < 0 {
        return null;
      }
      var walk: BlockIndex := this;
      var heightWalk := height;
      while heightWalk > target
        invariant Linked(walk) && target <= heightWalk == walk.height <= height
        invariant Path(walk)[target] == Path(this)[target]
      {
        var skip := SkipHeight(heightWalk);
        var skipPrev := SkipHeight(heightWalk - 1);
        if skip == target || (skip > target && !(skipPrev < skip - 2 && skipPrev >= target)) {
          PathOfAncestor(walk, skip);
          walk := walk.pskip;
          heightWalk := skip;
        } else {
          PathOfAncestor(walk, heightWalk - 1);
          walk := walk.pprev;
          heightWalk := heightWalk - 1;
        }
      }
      r := walk;
    }
  }

  /** The parents lead down to a block at height zero, one height at a time, and every skip
      pointer leads to the ancestor it should. */
  ghost predicate Linked(b: BlockIndex)
    decreases b.height, 0
  {
    if b.pprev == null then b.height == 0
    else
      b.pprev.height + 1 == b.height && Linked(b.pprev) && b.pskip == Path(b.pprev)[SkipHeight(b.height)]
  }

  /** A block's ancestors from the genesis block up, itself last. */
  ghost function Path(b: BlockIndex): (p: seq<BlockIndex>)
    requires Linked(b)
    ensures |p| == b.height + 1 && p[b.height] == b
    decreases b.height, 1
  {
    if b.pprev == null then [b] else Path(b.pprev) + [b]
  }

  lemma {:induction false} PathOfAncestor(b: BlockIndex, h: nat)
    requires Linked(b) && h <= b.height
    ensures Linked(Path(b)[h]) && Path(b)[h].height == h
    ensures Path(Path(b)[h]) == Path(b)[..h + 1]
    ensures h < b.height ==> b.pprev != null && Path(b)[h] == Path(b.pprev)[h]
    decreases b.height
  {
    if h < b.height {
      PathOfAncestor(b.pprev, h);
      assert Path(b.pprev)[..h + 1] == Path(b)[..h + 1];
    } else {
      assert Path(b)[..h + 1] == Path(b);
    }
  }

  lemma ParentOnPath(b: BlockIndex, h: nat)
    requires Linked(b) && h <= b.height
    ensures var p := Path(b)[h];
            Linked(p) && p.height == h && p.pprev == if h == 0 then null else Path(b)[h - 1]
  {
    PathOfAncestor(b, h);
    if h > 0 {
      PathOfAncestor(b, h - 1);
      PathOfAncestor(Path(b)[h], h - 1);
    }
  }

  /** The block at a height of a path stands on top of the one before. */
  ghost predicate Placed(path: seq<BlockIndex>, k: nat)
    requires k < |path|
  {
    path[k].height == k && path[k].pprev == if k == 0 then null else path[k - 1]
  }

  ghost predicate IsPath(path: seq<BlockIndex>) {
    forall k: nat :: k < |path| ==> Placed(path, k)
  }

  lemma PathIsPath(b: BlockIndex)
    requires Linked(b)
    ensures IsPath(Path(b))
  {
    forall k: nat | k < |Path(b)| ensures Placed(Path(b), k) {
      ParentOnPath(b, k);
    }
  }
}
