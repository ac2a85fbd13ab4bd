/** The active chain, indexed by height (src/chain.cpp, src/chain.h:503-536). */
module Chain {
  import opened Basics
  import opened ChainIndex
  import Bits

  /** The heights of a locator from `h` down, `size` entries having gone before
      (src/chain.cpp:35-53). */
  function LocatorHeights(h: nat, step: nat, size: nat): (r: seq<nat>)
    requires step >= 1
    ensures |r| >= 1 && r[0] == h && r[|r| - 1] == 0
    decreases h
  {
    if h == 0 then [0]
    else [h] + LocatorHeights(NextHeight(h, step), NextStep(step, size), size + 1)
  }

  lemma {:induction false} LocatorDecreases(h: nat, step: nat, size: nat, i: nat, j: nat)
    requires step >= 1 && i < j < |LocatorHeights(h, step, size)|
    ensures LocatorHeights(h, step, size)[i] > LocatorHeights(h, step, size)[j]
    decreases h
  {
    var next, step2 := NextHeight(h, step), NextStep(step, size);
    var rest := LocatorHeights(next, step2, size + 1);
    if i > 0 {
      LocatorDecreases(next, step2, size + 1, i - 1, j - 1);
    } else if j > 1 {
      LocatorDecreases(next, step2, size + 1, 0, j - 1);
    }
  }

  /** Once ten entries are there, the steps double. */
  lemma {:induction false} LocatorDoubles(h: nat, k: nat, size: nat)
    requires size >= 10
    ensures var n := |LocatorHeights(h, Bits.Pow2(k), size)|; n >= 2 ==> Bits.Pow2(k + n - 2) - Bits.Pow2(k) < h
    decreases h
  {
    if h > 0 {
      var next := NextHeight(h, Bits.Pow2(k));
      LocatorDoubles(next, k + 1, size + 1);
      var n := |LocatorHeights(next, Bits.Pow2(k + 1), size + 1)|;
      if n >= 2 {
        assert k + 1 + n - 2 == k + (n + 1) - 2;
      }
    }
  }

  lemma {:induction false} LocatorSingles(h: nat, size: nat)
    requires size <= 10
    ensures var n := |LocatorHeights(h, 1, size)|;
            n + size >= 12 ==> Bits.Pow2(n + size - 12) - 1 + (10 - size) < h
    decreases 10 - size
  {
    if size == 10 {
      LocatorDoubles(h, 0, 10);
    } else if h > 0 {
      LocatorSingles(h - 1, size + 1);
    }
  }

  function CeilLog2(n: nat): nat {
    if n <= 1 then 0 else 1 + CeilLog2((n + 1) / 2)
  }

  lemma {:induction false} CeilLog2Bounds(n: nat)
    ensures n <= Bits.Pow2(CeilLog2(n))
  {
    if n > 1 {
      CeilLog2Bounds((n + 1) / 2);
    }
  }

  /** A locator has at most 12 + ceil(log2(h + 1)) entries. */
  lemma LocatorIsShort(h: nat)
    ensures |LocatorHeights(h, 1, 0)| <= 12 + CeilLog2(h + 1)
  {
    var n := |LocatorHeights(h, 1, 0)|;
    LocatorSingles(h, 0);
    CeilLog2Bounds(h + 1);
    if n >= 12 && n - 12 > CeilLog2(h + 1) {
      Bits.Pow2Monotone(CeilLog2(h + 1), n - 12);
    }
  }

  /** The entries follow a path, in every position the one at that height. */
  ghost predicate Follows(chain: seq<BlockIndex?>) {
    chain == [] ||
    (chain[|chain| - 1] != null && Linked(chain[|chain| - 1]) && chain == Path(chain[|chain| - 1]))
  }

  class CChain {
    var chain: seq<BlockIndex?>

    ghost predicate Valid()
      reads this
    {
      Follows(chain)
    }

    constructor ()
      ensures Valid() && chain == []
    {
      chain := [];
    }

    function At(height: int): (r: BlockIndex?)
      reads this
      ensures r != null ==> 0 <= height < |chain| && chain[height] == r
    {
      if height < 0 || height >= |chain| then null else chain[height]
    }

    predicate Contains(b: BlockIndex)
      reads this
    {
      At(b.height) == b
    }

    function Height(): int
      reads this
    {
      |chain| - 1
    }

    /** src/chain.cpp:16-27 */
    method SetTip(tip: BlockIndex?)
      requires Valid() && (tip != null ==> Linked(tip))
      modifies this
      ensures Valid()
      ensures tip == null ==> chain == []
      ensures tip != null ==> chain == Path(tip)
    {
      if tip == null {
        chain := [];
        return;
      }
      ghost var was := chain;
      ghost var path := Path(tip);
      chain := Resized(chain, tip.height + 1);
      ghost var start := chain;
      var p: BlockIndex? := tip;
      ghost var h := tip.height + 1;
      while p != null && chain[p.height] != p
        invariant |chain| == |path| && 0 <= h <= |path|
        invariant p == if h == 0 then null else path[h - 1]
        invariant h > 0 ==> path[h - 1].height == h - 1
        invariant forall i :: 0 <= i < h ==> chain[i] == start[i]
        invariant forall i :: h <= i < |path| ==> chain[i] == path[i]
        decreases h
      {
        ParentOnPath(tip, h - 1);
        if h > 1 {
          ParentOnPath(tip, h - 2);
        }
        chain := chain[p.height := p];
        p := p.pprev;
        h := h - 1;
      }
      if h > 0 {
        AgreeingEntry(was, tip, h - 1);
      }
      assert chain == path;
    }

    /** The highest block common to this chain and the ancestry of `b` (src/chain.cpp:57-64); below
        it the two agree. */
    method FindFork(b: BlockIndex) returns (r: BlockIndex?)
      requires Valid() && Linked(b)
      ensures r == null ==> forall h :: 0 <= h <= b.height ==> !OnChain(b, h)
      ensures r != null ==> r.height <= b.height && r == Path(b)[r.height] && OnChain(b, r.height)
      ensures r != null ==> forall h :: r.height < h <= b.height ==> !OnChain(b, h)
      ensures r != null ==> forall h :: 0 <= h <= r.height ==> OnChain(b, h)
    {
      ghost var h;
      r, h := ForkStart(b);
      PathIsPath(b);
      r, h := WalkDown(r, Path(b), h);
      if h > 0 {
        ForkFound(b, h - 1);
      }
    }

    /** The loop down the parents until a block of the chain. */
    method WalkDown(start: BlockIndex?, ghost path: seq<BlockIndex>, ghost h0: nat)
      returns (r: BlockIndex?, ghost h: nat)
      requires IsPath(path) && h0 <= |path| && start == if h0 == 0 then null else path[h0 - 1]
      ensures h <= h0 && r == if h == 0 then null else path[h - 1]
      ensures forall k :: h <= k < h0 ==> !Holds(path, k)
      ensures h > 0 ==> Holds(path, h - 1)
    {
      r, h := start, h0;
      while r != null && !Contains(r)
        invariant h <= h0 && r == if h == 0 then null else path[h - 1]
        invariant forall k :: h <= k < h0 ==> !Holds(path, k)
        decreases h
      {
        assert Placed(path, h - 1);
        r := r.pprev;
        h := h - 1;
      }
      assert h > 0 ==> Placed(path, h - 1);
    }

    /** Whether this chain holds the block of a path at a height. */
    ghost predicate Holds(path: seq<BlockIndex>, h: int)
      requires 0 <= h < |path|
      reads this
    {
      h < |chain| && chain[h] == path[h]
    }

    lemma ForkFound(b: BlockIndex, h: nat)
      requires Valid() && Linked(b) && h <= b.height && OnChain(b, h)
      ensures Path(b)[h].height == h
      ensures forall k :: 0 <= k <= h ==> OnChain(b, k)
    {
      ParentOnPath(b, h);
      SamePast(chain[|chain| - 1], b, h);
    }

    /** Heights above the chain's own are passed over at once. */
    method ForkStart(b: BlockIndex) returns (r: BlockIndex?, ghost h: nat)
      requires Linked(b)
      ensures h <= b.height + 1 && r == if h == 0 then null else Path(b)[h - 1]
      ensures forall k :: h <= k <= b.height ==> !OnChain(b, k)
    {
      r := b;
      if b.height > Height() {
        r := b.GetAncestor(Height());
      }
      h := Min(b.height, Height()) + 1;
    }

    /** Whether this chain holds the ancestor of `b` at a height. */
    ghost predicate OnChain(b: BlockIndex, h: int)
      requires Linked(b) && 0 <= h <= b.height
      reads this
    {
      Holds(Path(b), h)
    }

    /** src/chain.cpp:29-55 */
    method GetLocator(b: BlockIndex?) returns (have: seq<nat>)
      requires Valid() && (b != null ==> Linked(b))
      ensures b != null ==> have == Locator(b)
      ensures b == null && chain != [] ==> have == Locator(chain[|chain| - 1])
      ensures b == null && chain == [] ==> have == []
    {
      have := [];
      var p := b;
      if p == null {
        p := At(Height());
      }
      if p == null {
        return;
      }
      have := LocatorOf(p);
    }

    method LocatorOf(b: BlockIndex) returns (have: seq<nat>)
      requires Valid() && Linked(b)
      ensures have == Locator(b)
    {
      assert [] + Locator(b) == Locator(b);
      have := LocatorWalk(b, 1, [], Locator(b));
    }

    /** The loop, from `have` and `step` on. */
    method LocatorWalk(b: BlockIndex, first: nat, before: seq<nat>, ghost goal: seq<nat>) returns (have: seq<nat>)
      requires Valid() && Linked(b) && first >= 1
      requires before + LocatorFrom(b, b.height, first, |before|) == goal
      ensures have == goal
    {
      have := before;
      var step := first;
      var p: BlockIndex := b;
      while true
        invariant p.height <= b.height && p == Path(b)[p.height] && step >= 1
        invariant have + LocatorFrom(b, p.height, step, |have|) == goal
        decreases p.height
      {
        LocatorUnfolds(b, p.height, step, have);
        have := have + [p.hash];
        if p.height == 0 {
          break;
        }
        p, step := StepDown(b, p, step, |have|);
      }
    }

    /** The next block and the next step, after `size` entries. */
    method StepDown(ghost b: BlockIndex, p: BlockIndex, step: nat, size: nat) returns (q: BlockIndex, next: nat)
      requires Valid() && Linked(b) && p.height <= b.height && p == Path(b)[p.height] && size > 0 && step >= 1
      ensures q.height == NextHeight(p.height, step) <= p.height && q == Path(b)[q.height]
      ensures next == NextStep(step, size - 1) && next >= 1
    {
      q := StepBack(b, p, Max(p.height - step, 0));
      next := if size > 10 then step * 2 else step;
    }

    /** The ancestor at a height, from the chain where the block is on it (src/chain.cpp:44-50). */
    method StepBack(ghost b: BlockIndex, p: BlockIndex, height: nat) returns (r: BlockIndex)
      requires Valid() && Linked(b) && p.height <= b.height && p == Path(b)[p.height] && height <= p.height
      ensures r == Path(b)[height] && Linked(r) && r.height == height
    {
      PathOfAncestor(b, p.height);
      PathOfAncestor(b, height);
      var q: BlockIndex?;
      if Contains(p) {
        SamePast(chain[|chain| - 1], b, p.height);
        q := At(height);
      } else {
        q := p.GetAncestor(height);
        assert Path(p)[height] == Path(b)[..p.height + 1][height];
      }
      r := q;
    }
  }

  /** vector::resize: cut off, or filled up with null. */
  function Resized(s: seq<BlockIndex?>, n: nat): (r: seq<BlockIndex?>)
    ensures |r| == n && forall i :: 0 <= i < n ==> r[i] == if i < |s| then s[i] else null
  {
    if n <= |s| then s[..n] else s + seq(n - |s|, _ => null)
  }

  /** Once the chain agrees with a path at one height, it agrees below. */
  lemma AgreeingEntry(was: seq<BlockIndex?>, tip: BlockIndex, h: nat)
    requires Follows(was) && Linked(tip) && h <= tip.height
    requires Resized(was, tip.height + 1)[h] == Path(tip)[h]
    ensures forall i :: 0 <= i <= h ==> Resized(was, tip.height + 1)[i] == Path(tip)[i]
  {
    SamePast(was[|was| - 1], tip, h);
  }

  /** Paths that meet at a height agree below it. */
  lemma SamePast(a: BlockIndex, b: BlockIndex, h: nat)
    requires Linked(a) && Linked(b) && h <= a.height && h <= b.height && Path(a)[h] == Path(b)[h]
    ensures forall i :: 0 <= i <= h ==> Path(a)[i] == Path(b)[i]
  {
    PathOfAncestor(a, h);
    PathOfAncestor(b, h);
    forall i | 0 <= i <= h ensures Path(a)[i] == Path(b)[i] {
      assert Path(a)[..h + 1][i] == Path(b)[..h + 1][i];
    }
  }

  /** The next height of a locator and the next step. */
  function NextHeight(h: nat, step: nat): nat { if h < step then 0 else h - step }
  function NextStep(step: nat, size: nat): nat { if size + 1 > 10 then 2 * step else step }

  /** The hashes of a locator from height `h` of the path to `b`. */
  ghost function LocatorFrom(b: BlockIndex, h: nat, step: nat, size: nat): seq<nat>
    requires Linked(b) && h <= b.height && step >= 1
    decreases h
  {
    [Path(b)[h].hash] + if h == 0 then [] else LocatorFrom(b, NextHeight(h, step), NextStep(step, size), size + 1)
  }

  lemma LocatorUnfolds(b: BlockIndex, h: nat, step: nat, have: seq<nat>)
    requires Linked(b) && h <= b.height && step >= 1
    ensures have + LocatorFrom(b, h, step, |have|) == (have + [Path(b)[h].hash]) +
            if h == 0 then [] else LocatorFrom(b, NextHeight(h, step), NextStep(step, |have|), |have| + 1)
  {
  }

  /** They are the hashes at the locator's heights. */
  lemma {:induction false} LocatorFromAt(b: BlockIndex, h: nat, step: nat, size: nat, i: nat)
    requires Linked(b) && h <= b.height && step >= 1
    requires i < |LocatorHeights(h, step, size)|
    ensures |LocatorFrom(b, h, step, size)| == |LocatorHeights(h, step, size)|
    ensures LocatorHeights(h, step, size)[i] <= h
    ensures LocatorFrom(b, h, step, size)[i] == Path(b)[LocatorHeights(h, step, size)[i]].hash
    decreases h
  {
    if h > 0 {
      LocatorFromAt(b, NextHeight(h, step), NextStep(step, size), size + 1, if i > 0 then i - 1 else 0);
    }
  }

  ghost function Locator(b: BlockIndex): seq<nat>
    requires Linked(b)
  {
    LocatorFrom(b, b.height, 1, 0)
  }

  /** A locator lists ancestors at strictly decreasing heights, from the block itself down to the
      genesis block, and is short. */
  lemma LocatorProps(b: BlockIndex)
    requires Linked(b)
    ensures var hs := LocatorHeights(b.height, 1, 0);
            |Locator(b)| == |hs| <= 12 + CeilLog2(b.height + 1) &&
            hs[0] == b.height && hs[|hs| - 1] == 0 &&
            (forall i, j :: 0 <= i < j < |hs| ==> hs[i] > hs[j]) &&
            forall i :: 0 <= i < |hs| ==> hs[i] <= b.height && Locator(b)[i] == Path(b)[hs[i]].hash
  {
    var hs := LocatorHeights(b.height, 1, 0);
    LocatorIsShort(b.height);
    LocatorFromAt(b, b.height, 1, 0, 0);
    forall i, j | 0 <= i < j < |hs| ensures hs[i] > hs[j] {
      LocatorDecreases(b.height, 1, 0, i, j);
    }
    forall i | 0 <= i < |hs| ensures hs[i] <= b.height && Locator(b)[i] == Path(b)[hs[i]].hash {
      LocatorFromAt(b, b.height, 1, 0, i);
    }
  }
}
