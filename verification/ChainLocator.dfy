/** Where exactly the entries of a locator stand (src/chain.cpp:29-55). */
module ChainLocator {
  import opened Basics
  import opened Chain
  import opened ChainIndex
  import Bits

  /** How far below the first entry entry `k` stands: the first ten hops go down by one, then each
      doubles the distance gone since. */
  function Depth(k: nat): nat {
    if k <= 10 then k else 9 + Bits.Pow2(k - 10)
  }

  function StepAt(k: nat): nat {
    if k <= 10 then 1 else Bits.Pow2(k - 10)
  }

  lemma DepthStep(k: nat)
    ensures StepAt(k) >= 1 && Depth(k + 1) == Depth(k) + StepAt(k) && NextStep(StepAt(k), k) == StepAt(k + 1)
  {
  }

  lemma {:induction false} DepthGrows(k: nat, m: nat)
    requires k <= m
    ensures Depth(k) <= Depth(m)
  {
    if k < m {
      DepthGrows(k, m - 1);
      DepthStep(m - 1);
    }
  }

  lemma {:induction false} LocatorAt(h: nat, size: nat, i: nat)
    requires i < |LocatorHeights(h, StepAt(size), size)|
    ensures var hs, down := LocatorHeights(h, StepAt(size), size), Depth(size + i) - Depth(size);
      && hs[i] == Max(0, h - down)
      && (i == |hs| - 1 <==> down >= h)
    decreases h
  {
    if h > 0 {
      DepthStep(size);
      if i > 0 {
        DepthGrows(size + 1, size + i);
        var next := NextHeight(h, StepAt(size));
        assert LocatorHeights(h, StepAt(size), size) == [h] + LocatorHeights(next, StepAt(size + 1), size + 1);
        LocatorAt(next, size + 1, i - 1);
      }
    } else {
      DepthGrows(size, size + i);
    }
  }

  /** Entry `k` of the locator of a block is its ancestor `Depth(k)` below, or the genesis block if
      that is not above it, which is the last entry. */
  lemma LocatorExactly(b: BlockIndex, k: nat)
    requires Linked(b) && k < |Locator(b)|
    ensures Locator(b)[k] == Path(b)[Max(0, b.height - Depth(k))].hash
    ensures k == |Locator(b)| - 1 <==> Depth(k) >= b.height
  {
    LocatorProps(b);
    LocatorAt(b.height, 0, k);
  }
}
