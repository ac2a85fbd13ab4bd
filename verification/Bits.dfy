/** Bits packed into numbers, least significant first. */
module Bits {

  function Pow2(n: nat): (r: nat)
    ensures r >= 1
  {
    if n == 0 then 1 else 2 * Pow2(n - 1)
  }

  lemma {:induction false} Pow2Monotone(a: nat, b: nat)
    requires a <= b
    ensures Pow2(a) <= Pow2(b)
  {
    if a < b { Pow2Monotone(a, b - 1); }
  }

  function Pack(bits: seq<bool>): nat {
    if bits == [] then 0 else (if bits[0] then 1 else 0) + 2 * Pack(bits[1..])
  }

  /** The test `(n & (1 << p)) != 0`. */
  predicate TestBit(n: nat, p: nat) {
    if p == 0 then n % 2 == 1 else TestBit(n / 2, p - 1)
  }

  lemma {:induction false} PackBound(bits: seq<bool>)
    ensures Pack(bits) < Pow2(|bits|)
  {
    if bits != [] { PackBound(bits[1..]); }
  }

  lemma {:induction false} PackBits(bits: seq<bool>, p: nat)
    ensures TestBit(Pack(bits), p) <==> p < |bits| && bits[p]
  {
    if bits == [] {
      ZeroBits(p);
    } else if p > 0 {
      PackBits(bits[1..], p - 1);
      assert Pack(bits) / 2 == Pack(bits[1..]);
    }
  }

  lemma {:induction false} ZeroBits(p: nat)
    ensures !TestBit(0, p)
  {
    if p > 0 { ZeroBits(p - 1); }
  }

  /** Setting one more bit: `n |= b << k` when no bit from `k` on is set yet. */
  lemma {:induction false} PackAppend(bits: seq<bool>, b: bool)
    ensures Pack(bits + [b]) == Pack(bits) + if b then Pow2(|bits|) else 0
  {
    if bits != [] {
      assert (bits + [b])[1..] == bits[1..] + [b];
      PackAppend(bits[1..], b);
    }
  }

  lemma {:induction false} PackZero(bits: seq<bool>)
    ensures Pack(bits) == 0 <==> forall i :: 0 <= i < |bits| ==> !bits[i]
  {
    if bits != [] {
      PackZero(bits[1..]);
      if Pack(bits) == 0 {
        forall i | 0 <= i < |bits| ensures !bits[i] {
          if i > 0 { assert bits[i] == bits[1..][i - 1]; }
        }
      }
      if forall i :: 0 <= i < |bits| ==> !bits[i] {
        forall i | 0 <= i < |bits[1..]| ensures !bits[1..][i] { assert bits[1..][i] == bits[i + 1]; }
      }
    }
  }
}
