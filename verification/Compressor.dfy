/** Amount compression (src/compressor.cpp:132-183). */
module Compressor {
  import Nonlinear

  const TWO64: nat := 0x1_0000_0000_0000_0000

  function Pow10(e: nat): (r: nat)
    ensures r >= 1
  {
    if e == 0 then 1 else 10 * Pow10(e - 1)
  }

  datatype Scaled = Scaled(m: nat, e: nat)

  /** Divided by ten as often as possible, nine times at most, `e` times having gone before. */
  function Scale(n: nat, e: nat): (r: Scaled)
    requires e <= 9
    ensures e <= r.e <= 9
    decreases 9 - e
  {
    if n % 10 == 0 && e < 9 then Scale(n / 10, e + 1) else Scaled(n, e)
  }

  /** No trailing zero, unless nine were taken off. */
  predicate Reduced(s: Scaled) {
    s.m > 0 && s.e <= 9 && (s.e < 9 ==> s.m % 10 != 0)
  }

  function Join(s: Scaled): nat
    requires Reduced(s)
  {
    if s.e < 9 then 1 + (s.m / 10 * 9 + s.m % 10 - 1) * 10 + s.e
    else 1 + (s.m - 1) * 10 + 9
  }

  function Split(x: nat): Scaled
    requires x > 0
  {
    var e := (x - 1) % 10;
    var z := (x - 1) / 10;
    Scaled(if e < 9 then z / 9 * 10 + z % 9 + 1 else z + 1, e)
  }

  /** src/compressor.cpp:140-157 */
  function Compress(n: nat): nat {
    if n == 0 then 0
    else
      ScaleKeeps(n, 0);
      Join(Scale(n, 0))
  }

  /** src/compressor.cpp:159-183 */
  function Decompress(x: nat): nat {
    if x == 0 then 0 else Split(x).m * Pow10(Split(x).e)
  }

  lemma {:induction false} ScaleKeeps(n: nat, e: nat)
    requires e <= 9 && n > 0
    ensures Reduced(Scale(n, e)) && n == Scale(n, e).m * Pow10(Scale(n, e).e - e)
    decreases 9 - e
  {
    if n % 10 == 0 && e < 9 {
      ScaleKeeps(n / 10, e + 1);
      var s := Scale(n, e);
      TimesTen(s.m, Pow10(s.e - e - 1));
    }
  }

  lemma {:induction false} ScaleIs(m: nat, e: nat, k: nat)
    requires k + e <= 9 && Reduced(Scaled(m, k + e))
    ensures Scale(m * Pow10(e), k) == Scaled(m, k + e)
    decreases e
  {
    if e > 0 {
      TimesTen(m, Pow10(e - 1));
      ScaleIs(m, e - 1, k + 1);
    }
  }

  lemma TimesTen(m: nat, p: nat)
    ensures m * (10 * p) == 10 * (m * p) && m * (10 * p) % 10 == 0 && m * (10 * p) / 10 == m * p
  {
    Nonlinear.MulAssoc(m, 10, p);
    Nonlinear.MulSwap(m, 10, p);
    var q := m * p;
    assert m * (10 * p) == 10 * q;
  }

  lemma SplitJoin(s: Scaled)
    requires Reduced(s)
    ensures Join(s) > 0 && Split(Join(s)) == s
  {
  }

  lemma JoinSplit(x: nat)
    requires x > 0
    ensures Reduced(Split(x)) && Join(Split(x)) == x
  {
  }

  /** The two are inverse on all natural numbers, hence bijections. */
  lemma DecompressCompress(n: nat)
    ensures Decompress(Compress(n)) == n
  {
    if n > 0 {
      ScaleKeeps(n, 0);
      SplitJoin(Scale(n, 0));
    }
  }

  lemma CompressDecompress(x: nat)
    ensures Compress(Decompress(x)) == x
  {
    if x > 0 {
      JoinSplit(x);
      var s := Split(x);
      ScaleIs(s.m, s.e, 0);
      Nonlinear.MulAtLeast(s.m, Pow10(s.e));
    }
  }

  // ---- 64-bit arithmetic ----

  function Wrap(x: nat): nat { x % TWO64 }

  /** The compressed amount is at most nine times the amount. */
  lemma CompressBound(n: nat)
    ensures Compress(n) <= 9 * n
  {
    if n > 0 {
      ScaleKeeps(n, 0);
      var s := Scale(n, 0);
      if s.e > 0 {
        Nonlinear.MulBoth(s.m, s.m, 10, Pow10(s.e));
      }
    }
  }

  /** Two units past (2^64 - 1) / 9 the compressed amount wraps around, and another amount comes
      back. */
  lemma BeyondTheBound()
    ensures (TWO64 - 1) / 9 + 2 == 2049638230412172403
    ensures Wrap(Compress(2049638230412172403)) == 5 && Wrap(Decompress(5)) == 10000
  {
  }

  /** The loop of CompressAmount on 64-bit numbers; only the last expression can wrap. */
  method CompressAmount(amount: nat) returns (r: nat)
    requires amount < TWO64
    ensures r == Wrap(Compress(amount))
  {
    if amount == 0 {
      return 0;
    }
    var n, e := amount, 0;
    ScaleKeeps(amount, 0);
    while n % 10 == 0 && e < 9
      invariant 0 <= e <= 9 && 0 < n < TWO64 && Scale(n, e) == Scale(amount, 0)
    {
      n := n / 10;
      e := e + 1;
    }
    r := Put(n, e);
  }

  /** src/compressor.cpp:149-156 */
  method Put(m: nat, e: nat) returns (r: nat)
    requires Reduced(Scaled(m, e)) && m < TWO64
    ensures r == Wrap(Join(Scaled(m, e)))
  {
    if e < 9 {
      var d := m % 10;
      assert 1 <= d <= 9;
      var n := m / 10;
      r := Wrap(Wrap(1 + Wrap(Wrap(Wrap(n * 9) + d - 1) * 10)) + e);
      WrapsOnce(n, d, e);
    } else {
      r := Wrap(Wrap(1 + Wrap((m - 1) * 10)) + 9);
      WrapsToo(m);
    }
  }

  lemma WrapsToo(m: nat)
    requires 0 < m < TWO64
    ensures Wrap(Wrap(1 + Wrap((m - 1) * 10)) + 9) == Wrap(1 + (m - 1) * 10 + 9)
  {
  }

  lemma WrapsOnce(n: nat, d: nat, e: nat)
    requires 1 <= d <= 9 && n < TWO64
    ensures Wrap(Wrap(1 + Wrap(Wrap(Wrap(n * 9) + d - 1) * 10)) + e) == Wrap(1 + (n * 9 + d - 1) * 10 + e)
  {
    WrapPlus(n * 9, d - 1);
    var v := n * 9 + d - 1;
    WrapTimesTen(v);
    WrapPlus(v * 10, 1);
    WrapPlus(1 + v * 10, e);
  }

  lemma WrapPlus(v: nat, w: nat)
    ensures Wrap(Wrap(v) + w) == Wrap(v + w)
  {
  }

  /** The loop of DecompressAmount, every product wrapped. */
  method DecompressAmount(x: nat) returns (r: nat)
    requires x < TWO64
    ensures r == Wrap(Decompress(x))
  {
    if x == 0 {
      return 0;
    }
    var n := Mantissa(x);
    r := TimesPow10(n, (x - 1) % 10);
  }

  /** src/compressor.cpp:178-181 */
  method TimesPow10(n: nat, times: nat) returns (r: nat)
    requires n < TWO64
    ensures r == Wrap(n * Pow10(times))
  {
    r := n;
    var e := times;
    while e > 0
      invariant 0 <= e <= times && r == Wrap(n * Pow10(times - e))
    {
      WrapTen(n, times - e);
      r := Wrap(r * 10);
      e := e - 1;
    }
  }

  /** src/compressor.cpp:165-177 */
  method Mantissa(x: nat) returns (n: nat)
    requires 0 < x < TWO64
    ensures n == Split(x).m < TWO64
  {
    var e := (x - 1) % 10;
    var z := (x - 1) / 10;
    if e < 9 {
      var d := z % 9 + 1;
      z := z / 9;
      n := z * 10 + d;
    } else {
      n := z + 1;
    }
  }

  lemma WrapTen(m: nat, k: nat)
    ensures Wrap(Wrap(m * Pow10(k)) * 10) == Wrap(m * Pow10(k + 1))
  {
    TimesTen(m, Pow10(k));
    WrapTimesTen(m * Pow10(k));
  }

  lemma WrapTimesTen(v: nat)
    ensures Wrap(Wrap(v) * 10) == Wrap(10 * v)
  {
  }
}
