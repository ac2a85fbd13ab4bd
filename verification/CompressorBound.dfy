/** Exactly which 64-bit amounts survive compression (src/compressor.cpp:140-183). */
module CompressorBound {
  import opened Compressor
  import Nonlinear

  /** What the compressed form of an amount without a trailing zero is, before it wraps. */
  function Plain(n: nat): int { 9 * n + n % 10 - 9 }

  /** The amounts whose compressed form fits into 64 bits. */
  predicate Fits(n: nat) {
    n % 10 == 0 || Plain(n) < TWO64
  }

  lemma PlainIsCompressed(n: nat)
    requires n % 10 != 0
    ensures Compress(n) == Plain(n)
  {
  }

  lemma TensAreSmall(n: nat)
    requires n % 10 == 0 && n < TWO64
    ensures Compress(n) < TWO64
  {
    if n > 0 {
      ScaleKeeps(n, 0);
      var s := Scale(n, 0);
      Nonlinear.MulBoth(s.m, s.m, 10, Pow10(s.e));
    }
  }

  // ---- Amounts that wrap ----

  /** The compressed form of `n` is cut by `k` times 2^64. */
  predicate WrappedTimes(n: nat, k: nat) {
    n < TWO64 && n % 10 != 0 && k * TWO64 <= Plain(n) < (k + 1) * TWO64
  }

  function Wrapped(n: nat, k: nat): nat
    requires WrappedTimes(n, k)
  {
    Plain(n) - k * TWO64
  }

  /** Decompressing what is left gives the amount, shifted and scaled. */
  lemma Shifted(n: nat, k: nat, e: nat, a: nat, b: nat) returns (c: nat)
    requires WrappedTimes(n, k) && Wrapped(n, k) > 0
    requires k * TWO64 + e == 10 * (9 * a + b) && b < 9 && e < 9
    ensures c == 10 * a + b || c == 10 * a + b + 1
    ensures Decompress(Wrapped(n, k)) == (n - c) * Pow10(e)
  {
    var q, d := n / 10, n % 10;
    var z := 9 * (q - a) + d - 1 - b;
    assert Wrapped(n, k) == 10 * z + e + 1;
    SplitOf(Wrapped(n, k), z, e);
    c := if d - 1 >= b then 10 * a + b else 10 * a + b + 1;
    DigitsShift(q - a, d, b);
  }

  lemma SplitOf(x: nat, z: int, e: nat)
    requires x > 0 && x == 10 * z + e + 1 && e < 9
    ensures z >= 0 && Split(x) == Scaled(z / 9 * 10 + z % 9 + 1, e)
  {
  }

  /** Reading base-9 digits as base-10 digits, after a subtraction in base 9. */
  lemma DigitsShift(q: int, d: int, b: int)
    requires 1 <= d <= 9 && 0 <= b < 9
    ensures var z := 9 * q + d - 1 - b;
      z / 9 * 10 + z % 9 + 1 == 10 * q + d - b - if d - 1 >= b then 0 else 1
  {
    var z := 9 * q + d - 1 - b;
    if d - 1 >= b {
      Nonlinear.DivUnique(z, 9, q, d - 1 - b);
    } else {
      Nonlinear.DivUnique(z, 9, q - 1, d + 8 - b);
    }
  }

  /** An amount shifted by `c` and scaled by `p` is the amount again, modulo 2^64, for one residue
      only: `inv` is the inverse of `p - 1`. */
  lemma Residue(n: int, c: int, p: int, t: int, inv: int, r: int)
    requires (n - c) * p == n + t * TWO64 && inv * (p - 1) == 1 + r * TWO64 && 0 <= n < TWO64
    ensures inv * (c * p) % TWO64 == n
  {
    Nonlinear.MulSub(n, c, p);
    assert c * p == n * (p - 1) - t * TWO64;
    Distribute(inv, n, p - 1, t);
    assert n * (inv * (p - 1)) == n * (1 + r * TWO64);
    assert n * (1 + r * TWO64) == n + r * n * TWO64;
    Nonlinear.DivUnique(inv * (c * p), TWO64, r * n - inv * t, n);
  }

  lemma Distribute(inv: int, n: int, g: int, t: int)
    ensures inv * (n * g - t * TWO64) == n * (inv * g) - inv * t * TWO64
  {
  }

  /** The only amount that a shift by `c` and a scaling by `p` could give back is `only`, and it is
      none that wraps `k` times. */
  predicate Blocked(k: nat, c: nat, p: nat, inv: nat, r: nat, only: nat) {
    inv * (p - 1) == 1 + r * TWO64 && inv * (c * p) % TWO64 == only && !WrappedTimes(only, k)
  }

  lemma NotFixed(n: nat, k: nat, c: nat, p: nat, inv: nat, r: nat, only: nat)
    requires WrappedTimes(n, k) && Blocked(k, c, p, inv, r, only)
    ensures (n - c) * p % TWO64 != n
  {
    if (n - c) * p % TWO64 == n {
      Nonlinear.DivMod((n - c) * p, TWO64);
      Residue(n, c, p, (n - c) * p / TWO64, inv, r);
    }
  }

  lemma Lost(n: nat, k: nat, e: nat, a: nat, b: nat, p: nat, inv: nat, r: nat, low: nat, high: nat)
    requires WrappedTimes(n, k) && k * TWO64 + e == 10 * (9 * a + b) && b < 9 && e < 9 && p == Pow10(e)
    requires Blocked(k, 10 * a + b, p, inv, r, low) && Blocked(k, 10 * a + b + 1, p, inv, r, high)
    ensures Wrap(Decompress(Wrapped(n, k))) != n
  {
    if Wrapped(n, k) > 0 {
      var c := Shifted(n, k, e, a, b);
      NotFixed(n, k, c, p, inv, r, if c == 10 * a + b then low else high);
    }
  }

  lemma Product(x: nat, c: nat, p: nat, u: nat, only: nat)
    requires x * (c * p) == u * TWO64 + only && only < TWO64
    ensures x * (c * p) % TWO64 == only
  {
    Nonlinear.DivUnique(x * (c * p), TWO64, u, only);
  }

  // ---- The eight ways to wrap; each leaves two shifts, and for each only one residue ----

  lemma WrapsOnce(n: nat)
    requires WrappedTimes(n, 1)
    ensures Wrap(Decompress(Wrapped(n, 1))) != n
  {
    Product(13458245626333751279, 2049638230412172402, 10000, 14953606251481945867176, 15288550632769423584);
    Product(13458245626333751279, 2049638230412172403, 10000, 14953606251481945874472, 10300052185393623248);
    Tens();
    Lost(n, 1, 4, 204963823041217240, 2, 10000, 13458245626333751279, 7295, 15288550632769423584, 10300052185393623248);
  }

  lemma WrapsTwice(n: nat)
    requires WrappedTimes(n, 2)
    ensures Wrap(Decompress(Wrapped(n, 2))) != n
  {
    Product(300153063250403071, 4099276460824344804, 100000000, 6670068072231179356278725, 14480868974329830400);
    Product(300153063250403071, 4099276460824344805, 100000000, 6670068072231179357905858, 14781022037580233472);
    Tens();
    Lost(n, 2, 8, 409927646082434480, 4, 100000000, 300153063250403071, 1627133, 14480868974329830400,
      14781022037580233472);
  }

  lemma WrapsThreeTimes(n: nat)
    requires WrappedTimes(n, 3)
    ensures Wrap(Decompress(Wrapped(n, 3))) != n
  {
    Product(12670490878911611211, 6148914691236517205, 100, 422349695963720373677, 1925417731599313468);
    Product(12670490878911611211, 6148914691236517206, 100, 422349695963720373745, 14595908610510924680);
    Tens();
    Lost(n, 3, 2, 614891469123651720, 5, 100, 12670490878911611211, 68, 1925417731599313468, 14595908610510924680);
  }

  lemma WrapsFourTimes(n: nat)
    requires WrappedTimes(n, 4)
    ensures Wrap(Decompress(Wrapped(n, 4))) != n
  {
    Product(1672254362768354751, 8198552921648689607, 1000000, 743224161230379889323260, 14161661572577611840);
    Product(1672254362768354751, 8198552921648689608, 1000000, 743224161230379889413913, 15833915935345966592);
    Tens();
    Lost(n, 4, 6, 819855292164868960, 7, 1000000, 1672254362768354751, 90653, 14161661572577611840,
      15833915935345966592);
  }

  lemma WrapsFiveTimes(n: nat)
    requires WrappedTimes(n, 5)
    ensures Wrap(Decompress(Wrapped(n, 5))) != n
  {
    if Wrapped(n, 5) > 0 {
      var c := Shifted(n, 5, 0, 1024819115206086200, 8);
      assert (n - c) * Pow10(0) == n - c;
    }
  }

  lemma WrapsSixTimes(n: nat)
    requires WrappedTimes(n, 6)
    ensures Wrap(Decompress(Wrapped(n, 6))) != n
  {
    Product(13458245626333751279, 12297829382473034411, 10000, 89721637508891675195765, 4486081875444583760);
    Product(13458245626333751279, 12297829382473034412, 10000, 89721637508891675203060, 17944327501778335040);
    Tens();
    Lost(n, 6, 4, 1229782938247303441, 1, 10000, 13458245626333751279, 7295, 4486081875444583760, 17944327501778335040);
  }

  lemma WrapsSevenTimes(n: nat)
    requires WrappedTimes(n, 7)
    ensures Wrap(Decompress(Wrapped(n, 7))) != n
  {
    Product(300153063250403071, 14347467612885206813, 100000000, 23345238252809127745348407, 4266028162630124288);
    Product(300153063250403071, 14347467612885206814, 100000000, 23345238252809127746975540, 4566181225880527360);
    Tens();
    Lost(n, 7, 8, 1434746761288520681, 3, 100000000, 300153063250403071, 1627133, 4266028162630124288,
      4566181225880527360);
  }

  lemma WrapsEightTimes(n: nat)
    requires WrappedTimes(n, 8)
    ensures Wrap(Decompress(Wrapped(n, 8))) != n
  {
    Product(12670490878911611211, 16397105843297379214, 100, 1126265855903254329851, 7432526512302726184);
    Product(12670490878911611211, 16397105843297379215, 100, 1126265855903254329920, 1656273317504785780);
    Tens();
    Lost(n, 8, 2, 1639710584329737921, 4, 100, 12670490878911611211, 68, 7432526512302726184, 1656273317504785780);
  }

  lemma Tens()
    ensures Pow10(2) == 100 && Pow10(4) == 10000 && Pow10(6) == 1000000 && Pow10(8) == 100000000
  {
  }

  // ---- The boundary ----

  lemma FittingComesBack(n: nat)
    requires n < TWO64 && Fits(n)
    ensures Compress(n) < TWO64 && Wrap(Decompress(Wrap(Compress(n)))) == n
  {
    if n % 10 == 0 {
      TensAreSmall(n);
    } else {
      PlainIsCompressed(n);
    }
    DecompressCompress(n);
    SmallIsKept(n);
    SmallIsKept(Compress(n));
  }

  lemma SmallIsKept(x: nat)
    requires x < TWO64
    ensures Wrap(x) == x
  {
  }

  lemma WrappedIsLost(n: nat, k: nat)
    requires WrappedTimes(n, k) && k > 0
    ensures Wrap(Decompress(Wrapped(n, k))) != n
  {
    match k
    case 1 => WrapsOnce(n);
    case 2 => WrapsTwice(n);
    case 3 => WrapsThreeTimes(n);
    case 4 => WrapsFourTimes(n);
    case 5 => WrapsFiveTimes(n);
    case 6 => WrapsSixTimes(n);
    case 7 => WrapsSevenTimes(n);
    case 8 => WrapsEightTimes(n);
    case _ =>
  }

  lemma WrapOf(n: nat, k: nat)
    requires WrappedTimes(n, k)
    ensures Wrap(Compress(n)) == Wrapped(n, k)
  {
    PlainIsCompressed(n);
    Nonlinear.DivUnique(Plain(n), TWO64, k, Wrapped(n, k));
  }

  /** A 64-bit amount survives the 64-bit code if and only if its last digit is zero or its
      compressed form, 9 * n + n % 10 - 9, does not wrap around. */
  lemma RoundTrip64(n: nat)
    requires n < TWO64
    ensures Wrap(Decompress(Wrap(Compress(n)))) == n <==> n % 10 == 0 || 9 * n + n % 10 - 9 < TWO64
  {
    if Fits(n) {
      FittingComesBack(n);
    } else {
      var k := Plain(n) / TWO64;
      Nonlinear.DivMod(Plain(n), TWO64);
      assert k > 0;
      WrapOf(n, k);
      WrappedIsLost(n, k);
    }
  }
}
