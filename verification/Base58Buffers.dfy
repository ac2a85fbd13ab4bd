/** The buffer sizes of the Base58 conversions (src/base58.cpp:37, src/base58.cpp:95) hold every
    number they have to hold. */
module Base58Buffers {
  import opened Positional

  /** log(256) / log(58), rounded up: the base-58 digits allotted to `n` bytes. */
  function EncodeSize(n: nat): nat { n * 138 / 100 + 1 }

  /** log(58) / log(256), rounded up: the bytes allotted to `n` base-58 digits. */
  function DecodeSize(n: nat): nat { n * 733 / 1000 + 1 }

  lemma Close256()
    ensures Pow(256, 8) <= Pow(58, 11)
  {
  }

  lemma Square(base: nat, n: nat, v: nat)
    requires Pow(base, n) == v
    ensures Pow(base, 2 * n) == v * v
  {
    PowAdd(base, n, n);
  }

  lemma Powers58()
    ensures Pow(58, 7) == 2207984167552
    ensures Pow(58, 64) ==
      72342179355466901471258927612150153907721848234316445933056526044582001260898145151856420451025374266490194231296
  {
    assert Pow(58, 8) == 128063081718016;
    Square(58, 8, 128063081718016);
    Square(58, 16, 16400152899115243850138976256);
    Square(58, 32, 268965015114358137726910587140455987105619365599731777536);
  }

  lemma Powers256()
    ensures Pow(256, 4) == 4294967296 && Pow(256, 16) == 340282366920938463463374607431768211456
    ensures Pow(256, 32) == 115792089237316195423570985008687907853269984665640564039457584007913129639936
  {
    Square(256, 4, 4294967296);
    Square(256, 8, 18446744073709551616);
    Square(256, 16, 340282366920938463463374607431768211456);
  }

  lemma Close58()
    ensures Pow(58, 71) <= Pow(256, 52)
  {
    Powers58();
    Powers256();
    PowAdd(58, 64, 7);
    PowAdd(256, 32, 16);
    PowAdd(256, 48, 4);
  }

  lemma Close15()
    ensures Pow(58, 15) <= Pow(256, 11)
  {
    assert Pow(58, 8) == 128063081718016 && Pow(58, 7) == 2207984167552;
    PowAdd(58, 8, 7);
    assert Pow(256, 8) == 18446744073709551616 && Pow(256, 3) == 16777216;
    PowAdd(256, 8, 3);
  }

  function FewBytesSize(r: nat): nat {
    match r
    case 0 => 1 case 1 => 2 case 2 => 3 case 3 => 5 case 4 => 6 case 5 => 7 case 6 => 9 case _ => 10
  }

  lemma FewBytes(r: nat)
    requires r < 8
    ensures Pow(256, r) <= Pow(58, FewBytesSize(r))
  {
    assert Pow(256, 1) <= Pow(58, 2) && Pow(256, 2) <= Pow(58, 3) && Pow(256, 3) <= Pow(58, 5);
    assert Pow(256, 4) <= Pow(58, 6) && Pow(256, 5) <= Pow(58, 7) && Pow(256, 6) <= Pow(58, 9);
    assert Pow(256, 7) <= Pow(58, 10);
  }

  lemma ByEight(n: nat) returns (q: nat, r: nat)
    ensures r < 8 && n == q * 8 + r && q * 11 + FewBytesSize(r) <= EncodeSize(n)
  {
    q, r := n / 8, n % 8;
  }

  /** The bytes that hold `v` base-58 digits, for a few digits. */
  function Tight(v: nat): nat {
    if v == 0 then 0 else (v * 733 - 20) / 1000 + 1
  }

  lemma FewDigits(v: nat)
    requires v < 8
    ensures Pow(58, v) <= Pow(256, Tight(v))
  {
    assert Pow(58, 1) <= Pow(256, 1) && Pow(58, 2) <= Pow(256, 2) && Pow(58, 3) <= Pow(256, 3);
    assert Pow(58, 4) <= Pow(256, 3) && Pow(58, 5) <= Pow(256, 4) && Pow(58, 6) <= Pow(256, 5);
    assert Pow(58, 7) <= Pow(256, 6);
  }

  lemma MoreDigits(v: nat)
    requires v < 15
    ensures Pow(58, v) <= Pow(256, Tight(v))
  {
    if v < 8 {
      FewDigits(v);
    } else {
      FewDigits(v - 8);
      EightDigits();
      EightMore(v);
      PowProduct(58, 256, 8, 6, v - 8, Tight(v - 8));
    }
  }

  lemma EightMore(v: nat)
    requires 8 <= v < 15
    ensures Tight(v) == 6 + Tight(v - 8)
  {
  }

  lemma EightDigits()
    ensures Pow(58, 8) <= Pow(256, 6)
  {
  }

  lemma DecodeSizeSplits(t: nat, u: nat, v: nat)
    requires u <= 4 && v < 15
    ensures t * 52 + u * 11 + Tight(v) <= DecodeSize(t * 71 + u * 15 + v)
  {
  }

  /** Inequalities between powers, put together part by part. */
  lemma Join(a: nat, b: nat, m1: nat, n1: nat, m2: nat, n2: nat, n: nat)
    requires b >= 1 && Pow(a, m1) <= Pow(b, n1) && Pow(a, m2) <= Pow(b, n2) && n1 + n2 <= n
    ensures Pow(a, m1 + m2) <= Pow(b, n)
  {
    PowProduct(a, b, m1, n1, m2, n2);
    PowWiden(Pow(a, m1 + m2), b, n1 + n2, n);
  }

  lemma PowWiden(v: nat, b: nat, k: nat, n: nat)
    requires b >= 1 && v <= Pow(b, k) && k <= n
    ensures v <= Pow(b, n)
  {
    PowMonotone(b, k, n);
  }

  /** Every number of `n` bytes fits into EncodeSize(n) base-58 digits. */
  lemma EncodeFits(n: nat)
    ensures Pow(256, n) <= Pow(58, EncodeSize(n))
  {
    var q, r := ByEight(n);
    BytesFit(n, q, r, EncodeSize(n));
  }

  lemma BytesFit(n: nat, q: nat, r: nat, size: nat)
    requires r < 8 && n == q * 8 + r && q * 11 + FewBytesSize(r) <= size
    ensures Pow(256, n) <= Pow(58, size)
  {
    EightBytes(q);
    FewBytes(r);
    Join(256, 58, q * 8, q * 11, r, FewBytesSize(r), size);
  }

  lemma EightBytes(q: nat)
    ensures Pow(256, q * 8) <= Pow(58, q * 11)
  {
    Close256();
    PowRepeat(256, 58, 8, 11, q);
  }

  lemma ManyDigits(t: nat)
    ensures Pow(58, t * 71) <= Pow(256, t * 52)
  {
    Close58();
    PowRepeat(58, 256, 71, 52, t);
  }

  /** Fewer than 71 digits. */
  lemma SomeDigits(u: nat, v: nat)
    requires v < 15
    ensures Pow(58, u * 15 + v) <= Pow(256, u * 11 + Tight(v))
  {
    Close15();
    PowRepeat(58, 256, 15, 11, u);
    MoreDigits(v);
    Join(58, 256, u * 15, u * 11, v, Tight(v), u * 11 + Tight(v));
  }

  /** Every number of `n` base-58 digits fits into DecodeSize(n) bytes. */
  lemma DecodeFits(n: nat)
    ensures Pow(58, n) <= Pow(256, DecodeSize(n))
  {
    var t, s := n / 71, n % 71;
    var u, v := s / 15, s % 15;
    ManyDigits(t);
    SomeDigits(u, v);
    DecodeSizeSplits(t, u, v);
    Join(58, 256, t * 71, t * 52, s, u * 11 + Tight(v), DecodeSize(n));
  }
}
