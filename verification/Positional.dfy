/** Positional number systems: digit sequences, most significant digit first, and their values. */
module Positional {
  import Nonlinear

  function Pow(base: nat, n: nat): nat {
    if n == 0 then 1 else Pow(base, n - 1) * base
  }

  function Value(base: nat, ds: seq<nat>): nat {
    if ds == [] then 0 else Value(base, ds[..|ds| - 1]) * base + ds[|ds| - 1]
  }

  /** The digits of a number without leading zeroes; none for zero. */
  function Digits(base: nat, v: nat): seq<nat>
    requires base >= 2
    decreases v
  {
    if v == 0 then []
    else
      Nonlinear.QuotientShrinks(v, base);
      Digits(base, v / base) + [v % base]
  }

  predicate Below(ds: seq<nat>, base: nat) {
    forall i :: 0 <= i < |ds| ==> ds[i] < base
  }

  /** Without its leading zeroes. */
  function Strip(ds: seq<nat>): seq<nat> {
    if ds != [] && ds[0] == 0 then Strip(ds[1..]) else ds
  }

  lemma {:induction false} PowPositive(base: nat, n: nat)
    requires base >= 1
    ensures Pow(base, n) >= 1
  {
    if n > 0 {
      PowPositive(base, n - 1);
      Nonlinear.MulAtLeast(Pow(base, n - 1), base);
    }
  }

  lemma {:induction false} PowAdd(base: nat, m: nat, n: nat)
    ensures Pow(base, m + n) == Pow(base, m) * Pow(base, n)
  {
    if n > 0 {
      PowAdd(base, m, n - 1);
      Nonlinear.MulAssoc(Pow(base, m), Pow(base, n - 1), base);
    }
  }

  lemma PowMonotone(base: nat, m: nat, n: nat)
    requires base >= 1 && m <= n
    ensures Pow(base, m) <= Pow(base, n)
  {
    PowAdd(base, m, n - m);
    PowPositive(base, n - m);
    Nonlinear.MulBoth(Pow(base, m), Pow(base, m), 1, Pow(base, n - m));
  }

  /** Products of inequalities between powers. */
  lemma PowProduct(a: nat, b: nat, m1: nat, n1: nat, m2: nat, n2: nat)
    requires Pow(a, m1) <= Pow(b, n1) && Pow(a, m2) <= Pow(b, n2)
    ensures Pow(a, m1 + m2) <= Pow(b, n1 + n2)
  {
    PowAdd(a, m1, m2);
    PowAdd(b, n1, n2);
    Nonlinear.MulBoth(Pow(a, m1), Pow(b, n1), Pow(a, m2), Pow(b, n2));
  }

  lemma {:induction false} PowRepeat(a: nat, b: nat, m: nat, n: nat, t: nat)
    requires Pow(a, m) <= Pow(b, n)
    ensures Pow(a, t * m) <= Pow(b, t * n)
  {
    if t > 0 {
      PowRepeat(a, b, m, n, t - 1);
      Nonlinear.MulSub(t, 1, m);
      Nonlinear.MulSub(t, 1, n);
      PowProduct(a, b, (t - 1) * m, (t - 1) * n, m, n);
    }
  }

  lemma {:induction false} ValueBound(base: nat, ds: seq<nat>)
    requires base >= 1 && Below(ds, base)
    ensures Value(base, ds) < Pow(base, |ds|)
  {
    if ds != [] {
      var front := ds[..|ds| - 1];
      ValueBound(base, front);
      Nonlinear.MulLe(Value(base, front) + 1, Pow(base, |front|), base);
      Nonlinear.MulAdd(Value(base, front), 1, base);
    }
  }

  lemma {:induction false} StripSnoc(ds: seq<nat>, d: nat)
    ensures Strip(ds + [d]) == if Strip(ds) == [] && d == 0 then [] else Strip(ds) + [d]
  {
    if ds != [] && ds[0] == 0 {
      assert (ds + [d])[1..] == ds[1..] + [d];
      StripSnoc(ds[1..], d);
    } else if ds == [] {
      assert [d][1..] == [];
      assert Strip([]) == [];
      assert [] + [d] == [d];
    }
  }

  /** Stripping the leading zeroes of any representation leaves the digits of its value. */
  lemma {:induction false} StripIsDigits(base: nat, ds: seq<nat>)
    requires base >= 2 && Below(ds, base)
    ensures Strip(ds) == Digits(base, Value(base, ds))
    ensures Strip(ds) == [] <==> Value(base, ds) == 0
  {
    if ds != [] {
      var front, d := ds[..|ds| - 1], ds[|ds| - 1];
      assert ds == front + [d];
      StripIsDigits(base, front);
      StripSnoc(front, d);
      var v := Value(base, front);
      Nonlinear.DivUnique(v * base + d, base, v, d);
      if v > 0 {
        Nonlinear.MulAtLeast(v, base);
      }
    }
  }

  lemma {:induction false} DigitsValue(base: nat, v: nat)
    requires base >= 2
    ensures Below(Digits(base, v), base) && Value(base, Digits(base, v)) == v
    ensures Digits(base, v) != [] ==> Digits(base, v)[0] != 0
    decreases v
  {
    if v > 0 {
      Nonlinear.QuotientShrinks(v, base);
      DigitsValue(base, v / base);
      Nonlinear.DivMod(v, base);
      var ds := Digits(base, v);
      assert ds[..|ds| - 1] == Digits(base, v / base);
    }
  }

  /** Leading zeroes do not change a value. */
  lemma {:induction false} ValueOfZeros(base: nat, n: nat, ds: seq<nat>)
    ensures Value(base, seq(n, _ => 0) + ds) == Value(base, ds)
  {
    var zs: seq<nat> := seq(n, _ => 0);
    if ds != [] {
      var front := ds[..|ds| - 1];
      ValueOfZeros(base, n, front);
      assert (zs + ds)[..n + |ds| - 1] == zs + front;
    } else if n > 0 {
      ValueOfZeros(base, n - 1, []);
      assert zs + [] == zs;
      assert zs[..n - 1] == seq(n - 1, _ => 0) + [];
    } else {
      assert zs + ds == [];
    }
  }

  // ---- One step of a conversion: digits := digits * mul + c ----

  datatype Carried = Carried(digits: seq<nat>, carry: nat)

  /** The digits after the step, and the carry out of the most significant one. */
  function MulAdd(base: nat, mul: nat, ds: seq<nat>, c: nat): (r: Carried)
    requires base >= 2
    ensures |r.digits| == |ds|
    decreases |ds|
  {
    if ds == [] then Carried([], c)
    else
      var x := c + mul * ds[|ds| - 1];
      var r := MulAdd(base, mul, ds[..|ds| - 1], x / base);
      Carried(r.digits + [x % base], r.carry)
  }

  /** No digit is lost: the carry stands in front of the new digits. */
  lemma {:induction false} MulAddValue(base: nat, mul: nat, ds: seq<nat>, c: nat)
    requires base >= 2
    ensures var r := MulAdd(base, mul, ds, c);
            Below(r.digits, base) &&
            Value(base, r.digits) + r.carry * Pow(base, |ds|) == Value(base, ds) * mul + c
    decreases |ds|
  {
    if ds != [] {
      var front, d := ds[..|ds| - 1], ds[|ds| - 1];
      var x := c + mul * d;
      var p := MulAdd(base, mul, front, x / base);
      MulAddValue(base, mul, front, x / base);
      Nonlinear.DivMod(x, base);
      assert (p.digits + [x % base])[..|front|] == p.digits;
      MulAddStep(base, mul, d, c, Value(base, p.digits), p.carry, Pow(base, |front|), Value(base, front));
    }
  }

  lemma MulAddStep(base: nat, mul: nat, d: nat, c: nat, v1: nat, carry: nat, pow: nat, v: nat)
    requires base >= 2
    requires v1 + carry * pow == v * mul + (c + mul * d) / base
    ensures v1 * base + (c + mul * d) % base + carry * (pow * base) == (v * base + d) * mul + c
  {
    var x := c + mul * d;
    var q := x / base;
    Nonlinear.DivMod(x, base);
    calc {
      v1 * base + carry * (pow * base);
      { Nonlinear.MulAssoc(carry, pow, base); Nonlinear.MulAdd(v1, carry * pow, base); }
      (v1 + carry * pow) * base;
      { Nonlinear.MulAdd(v * mul, q, base); }
      v * mul * base + q * base;
    }
    Nonlinear.MulAdd(v * base, d, mul);
    Nonlinear.MulSwap(v, mul, base);
    assert d * mul == mul * d;
  }

  /** If the value after the step fits, nothing is carried out. */
  lemma MulAddFits(base: nat, mul: nat, ds: seq<nat>, c: nat)
    requires base >= 2 && Value(base, ds) * mul + c < Pow(base, |ds|)
    ensures MulAdd(base, mul, ds, c).carry == 0
    ensures Value(base, MulAdd(base, mul, ds, c).digits) == Value(base, ds) * mul + c
  {
    var r := MulAdd(base, mul, ds, c);
    MulAddValue(base, mul, ds, c);
    if r.carry > 0 {
      Nonlinear.MulAtLeast(r.carry, Pow(base, |ds|));
    }
  }
}
