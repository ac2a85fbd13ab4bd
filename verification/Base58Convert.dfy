/** The in-place conversions behind Base58 strings (src/base58.cpp): a buffer of digits is
    multiplied and added to, one input digit at a time. */
module Base58Convert {
  import opened Basics
  import opened Positional
  import opened Base58Buffers
  import opened Base58
  import Nonlinear

  /** One pass over the buffer from its end (src/base58.cpp:46-50, src/base58.cpp:100-104). The
      carry stays below `mul`. */
  method MulAddInPlace(a: array<nat>, base: nat, mul: nat, c: nat) returns (carry: nat)
    requires base >= 2 && c < mul && Below(a[..], base)
    modifies a
    ensures a[..] == MulAdd(base, mul, old(a[..]), c).digits
    ensures carry == MulAdd(base, mul, old(a[..]), c).carry
    ensures Below(a[..], base) && carry < mul
  {
    ghost var was := a[..];
    ghost var goal := MulAdd(base, mul, was, c);
    carry := c;
    var j := a.Length;
    assert was[..j] == was;
    while j > 0
      invariant 0 <= j <= a.Length && carry < mul
      invariant a[..j] == was[..j] && Below(a[j..], base)
      invariant PassedOver(base, mul, was, j, carry, a[j..], goal)
    {
      var x := carry + mul * a[j - 1];
      CarryBound(base, mul, carry, a[j - 1]);
      PassNext(base, mul, was, j, carry, a[j..], goal);
      ghost var tail := a[j..];
      a[j - 1] := x % base;
      carry := x / base;
      j := j - 1;
      assert a[j..] == [x % base] + tail;
    }
  }

  /** The pass has come to position `j` with `carry` and left the digits `tail` behind. */
  ghost predicate PassedOver(base: nat, mul: nat, was: seq<nat>, j: nat, carry: nat, tail: seq<nat>, goal: Carried)
    requires base >= 2 && j <= |was|
  {
    var r := MulAdd(base, mul, was[..j], carry);
    goal.digits == r.digits + tail && goal.carry == r.carry
  }

  lemma PassNext(base: nat, mul: nat, was: seq<nat>, j: nat, carry: nat, tail: seq<nat>, goal: Carried)
    requires base >= 2 && 0 < j <= |was| && PassedOver(base, mul, was, j, carry, tail, goal)
    ensures var x := carry + mul * was[j - 1];
      0 <= x && PassedOver(base, mul, was, j - 1, x / base, [x % base] + tail, goal)
  {
    assert was[..j][..j - 1] == was[..j - 1];
    var x := carry + mul * was[j - 1];
    Nonlinear.MulNonNegative(mul, was[j - 1]);
    var r := MulAdd(base, mul, was[..j - 1], x / base);
    assert r.digits + [x % base] + tail == r.digits + ([x % base] + tail);
  }

  lemma CarryBound(base: nat, mul: nat, carry: nat, d: nat)
    requires base >= 2 && carry < mul && d < base
    ensures 0 <= (carry + mul * d) / base < mul && 0 <= (carry + mul * d) % base < base
  {
    var x := carry + mul * d;
    Nonlinear.MulNonNegative(mul, d);
    Nonlinear.DivMod(x, base);
    Nonlinear.MulLe(d, base - 1, mul);
    Nonlinear.MulSub(base, 1, mul);
    assert mul * d == d * mul && mul * base == base * mul;
    if x / base >= mul {
      Nonlinear.MulLe(mul, x / base, base);
    }
    if x / base < 0 {
      Nonlinear.MulLe(x / base, -1, base);
    }
  }

  /** The buffer without its leading zeroes (src/base58.cpp:58-61, src/base58.cpp:109-111). */
  method Significant(a: array<nat>) returns (r: seq<nat>)
    ensures r == Strip(a[..])
  {
    var it := 0;
    while it < a.Length && a[it] == 0
      invariant 0 <= it <= a.Length
      invariant Strip(a[..]) == Strip(a[it..])
    {
      assert a[it..][1..] == a[it + 1..];
      it := it + 1;
    }
    r := a[it..];
  }

  lemma ValueSnoc(base: nat, ds: seq<nat>, i: nat)
    requires i < |ds|
    ensures Value(base, ds[..i + 1]) == Value(base, ds[..i]) * base + ds[i]
  {
    assert ds[..i + 1][..i] == ds[..i];
  }

  /** Digits `ds` in base `from`, taken in one by one, leave their value in the buffer, and no
      digit ever carries out of it. */
  method Convert(a: array<nat>, from: nat, to: nat, ds: seq<nat>)
    requires from >= 2 && to >= 2 && Below(ds, from)
    requires Pow(from, |ds|) <= Pow(to, a.Length)
    requires forall k :: 0 <= k < a.Length ==> a[k] == 0
    modifies a
    ensures Below(a[..], to) && Value(to, a[..]) == Value(from, ds)
  {
    AllZero(to, a[..]);
    for i := 0 to |ds|
      invariant Below(a[..], to) && Value(to, a[..]) == Value(from, ds[..i])
    {
      StepFits(from, ds, i, Pow(to, a.Length));
      MulAddFits(to, from, a[..], ds[i]);
      var carry := MulAddInPlace(a, to, from, ds[i]);
      assert carry == 0;
      ValueSnoc(from, ds, i);
    }
    assert ds[..|ds|] == ds;
  }

  lemma {:induction false} AllZero(base: nat, ds: seq<nat>)
    requires forall k :: 0 <= k < |ds| ==> ds[k] == 0
    ensures Value(base, ds) == 0
  {
    if ds != [] {
      AllZero(base, ds[..|ds| - 1]);
    }
  }

  lemma StepFits(from: nat, ds: seq<nat>, i: nat, limit: nat)
    requires from >= 2 && i < |ds| && Below(ds, from) && Pow(from, |ds|) <= limit
    ensures Value(from, ds[..i]) * from + ds[i] < limit
  {
    ValueSnoc(from, ds, i);
    ValueBound(from, ds[..i + 1]);
    PowMonotone(from, i + 1, |ds|);
  }

  /** src/base58.cpp:86-119 */
  method Encode(b: Bytes) returns (s: string)
    ensures s == Encoded(b)
  {
    var zeroes := 0;
    while zeroes < |b| && b[zeroes] == 0
      invariant 0 <= zeroes <= |b|
      invariant LeadingZeros(b) == zeroes + LeadingZeros(b[zeroes..])
    {
      assert b[zeroes..][1..] == b[zeroes + 1..];
      zeroes := zeroes + 1;
    }
    var rest := b[zeroes..];
    var b58 := new nat[EncodeSize(|rest|)](_ => 0);
    EncodeFits(|rest|);
    Convert(b58, 256, 58, rest);
    var digits := Significant(b58);
    StripIsDigits(58, b58[..]);
    SkippedZeros(256, b, zeroes);
    RecodeInverse(256, 58, b);
    DigitsValue(58, Value(256, b));
    s := Spell(zeroes, digits);
  }

  lemma SkippedZeros(base: nat, ds: seq<nat>, n: nat)
    requires n <= |ds| && LeadingZeros(ds) == n + LeadingZeros(ds[n..])
    ensures Value(base, ds[n..]) == Value(base, ds)
  {
    ZerosThenRest(ds);
    assert forall k :: 0 <= k < n ==> ds[k] == Zeros(LeadingZeros(ds))[k];
    assert ds == Zeros(n) + ds[n..];
    ValueOfZeros(base, n, ds[n..]);
  }

  /** src/base58.cpp:113-117 */
  method Spell(zeroes: nat, digits: seq<nat>) returns (s: string)
    requires Below(digits, 58)
    ensures s == Chars(Zeros(zeroes) + digits)
  {
    s := seq(zeroes, _ => '1');
    AlphabetRises();
    for k := 0 to |digits|
      invariant s == Chars(Zeros(zeroes) + digits[..k])
    {
      s := s + [CharOf(digits[k])];
      assert Zeros(zeroes) + digits[..k + 1] == Zeros(zeroes) + digits[..k] + [digits[k]];
    }
    assert digits[..|digits|] == digits;
  }

  // ---- Decoding ----

  predicate Spaces(t: string, i: nat, j: nat)
    requires i <= j <= |t|
  {
    forall k :: i <= k < j ==> IsSpace(t[k])
  }

  lemma {:induction false} TrimLeftIs(t: string, i: nat)
    requires i <= |t| && Spaces(t, 0, i) && (i < |t| ==> !IsSpace(t[i]))
    ensures TrimLeft(t) == t[i..]
  {
    if i > 0 {
      TrimLeftIs(t[1..], i - 1);
    }
  }

  lemma {:induction false} TrimRightIs(t: string, j: nat)
    requires j <= |t| && Spaces(t, j, |t|) && (j > 0 ==> !IsSpace(t[j - 1]))
    ensures TrimRight(t) == t[..j]
  {
    if j < |t| {
      TrimRightIs(t[..|t| - 1], j);
      assert t[..|t| - 1][..j] == t[..j];
    }
  }

  /** Trimming on the right keeps everything up to the last character that is not a space. */
  lemma {:induction false} TrimRightKeeps(t: string, m: nat)
    requires m < |t| && !IsSpace(t[m])
    ensures m < |TrimRight(t)| <= |t| && TrimRight(t) == t[..|TrimRight(t)|]
  {
    if IsSpace(t[|t| - 1]) {
      TrimRightKeeps(t[..|t| - 1], m);
    }
  }

  lemma CoreIs(s: string, i: nat, j: nat)
    requires i <= j <= |CString(s)| && Spaces(CString(s), 0, i) && Spaces(CString(s), j, |CString(s)|)
    requires forall k :: i <= k < j ==> !IsSpace(CString(s)[k])
    requires i < j || j == |CString(s)|
    ensures Core(s) == CString(s)[i..j]
  {
    var t := CString(s);
    TrimLeftIs(t, i);
    TrimRightIs(t[i..], j - i);
    assert t[i..][..j - i] == t[i..j];
  }

  /** A character outside the alphabet, with no space in front of all and a non-space not before it. */
  lemma BadInside(s: string, i: nat, k: nat, m: nat)
    requires i <= k <= m < |CString(s)| && Spaces(CString(s), 0, i) && !IsSpace(CString(s)[i])
    requires DigitOf(CString(s)[k]) < 0 && !IsSpace(CString(s)[m])
    ensures !InAlphabet(Core(s))
  {
    var t := CString(s);
    TrimLeftIs(t, i);
    TrimRightKeeps(t[i..], m - i);
    assert Core(s)[k - i] == t[k];
  }

  lemma SpaceIsNoDigit(c: char)
    requires IsSpace(c)
    ensures DigitOf(c) < 0
  {
    DigitRange(c);
    if DigitOf(c) >= 0 {
      AlphabetHasNoSpace(DigitOf(c));
    }
  }

  /** src/base58.cpp:28-29, src/base58.cpp:54-55 */
  method SkipSpaces(t: string, p: nat) returns (q: nat)
    requires p <= |t|
    ensures p <= q <= |t| && Spaces(t, p, q) && (q < |t| ==> !IsSpace(t[q]))
  {
    q := p;
    while q < |t| && IsSpace(t[q])
      invariant p <= q <= |t| && Spaces(t, p, q)
    {
      q := q + 1;
    }
  }

  /** src/base58.cpp:31-35 */
  method SkipOnes(t: string, p: nat) returns (q: nat)
    requires p <= |t|
    ensures p <= q <= |t| && (forall k :: p <= k < q ==> t[k] == '1') && (q < |t| ==> t[q] != '1')
  {
    q := p;
    while q < |t| && t[q] == '1'
      invariant p <= q <= |t| && forall k :: p <= k < q ==> t[k] == '1'
    {
      q := q + 1;
    }
  }

  /** The characters from `p` to `q` are digits and none is a space. */
  predicate DigitsAt(t: string, p: nat, q: nat)
    requires p <= q <= |t|
  {
    InAlphabet(t[p..q]) && forall k :: p <= k < q ==> !IsSpace(t[k])
  }

  lemma OneMoreDigit(t: string, p: nat, q: nat)
    requires p <= q < |t| && DigitsAt(t, p, q) && DigitOf(t[q]) >= 0 && !IsSpace(t[q])
    ensures DigitsAt(t, p, q + 1)
    ensures DigitsOf(t[p..q + 1]) == DigitsOf(t[p..q]) + [DigitOf(t[q])]
  {
    assert t[p..q + 1] == t[p..q] + [t[q]];
    DigitRange(t[q]);
  }

  /** The main loop (src/base58.cpp:39-52); on failure it stands at the offending character. */
  method TakeDigits(a: array<nat>, t: string, p: nat) returns (ok: bool, q: nat)
    requires p <= |t| && Pow(58, |t| - p) <= Pow(256, a.Length)
    requires forall k :: 0 <= k < a.Length ==> a[k] == 0
    modifies a
    ensures p <= q <= |t| && DigitsAt(t, p, q)
    ensures ok ==> (q < |t| ==> IsSpace(t[q])) && Below(a[..], 256)
    ensures ok ==> Value(256, a[..]) == Value(58, DigitsOf(t[p..q]))
    ensures !ok ==> q < |t| && !IsSpace(t[q]) && DigitOf(t[q]) < 0
  {
    q := p;
    TakenNone(a[..], t, p);
    while q < |t| && !IsSpace(t[q])
      invariant p <= q <= |t| && Taken(a[..], t, p, q)
    {
      var d := DigitOf(t[q]);
      if d < 0 {
        return false, q;
      }
      TakeNext(a, t, p, q);
      q := q + 1;
    }
    ok := true;
  }

  /** The buffer holds the value of the digits from `p` to `q`. */
  ghost predicate Taken(b256: seq<nat>, t: string, p: nat, q: nat)
    requires p <= q <= |t|
  {
    DigitsAt(t, p, q) && Below(b256, 256) && Value(256, b256) == Value(58, DigitsOf(t[p..q]))
  }

  lemma TakenNone(b256: seq<nat>, t: string, p: nat)
    requires p <= |t| && forall k :: 0 <= k < |b256| ==> b256[k] == 0
    ensures Taken(b256, t, p, p)
  {
    AllZero(256, b256);
  }

  method TakeNext(a: array<nat>, t: string, p: nat, q: nat)
    requires p <= q < |t| && Pow(58, |t| - p) <= Pow(256, a.Length)
    requires Taken(a[..], t, p, q) && DigitOf(t[q]) >= 0 && !IsSpace(t[q])
    modifies a
    ensures Taken(a[..], t, p, q + 1)
  {
    DigitRange(t[q]);
    OneMoreDigit(t, p, q);
    TakeOne(a, t[p..q + 1], q - p, |t| - p);
  }

  /** Applying "b256 = b256 * 58 + ch", with nothing carried out (src/base58.cpp:44-51). */
  method TakeOne(a: array<nat>, u: string, i: nat, n: nat)
    requires |u| == i + 1 <= n && InAlphabet(u) && Pow(58, n) <= Pow(256, a.Length)
    requires Below(a[..], 256) && Value(256, a[..]) == Value(58, DigitsOf(u)[..i])
    modifies a
    ensures Below(a[..], 256) && Value(256, a[..]) == Value(58, DigitsOf(u))
  {
    ghost var ds := DigitsOf(u);
    PowMonotone(58, i + 1, n);
    StepFits(58, ds, i, Pow(256, a.Length));
    MulAddFits(256, 58, a[..], ds[i]);
    DigitRange(u[i]);
    var carry := MulAddInPlace(a, 256, 58, DigitOf(u[i]));
    assert carry == 0;
    ValueSnoc(58, ds, i);
    assert ds[..i + 1] == ds;
  }

  lemma OneIsZero(c: char)
    ensures c == '1' <==> DigitOf(c) == 0
  {
    AlphabetRises();
    DigitOfChar(0);
    DigitRange(c);
  }

  lemma OnesThenDigits(t: string, i: nat, p: nat, q: nat)
    requires i <= p <= q <= |t| && InAlphabet(t[p..q]) && forall k :: i <= k < p ==> t[k] == '1'
    ensures InAlphabet(t[i..q]) && DigitsOf(t[i..q]) == Zeros(p - i) + DigitsOf(t[p..q])
  {
    var ds := DigitsOf(t[p..q]);
    forall k | 0 <= k < q - i ensures DigitOf(t[i..q][k]) == (Zeros(p - i) + ds)[k] {
      if k < p - i {
        OneIsZero(t[i + k]);
      } else {
        assert t[i..q][k] == t[p..q][k - (p - i)];
      }
    }
  }

  lemma OnesAndDigits(t: string, i: nat, p: nat, q: nat)
    requires i <= p <= q <= |t| && InAlphabet(t[p..q])
    requires (forall k :: i <= k < p ==> t[k] == '1') && (p < |t| ==> t[p] != '1')
    ensures InAlphabet(t[i..q])
    ensures Recode(58, 256, DigitsOf(t[i..q])) == Zeros(p - i) + Digits(256, Value(58, DigitsOf(t[p..q])))
  {
    var ds := DigitsOf(t[p..q]);
    OnesThenDigits(t, i, p, q);
    if p < q {
      OneIsZero(t[p]);
      assert ds[0] == DigitOf(t[p..q][0]);
    }
    ZerosInFront(p - i, ds);
  }

  lemma ZerosInFront(n: nat, ds: seq<nat>)
    requires ds != [] ==> ds[0] != 0
    ensures Recode(58, 256, Zeros(n) + ds) == Zeros(n) + Digits(256, Value(58, ds))
  {
    CountZeros(n, ds);
    ValueOfZeros(58, n, ds);
  }

  /** src/base58.cpp:25-69 */
  method Decode(s: string) returns (r: Option<Bytes>)
    ensures r == Decoded(s)
  {
    var t := CString(s);
    var i := SkipSpaces(t, 0);
    var p := SkipOnes(t, i);
    var b256 := new nat[DecodeSize(|t| - p)](_ => 0);
    DecodeFits(|t| - p);
    var ok, q := TakeDigits(b256, t, p);
    if !ok {
      BadInside(s, i, q, q);
      return None;
    }
    var e := SkipSpaces(t, q);
    if e < |t| {
      SpaceIsNoDigit(t[q]);
      BadInside(s, i, q, e);
      return None;
    }
    CoreIs(s, i, q);
    var digits := Significant(b256);
    StripIsDigits(256, b256[..]);
    OnesAndDigits(t, i, p, q);
    RecodeInverse(58, 256, DigitsOf(t[i..q]));
    r := Some(Zeros(p - i) + digits);
  }

  /** src/base58.cpp:131-138 */
  method EncodeCheck(hash: Bytes -> Bytes, b: Bytes) returns (s: string)
    requires |hash(b)| == 32
    ensures s == EncodedCheck(hash, b)
  {
    var w := WithChecksum(hash, b);
    s := Encode(w);
  }

  /** src/base58.cpp:140-155 */
  method DecodeCheck(hash: Bytes -> Bytes, s: string) returns (r: Option<Bytes>)
    requires IsHash(hash)
    ensures r == DecodedCheck(hash, s)
  {
    r := Decode(s);
    if r == None || |r.value| < 4 {
      return None;
    }
    var b := r.value;
    if hash(Prefix(b))[..4] != b[|b| - 4..] {
      return None;
    }
    r := Some(Prefix(b));
  }
}
