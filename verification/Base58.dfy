/** Base58 and Base58Check strings (src/base58.cpp). */
module Base58 {
  import opened Basics
  import opened Positional

  type Bytes = bs: seq<nat> | Below(bs, 256) witness []

  /** All alphanumeric characters except "0", "I", "O" and "l", in the order of their codes: the
      runs 1-9, A-H, J-N, P-Z, a-k and m-z (src/base58.cpp:23). */
  const ALPHABET: string := Run('1', 9) + Run('A', 8) + Run('J', 5) + Run('P', 11) + Run('a', 11) + Run('m', 14)

  function Run(c: char, n: nat): (r: string)
    requires c as int + n < 0x80
    ensures |r| == n && Rising(r)
    ensures forall k :: 0 <= k < n ==> c <= r[k] && r[k] as int < c as int + n
  {
    seq(n, i requires 0 <= i < n => (c as int + i) as char)
  }

  // ---- The alphabet ----

  /** strchr on the alphabet: where a character stands, or -1. */
  function IndexIn(s: string, c: char): (r: int)
    ensures -1 <= r < |s|
    ensures r >= 0 ==> s[r] == c
    ensures r < 0 ==> c !in s
  {
    if s == [] then -1
    else if s[|s| - 1] == c && c !in s[..|s| - 1] then |s| - 1
    else IndexIn(s[..|s| - 1], c)
  }

  predicate Rising(s: string) {
    forall i, j :: 0 <= i < j < |s| ==> s[i] < s[j]
  }

  lemma RisingParts(s: string, t: string)
    requires Rising(s) && Rising(t) && (s != [] && t != [] ==> s[|s| - 1] < t[0])
    ensures Rising(s + t)
  {
  }

  lemma AlphabetRises()
    ensures |ALPHABET| == 58 && Rising(ALPHABET)
  {
    var a, b, c := Run('1', 9), Run('A', 8), Run('J', 5);
    var d, e, f := Run('P', 11), Run('a', 11), Run('m', 14);
    RisingParts(a, b);
    RisingParts(a + b, c);
    RisingParts(a + b + c, d);
    RisingParts(a + b + c + d, e);
    RisingParts(a + b + c + d + e, f);
  }

  function CharOf(d: nat): char
    requires d < 58
  {
    AlphabetRises();
    ALPHABET[d]
  }

  function DigitOf(c: char): int {
    IndexIn(ALPHABET, c)
  }

  lemma DigitOfChar(d: nat)
    requires d < 58
    ensures DigitOf(CharOf(d)) == d
  {
    AlphabetRises();
    var k := DigitOf(CharOf(d));
    assert ALPHABET[d] in ALPHABET;
  }

  predicate IsSpace(c: char) {
    c == ' ' || ('\t' <= c <= '\r')
  }

  lemma AlphabetHasNoSpace(d: nat)
    requires d < 58
    ensures !IsSpace(CharOf(d)) && CharOf(d) != '\0'
  {
    AlphabetRises();
    assert ALPHABET[0] == '1';
    assert d > 0 ==> ALPHABET[0] < ALPHABET[d];
  }

  // ---- Changing the base, leading zeroes kept one for one ----

  function Zeros(n: nat): seq<nat> {
    seq(n, _ => 0)
  }

  function LeadingZeros(ds: seq<nat>): nat {
    if ds != [] && ds[0] == 0 then 1 + LeadingZeros(ds[1..]) else 0
  }

  function Recode(from: nat, to: nat, ds: seq<nat>): seq<nat>
    requires to >= 2
  {
    Zeros(LeadingZeros(ds)) + Digits(to, Value(from, ds))
  }

  lemma {:induction false} ZerosThenRest(ds: seq<nat>)
    ensures ds == Zeros(LeadingZeros(ds)) + Strip(ds)
  {
    if ds != [] && ds[0] == 0 {
      ZerosThenRest(ds[1..]);
      assert ds == [0] + ds[1..];
      assert Zeros(LeadingZeros(ds)) == [0] + Zeros(LeadingZeros(ds[1..]));
    }
  }

  lemma {:induction false} CountZeros(n: nat, ds: seq<nat>)
    requires ds == [] || ds[0] != 0
    ensures LeadingZeros(Zeros(n) + ds) == n
  {
    if n > 0 {
      CountZeros(n - 1, ds);
      assert (Zeros(n) + ds)[1..] == Zeros(n - 1) + ds;
    } else {
      assert Zeros(n) + ds == ds;
    }
  }

  /** Recoding back gives the same digits. */
  lemma RecodeInverse(from: nat, to: nat, ds: seq<nat>)
    requires from >= 2 && to >= 2 && Below(ds, from)
    ensures Below(Recode(from, to, ds), to)
    ensures Recode(to, from, Recode(from, to, ds)) == ds
  {
    var n, v := LeadingZeros(ds), Value(from, ds);
    DigitsValue(to, v);
    CountZeros(n, Digits(to, v));
    ValueOfZeros(to, n, Digits(to, v));
    StripIsDigits(from, ds);
    ZerosThenRest(ds);
  }

  // ---- Strings ----

  function Chars(ds: seq<nat>): string
    requires Below(ds, 58)
  {
    seq(|ds|, i requires 0 <= i < |ds| => CharOf(ds[i]))
  }

  predicate InAlphabet(s: string) {
    forall i :: 0 <= i < |s| ==> DigitOf(s[i]) >= 0
  }

  lemma DigitRange(c: char)
    ensures DigitOf(c) < 58
    ensures DigitOf(c) >= 0 ==> CharOf(DigitOf(c)) == c
  {
    AlphabetRises();
  }

  function DigitsOf(s: string): (r: seq<nat>)
    requires InAlphabet(s)
    ensures Below(r, 58)
  {
    seq(|s|, i requires 0 <= i < |s| => DigitRange(s[i]); DigitOf(s[i]))
  }

  lemma DigitsOfChars(ds: seq<nat>)
    requires Below(ds, 58)
    ensures InAlphabet(Chars(ds)) && DigitsOf(Chars(ds)) == ds
  {
    forall i | 0 <= i < |ds| ensures DigitOf(Chars(ds)[i]) == ds[i] {
      DigitOfChar(ds[i]);
    }
  }

  lemma CharsOfDigits(s: string)
    requires InAlphabet(s)
    ensures Chars(DigitsOf(s)) == s
  {
    forall i | 0 <= i < |s| ensures Chars(DigitsOf(s))[i] == s[i] {
      DigitRange(s[i]);
    }
  }

  /** What a C function sees of a string: everything before the first NUL. */
  function CString(s: string): string {
    if s == [] || s[0] == '\0' then [] else [s[0]] + CString(s[1..])
  }

  function TrimLeft(s: string): string {
    if s != [] && IsSpace(s[0]) then TrimLeft(s[1..]) else s
  }

  function TrimRight(s: string): string {
    if s != [] && IsSpace(s[|s| - 1]) then TrimRight(s[..|s| - 1]) else s
  }

  /** The string without surrounding white space. */
  function Core(s: string): string {
    TrimRight(TrimLeft(CString(s)))
  }

  /** src/base58.cpp:86-119 */
  function Encoded(b: Bytes): string {
    RecodeInverse(256, 58, b);
    Chars(Recode(256, 58, b))
  }

  /** src/base58.cpp:25-69 */
  function Decoded(s: string): Option<Bytes> {
    if InAlphabet(Core(s)) then
      RecodeInverse(58, 256, DigitsOf(Core(s)));
      Some(Recode(58, 256, DigitsOf(Core(s))))
    else None
  }

  lemma CoreOfPlain(s: string)
    requires forall i :: 0 <= i < |s| ==> !IsSpace(s[i]) && s[i] != '\0'
    ensures Core(s) == s
  {
    CStringOfPlain(s);
  }

  lemma {:induction false} CStringOfPlain(s: string)
    requires forall i :: 0 <= i < |s| ==> s[i] != '\0'
    ensures CString(s) == s
  {
    if s != [] {
      CStringOfPlain(s[1..]);
    }
  }

  lemma EncodedIsPlain(b: Bytes)
    ensures Core(Encoded(b)) == Encoded(b)
  {
    RecodeInverse(256, 58, b);
    var ds := Recode(256, 58, b);
    forall i | 0 <= i < |Encoded(b)| ensures !IsSpace(Encoded(b)[i]) && Encoded(b)[i] != '\0' {
      AlphabetHasNoSpace(ds[i]);
    }
    CoreOfPlain(Encoded(b));
  }

  /** Decoding an encoded byte string gives it back. */
  lemma DecodeEncode(b: Bytes)
    ensures Decoded(Encoded(b)) == Some(b)
  {
    RecodeInverse(256, 58, b);
    EncodedIsPlain(b);
    DigitsOfChars(Recode(256, 58, b));
  }

  /** Encoding what was decoded gives the string back, without surrounding white space. */
  lemma EncodeDecode(s: string)
    ensures Decoded(s).Some? <==> InAlphabet(Core(s))
    ensures Decoded(s).Some? ==> Encoded(Decoded(s).value) == Core(s)
  {
    if InAlphabet(Core(s)) {
      RecodeInverse(58, 256, DigitsOf(Core(s)));
      CharsOfDigits(Core(s));
    }
  }

  /** A valid string without white space is the encoding of exactly one byte string. */
  lemma PlainStringRoundTrips(s: string)
    requires InAlphabet(s)
    ensures Decoded(s).Some? && Encoded(Decoded(s).value) == s
  {
    forall i | 0 <= i < |s| ensures !IsSpace(s[i]) && s[i] != '\0' {
      DigitRange(s[i]);
      AlphabetHasNoSpace(DigitOf(s[i]));
    }
    CoreOfPlain(s);
    EncodeDecode(s);
  }

  // ---- Base58Check, over any hash ----

  /** `hash` maps a byte string to the 32 bytes of its hash. */
  ghost predicate IsHash(hash: Bytes -> Bytes) {
    forall b :: |hash(b)| == 32
  }

  lemma BytesJoin(a: Bytes, b: Bytes)
    ensures Below(a + b, 256)
  {
  }

  lemma BytesSlice(a: Bytes, i: nat, j: nat)
    requires i <= j <= |a|
    ensures Below(a[i..j], 256)
  {
  }

  function WithChecksum(hash: Bytes -> Bytes, b: Bytes): Bytes
    requires |hash(b)| == 32
  {
    BytesSlice(hash(b), 0, 4);
    BytesJoin(b, hash(b)[..4]);
    b + hash(b)[..4]
  }

  function Prefix(b: Bytes): Bytes
    requires |b| >= 4
  {
    BytesSlice(b, 0, |b| - 4);
    b[..|b| - 4]
  }

  /** src/base58.cpp:131-138 */
  function EncodedCheck(hash: Bytes -> Bytes, b: Bytes): string
    requires |hash(b)| == 32
  {
    Encoded(WithChecksum(hash, b))
  }

  /** src/base58.cpp:140-155 */
  ghost function DecodedCheck(hash: Bytes -> Bytes, s: string): Option<Bytes>
    requires IsHash(hash)
  {
    match Decoded(s)
    case None => None
    case Some(b) =>
      if |b| < 4 then None
      else if hash(Prefix(b))[..4] != b[|b| - 4..] then None
      else Some(Prefix(b))
  }

  lemma CheckRoundTrip(hash: Bytes -> Bytes, b: Bytes)
    requires IsHash(hash)
    ensures DecodedCheck(hash, EncodedCheck(hash, b)) == Some(b)
  {
    var w := WithChecksum(hash, b);
    DecodeEncode(w);
    assert Prefix(w) == b;
    assert w[|w| - 4..] == hash(b)[..4];
  }

  /** A string passes the check exactly when it is, but for surrounding white space, the encoding
      of a byte string with its checksum. */
  lemma CheckAccepts(hash: Bytes -> Bytes, s: string, b: Bytes)
    requires IsHash(hash)
    ensures DecodedCheck(hash, s) == Some(b) <==> Core(s) == EncodedCheck(hash, b)
  {
    EncodeDecode(s);
    if DecodedCheck(hash, s) == Some(b) {
      var v := Decoded(s).value;
      assert v == b + v[|v| - 4..];
      assert v == WithChecksum(hash, b);
    }
    if Core(s) == EncodedCheck(hash, b) {
      SameCore(s, EncodedCheck(hash, b), WithChecksum(hash, b));
      CheckRoundTrip(hash, b);
    }
  }

  lemma SameCore(s: string, t: string, b: Bytes)
    requires Core(s) == t && t == Encoded(b)
    ensures Decoded(s) == Decoded(t)
  {
    EncodedIsPlain(b);
  }
}
