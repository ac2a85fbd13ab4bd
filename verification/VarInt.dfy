/** The variable-length integer code (src/serialize.h:330-404). */
module VarInt {

  type Byte = x: int | 0 <= x < 256

  datatype Parsed<+T> = NoValue | Parsed(value: T, rest: seq<Byte>)

  /** All but the last byte of the code: each carries seven bits and a continuation mark. The
      source's comparison is signed, so a negative number has no such bytes. */
  function Leading(n: int): seq<Byte>
    decreases if n > 0x7F then n else 0
  {
    if n <= 0x7F then [] else Leading(n / 128 - 1) + [(n / 128 - 1) % 128 + 128]
  }

  function WriteVarInt(n: int): seq<Byte> {
    Leading(n) + [n % 128]
  }

  /** The value of the bytes read so far, for a code that is still going on. */
  function Prefix(bytes: seq<Byte>): nat {
    if bytes == [] then 0
    else Prefix(bytes[..|bytes| - 1]) * 128 + bytes[|bytes| - 1] % 128 + 1
  }

  /** ReadVarInt, having read `acc` (src/serialize.h:392-404). */
  function ReadFrom(acc: nat, bytes: seq<Byte>): Parsed<nat>
    decreases |bytes|
  {
    if bytes == [] then NoValue
    else
      var n := acc * 128 + bytes[0] % 128;
      if bytes[0] >= 128 then ReadFrom(n + 1, bytes[1..]) else Parsed(n, bytes[1..])
  }

  function ReadVarInt(bytes: seq<Byte>): Parsed<nat> {
    ReadFrom(0, bytes)
  }

  lemma {:induction false} LeadingProps(n: int)
    ensures forall i :: 0 <= i < |Leading(n)| ==> Leading(n)[i] >= 128
    ensures n >= 0 ==> Prefix(Leading(n)) == n / 128
    decreases if n > 0x7F then n else 0
  {
    if n > 0x7F {
      LeadingProps(n / 128 - 1);
      var m := n / 128 - 1;
      assert Leading(n)[..|Leading(n)| - 1] == Leading(m);
      assert m == m / 128 * 128 + m % 128;
    }
  }

  lemma {:induction false} ReadMarked(acc: nat, marked: seq<Byte>, rest: seq<Byte>, k: nat)
    requires k <= |marked| && acc == Prefix(marked[..k]) && forall i :: 0 <= i < |marked| ==> marked[i] >= 128
    ensures ReadFrom(acc, marked[k..] + rest) == ReadFrom(Prefix(marked), rest)
    decreases |marked| - k
  {
    if k == |marked| {
      assert marked[..k] == marked && marked[k..] + rest == rest;
    } else {
      var bytes := marked[k..] + rest;
      assert bytes[0] == marked[k] && bytes[1..] == marked[k + 1..] + rest;
      assert marked[..k + 1][..k] == marked[..k];
      ReadMarked(acc * 128 + marked[k] % 128 + 1, marked, rest, k + 1);
    }
  }

  /** Reading back a written number consumes exactly its bytes and gives the number, exactly
      when it is not negative. */
  lemma VarIntRoundTrip(n: int, rest: seq<Byte>)
    ensures ReadVarInt(WriteVarInt(n) + rest) == Parsed(n, rest) <==> n >= 0
    ensures ReadVarInt(WriteVarInt(n) + rest).Parsed? && ReadVarInt(WriteVarInt(n) + rest).rest == rest
  {
    LeadingProps(n);
    var marked := Leading(n);
    ReadMarked(0, marked, [n % 128] + rest, 0);
    assert marked[0..] == marked;
    assert WriteVarInt(n) + rest == marked[0..] + ([n % 128] + rest);
    assert ([n % 128] + rest)[1..] == rest;
  }

  // ---- Exactly one encoding ----

  lemma {:induction false} LeadingOfPrefix(marked: seq<Byte>, n: nat)
    requires n / 128 == Prefix(marked) && forall i :: 0 <= i < |marked| ==> marked[i] >= 128
    ensures Leading(n) == marked
  {
    if marked != [] {
      var front, b := marked[..|marked| - 1], marked[|marked| - 1];
      PrefixStep(Prefix(front), b, n);
      LeadingOfPrefix(front, n / 128 - 1);
      assert marked == front + [b];
    }
  }

  lemma PrefixStep(p: nat, b: Byte, n: nat)
    requires b >= 128 && n / 128 == p * 128 + b % 128 + 1
    ensures n > 0x7F && (n / 128 - 1) / 128 == p && (n / 128 - 1) % 128 + 128 == b
  {
  }

  /** Where the code that is read ends. */
  lemma {:induction false} LastByte(acc: nat, bytes: seq<Byte>) returns (k: nat)
    requires ReadFrom(acc, bytes).Parsed?
    ensures k < |bytes| && bytes[k] < 128 && forall i :: 0 <= i < k ==> bytes[i] >= 128
    decreases |bytes|
  {
    k := 0;
    if bytes[0] >= 128 {
      var j := LastByte(acc * 128 + bytes[0] % 128 + 1, bytes[1..]);
      k := j + 1;
      forall i | 0 <= i < k ensures bytes[i] >= 128 {
        assert i > 0 ==> bytes[i] == bytes[1..][i - 1];
      }
    }
  }

  lemma ReadLast(acc: nat, last: Byte, rest: seq<Byte>)
    requires last < 128
    ensures var r := ReadFrom(acc, [last] + rest);
      r.Parsed? && r.rest == rest && r.value / 128 == acc && r.value % 128 == last
  {
    assert ([last] + rest)[1..] == rest;
  }

  lemma ReadSplit(marked: seq<Byte>, last: Byte, rest: seq<Byte>)
    requires last < 128 && forall i :: 0 <= i < |marked| ==> marked[i] >= 128
    ensures var r := ReadVarInt(marked + ([last] + rest));
      r.Parsed? && r.rest == rest && r.value / 128 == Prefix(marked) && r.value % 128 == last
  {
    assert marked[0..] == marked;
    ReadMarked(0, marked, [last] + rest, 0);
    ReadLast(Prefix(marked), last, rest);
  }

  lemma SplitIsWritten(marked: seq<Byte>, last: Byte, rest: seq<Byte>)
    requires last < 128 && forall i :: 0 <= i < |marked| ==> marked[i] >= 128
    ensures var r := ReadVarInt(marked + ([last] + rest));
      r.Parsed? && r.rest == rest && WriteVarInt(r.value) == marked + [last]
  {
    ReadSplit(marked, last, rest);
    LeadingOfPrefix(marked, ReadVarInt(marked + ([last] + rest)).value);
  }

  lemma ReadIsWritten(bytes: seq<Byte>)
    requires ReadVarInt(bytes).Parsed?
    ensures var r := ReadVarInt(bytes); bytes == WriteVarInt(r.value) + r.rest
  {
    var k := LastByte(0, bytes);
    var marked, last, rest := bytes[..k], bytes[k], bytes[k + 1..];
    assert bytes == marked + ([last] + rest);
    SplitIsWritten(marked, last, rest);
  }

  /** Every number has exactly one encoding: what is read as `n` are the bytes that are written
      for it. */
  lemma OneEncoding(bytes: seq<Byte>, n: nat, rest: seq<Byte>)
    ensures ReadVarInt(bytes) == Parsed(n, rest) <==> bytes == WriteVarInt(n) + rest
  {
    VarIntRoundTrip(n, rest);
    if ReadVarInt(bytes) == Parsed(n, rest) {
      ReadIsWritten(bytes);
    }
  }

  lemma LeadingStep(n: nat)
    ensures |Leading(n)| == if n <= 127 then 0 else 1 + |Leading(n / 128 - 1)|
  {
  }

  /** The lengths the documentation gives. */
  lemma SmallSizes(n: nat)
    ensures |WriteVarInt(n)| == 1 <==> n <= 127
    ensures |WriteVarInt(n)| == 2 <==> 128 <= n <= 16511
    ensures |WriteVarInt(n)| == 3 <==> 16512 <= n <= 2113663
  {
    LeadingStep(n);
    if n > 127 {
      var m := n / 128 - 1;
      LeadingStep(m);
      if m > 127 {
        LeadingStep(m / 128 - 1);
      }
    }
  }
}
