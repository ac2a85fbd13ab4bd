/** The compact serialization of a transaction's unspent outputs (src/coins.h:29-75, 203-266;
    src/coins.cpp:19-36). */
module CoinsCodec {
  import opened Coins
  import opened VarInt
  import opened Bits

  /** How single outputs are written and read (CTxOutCompressor). */
  datatype OutCodec = OutCodec(write: TxOut -> seq<Byte>, read: seq<Byte> -> Parsed<TxOut>)

  /** The output codec knows where an output ends and loses nothing of an unspent one. */
  ghost predicate SelfDelimiting(codec: OutCodec) {
    forall out: TxOut, rest: seq<Byte> :: !out.IsNull() ==> codec.read(codec.write(out) + rest) == Parsed(out, rest)
  }

  // ---- the availability bitmask ----

  /** The eight outputs that byte `b` of the mask covers. */
  function Chunk(vout: seq<TxOut>, b: nat): (r: seq<bool>)
    ensures |r| == 8 && forall p :: 0 <= p < 8 ==> r[p] == Unspent(vout, 2 + b * 8 + p)
  {
    seq(8, p requires 0 <= p < 8 => Unspent(vout, 2 + b * 8 + p))
  }

  function MaskByte(vout: seq<TxOut>, b: nat): Byte {
    PackBound(Chunk(vout, b));
    assert Pow2(8) == 256;
    Pack(Chunk(vout, b))
  }

  /** How many bytes the outputs after the first two need. */
  function ByteCount(vout: seq<TxOut>): nat {
    if |vout| <= 2 then 0 else (|vout| - 2 + 7) / 8
  }

  function AllBytes(vout: seq<TxOut>): (r: seq<Byte>)
    ensures |r| == ByteCount(vout) && forall b :: 0 <= b < |r| ==> r[b] == MaskByte(vout, b)
  {
    seq(ByteCount(vout), b requires 0 <= b < ByteCount(vout) => MaskByte(vout, b))
  }

  function NonZero(bytes: seq<Byte>): nat {
    if bytes == [] then 0 else NonZero(bytes[..|bytes| - 1]) + if bytes[|bytes| - 1] != 0 then 1 else 0
  }

  /** The bytes up to the last one that is not zero. */
  function UsedBytes(bytes: seq<Byte>): (r: seq<Byte>)
    ensures r <= bytes
    ensures r != [] ==> r[|r| - 1] != 0
    ensures forall b :: |r| <= b < |bytes| ==> bytes[b] == 0
    ensures NonZero(r) == NonZero(bytes)
  {
    if bytes != [] && bytes[|bytes| - 1] == 0 then UsedBytes(bytes[..|bytes| - 1]) else bytes
  }

  /** The mask that is written. */
  function Mask(vout: seq<TxOut>): seq<Byte> {
    UsedBytes(AllBytes(vout))
  }

  /** The inner loop of CalcMaskSize (src/coins.cpp:23-29). */
  method ByteIsZero(vout: seq<TxOut>, b: nat) returns (zero: bool)
    ensures zero <==> MaskByte(vout, b) == 0
  {
    ghost var chunk := Chunk(vout, b);
    zero := true;
    var i := 0;
    while i < 8 && 2 + b * 8 + i < |vout|
      invariant 0 <= i <= 8
      invariant zero <==> forall p :: 0 <= p < i ==> !chunk[p]
    {
      assert chunk[i] == !vout[2 + b * 8 + i].IsNull();
      if !vout[2 + b * 8 + i].IsNull() {
        zero := false;
      }
      i := i + 1;
    }
    PackZero(chunk);
  }

  lemma MaskNext(bytes: seq<Byte>, b: nat)
    requires b < |bytes|
    ensures |UsedBytes(bytes[..b + 1])| == if bytes[b] != 0 then b + 1 else |UsedBytes(bytes[..b])|
    ensures NonZero(bytes[..b + 1]) == NonZero(bytes[..b]) + if bytes[b] != 0 then 1 else 0
  {
    assert bytes[..b + 1][..b] == bytes[..b];
  }

  /** src/coins.cpp:19-36 */
  method CalcMaskSize(vout: seq<TxOut>) returns (bytes: nat, nonzero: nat)
    ensures bytes == |Mask(vout)| && nonzero == NonZero(Mask(vout))
  {
    ghost var all := AllBytes(vout);
    var lastUsed := 0;
    nonzero := 0;
    var b := 0;
    while 2 + b * 8 < |vout|
      invariant b <= |all|
      invariant lastUsed == |UsedBytes(all[..b])| && nonzero == NonZero(all[..b])
    {
      var zero := ByteIsZero(vout, b);
      MaskNext(all, b);
      if !zero {
        lastUsed := b + 1;
        nonzero := nonzero + 1;
      }
      b := b + 1;
    }
    assert all[..b] == all;
    bytes := lastUsed;
  }

  // ---- writing ----

  function Code(c: Coins): nat {
    var first, second := Unspent(c.vout, 0), Unspent(c.vout, 1);
    var n := NonZero(Mask(c.vout));
    16 * (if first || second || n == 0 then n else n - 1) +
    (if c.coinBase then 1 else 0) + (if c.coinStake then 2 else 0) +
    (if first then 4 else 0) + (if second then 8 else 0)
  }

  /** The unspent outputs from number `i` on. */
  function WriteOuts(codec: OutCodec, vout: seq<TxOut>, i: nat): seq<Byte>
    decreases |vout| - i
  {
    if i >= |vout| then []
    else (if vout[i].IsNull() then [] else codec.write(vout[i])) + WriteOuts(codec, vout, i + 1)
  }

  /** src/coins.h:202-230 */
  function Serialized(codec: OutCodec, c: Coins): seq<Byte> {
    WriteVarInt(c.version) +
    (WriteVarInt(Code(c)) + (Mask(c.vout) + (WriteOuts(codec, c.vout, 0) + WriteVarInt(c.height))))
  }

  // ---- reading ----

  /** Mask bytes are read until `n` of them were not zero (src/coins.h:247-256). */
  function ReadMask(bytes: seq<Byte>, n: nat): Parsed<seq<Byte>>
    decreases |bytes|
  {
    if n == 0 then Parsed([], bytes)
    else if bytes == [] then NoValue
    else match ReadMask(bytes[1..], if bytes[0] != 0 then n - 1 else n)
      case NoValue => NoValue
      case Parsed(mask, rest) => Parsed([bytes[0]] + mask, rest)
  }

  /** Which outputs the code and the mask say are unspent. */
  function Avail(code: nat, mask: seq<Byte>): (r: seq<bool>)
    ensures |r| == 2 + 8 * |mask|
  {
    [TestBit(code, 2), TestBit(code, 3)] +
    seq(8 * |mask|, i requires 0 <= i < 8 * |mask| => TestBit(mask[i / 8], i % 8))
  }

  /** src/coins.h:258-262 */
  function ReadOuts(codec: OutCodec, avail: seq<bool>, i: nat, bytes: seq<Byte>): Parsed<seq<TxOut>>
    decreases |avail| - i
  {
    if i >= |avail| then Parsed([], bytes)
    else if avail[i] then
      match codec.read(bytes)
      case NoValue => NoValue
      case Parsed(out, rest) =>
        match ReadOuts(codec, avail, i + 1, rest)
        case NoValue => NoValue
        case Parsed(outs, rest') => Parsed([out] + outs, rest')
    else
      match ReadOuts(codec, avail, i + 1, bytes)
      case NoValue => NoValue
      case Parsed(outs, rest') => Parsed([NULL_OUT] + outs, rest')
  }

  function MaskCode(code: nat): nat {
    code / 16 + if TestBit(code, 2) || TestBit(code, 3) then 0 else 1
  }

  /** The outputs and the height, once the code and the mask are known. */
  function ReadTail(codec: OutCodec, version: nat, code: nat, mask: seq<Byte>, bytes: seq<Byte>): Parsed<Coins> {
    match ReadOuts(codec, Avail(code, mask), 0, bytes)
    case NoValue => NoValue
    case Parsed(vout, rest) =>
      match ReadVarInt(rest)
      case NoValue => NoValue
      case Parsed(height, rest') =>
        Parsed(Cleanup(Coins(TestBit(code, 0), TestBit(code, 1), vout, height, version)), rest')
  }

  /** src/coins.h:232-266 */
  function Unserialized(codec: OutCodec, bytes: seq<Byte>): Parsed<Coins> {
    match ReadVarInt(bytes)
    case NoValue => NoValue
    case Parsed(version, rest) =>
      match ReadVarInt(rest)
      case NoValue => NoValue
      case Parsed(code, rest') =>
        match ReadMask(rest', MaskCode(code))
        case NoValue => NoValue
        case Parsed(mask, rest'') => ReadTail(codec, version, code, mask, rest'')
  }

  // ---- the round trip ----

  predicate MaskBit(vout: seq<TxOut>, i: nat)
    requires i >= 2
  {
    var b := (i - 2) / 8;
    b < |Mask(vout)| && TestBit(Mask(vout)[b], (i - 2) % 8)
  }

  /** The written mask has exactly the bits of the unspent outputs after the first two. */
  lemma MaskCovers(vout: seq<TxOut>, i: nat)
    requires i >= 2
    ensures MaskBit(vout, i) <==> Unspent(vout, i)
  {
    var b, p := (i - 2) / 8, (i - 2) % 8;
    assert 2 + b * 8 + p == i;
    var chunk := Chunk(vout, b);
    assert chunk[p] == Unspent(vout, i);
    if b < |Mask(vout)| {
      PackBits(chunk, p);
    } else if b < ByteCount(vout) {
      assert AllBytes(vout)[b] == 0;
      PackZero(chunk);
    }
  }

  lemma MaskNotEmpty(vout: seq<TxOut>)
    ensures NonZero(Mask(vout)) != 0 <==> Mask(vout) != []
  {
  }

  lemma MaskWitness(vout: seq<TxOut>) returns (i: nat)
    requires Mask(vout) != []
    ensures i >= 2 && Unspent(vout, i)
  {
    var b := |Mask(vout)| - 1;
    PackZero(Chunk(vout, b));
    var p :| 0 <= p < 8 && Chunk(vout, b)[p];
    i := 2 + b * 8 + p;
  }

  /** The assertion of Serialize (src/coins.h:209): there is something to write. */
  lemma SomethingToWrite(c: Coins)
    ensures Unspent(c.vout, 0) || Unspent(c.vout, 1) || NonZero(Mask(c.vout)) != 0 <==> !IsPruned(c)
  {
    MaskNotEmpty(c.vout);
    if !IsPruned(c) {
      var i :| 0 <= i < |c.vout| && !c.vout[i].IsNull();
      assert Unspent(c.vout, i);
      if i >= 2 { MaskCovers(c.vout, i); }
    }
    if Mask(c.vout) != [] {
      var i := MaskWitness(c.vout);
      assert !c.vout[i].IsNull();
    }
  }

  lemma {:induction false} NonZeroFront(bytes: seq<Byte>)
    requires bytes != []
    ensures NonZero(bytes) == NonZero(bytes[1..]) + if bytes[0] != 0 then 1 else 0
  {
    if |bytes| > 1 {
      var init := bytes[..|bytes| - 1];
      NonZeroFront(init);
      assert init[1..] == bytes[1..][..|bytes| - 2];
    }
  }

  lemma {:induction false} NonZeroPositive(bytes: seq<Byte>)
    requires bytes != [] && bytes[|bytes| - 1] != 0
    ensures NonZero(bytes) > 0
  {
  }

  /** The decoder stops exactly at the last mask byte, because that byte is not zero. */
  lemma {:induction false} ReadMaskBack(mask: seq<Byte>, rest: seq<Byte>)
    requires mask != [] ==> mask[|mask| - 1] != 0
    ensures ReadMask(mask + rest, NonZero(mask)) == Parsed(mask, rest)
  {
    if mask == [] {
      assert mask + rest == rest;
    } else {
      NonZeroPositive(mask);
      NonZeroFront(mask);
      assert (mask + rest)[1..] == mask[1..] + rest;
      assert [mask[0]] + mask[1..] == mask;
      ReadMaskBack(mask[1..], rest);
    }
  }

  lemma CodeReads(c: Coins)
    requires !IsPruned(c)
    ensures var code := Code(c);
      && TestBit(code, 0) == c.coinBase && TestBit(code, 1) == c.coinStake
      && TestBit(code, 2) == Unspent(c.vout, 0) && TestBit(code, 3) == Unspent(c.vout, 1)
      && MaskCode(code) == NonZero(Mask(c.vout))
  {
    SomethingToWrite(c);
    var n := NonZero(Mask(c.vout));
    var first, second := Unspent(c.vout, 0), Unspent(c.vout, 1);
    CodeBits(if first || second then n else n - 1, c.coinBase, c.coinStake, first, second);
  }

  lemma CodeBits(n: nat, a: bool, b: bool, c: bool, d: bool)
    ensures var code := 16 * n + (if a then 1 else 0) + (if b then 2 else 0) + (if c then 4 else 0) +
      (if d then 8 else 0);
      TestBit(code, 0) == a && TestBit(code, 1) == b && TestBit(code, 2) == c && TestBit(code, 3) == d && code / 16 == n
  {
    var code := 16 * n + (if a then 1 else 0) + (if b then 2 else 0) + (if c then 4 else 0) + (if d then 8 else 0);
    assert code / 2 == 8 * n + (if b then 1 else 0) + (if c then 2 else 0) + (if d then 4 else 0);
    assert code / 2 / 2 == 4 * n + (if c then 1 else 0) + (if d then 2 else 0);
    assert code / 2 / 2 / 2 == 2 * n + (if d then 1 else 0);
    assert TestBit(code, 2) == TestBit(code / 2, 1) == TestBit(code / 2 / 2, 0);
    assert TestBit(code, 3) == TestBit(code / 2, 2) == TestBit(code / 2 / 2, 1) == TestBit(code / 2 / 2 / 2, 0);
  }

  lemma AvailAt(c: Coins, i: nat)
    requires !IsPruned(c) && i < |Avail(Code(c), Mask(c.vout))|
    ensures Avail(Code(c), Mask(c.vout))[i] == Unspent(c.vout, i)
  {
    if i >= 2 {
      AvailPastTwo(Code(c), Mask(c.vout), i);
      MaskCovers(c.vout, i);
    } else {
      CodeReads(c);
    }
  }

  lemma AvailPastTwo(code: nat, mask: seq<Byte>, i: nat)
    requires 2 <= i < 2 + 8 * |mask|
    ensures (i - 2) / 8 < |mask| && Avail(code, mask)[i] == TestBit(mask[(i - 2) / 8], (i - 2) % 8)
  {
  }

  lemma AvailIsUnspent(c: Coins)
    requires !IsPruned(c)
    ensures var avail := Avail(Code(c), Mask(c.vout));
      && (forall i :: 0 <= i < |avail| ==> avail[i] == Unspent(c.vout, i))
      && (forall i: nat :: i >= |avail| ==> !Unspent(c.vout, i))
  {
    var avail := Avail(Code(c), Mask(c.vout));
    forall i | 0 <= i < |avail| ensures avail[i] == Unspent(c.vout, i) {
      AvailAt(c, i);
    }
    forall i: nat | i >= |avail| ensures !Unspent(c.vout, i) {
      MaskCovers(c.vout, i);
    }
  }

  /** The first `n` outputs, with spent ones in their blank form. */
  function Blanked(vout: seq<TxOut>, n: nat): (r: seq<TxOut>)
    ensures |r| == n && forall i :: 0 <= i < n ==> r[i] == if Unspent(vout, i) then vout[i] else NULL_OUT
  {
    seq(n, i requires 0 <= i < n => if Unspent(vout, i) then vout[i] else NULL_OUT)
  }

  lemma {:induction false} WriteOutsNothing(codec: OutCodec, vout: seq<TxOut>, i: nat)
    requires forall j: nat :: j >= i ==> !Unspent(vout, j)
    ensures WriteOuts(codec, vout, i) == []
    decreases |vout| - i
  {
    if i < |vout| {
      assert !Unspent(vout, i);
      WriteOutsNothing(codec, vout, i + 1);
    }
  }

  lemma {:induction false} ReadOutsBack(codec: OutCodec, vout: seq<TxOut>, avail: seq<bool>, i: nat, rest: seq<Byte>)
    requires SelfDelimiting(codec) && i <= |avail|
    requires forall j :: 0 <= j < |avail| ==> avail[j] == Unspent(vout, j)
    requires forall j: nat :: j >= |avail| ==> !Unspent(vout, j)
    ensures ReadOuts(codec, avail, i, WriteOuts(codec, vout, i) + rest) == Parsed(Blanked(vout, |avail|)[i..], rest)
    decreases |avail| - i
  {
    var outs := Blanked(vout, |avail|);
    if i == |avail| {
      WriteOutsNothing(codec, vout, i);
      assert [] + rest == rest && outs[i..] == [];
    } else {
      ReadOutsBack(codec, vout, avail, i + 1, rest);
      assert outs[i..] == [outs[i]] + outs[i + 1..];
      if avail[i] {
        ReadOneBack(codec, vout, avail, i, rest, outs[i + 1..]);
      } else {
        WriteOutsSkip(codec, vout, i);
      }
    }
  }

  lemma ReadOneBack(codec: OutCodec, vout: seq<TxOut>, avail: seq<bool>, i: nat, rest: seq<Byte>, outs: seq<TxOut>)
    requires SelfDelimiting(codec) && i < |avail| && avail[i] && Unspent(vout, i)
    requires ReadOuts(codec, avail, i + 1, WriteOuts(codec, vout, i + 1) + rest) == Parsed(outs, rest)
    ensures ReadOuts(codec, avail, i, WriteOuts(codec, vout, i) + rest) == Parsed([vout[i]] + outs, rest)
  {
    assert WriteOuts(codec, vout, i) + rest == codec.write(vout[i]) + (WriteOuts(codec, vout, i + 1) + rest);
  }

  lemma WriteOutsSkip(codec: OutCodec, vout: seq<TxOut>, i: nat)
    requires !Unspent(vout, i)
    ensures WriteOuts(codec, vout, i) == WriteOuts(codec, vout, i + 1)
  {
  }

  /** Trimming depends only on the outputs up to the last unspent one. */
  lemma {:induction false} TrimmedBlanked(vout: seq<TxOut>, n: nat, m: nat)
    requires n <= m && forall j: nat :: j >= n ==> !Unspent(vout, j)
    ensures Trimmed(Blanked(vout, m)) == Trimmed(Blanked(vout, n))
    decreases m - n
  {
    if n < m {
      assert !Unspent(vout, m - 1);
      assert Blanked(vout, m)[..m - 1] == Blanked(vout, m - 1);
      TrimmedBlanked(vout, n, m - 1);
    }
  }

  /** A coins value with its spent outputs in their blank form. */
  function Blank(c: Coins): Coins {
    c.(vout := Blanked(c.vout, |c.vout|))
  }

  lemma BlankedEitherWay(vout: seq<TxOut>, n: nat)
    requires forall j: nat :: j >= n ==> !Unspent(vout, j)
    ensures Trimmed(Blanked(vout, n)) == Trimmed(Blanked(vout, |vout|))
  {
    if n <= |vout| { TrimmedBlanked(vout, n, |vout|); } else { TrimmedBlanked(vout, |vout|, n); }
  }

  lemma OutsRead(codec: OutCodec, c: Coins, rest: seq<Byte>) returns (vout: seq<TxOut>)
    requires SelfDelimiting(codec) && !IsPruned(c)
    ensures ReadOuts(codec, Avail(Code(c), Mask(c.vout)), 0, WriteOuts(codec, c.vout, 0) + rest) == Parsed(vout, rest)
    ensures Trimmed(vout) == Trimmed(Blanked(c.vout, |c.vout|))
  {
    var avail := Avail(Code(c), Mask(c.vout));
    AvailIsUnspent(c);
    ReadOutsBack(codec, c.vout, avail, 0, rest);
    vout := Blanked(c.vout, |avail|);
    assert vout[0..] == vout;
    BlankedEitherWay(c.vout, |avail|);
  }

  lemma TailReads(codec: OutCodec, c: Coins, version: nat, rest: seq<Byte>)
    requires SelfDelimiting(codec) && !IsPruned(c)
    ensures var r := ReadTail(codec, version, Code(c), Mask(c.vout),
                              WriteOuts(codec, c.vout, 0) + (WriteVarInt(c.height) + rest));
      && r.Parsed? && r.rest == rest
      && r.value.(height := c.height) == Cleanup(Blank(c)).(version := version)
      && (r.value.height == c.height <==> c.height >= 0)
  {
    CodeReads(c);
    var vout := OutsRead(codec, c, WriteVarInt(c.height) + rest);
    VarIntRoundTrip(c.height, rest);
  }

  /** For coins that are not fully spent, reading back what was written gives the coins with
      trailing spent outputs removed and consumes exactly what was written, if and only if the
      version and height are not negative. */
  lemma CoinsRoundTrip(codec: OutCodec, c: Coins, rest: seq<Byte>)
    requires SelfDelimiting(codec) && !IsPruned(c)
    ensures Unserialized(codec, Serialized(codec, c) + rest) == Parsed(Cleanup(Blank(c)), rest)
      <==> c.version >= 0 && c.height >= 0
  {
    var version := HeadReads(codec, c, rest);
    TailReads(codec, c, version, rest);
  }

  /** Version, code and mask are read back; the version only if it is not negative. */
  lemma HeadReads(codec: OutCodec, c: Coins, rest: seq<Byte>) returns (version: nat)
    requires !IsPruned(c)
    ensures version == c.version <==> c.version >= 0
    ensures Unserialized(codec, Serialized(codec, c) + rest) ==
      ReadTail(codec, version, Code(c), Mask(c.vout), WriteOuts(codec, c.vout, 0) + (WriteVarInt(c.height) + rest))
  {
    var code, mask := Code(c), Mask(c.vout);
    var r3 := WriteOuts(codec, c.vout, 0) + (WriteVarInt(c.height) + rest);
    var r2 := mask + r3;
    var r1 := WriteVarInt(code) + r2;
    SerializedShape(codec, c, rest);
    VarIntRoundTrip(c.version, r1);
    VarIntRoundTrip(code, r2);
    CodeReads(c);
    ReadMaskBack(mask, r3);
    version := ReadVarInt(WriteVarInt(c.version) + r1).value;
  }

  lemma SerializedShape(codec: OutCodec, c: Coins, rest: seq<Byte>)
    ensures Serialized(codec, c) + rest == WriteVarInt(c.version) + (WriteVarInt(Code(c)) + (Mask(c.vout) +
      (WriteOuts(codec, c.vout, 0) + (WriteVarInt(c.height) + rest))))
  {
  }

  // ---- the loops of Serialize and Unserialize ----

  /** One mask byte: `chAvail |= (1 << i)` for every unspent output (src/coins.h:217-220). */
  method PackMaskByte(vout: seq<TxOut>, b: nat) returns (ch: Byte)
    ensures ch == MaskByte(vout, b)
  {
    ghost var chunk := Chunk(vout, b);
    var sum := 0;
    var i := 0;
    while i < 8 && 2 + b * 8 + i < |vout|
      invariant 0 <= i <= 8 && sum == Pack(chunk[..i])
    {
      assert chunk[..i + 1] == chunk[..i] + [chunk[i]];
      PackAppend(chunk[..i], chunk[i]);
      if !vout[2 + b * 8 + i].IsNull() {
        sum := sum + Pow2(i);
      }
      i := i + 1;
    }
    PackFalseTail(chunk, i);
    assert sum == MaskByte(vout, b);
    ch := sum;
  }

  lemma {:induction false} PackFalseTail(bits: seq<bool>, i: nat)
    requires i <= |bits| && forall p :: i <= p < |bits| ==> !bits[p]
    ensures Pack(bits[..i]) == Pack(bits)
    decreases |bits| - i
  {
    if i == |bits| {
      assert bits[..i] == bits;
    } else {
      assert bits[..i + 1] == bits[..i] + [bits[i]];
      PackAppend(bits[..i], bits[i]);
      PackFalseTail(bits, i + 1);
    }
  }

  /** src/coins.h:202-230 */
  method Serialize(codec: OutCodec, c: Coins) returns (out: seq<Byte>)
    requires !IsPruned(c)
    ensures out == Serialized(codec, c)
  {
    var maskSize, maskCode := CalcMaskSize(c.vout);
    var code := HeaderCode(c, maskCode);
    out := WriteVarInt(c.version);
    out := out + WriteVarInt(code);
    var mask := WriteMask(c.vout, maskSize);
    out := out + mask;
    var outs := WriteUnspent(codec, c.vout);
    out := out + outs;
    out := out + WriteVarInt(c.height);
    Associate(WriteVarInt(c.version), WriteVarInt(code), mask, outs, WriteVarInt(c.height));
  }

  lemma Associate(a: seq<Byte>, b: seq<Byte>, c: seq<Byte>, d: seq<Byte>, e: seq<Byte>)
    ensures a + b + c + d + e == a + (b + (c + (d + e)))
  {
  }

  /** src/coins.h:207-210 */
  method HeaderCode(c: Coins, maskCode: nat) returns (code: nat)
    requires !IsPruned(c) && maskCode == NonZero(Mask(c.vout))
    ensures code == Code(c)
  {
    SomethingToWrite(c);
    var first := |c.vout| > 0 && !c.vout[0].IsNull();
    var second := |c.vout| > 1 && !c.vout[1].IsNull();
    assert first || second || maskCode != 0;
    code := 16 * (maskCode - if first || second then 0 else 1) +
      (if c.coinBase then 1 else 0) + (if c.coinStake then 2 else 0) +
      (if first then 4 else 0) + (if second then 8 else 0);
  }

  method WriteMask(vout: seq<TxOut>, maskSize: nat) returns (mask: seq<Byte>)
    requires maskSize == |Mask(vout)|
    ensures mask == Mask(vout)
  {
    mask := [];
    for b := 0 to maskSize
      invariant mask == Mask(vout)[..b]
    {
      var ch := PackMaskByte(vout, b);
      mask := mask + [ch];
    }
  }

  method WriteUnspent(codec: OutCodec, vout: seq<TxOut>) returns (out: seq<Byte>)
    ensures out == WriteOuts(codec, vout, 0)
  {
    out := [];
    for i := 0 to |vout|
      invariant out + WriteOuts(codec, vout, i) == WriteOuts(codec, vout, 0)
    {
      if !vout[i].IsNull() {
        out := out + codec.write(vout[i]);
      }
    }
  }

  function Prepend<T>(front: seq<T>, r: Parsed<seq<T>>): Parsed<seq<T>> {
    match r
    case NoValue => NoValue
    case Parsed(tail, rest) => Parsed(front + tail, rest)
  }

  /** The mask loop of Unserialize (src/coins.h:247-256): bits are pushed as bytes arrive. */
  method ReadMaskLoop(code: nat, bytes: seq<Byte>) returns (ok: bool, avail: seq<bool>, rest: seq<Byte>)
    ensures ok == ReadMask(bytes, MaskCode(code)).Parsed?
    ensures ok ==> var r := ReadMask(bytes, MaskCode(code)); avail == Avail(code, r.value) && rest == r.rest
  {
    avail := [TestBit(code, 2), TestBit(code, 3)];
    var n := MaskCode(code);
    rest := bytes;
    ghost var mask: seq<Byte> := [];
    assert avail == Avail(code, mask);
    PrependNone(ReadMask(rest, n));
    while n > 0
      invariant avail == Avail(code, mask)
      invariant ReadMask(bytes, MaskCode(code)) == Prepend(mask, ReadMask(rest, n))
      decreases |rest|
    {
      if |rest| == 0 {
        return false, avail, rest;
      }
      var ch := rest[0];
      avail := avail + seq(8, p requires 0 <= p < 8 => TestBit(ch, p));
      AvailNext(code, mask, ch);
      PrependNext(mask, ch, ReadMask(rest[1..], if ch != 0 then n - 1 else n));
      mask := mask + [ch];
      if ch != 0 {
        n := n - 1;
      }
      rest := rest[1..];
    }
    assert mask + [] == mask;
    ok := true;
  }

  lemma AvailNext(code: nat, mask: seq<Byte>, ch: Byte)
    ensures Avail(code, mask + [ch]) == Avail(code, mask) + seq(8, p requires 0 <= p < 8 => TestBit(ch, p))
  {
    var a, b := Avail(code, mask + [ch]), Avail(code, mask) + seq(8, p requires 0 <= p < 8 => TestBit(ch, p));
    assert |a| == |b|;
    forall i | 0 <= i < |a| ensures a[i] == b[i] {
      if i >= 2 { assert a[i] == TestBit((mask + [ch])[(i - 2) / 8], (i - 2) % 8); }
    }
  }

  lemma PrependNone<T>(r: Parsed<seq<T>>)
    ensures Prepend([], r) == r
  {
    if r.Parsed? { assert [] + r.value == r.value; }
  }

  lemma PrependNext<T>(front: seq<T>, x: T, r: Parsed<seq<T>>)
    ensures Prepend(front + [x], r) == Prepend(front, Prepend([x], r))
  {
    if r.Parsed? { assert front + [x] + r.value == front + ([x] + r.value); }
  }

  /** The output loop of Unserialize (src/coins.h:258-262): a blank vector filled in place. */
  method ReadOutsLoop(codec: OutCodec, avail: seq<bool>, bytes: seq<Byte>) returns (r: Parsed<seq<TxOut>>)
    ensures r == ReadOuts(codec, avail, 0, bytes)
  {
    var vout := seq(|avail|, _ => NULL_OUT);
    var rest := bytes;
    var i := 0;
    PrependNone(ReadOuts(codec, avail, 0, bytes));
    assert vout[..0] == [];
    while i < |avail|
      invariant i <= |avail| == |vout|
      invariant forall j :: i <= j < |vout| ==> vout[j] == NULL_OUT
      invariant ReadOuts(codec, avail, 0, bytes) == Prepend(vout[..i], ReadOuts(codec, avail, i, rest))
    {
      if avail[i] {
        var p := codec.read(rest);
        if p.NoValue? {
          return NoValue;
        }
        PrependNext(vout[..i], p.value, ReadOuts(codec, avail, i + 1, p.rest));
        assert vout[i := p.value][..i + 1] == vout[..i] + [p.value];
        vout := vout[i := p.value];
        rest := p.rest;
      } else {
        PrependNext(vout[..i], NULL_OUT, ReadOuts(codec, avail, i + 1, rest));
        assert vout[..i + 1] == vout[..i] + [NULL_OUT];
      }
      i := i + 1;
    }
    assert vout[..i] + [] == vout;
    r := Parsed(vout, rest);
  }

  /** src/coins.h:232-266 */
  method Unserialize(codec: OutCodec, bytes: seq<Byte>) returns (r: Parsed<Coins>)
    ensures r == Unserialized(codec, bytes)
  {
    var version := ReadVarInt(bytes);
    if version.NoValue? { return NoValue; }
    var code := ReadVarInt(version.rest);
    if code.NoValue? { return NoValue; }
    var ok, avail, rest := ReadMaskLoop(code.value, code.rest);
    if !ok { return NoValue; }
    var outs := ReadOutsLoop(codec, avail, rest);
    if outs.NoValue? { return NoValue; }
    var height := ReadVarInt(outs.rest);
    if height.NoValue? { return NoValue; }
    var c := Coins(TestBit(code.value, 0), TestBit(code.value, 1), outs.value, height.value, version.value);
    r := Parsed(Cleanup(c), height.rest);
  }
}
