/** The CRC-8 and CRC-16 loops (lib/bit_lib/bit_lib.c) and the errors they detect. */
module Crc {
  import opened Bits
  import opened Words
  import opened CrcTheory
  import opened CrcRemainder
  import BitLib

  /** The bits of the data in the order the loops take them in: bytes in order, each reversed if asked. */
  function Consumed(data: seq<bv8>, refIn: bool): (r: seq<bool>)
    ensures |r| == 8 * |data|
  {
    if data == [] then []
    else Consumed(data[..|data| - 1], refIn) + Reflected(Word8(data[|data| - 1]), refIn)
  }

  function Reflected(bits: seq<bool>, reverse: bool): (r: seq<bool>)
    ensures |r| == |bits|
  {
    if reverse then Reversed(bits) else bits
  }

  /** The check value: the register after all bits, optionally reversed, with the final mask. */
  function Check(data: seq<bv8>, poly: seq<bool>, init: seq<bool>, refIn: bool, refOut: bool,
      xorOut: seq<bool>): seq<bool>
    requires 0 < |poly| == |init| == |xorOut|
  {
    Xor(Reflected(Feed(init, Consumed(data, refIn), poly), refOut), xorOut)
  }

  lemma ReflectedInjective(a: seq<bool>, b: seq<bool>, reverse: bool)
    requires |a| == |b| && Reflected(a, reverse) == Reflected(b, reverse)
    ensures a == b
  {
    if reverse {
      forall i | 0 <= i < |a| ensures a[i] == b[i] {
        assert Reversed(a)[|a| - 1 - i] == Reversed(b)[|a| - 1 - i];
      }
    }
  }

  lemma XorInjective(a: seq<bool>, b: seq<bool>, x: seq<bool>)
    requires |a| == |b| == |x| && Xor(a, x) == Xor(b, x)
    ensures a == b
  {
    forall i | 0 <= i < |a| ensures a[i] == b[i] {
      assert Xor(a, x)[i] == Xor(b, x)[i];
    }
  }

  /** Two data blocks whose consumed bits differ only within one window no longer than the register have different
      check values. */
  lemma BurstChangesCheck(data: seq<bv8>, data': seq<bv8>, poly: seq<bool>, init: seq<bool>, refIn: bool,
      refOut: bool, xorOut: seq<bool>, p: nat, length: nat)
    requires 0 < |poly| == |init| == |xorOut| && poly[|poly| - 1]
    requires DifferInBurst(Consumed(data, refIn), Consumed(data', refIn), |poly|, p, length)
    ensures Check(data, poly, init, refIn, refOut, xorOut) != Check(data', poly, init, refIn, refOut, xorOut)
  {
    var r, r' := Feed(init, Consumed(data, refIn), poly), Feed(init, Consumed(data', refIn), poly);
    BurstDetected(init, Consumed(data, refIn), Consumed(data', refIn), poly, p, length);
    if Check(data, poly, init, refIn, refOut, xorOut) == Check(data', poly, init, refIn, refOut, xorOut) {
      XorInjective(Reflected(r, refOut), Reflected(r', refOut), xorOut);
      ReflectedInjective(r, r', refOut);
      assert false;
    }
  }

  // ---------- what the check value is ----------

  /** The message: the bits of the bytes in order, those of each byte from the highest down, or from the lowest up. */
  ghost predicate IsMessage(data: seq<bv8>, refIn: bool, bits: seq<bool>) {
    |bits| == 8 * |data| && forall k :: 0 <= k < |bits| ==>
      bits[k] == ByteBit(data[k / 8], if refIn then 7 - k % 8 else k % 8)
  }

  /** The mask is added to the register `r`, after its bits are put in reverse order if that is asked for. */
  predicate Presents(crc: seq<bool>, r: seq<bool>, refOut: bool, xorOut: seq<bool>)
    requires |r| == |xorOut|
  {
    |crc| == |r| && forall k :: 0 <= k < |r| ==> crc[k] == (r[if refOut then |r| - 1 - k else k] != xorOut[k])
  }

  /** `crc` presents the remainder of the message, with the start value added, by the polynomial. */
  ghost predicate IsCheckOf(crc: seq<bool>, data: seq<bv8>, poly: seq<bool>, init: seq<bool>, refIn: bool,
      refOut: bool, xorOut: seq<bool>)
    requires |poly| == |init| == |xorOut|
  {
    exists bits, q, r :: IsMessage(data, refIn, bits) && Divides(bits, init, poly, q, r) &&
      Presents(crc, r, refOut, xorOut)
  }

  lemma ByteReflected(b: bv8, refIn: bool, j: nat)
    requires j < 8
    ensures Reflected(Word8(b), refIn)[j] == ByteBit(b, if refIn then 7 - j else j)
  {
    OneByteBit(b, if refIn then 7 - j else j);
  }

  lemma ConsumedLast(data: seq<bv8>, last: nat, refIn: bool, k: nat)
    requires |data| == last + 1 && k < 8 * |data|
    ensures Consumed(data, refIn)[k] == if k < 8 * last then Consumed(data[..last], refIn)[k]
        else Reflected(Word8(data[last]), refIn)[k - 8 * last]
  {}

  /** Bit `j` of byte `i`. */
  lemma {:induction false} ConsumedAt(data: seq<bv8>, refIn: bool, i: nat, j: nat, k: nat)
    requires i < |data| && j < 8 && k == 8 * i + j
    ensures Consumed(data, refIn)[k] == ByteBit(data[i], if refIn then 7 - j else j)
    decreases |data|
  {
    var last := |data| - 1;
    ConsumedLast(data, last, refIn, k);
    if i < last {
      ConsumedAt(data[..last], refIn, i, j, k);
    } else {
      ByteReflected(data[last], refIn, j);
    }
  }

  lemma ConsumedIsMessage(data: seq<bv8>, refIn: bool)
    ensures IsMessage(data, refIn, Consumed(data, refIn))
  {
    forall k | 0 <= k < 8 * |data|
      ensures Consumed(data, refIn)[k] == ByteBit(data[k / 8], if refIn then 7 - k % 8 else k % 8)
    {
      ConsumedAt(data, refIn, k / 8, k % 8, k);
    }
  }

  lemma MessageIsUnique(data: seq<bv8>, refIn: bool, bits: seq<bool>, bits': seq<bool>)
    requires IsMessage(data, refIn, bits) && IsMessage(data, refIn, bits')
    ensures bits == bits'
  {
    SamePlaces(bits, bits');
  }

  lemma PresentsIff(crc: seq<bool>, r: seq<bool>, refOut: bool, xorOut: seq<bool>)
    requires |r| == |xorOut|
    ensures Presents(crc, r, refOut, xorOut) <==> crc == Xor(Reflected(r, refOut), xorOut)
  {
    var x := Xor(Reflected(r, refOut), xorOut);
    if Presents(crc, r, refOut, xorOut) { SamePlaces(crc, x); }
  }

  /** The check value is the one value that presents the remainder. */
  lemma CheckIffRemainder(crc: seq<bool>, data: seq<bv8>, poly: seq<bool>, init: seq<bool>, refIn: bool, refOut: bool,
      xorOut: seq<bool>)
    requires 0 < |poly| == |init| == |xorOut|
    ensures IsCheckOf(crc, data, poly, init, refIn, refOut, xorOut)
       <==> crc == Check(data, poly, init, refIn, refOut, xorOut)
  {
    var message := Consumed(data, refIn);
    var register := Feed(init, message, poly);
    ConsumedIsMessage(data, refIn);
    RemainderIff(message, init, poly, register);
    PresentsIff(crc, register, refOut, xorOut);
    if IsCheckOf(crc, data, poly, init, refIn, refOut, xorOut) {
      var bits, q, r :| IsMessage(data, refIn, bits) && Divides(bits, init, poly, q, r) &&
        Presents(crc, r, refOut, xorOut);
      MessageIsUnique(data, refIn, bits, message);
      RemainderIff(message, init, poly, r);
    }
  }

  /** The check value of no data is the start value, reversed if asked, with the mask added. */
  lemma EmptyMessage(poly: seq<bool>, init: seq<bool>, refIn: bool, refOut: bool, xorOut: seq<bool>)
    requires 0 < |poly| == |init| == |xorOut|
    ensures Check([], poly, init, refIn, refOut, xorOut) == Xor(Reflected(init, refOut), xorOut)
  {}

  /** The mask is added last. */
  lemma MaskIsAdded(data: seq<bv8>, poly: seq<bool>, init: seq<bool>, refIn: bool, refOut: bool, xorOut: seq<bool>)
    requires 0 < |poly| == |init| == |xorOut|
    ensures Check(data, poly, init, refIn, refOut, xorOut)
         == Xor(Check(data, poly, init, refIn, refOut, Zeros(|poly|)), xorOut)
  {
    XorLaws(Reflected(Feed(init, Consumed(data, refIn), poly), refOut));
  }

  lemma ReflectedXor(a: seq<bool>, b: seq<bool>, reverse: bool)
    requires |a| == |b|
    ensures Reflected(Xor(a, b), reverse) == Xor(Reflected(a, reverse), Reflected(b, reverse))
  {
    SamePlaces(Reflected(Xor(a, b), reverse), Xor(Reflected(a, reverse), Reflected(b, reverse)));
  }

  /** Two start values give results that differ as the remainder of their difference, followed by as many zeros as there
      are message bits: whatever the data and the mask are. */
  lemma StartDifference(data: seq<bv8>, poly: seq<bool>, init: seq<bool>, init': seq<bool>, refIn: bool, refOut: bool,
      xorOut: seq<bool>)
    requires 0 < |poly| == |init| == |init'| == |xorOut|
    ensures Xor(Check(data, poly, init, refIn, refOut, xorOut), Check(data, poly, init', refIn, refOut, xorOut))
         == Reflected(Feed(Xor(init, init'), Zeros(8 * |data|), poly), refOut)
  {
    var bits := Consumed(data, refIn);
    var r, r' := Feed(init, bits, poly), Feed(init', bits, poly);
    FeedLinear(init, init', bits, bits, poly);
    XorLaws(bits);
    ReflectedXor(r, r', refOut);
    MaskCancels(Reflected(r, refOut), Reflected(r', refOut), xorOut);
  }

  lemma MaskCancels(a: seq<bool>, b: seq<bool>, mask: seq<bool>)
    requires |a| == |b| == |mask|
    ensures Xor(Xor(a, mask), Xor(b, mask)) == Xor(a, b)
  {
    SamePlaces(Xor(Xor(a, mask), Xor(b, mask)), Xor(a, b));
  }

  /** Reflecting the input is the same as reversing the bits of every byte beforehand. */
  lemma ReflectedInput(data: seq<bv8>, data': seq<bv8>, poly: seq<bool>, init: seq<bool>, refOut: bool,
      xorOut: seq<bool>)
    requires 0 < |poly| == |init| == |xorOut| && |data| == |data'|
    requires forall i :: 0 <= i < |data| ==> Word8(data'[i]) == Reversed(Word8(data[i]))
    ensures Check(data, poly, init, true, refOut, xorOut) == Check(data', poly, init, false, refOut, xorOut)
  {
    ReflectedBytes(data, data');
  }

  lemma {:induction false} ReflectedBytes(data: seq<bv8>, data': seq<bv8>)
    requires |data| == |data'| && forall i :: 0 <= i < |data| ==> Word8(data'[i]) == Reversed(Word8(data[i]))
    ensures Consumed(data, true) == Consumed(data', false)
  {
    if data != [] { ReflectedBytes(data[..|data| - 1], data'[..|data| - 1]); }
  }

  /** Reflecting the output reverses the check value before the mask is added. */
  lemma ReflectedOutput(data: seq<bv8>, poly: seq<bool>, init: seq<bool>, refIn: bool, xorOut: seq<bool>)
    requires 0 < |poly| == |init| == |xorOut|
    ensures Check(data, poly, init, refIn, true, xorOut)
         == Xor(Reversed(Check(data, poly, init, refIn, false, Zeros(|poly|))), xorOut)
  {
    XorLaws(Feed(init, Consumed(data, refIn), poly));
  }

  // ---------- reversing words ----------

  function Reverse16(data: bv16): bv16 {
    ((data & 0x8000) >> 15) | ((data & 0x4000) >> 13) | ((data & 0x2000) >> 11) | ((data & 0x1000) >> 9)
    | ((data & 0x0800) >> 7) | ((data & 0x0400) >> 5) | ((data & 0x0200) >> 3) | ((data & 0x0100) >> 1)
    | ((data & 0x0080) << 1) | ((data & 0x0040) << 3) | ((data & 0x0020) << 5) | ((data & 0x0010) << 7)
    | ((data & 0x0008) << 9) | ((data & 0x0004) << 11) | ((data & 0x0002) << 13) | ((data & 0x0001) << 15)
  }

  /** The low sixteen bits of `u` are those of `v` in reverse. */
  predicate Mirror16(u: bv32, v: bv32) {
    && (u & 0x8000 != 0 <==> v & 0x1 != 0)
    && (u & 0x4000 != 0 <==> v & 0x2 != 0)
    && (u & 0x2000 != 0 <==> v & 0x4 != 0)
    && (u & 0x1000 != 0 <==> v & 0x8 != 0)
    && (u & 0x800 != 0 <==> v & 0x10 != 0)
    && (u & 0x400 != 0 <==> v & 0x20 != 0)
    && (u & 0x200 != 0 <==> v & 0x40 != 0)
    && (u & 0x100 != 0 <==> v & 0x80 != 0)
    && (u & 0x80 != 0 <==> v & 0x100 != 0)
    && (u & 0x40 != 0 <==> v & 0x200 != 0)
    && (u & 0x20 != 0 <==> v & 0x400 != 0)
    && (u & 0x10 != 0 <==> v & 0x800 != 0)
    && (u & 0x8 != 0 <==> v & 0x1000 != 0)
    && (u & 0x4 != 0 <==> v & 0x2000 != 0)
    && (u & 0x2 != 0 <==> v & 0x4000 != 0)
    && (u & 0x1 != 0 <==> v & 0x8000 != 0)
  }

  lemma Reverse16Masks(w: bv16)
    ensures Mirror16(Reverse16(w) as bv32, w as bv32)
  {}

  lemma ReversedBits(u: bv32, w: bv32, n: nat, k: nat, m: bv32, m': bv32)
    requires k < n && Single(m, n - 1 - k) && Single(m', k) && (u & m != 0 <==> w & m' != 0)
    ensures Word(u, n)[k] == Word(w, n)[n - 1 - k]
  {
    BitAt(u, m, n, k);
    BitAt(w, m', n, n - 1 - k);
  }

  lemma MirrorPick(u: bv32, v: bv32, k: nat) returns (m: bv32, m': bv32)
    requires k < 8 && Mirror16(u, v)
    ensures Single(m, 15 - k) && Single(m', k) && (u & m != 0 <==> v & m' != 0)
  {
    SingleMasks();
    if k == 0 {
      m, m' := 0x8000, 0x1;
    } else if k == 1 {
      m, m' := 0x4000, 0x2;
    } else if k == 2 {
      m, m' := 0x2000, 0x4;
    } else if k == 3 {
      m, m' := 0x1000, 0x8;
    } else if k == 4 {
      m, m' := 0x800, 0x10;
    } else if k == 5 {
      m, m' := 0x400, 0x20;
    } else if k == 6 {
      m, m' := 0x200, 0x40;
    } else {
      m, m' := 0x100, 0x80;
    }
  }

  lemma MirrorSymmetric(u: bv32, v: bv32)
    requires Mirror16(u, v)
    ensures Mirror16(v, u)
  {}

  lemma Mirrored(u: bv32, v: bv32, n: nat, k: nat)
    requires k < n == 16 && Mirror16(u, v)
    ensures Word(u, n)[k] == Word(v, n)[15 - k]
  {
    if k < 8 {
      var m, m' := MirrorPick(u, v, k);
      ReversedBits(u, v, n, k, m, m');
    } else {
      MirrorSymmetric(u, v);
      var m, m' := MirrorPick(v, u, 15 - k);
      ReversedBits(u, v, n, k, m', m);
    }
  }

  lemma Reverse16Bits(w: bv16)
    ensures Word16(Reverse16(w)) == Reversed(Word16(w))
  {
    var u, v := Reverse16(w) as bv32, w as bv32;
    Reverse16Masks(w);
    MirroredWord(u, v, 16);
  }

  predicate MirrorAt(u: bv32, v: bv32, n: nat, k: nat) {
    k < n ==> Word(u, n)[k] == Word(v, n)[n - 1 - k]
  }

  lemma SameReversed(a: seq<bool>, b: seq<bool>)
    requires |a| == |b| && forall k :: 0 <= k < |a| ==> a[k] == b[|b| - 1 - k]
    ensures a == Reversed(b)
  {}

  lemma MirroredAll(u: bv32, v: bv32, n: nat)
    requires forall k: nat :: MirrorAt(u, v, n, k)
    ensures Word(u, n) == Reversed(Word(v, n))
  {
    var a, b := Word(u, n), Word(v, n);
    forall k | 0 <= k < |a| ensures a[k] == b[|b| - 1 - k] {
      assert MirrorAt(u, v, n, k);
    }
    SameReversed(a, b);
  }

  lemma MirroredWord(u: bv32, v: bv32, n: nat)
    requires n == 16 && Mirror16(u, v)
    ensures Word(u, n) == Reversed(Word(v, n))
  {
    forall k: nat ensures MirrorAt(u, v, n, k) {
      if k < n { Mirrored(u, v, n, k); }
    }
    MirroredAll(u, v, n);
  }

  /** Reversing a byte as the high half of a 16-bit word. */
  function Reverse8(byte: bv8): bv8 {
    (Reverse16(byte as bv16) >> 8) as bv8
  }

  predicate Mirror8(u: bv32, v: bv32) {
    && (u & 0x80 != 0 <==> v & 0x1 != 0)
    && (u & 0x40 != 0 <==> v & 0x2 != 0)
    && (u & 0x20 != 0 <==> v & 0x4 != 0)
    && (u & 0x10 != 0 <==> v & 0x8 != 0)
    && (u & 0x8 != 0 <==> v & 0x10 != 0)
    && (u & 0x4 != 0 <==> v & 0x20 != 0)
    && (u & 0x2 != 0 <==> v & 0x40 != 0)
    && (u & 0x1 != 0 <==> v & 0x80 != 0)
  }

  lemma Reverse8Masks(b: bv8)
    ensures Mirror8(Reverse8(b) as bv32, b as bv32)
  {}

  lemma MirrorPick8(u: bv32, v: bv32, k: nat) returns (m: bv32, m': bv32)
    requires k < 8 && Mirror8(u, v)
    ensures Single(m, 7 - k) && Single(m', k) && (u & m != 0 <==> v & m' != 0)
  {
    SingleMasks();
    if k == 0 {
      m, m' := 0x80, 0x1;
    } else if k == 1 {
      m, m' := 0x40, 0x2;
    } else if k == 2 {
      m, m' := 0x20, 0x4;
    } else if k == 3 {
      m, m' := 0x10, 0x8;
    } else if k == 4 {
      m, m' := 0x8, 0x10;
    } else if k == 5 {
      m, m' := 0x4, 0x20;
    } else if k == 6 {
      m, m' := 0x2, 0x40;
    } else {
      m, m' := 0x1, 0x80;
    }
  }

  lemma Reverse8Bits(b: bv8)
    ensures Word8(Reverse8(b)) == Reversed(Word8(b))
  {
    var u, v := Reverse8(b) as bv32, b as bv32;
    Reverse8Masks(b);
    MirroredByte(u, v, 8);
  }

  lemma MirroredByte(u: bv32, v: bv32, n: nat)
    requires n == 8 && Mirror8(u, v)
    ensures Word(u, n) == Reversed(Word(v, n))
  {
    forall k: nat ensures MirrorAt(u, v, n, k) {
      if k < n { Mirrored8(u, v, n, k); }
    }
    MirroredAll(u, v, n);
  }

  lemma Mirrored8(u: bv32, v: bv32, n: nat, k: nat)
    requires k < n == 8 && Mirror8(u, v)
    ensures Word(u, n)[k] == Word(v, n)[7 - k]
  {
    var m, m' := MirrorPick8(u, v, k);
    ReversedBits(u, v, n, k, m, m');
  }

  // ---------- CRC-16 ----------

  method ShiftOut16(crc: bv16) returns (c15: bool, shifted: bv16)
    ensures c15 == Word16(crc)[0]
    ensures Word16(shifted) == Word16(crc)[1..] + [false]
  {
    Top16(crc);
    Shift16(crc);
    c15 := (crc >> 15) & 1 == 1;
    shifted := crc << 1;
  }

  method Add16(w: bv16, v: bv16) returns (r: bv16)
    ensures Word16(r) == Xor(Word16(w), Word16(v))
  {
    Xor16(w, v);
    r := w ^ v;
  }

  method Step16(crc: bv16, bit: bool, polynom: bv16) returns (r: bv16)
    ensures Word16(r) == Step(Word16(crc), bit, Word16(polynom))
  {
    var c15, shifted := ShiftOut16(crc);
    r := shifted;
    if c15 != bit { r := Add16(r, polynom); }
  }

  method Byte16(crc: bv16, byte: bv8, polynom: bv16) returns (r: bv16)
    ensures Word16(r) == Feed(Word16(crc), Word8(byte), Word16(polynom))
  {
    ghost var bits := Word8(byte);
    r := crc;
    for j := 0 to 8
      invariant Word16(r) == Feed(Word16(crc), bits[..j], Word16(polynom))
    {
      OneByteBit(byte, j);
      var bit := (byte >> (7 - j)) & 1 == 1;
      FeedNext(Word16(crc), bits, j, Word16(polynom));
      r := Step16(r, bit, polynom);
    }
    assert bits[..8] == bits;
  }

  lemma FeedNext(r: seq<bool>, bits: seq<bool>, j: nat, poly: seq<bool>)
    requires 0 < |r| == |poly| && j < |bits|
    ensures Feed(r, bits[..j + 1], poly) == Step(Feed(r, bits[..j], poly), bits[j], poly)
  {
    assert bits[..j + 1][..j] == bits[..j];
  }

  lemma ConsumedNext(r: seq<bool>, data: seq<bv8>, i: nat, refIn: bool, poly: seq<bool>)
    requires 0 < |r| == |poly| && i < |data|
    ensures Feed(r, Consumed(data[..i + 1], refIn), poly)
         == Feed(Feed(r, Consumed(data[..i], refIn), poly), Reflected(Word8(data[i]), refIn), poly)
  {
    assert data[..i + 1][..i] == data[..i];
    FeedConcat(r, Consumed(data[..i], refIn), Reflected(Word8(data[i]), refIn), poly);
  }

  method Crc16(data: array<bv8>, dataSize: nat, polynom: bv16, init: bv16, refIn: bool, refOut: bool,
      xorOut: bv16) returns (crc: bv16)
    requires dataSize <= data.Length
    ensures Word16(crc) == Check(data[..dataSize], Word16(polynom), Word16(init), refIn, refOut, Word16(xorOut))
    ensures IsCheckOf(Word16(crc), data[..dataSize], Word16(polynom), Word16(init), refIn, refOut, Word16(xorOut))
  {
    ghost var bytes := data[..dataSize];
    crc := init;
    for i := 0 to dataSize
      invariant Word16(crc) == Feed(Word16(init), Consumed(bytes[..i], refIn), Word16(polynom))
    {
      var byte := data[i];
      Reverse8Bits(byte);
      ConsumedNext(Word16(init), bytes, i, refIn, Word16(polynom));
      if refIn { byte := Reverse8(byte); }
      crc := Byte16(crc, byte, polynom);
    }
    assert bytes[..dataSize] == bytes;
    crc := Finish16(crc, refOut, xorOut);
    CheckIffRemainder(Word16(crc), bytes, Word16(polynom), Word16(init), refIn, refOut, Word16(xorOut));
  }

  method Finish16(crc: bv16, refOut: bool, xorOut: bv16) returns (r: bv16)
    ensures Word16(r) == Xor(Reflected(Word16(crc), refOut), Word16(xorOut))
  {
    Reverse16Bits(crc);
    r := crc;
    if refOut { r := Reverse16(r); }
    r := Add16(r, xorOut);
  }

  // ---------- CRC-8 ----------

  method ReverseByte(byte: bv8) returns (r: bv8)
    ensures Word8(r) == Reversed(Word8(byte))
  {
    var buffer := new bv8[1];
    buffer[0] := byte;
    assert buffer[..] == [byte];
    OneByte(byte);
    BitLib.ReverseBits(buffer, 0, 8);
    r := buffer[0];
    assert buffer[..] == [r];
    OneByte(r);
    SpliceWhole(Word8(byte), Reversed(Word8(byte)));
  }

  lemma SpliceWhole(bits: seq<bool>, r: seq<bool>)
    requires |bits| == |r|
    ensures bits[0..0 + |bits|] == bits && Splice(bits, 0, r) == r
  {
    forall q | 0 <= q < |bits| ensures Splice(bits, 0, r)[q] == r[q] {
      SpliceAt(bits, 0, r, q);
    }
  }

  method Step8(crc: bv8, polynom: bv8) returns (r: bv8)
    ensures Word8(r) == Step(Word8(crc), false, Word8(polynom))
  {
    Top8(crc);
    Shift8(crc);
    Xor8(crc << 1, polynom);
    if crc & 0x80 != 0 {
      r := (crc << 1) ^ polynom;
    } else {
      r := crc << 1;
    }
  }

  /** The byte is added to the whole register first, then the register is shifted eight times. */
  method Byte8(crc: bv8, byte: bv8, polynom: bv8) returns (r: bv8)
    ensures Word8(r) == Feed(Word8(crc), Word8(byte), Word8(polynom))
  {
    Xor8(crc, byte);
    r := crc ^ byte;
    ghost var start, poly := Xor(Word8(crc), Word8(byte)), Word8(polynom);
    var j := 8;
    while j > 0
      invariant 0 <= j <= 8
      invariant Word8(r) == Feed(start, Zeros(8 - j), poly)
    {
      FeedZero(start, 8 - j, poly);
      r := Step8(r, polynom);
      j := j - 1;
    }
    AlignedWhole(Word8(byte));
    FeedAligned(Word8(crc), Word8(byte), poly);
  }

  lemma FeedZero(r: seq<bool>, n: nat, poly: seq<bool>)
    requires 0 < |r| == |poly|
    ensures Feed(r, Zeros(n + 1), poly) == Step(Feed(r, Zeros(n), poly), false, poly)
  {
    assert Zeros(n + 1)[..n] == Zeros(n);
  }

  method Crc8(data: array<bv8>, dataSize: nat, polynom: bv8, init: bv8, refIn: bool, refOut: bool,
      xorOut: bv8) returns (crc: bv8)
    requires dataSize <= data.Length
    ensures Word8(crc) == Check(data[..dataSize], Word8(polynom), Word8(init), refIn, refOut, Word8(xorOut))
    ensures IsCheckOf(Word8(crc), data[..dataSize], Word8(polynom), Word8(init), refIn, refOut, Word8(xorOut))
  {
    ghost var bytes := data[..dataSize];
    crc := init;
    for i := 0 to dataSize
      invariant data[..dataSize] == bytes
      invariant Word8(crc) == Feed(Word8(init), Consumed(bytes[..i], refIn), Word8(polynom))
    {
      var byte := data[i];
      ConsumedNext(Word8(init), bytes, i, refIn, Word8(polynom));
      if refIn { byte := ReverseByte(byte); }
      crc := Byte8(crc, byte, polynom);
    }
    assert bytes[..dataSize] == bytes;
    crc := Finish8(crc, refOut, xorOut);
    CheckIffRemainder(Word8(crc), bytes, Word8(polynom), Word8(init), refIn, refOut, Word8(xorOut));
  }

  method Finish8(crc: bv8, refOut: bool, xorOut: bv8) returns (r: bv8)
    ensures Word8(r) == Xor(Reflected(Word8(crc), refOut), Word8(xorOut))
  {
    r := crc;
    if refOut { r := ReverseByte(r); }
    Xor8(r, xorOut);
    r := r ^ xorOut;
  }

  // ---------- what the two checks detect ----------

  lemma LowBit(w: bv32, n: nat)
    requires 0 < n
    ensures Word(w, n)[n - 1] == (w & 1 == 1)
  {}

  /** With the polynomial's low bit set, a burst of up to sixteen consumed bits always changes the CRC-16. */
  lemma Crc16DetectsBursts(data: seq<bv8>, data': seq<bv8>, polynom: bv16, init: bv16, refIn: bool, refOut: bool,
      xorOut: bv16,
                           p: nat, length: nat, crc: bv16, crc': bv16)
    requires polynom & 1 == 1
    requires DifferInBurst(Consumed(data, refIn), Consumed(data', refIn), 16, p, length)
    requires Word16(crc) == Check(data, Word16(polynom), Word16(init), refIn, refOut, Word16(xorOut))
    requires Word16(crc') == Check(data', Word16(polynom), Word16(init), refIn, refOut, Word16(xorOut))
    ensures crc != crc'
  {
    LowBit(polynom as bv32, 16);
    BurstChangesCheck(data, data', Word16(polynom), Word16(init), refIn, refOut, Word16(xorOut), p, length);
  }

  /** The same for CRC-8 and bursts of up to eight bits. */
  lemma Crc8DetectsBursts(data: seq<bv8>, data': seq<bv8>, polynom: bv8, init: bv8, refIn: bool, refOut: bool,
      xorOut: bv8,
                          p: nat, length: nat, crc: bv8, crc': bv8)
    requires polynom & 1 == 1
    requires DifferInBurst(Consumed(data, refIn), Consumed(data', refIn), 8, p, length)
    requires Word8(crc) == Check(data, Word8(polynom), Word8(init), refIn, refOut, Word8(xorOut))
    requires Word8(crc') == Check(data', Word8(polynom), Word8(init), refIn, refOut, Word8(xorOut))
    ensures crc != crc'
  {
    LowBit(polynom as bv32, 8);
    BurstChangesCheck(data, data', Word8(polynom), Word8(init), refIn, refOut, Word8(xorOut), p, length);
  }
}
