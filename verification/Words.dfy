/** Machine words as bit sequences, most significant bit first. */
module Words {
  import Bits
  import opened CrcTheory

  /** The low `n` bits. */
  function Word(w: bv32, n: nat): (r: seq<bool>)
    ensures |r| == n
  {
    if n == 0 then [] else Word(w >> 1, n - 1) + [w & 1 == 1]
  }

  function Word8(w: bv8): (r: seq<bool>)
    ensures |r| == 8
  {
    Word(w as bv32, 8)
  }

  function Word16(w: bv16): (r: seq<bool>)
    ensures |r| == 16
  {
    Word(w as bv32, 16)
  }

  // ---------- masks ----------

  /** `m` has exactly its low `n` bits set. */
  predicate Ones(m: bv32, n: nat) {
    if n == 0 then m == 0 else m & 1 == 1 && Ones(m >> 1, n - 1)
  }

  /** `m` has exactly bit `n` set. */
  predicate Single(m: bv32, n: nat) {
    if n == 0 then m == 1 else m & 1 == 0 && Single(m >> 1, n - 1)
  }

  lemma TailMask(w: bv32, m: bv32)
    requires m & 1 == 0
    ensures w & m != 0 <==> (w >> 1) & (m >> 1) != 0
  {}

  lemma {:induction false} BitAt(w: bv32, m: bv32, n: nat, k: nat)
    requires k < n && Single(m, n - 1 - k)
    ensures Word(w, n)[k] == (w & m != 0)
    decreases n
  {
    if k < n - 1 {
      BitAt(w >> 1, m >> 1, n - 1, k);
      TailMask(w, m);
    }
  }

  lemma TailAgrees(w: bv32, v: bv32, m: bv32)
    requires m & 1 == 1 && w & m == v & m
    ensures w & 1 == v & 1 && (w >> 1) & (m >> 1) == (v >> 1) & (m >> 1)
  {}

  /** Bits above the low `n` do not matter. */
  lemma {:induction false} SameWord(w: bv32, v: bv32, m: bv32, n: nat)
    requires Ones(m, n) && w & m == v & m
    ensures Word(w, n) == Word(v, n)
    decreases n
  {
    if n > 0 {
      TailAgrees(w, v, m);
      SameWord(w >> 1, v >> 1, m >> 1, n - 1);
    }
  }

  // ---------- shifts and exclusive or ----------

  lemma {:induction false} DropTop(w: bv32, n: nat)
    requires 0 < n
    ensures Word(w, n)[1..] == Word(w, n - 1)
    decreases n
  {
    if n > 1 { DropTop(w >> 1, n - 1); }
  }

  lemma ShiftBack(w: bv32)
    requires w & 0x8000_0000 == 0
    ensures (w << 1) >> 1 == w && (w << 1) & 1 == 0
  {}

  lemma ShiftedWord(w: bv32, n: nat)
    requires 0 < n && w & 0x8000_0000 == 0
    ensures Word(w << 1, n) == Word(w, n)[1..] + [false]
  {
    ShiftBack(w);
    DropTop(w, n);
  }

  lemma TailXor(x: bv32, w: bv32, v: bv32)
    requires x == w ^ v
    ensures x >> 1 == (w >> 1) ^ (v >> 1)
    ensures (x & 1 == 1) == ((w & 1 == 1) != (v & 1 == 1))
  {}

  predicate LowXor(x: bv32, w: bv32, v: bv32, n: nat) {
    n == 0 || ((x & 1 == 1) == ((w & 1 == 1) != (v & 1 == 1)) && LowXor(x >> 1, w >> 1, v >> 1, n - 1))
  }

  lemma {:induction false} LowXorHolds(x: bv32, w: bv32, v: bv32, n: nat)
    requires x == w ^ v
    ensures LowXor(x, w, v, n)
    decreases n
  {
    TailXor(x, w, v);
    if n > 0 { LowXorHolds(x >> 1, w >> 1, v >> 1, n - 1); }
  }

  lemma {:induction false} WordXor(x: bv32, w: bv32, v: bv32, n: nat)
    requires LowXor(x, w, v, n)
    ensures Word(x, n) == Xor(Word(w, n), Word(v, n))
    decreases n
  {
    if n > 0 {
      WordXor(x >> 1, w >> 1, v >> 1, n - 1);
      XorAppend(Word(w >> 1, n - 1), Word(v >> 1, n - 1), w & 1 == 1, v & 1 == 1);
    }
  }

  // ---------- the register widths ----------

  lemma {:induction false} WordZero(n: nat)
    ensures Word(0, n) == Zeros(n)
  {
    if n > 0 { WordZero(n - 1); }
  }

  lemma WideMask()
    ensures Ones(0x7fff_ffff, 31)
  {
    Masks();
    assert Ones(0x1_ffff, 17) && Ones(0x3_ffff, 18) && Ones(0x7_ffff, 19) && Ones(0xf_ffff, 20);
    assert Ones(0x1f_ffff, 21) && Ones(0x3f_ffff, 22) && Ones(0x7f_ffff, 23) && Ones(0xff_ffff, 24);
    assert Ones(0x1ff_ffff, 25) && Ones(0x3ff_ffff, 26) && Ones(0x7ff_ffff, 27) && Ones(0xfff_ffff, 28);
    assert Ones(0x1fff_ffff, 29) && Ones(0x3fff_ffff, 30) && Ones(0x7fff_ffff, 31);
  }

  lemma ShiftInBack(w: bv32, bit: bool)
    ensures var s := (w << 1) | (if bit then 1 else 0);
            (s >> 1) & 0x7fff_ffff == w & 0x7fff_ffff && (s & 1 == 1 <==> bit)
  {}

  lemma WordTail(s: bv32, w: bv32, bit: bool, n: nat)
    requires 0 < n && Word(s >> 1, n - 1) == Word(w, n - 1) && (s & 1 == 1 <==> bit)
    ensures Word(s, n) == Word(w, n)[1..] + [bit]
  {
    DropTop(w, n);
  }

  lemma ShiftInBy(s: bv32, w: bv32, bit: bool, m: bv32, n: nat)
    requires 0 < n && Ones(m, n - 1) && (s >> 1) & m == w & m && (s & 1 == 1 <==> bit)
    ensures Word(s, n) == Word(w, n)[1..] + [bit]
  {
    SameWord(s >> 1, w, m, n - 1);
    WordTail(s, w, bit, n);
  }

  lemma ShiftInWide(s: bv32, w: bv32, bit: bool)
    requires (s >> 1) & 0x7fff_ffff == w & 0x7fff_ffff && (s & 1 == 1 <==> bit)
    ensures Word(s, 32) == Word(w, 32)[1..] + [bit]
  {
    WideMask();
    ShiftInBy(s, w, bit, 0x7fff_ffff, 32);
  }

  /** Shifting a bit into a 32-bit word drops the top bit and appends the new one. */
  lemma ShiftIn32(w: bv32, bit: bool)
    ensures Word((w << 1) | (if bit then 1 else 0), 32) == Word(w, 32)[1..] + [bit]
  {
    ShiftInBack(w, bit);
    ShiftInWide((w << 1) | (if bit then 1 else 0), w, bit);
  }

  lemma Masks()
    ensures Ones(0xff, 8) && Ones(0xffff, 16)
  {
    assert Ones(0, 0) && Ones(1, 1) && Ones(3, 2) && Ones(7, 3) && Ones(0xf, 4);
    assert Ones(0x1f, 5) && Ones(0x3f, 6) && Ones(0x7f, 7) && Ones(0xff, 8);
    assert Ones(0x1ff, 9) && Ones(0x3ff, 10) && Ones(0x7ff, 11) && Ones(0xfff, 12);
    assert Ones(0x1fff, 13) && Ones(0x3fff, 14) && Ones(0x7fff, 15) && Ones(0xffff, 16);
  }

  lemma SingleMasks()
    ensures Single(1, 0) && Single(2, 1) && Single(4, 2) && Single(8, 3)
    ensures Single(0x10, 4) && Single(0x20, 5) && Single(0x40, 6) && Single(0x80, 7)
    ensures Single(0x100, 8) && Single(0x200, 9) && Single(0x400, 10) && Single(0x800, 11)
    ensures Single(0x1000, 12) && Single(0x2000, 13) && Single(0x4000, 14) && Single(0x8000, 15)
  {}

  lemma Widen16(w: bv16, v: bv16)
    ensures ((w << 1) as bv32) & 0xffff == ((w as bv32) << 1) & 0xffff
    ensures (w as bv32) & 0x8000_0000 == 0
    ensures (w ^ v) as bv32 == (w as bv32) ^ (v as bv32)
  {}

  lemma Widen8(w: bv8, v: bv8)
    ensures ((w << 1) as bv32) & 0xff == ((w as bv32) << 1) & 0xff
    ensures (w as bv32) & 0x8000_0000 == 0
    ensures (w ^ v) as bv32 == (w as bv32) ^ (v as bv32)
  {}

  lemma ShiftedLow(w: bv32, v: bv32, m: bv32, n: nat)
    requires 0 < n && Ones(m, n) && w & 0x8000_0000 == 0 && v & m == (w << 1) & m
    ensures Word(v, n) == Word(w, n)[1..] + [false]
  {
    ShiftedWord(w, n);
    SameWord(v, w << 1, m, n);
  }

  lemma Shift16(w: bv16)
    ensures Word16(w << 1) == Word16(w)[1..] + [false]
  {
    Masks();
    Widen16(w, 0);
    ShiftedLow(w as bv32, (w << 1) as bv32, 0xffff, 16);
  }

  lemma Shift8(w: bv8)
    ensures Word8(w << 1) == Word8(w)[1..] + [false]
  {
    Masks();
    Widen8(w, 0);
    ShiftedLow(w as bv32, (w << 1) as bv32, 0xff, 8);
  }

  lemma Xor16(w: bv16, v: bv16)
    ensures Word16(w ^ v) == Xor(Word16(w), Word16(v))
  {
    Widen16(w, v);
    LowXorHolds((w ^ v) as bv32, w as bv32, v as bv32, 16);
    WordXor((w ^ v) as bv32, w as bv32, v as bv32, 16);
  }

  lemma Xor8(w: bv8, v: bv8)
    ensures Word8(w ^ v) == Xor(Word8(w), Word8(v))
  {
    Widen8(w, v);
    LowXorHolds((w ^ v) as bv32, w as bv32, v as bv32, 8);
    WordXor((w ^ v) as bv32, w as bv32, v as bv32, 8);
  }

  lemma Top16(w: bv16)
    ensures Word16(w)[0] == ((w >> 15) & 1 == 1)
  {
    SingleMasks();
    BitAt(w as bv32, 0x8000, 16, 0);
  }

  lemma Top8(w: bv8)
    ensures Word8(w)[0] == (w & 0x80 != 0)
  {
    SingleMasks();
    BitAt(w as bv32, 0x80, 8, 0);
  }

  lemma OneByteBit(b: bv8, k: nat)
    requires k < 8
    ensures Word8(b)[k] == Bits.ByteBit(b, k)
  {
    Bits.BitByMask(b, k);
    Bits.MaskValue(k);
    ByteMask(k);
    BitAt(b as bv32, Bits.Mask(k) as bv32, 8, k);
  }

  lemma ByteMask(k: nat)
    requires k < 8
    ensures Single([0x80, 0x40, 0x20, 0x10, 8, 4, 2, 1][k], 7 - k)
  {
    SingleMasks();
  }

  /** A byte read as a word has the byte's own bits. */
  lemma OneByte(b: bv8)
    ensures Word8(b) == Bits.Of([b])
  {
    forall k | 0 <= k < 8 ensures Word8(b)[k] == Bits.Of([b])[k] {
      OneByteBit(b, k);
      Bits.OfAt([b], k);
    }
  }
}
