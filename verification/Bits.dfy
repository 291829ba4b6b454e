/** Bytes as sequences of bits, most significant bit first, as lib/bit_lib/bit_lib.c addresses them. */
module Bits {

  /** Bit `k` of a byte, counted from the most significant. */
  function ByteBit(b: bv8, k: nat): bool
    requires k < 8
  {
    (b >> (7 - k)) & 1 == 1
  }

  function SetByteBit(b: bv8, k: nat, bit: bool): bv8
    requires k < 8
  {
    if bit then b | (1 << (7 - k)) else b & !(1 << (7 - k))
  }

  function Mask(k: nat): bv8
    requires k < 8
  {
    1 << (7 - k)
  }

  lemma MaskValue(k: nat)
    requires k < 8
    ensures Mask(k) == [0x80, 0x40, 0x20, 0x10, 8, 4, 2, 1][k]
  {
    if k < 4 {
      if k == 0 {} else if k == 1 {} else if k == 2 {} else {}
    } else {
      if k == 4 {} else if k == 5 {} else if k == 6 {} else {}
    }
  }

  lemma BitByMask(b: bv8, k: nat)
    requires k < 8
    ensures ByteBit(b, k) <==> b & Mask(k) != 0
  {
    if k < 4 {
      if k == 0 {} else if k == 1 {} else if k == 2 {} else {}
    } else {
      if k == 4 {} else if k == 5 {} else if k == 6 {} else {}
    }
  }

  lemma MasksApart(j: nat, k: nat)
    requires j < 8 && k < 8
    ensures if j == k then Mask(j) & Mask(k) == Mask(k) != 0 else Mask(j) & Mask(k) == 0
  {
    MaskValue(j);
    MaskValue(k);
  }

  lemma MaskedChange(b: bv8, m: bv8, n: bv8)
    ensures m & n == 0 ==> (b | m) & n == b & n && (b & !m) & n == b & n
    ensures (b | m) & m == m && (b & !m) & m == 0
  {}

  lemma SetByteBitAt(b: bv8, k: nat, bit: bool, j: nat)
    requires k < 8 && j < 8
    ensures ByteBit(SetByteBit(b, k, bit), j) == if j == k then bit else ByteBit(b, j)
  {
    BitByMask(b, j);
    BitByMask(SetByteBit(b, k, bit), j);
    MasksApart(k, j);
    MaskedChange(b, Mask(k), Mask(j));
  }

  /** All bits of the bytes, in order. */
  function Of(bytes: seq<bv8>): (r: seq<bool>)
    ensures |r| == 8 * |bytes|
  {
    seq(8 * |bytes|, p requires 0 <= p < 8 * |bytes| => ByteBit(bytes[p / 8], p % 8))
  }

  lemma OfAt(bytes: seq<bv8>, p: nat)
    requires p < 8 * |bytes|
    ensures Of(bytes)[p] == ByteBit(bytes[p / 8], p % 8)
  {}

  /** Changing one bit of one byte changes that bit of the whole and no other. */
  lemma OfSetBit(bytes: seq<bv8>, p: nat, bit: bool)
    requires p < 8 * |bytes|
    ensures Of(bytes[p / 8 := SetByteBit(bytes[p / 8], p % 8, bit)]) == Of(bytes)[p := bit]
  {
    var changed := bytes[p / 8 := SetByteBit(bytes[p / 8], p % 8, bit)];
    forall q | 0 <= q < 8 * |bytes| ensures Of(changed)[q] == Of(bytes)[p := bit][q] {
      OfAt(bytes, q);
      OfAt(changed, q);
      if q / 8 == p / 8 { SetByteBitAt(bytes[p / 8], p % 8, bit, q % 8); }
    }
  }

  /** `bits` with the stretch from `p` on replaced by `r`. */
  function Splice(bits: seq<bool>, p: nat, r: seq<bool>): (s: seq<bool>)
    requires p + |r| <= |bits|
    ensures |s| == |bits|
  {
    seq(|bits|, q requires 0 <= q < |bits| => if p <= q < p + |r| then r[q - p] else bits[q])
  }

  lemma SpliceAt(bits: seq<bool>, p: nat, r: seq<bool>, q: nat)
    requires p + |r| <= |bits| && q < |bits|
    ensures Splice(bits, p, r)[q] == if p <= q < p + |r| then r[q - p] else bits[q]
  {}

  lemma SpliceExtend(bits: seq<bool>, p: nat, r: seq<bool>, bit: bool)
    requires p + |r| < |bits|
    ensures Splice(bits, p, r)[p + |r| := bit] == Splice(bits, p, r + [bit])
  {
    var s, t := Splice(bits, p, r)[p + |r| := bit], Splice(bits, p, r + [bit]);
    forall q | 0 <= q < |bits| ensures s[q] == t[q] {
      SpliceAt(bits, p, r, q);
      SpliceAt(bits, p, r + [bit], q);
    }
  }

  lemma SpliceJoin(bits: seq<bool>, p: nat, r: seq<bool>, s: seq<bool>)
    requires p + |r| + |s| <= |bits|
    ensures Splice(Splice(bits, p, r), p + |r|, s) == Splice(bits, p, r + s)
  {
    var t, u := Splice(Splice(bits, p, r), p + |r|, s), Splice(bits, p, r + s);
    forall q | 0 <= q < |bits| ensures t[q] == u[q] {
      SpliceAt(bits, p, r, q);
      SpliceAt(Splice(bits, p, r), p + |r|, s, q);
      SpliceAt(bits, p, r + s, q);
    }
  }

  lemma SpliceHolds(bits: seq<bool>, p: nat, r: seq<bool>)
    requires p + |r| <= |bits|
    ensures Splice(bits, p, r)[p..p + |r|] == r
  {
    forall q | p <= q < p + |r| ensures Splice(bits, p, r)[q] == r[q - p] { SpliceAt(bits, p, r, q); }
  }

  /** A splice over the front of another one. */
  lemma SpliceOver(bits: seq<bool>, p: nat, r: seq<bool>, s: seq<bool>)
    requires p + |r| <= |bits| && |s| <= |r|
    ensures Splice(Splice(bits, p, r), p, s) == Splice(bits, p, s + r[|s|..])
  {
    var t, u := Splice(Splice(bits, p, r), p, s), Splice(bits, p, s + r[|s|..]);
    forall q | 0 <= q < |bits| ensures t[q] == u[q] {
      SpliceAt(bits, p, r, q);
      SpliceAt(Splice(bits, p, r), p, s, q);
      SpliceAt(bits, p, s + r[|s|..], q);
    }
  }

  lemma SpliceNothing(bits: seq<bool>, p: nat)
    requires p <= |bits|
    ensures Splice(bits, p, []) == bits
  {
    forall q | 0 <= q < |bits| ensures Splice(bits, p, [])[q] == bits[q] {
      SpliceAt(bits, p, [], q);
    }
  }

  /** The low `n` bits of a byte, most significant first. */
  function Low(b: bv8, n: nat): (r: seq<bool>)
    requires n <= 8
    ensures |r| == n
    ensures forall i :: 0 <= i < n ==> r[i] == ByteBit(b, 8 - n + i)
  {
    seq(n, i requires 0 <= i < n => ByteBit(b, 8 - n + i))
  }

  /** Shifting a bit into a byte appends it to the low bits. */
  lemma ShiftIn(b: bv8, bit: bool, j: nat)
    requires j < 8
    ensures ByteBit((b << 1) | (if bit then 1 else 0), j) == if j == 7 then bit else ByteBit(b, j + 1)
  {
    if j < 4 {
      if j == 0 {} else if j == 1 {} else if j == 2 {} else {}
    } else {
      if j == 4 {} else if j == 5 {} else if j == 6 {} else {}
    }
  }

  lemma LowShiftIn(b: bv8, bit: bool, n: nat)
    requires n < 8
    ensures Low((b << 1) | (if bit then 1 else 0), n + 1) == Low(b, n) + [bit]
  {
    forall i | 0 <= i <= n
      ensures Low((b << 1) | (if bit then 1 else 0), n + 1)[i] == (Low(b, n) + [bit])[i]
    {
      ShiftIn(b, bit, 8 - (n + 1) + i);
    }
  }

  lemma DownOne(b: bv8, j: nat)
    requires j < 8
    ensures ByteBit(b >> 1, j) == (j > 0 && ByteBit(b, j - 1))
  {
    if j < 4 {
      if j == 0 {} else if j == 1 {} else if j == 2 {} else {}
    } else {
      if j == 4 {} else if j == 5 {} else if j == 6 {} else {}
    }
  }

  lemma UpOne(b: bv8, j: nat)
    requires j < 8
    ensures ByteBit(b << 1, j) == (j < 7 && ByteBit(b, j + 1))
  {
    if j < 4 {
      if j == 0 {} else if j == 1 {} else if j == 2 {} else {}
    } else {
      if j == 4 {} else if j == 5 {} else if j == 6 {} else {}
    }
  }

  lemma OrLow(a: bv8, b: bv8)
    ensures ByteBit(a | b, 0) == (ByteBit(a, 0) || ByteBit(b, 0))
    ensures ByteBit(a | b, 1) == (ByteBit(a, 1) || ByteBit(b, 1))
    ensures ByteBit(a | b, 2) == (ByteBit(a, 2) || ByteBit(b, 2))
    ensures ByteBit(a | b, 3) == (ByteBit(a, 3) || ByteBit(b, 3))
  {}

  lemma OrHigh(a: bv8, b: bv8)
    ensures ByteBit(a | b, 4) == (ByteBit(a, 4) || ByteBit(b, 4))
    ensures ByteBit(a | b, 5) == (ByteBit(a, 5) || ByteBit(b, 5))
    ensures ByteBit(a | b, 6) == (ByteBit(a, 6) || ByteBit(b, 6))
    ensures ByteBit(a | b, 7) == (ByteBit(a, 7) || ByteBit(b, 7))
  {}

  lemma OrBit(a: bv8, b: bv8, j: nat)
    requires j < 8
    ensures ByteBit(a | b, j) == (ByteBit(a, j) || ByteBit(b, j))
  {
    OrLow(a, b);
    OrHigh(a, b);
    assert j == 0 || j == 1 || j == 2 || j == 3 || j == 4 || j == 5 || j == 6 || j == 7;
  }

  /** Shifting one place at a time. */
  function Down(b: bv8, m: nat): bv8 {
    if m == 0 then b else Down(b, m - 1) >> 1
  }

  function Up(b: bv8, m: nat): bv8 {
    if m == 0 then b else Up(b, m - 1) << 1
  }

  lemma ShiftOneMore(b: bv8, m: nat)
    requires m < 8
    ensures b >> (m + 1) == (b >> m) >> 1 && b << (m + 1) == (b << m) << 1
    ensures b >> 0 == b && b << 0 == b
  {
    if m < 4 {
      if m == 0 {} else if m == 1 {} else if m == 2 {} else {}
    } else {
      if m == 4 {} else if m == 5 {} else if m == 6 {} else {}
    }
  }

  lemma {:induction false} ShiftSteps(b: bv8, m: nat)
    requires m <= 8
    ensures b >> m == Down(b, m) && b << m == Up(b, m)
    decreases m
  {
    if m == 0 {
      ShiftOneMore(b, 0);
    } else {
      ShiftSteps(b, m - 1);
      ShiftOneMore(b, m - 1);
    }
  }

  /** `m` zeros in front of the leading bits, or behind the trailing ones. */
  function MovedDown(bits: seq<bool>, m: nat): seq<bool>
    requires m <= |bits|
  {
    seq(m, _ => false) + bits[..|bits| - m]
  }

  function MovedUp(bits: seq<bool>, m: nat): seq<bool>
    requires m <= |bits|
  {
    bits[m..] + seq(m, _ => false)
  }

  lemma OneMove(b: bv8)
    ensures Low(b >> 1, 8) == MovedDown(Low(b, 8), 1) && Low(b << 1, 8) == MovedUp(Low(b, 8), 1)
  {
    forall j | 0 <= j < 8 ensures Low(b >> 1, 8)[j] == MovedDown(Low(b, 8), 1)[j] {
      DownOne(b, j);
    }
    forall j | 0 <= j < 8 ensures Low(b << 1, 8)[j] == MovedUp(Low(b, 8), 1)[j] {
      UpOne(b, j);
    }
  }

  lemma MoveMore(bits: seq<bool>, m: nat)
    requires m < |bits|
    ensures MovedDown(MovedDown(bits, m), 1) == MovedDown(bits, m + 1)
    ensures MovedUp(MovedUp(bits, m), 1) == MovedUp(bits, m + 1)
  {}

  lemma {:induction false} MovedBits(b: bv8, m: nat)
    requires m <= 8
    ensures Low(Down(b, m), 8) == MovedDown(Low(b, 8), m) && Low(Up(b, m), 8) == MovedUp(Low(b, 8), m)
    decreases m
  {
    if m > 0 {
      MovedBits(b, m - 1);
      OneMove(Down(b, m - 1));
      OneMove(Up(b, m - 1));
      MoveMore(Low(b, 8), m - 1);
    }
  }

  lemma MovedAt(bits: seq<bool>, m: nat, j: nat)
    requires m <= |bits| && j < |bits|
    ensures |MovedDown(bits, m)| == |MovedUp(bits, m)| == |bits|
    ensures MovedDown(bits, m)[j] == (j >= m && bits[j - m])
    ensures MovedUp(bits, m)[j] == (j + m < |bits| && bits[j + m])
  {}

  lemma LowWhole(b: bv8, bits: seq<bool>, j: nat)
    requires j < 8 && Low(b, 8) == bits
    ensures |bits| == 8 && bits[j] == ByteBit(b, j)
  {}

  lemma DownBitOf(d: bv8, b: bv8, bits: seq<bool>, m: nat, j: nat)
    requires m <= 8 && j < 8 && Low(b, 8) == bits && Low(d, 8) == MovedDown(bits, m)
    ensures ByteBit(d, j) == (j >= m && ByteBit(b, j - m))
  {
    MovedAt(bits, m, j);
    LowWhole(d, MovedDown(bits, m), j);
    if j >= m { LowWhole(b, bits, j - m); }
  }

  lemma UpBitOf(u: bv8, b: bv8, bits: seq<bool>, m: nat, j: nat)
    requires m <= 8 && j < 8 && Low(b, 8) == bits && Low(u, 8) == MovedUp(bits, m)
    ensures ByteBit(u, j) == (j + m < 8 && ByteBit(b, j + m))
  {
    MovedAt(bits, m, j);
    LowWhole(u, MovedUp(bits, m), j);
    if j + m < 8 { LowWhole(b, bits, j + m); }
  }

  /** Shifting right moves the bits down and fills with zeros. */
  lemma DownBit(b: bv8, m: nat, j: nat)
    requires m <= 8 && j < 8
    ensures ByteBit(Down(b, m), j) == (j >= m && ByteBit(b, j - m))
  {
    MovedBits(b, m);
    DownBitOf(Down(b, m), b, Low(b, 8), m, j);
  }

  /** Shifting left moves the bits up and fills with zeros. */
  lemma UpBit(b: bv8, m: nat, j: nat)
    requires m <= 8 && j < 8
    ensures ByteBit(Up(b, m), j) == (j + m < 8 && ByteBit(b, j + m))
  {
    MovedBits(b, m);
    UpBitOf(Up(b, m), b, Low(b, 8), m, j);
  }

  function Reversed(bits: seq<bool>): (r: seq<bool>)
    ensures |r| == |bits|
    ensures forall i :: 0 <= i < |r| ==> r[i] == bits[|bits| - 1 - i]
  {
    seq(|bits|, i requires 0 <= i < |bits| => bits[|bits| - 1 - i])
  }
}
