/** In-place operations on bit-addressed byte buffers (lib/bit_lib/bit_lib.c). */
module BitLib {
  import opened Lists
  import opened Remainders
  import opened Bits
  import opened Words
  import opened Parity

  method GetBit(data: array<bv8>, position: nat) returns (bit: bool)
    requires position < 8 * data.Length
    ensures bit == Of(data[..])[position]
  {
    OfAt(data[..], position);
    bit := (data[position / 8] >> (7 - position % 8)) & 1 == 1;
  }

  /** Bit `j` of a byte shifted up, or down, by `m`; the places left free are zero. */
  predicate ShiftedUp(b: bv8, m: nat, r: bv8, j: nat) {
    j < 8 ==> ByteBit(r, j) == (j + m < 8 && ByteBit(b, j + m))
  }

  predicate ShiftedDown(b: bv8, m: nat, r: bv8, j: nat) {
    j < 8 ==> ByteBit(r, j) == (j >= m && ByteBit(b, j - m))
  }

  predicate Joined(a: bv8, b: bv8, r: bv8, j: nat) {
    j < 8 ==> ByteBit(r, j) == (ByteBit(a, j) || ByteBit(b, j))
  }

  method ShiftUp(b: bv8, m: nat) returns (r: bv8)
    requires m <= 8
    ensures forall j: nat :: ShiftedUp(b, m, r, j)
  {
    r := b << m;
    ShiftSteps(b, m);
    forall j: nat ensures ShiftedUp(b, m, r, j) {
      if j < 8 { UpBit(b, m, j); }
    }
  }

  method ShiftDown(b: bv8, m: nat) returns (r: bv8)
    requires m <= 8
    ensures forall j: nat :: ShiftedDown(b, m, r, j)
  {
    r := b >> m;
    ShiftSteps(b, m);
    forall j: nat ensures ShiftedDown(b, m, r, j) {
      if j < 8 { DownBit(b, m, j); }
    }
  }

  method Or(a: bv8, b: bv8) returns (r: bv8)
    ensures forall j: nat :: Joined(a, b, r, j)
  {
    r := a | b;
    forall j: nat ensures Joined(a, b, r, j) {
      if j < 8 { OrBit(a, b, j); }
    }
  }

  /** Eight bits across a byte boundary. */
  method Window(data: array<bv8>, index: nat, shift: nat) returns (value: bv8)
    requires 0 < shift < 8 && index + 1 < data.Length
    ensures Low(value, 8) == Of(data[..])[8 * index + shift..8 * index + shift + 8]
  {
    var up := ShiftUp(data[index], shift);
    var down := ShiftDown(data[index + 1], 8 - shift);
    value := Or(up, down);
    forall j | 0 <= j < 8 ensures Low(value, 8)[j] == Of(data[..])[8 * index + shift..8 * index + shift + 8][j] {
      WindowBit(data[..], index, shift, up, down, value, j);
    }
  }

  lemma WindowBit(bytes: seq<bv8>, index: nat, shift: nat, up: bv8, down: bv8, value: bv8, j: nat)
    requires 0 < shift < 8 && index + 1 < |bytes| && j < 8
    requires ShiftedUp(bytes[index], shift, up, j) && ShiftedDown(bytes[index + 1], 8 - shift, down, j) &&
        Joined(up, down, value, j)
    ensures ByteBit(value, j) == Of(bytes)[8 * index + shift + j]
  {
    if j + shift < 8 {
      BitOfByte(bytes, index, j + shift);
    } else {
      BitOfByte(bytes, index + 1, j + shift - 8);
    }
  }

  /** The low `length` bits of the result are the addressed bits, the others are zero.  An unaligned field needs one
      more readable byte, even when the field ends before it. */
  method GetBits(data: array<bv8>, position: nat, length: nat) returns (r: bv8)
    requires 0 < length <= 8 && position / 8 < data.Length && (position % 8 != 0 ==> position / 8 + 1 < data.Length)
    ensures Low(r, length) == Of(data[..])[position..position + length]
    ensures forall j :: 0 <= j < 8 - length ==> !ByteBit(r, j)
  {
    var index, shift := position / 8, position % 8;
    var value;
    if shift == 0 {
      value := data[index];
      WholeByte(data[..], index);
    } else {
      value := Window(data, index, shift);
    }
    assert Low(value, 8) == Of(data[..])[position..position + 8];
    r := ShiftDown(value, 8 - length);
    LeadingBits(value, length, 8 - length, r);
    FirstOf(Of(data[..]), position, length);
  }

  lemma WholeByte(bytes: seq<bv8>, index: nat)
    requires index < |bytes|
    ensures Low(bytes[index], 8) == Of(bytes)[8 * index..8 * index + 8]
  {
    forall j | 0 <= j < 8 ensures Low(bytes[index], 8)[j] == Of(bytes)[8 * index..8 * index + 8][j] {
      BitOfByte(bytes, index, j);
    }
  }

  lemma FirstOf(bits: seq<bool>, position: nat, length: nat)
    requires length <= 8 && position + 8 <= |bits|
    ensures bits[position..position + 8][..length] == bits[position..position + length]
  {}

  lemma LeadingBits(value: bv8, length: nat, m: nat, r: bv8)
    requires 0 < length && length + m == 8 && forall j: nat :: ShiftedDown(value, m, r, j)
    ensures Low(r, length) == Low(value, 8)[..length]
    ensures forall j :: 0 <= j < 8 - length ==> !ByteBit(r, j)
  {
    forall i | 0 <= i < length ensures Low(r, length)[i] == Low(value, 8)[i] {
      assert ShiftedDown(value, m, r, m + i);
    }
    forall j | 0 <= j < 8 - length ensures !ByteBit(r, j) {
      assert ShiftedDown(value, m, r, j);
    }
  }

  method SetBit(data: array<bv8>, position: nat, bit: bool)
    requires position < 8 * data.Length
    modifies data
    ensures Of(data[..]) == old(Of(data[..]))[position := bit]
  {
    ghost var was := data[..];
    OfSetBit(was, position, bit);
    data[position / 8] := SetByteBit(data[position / 8], position % 8, bit);
    assert data[..] == was[position / 8 := SetByteBit(was[position / 8], position % 8, bit)];
  }

  /** Writes the low `length` bits of a byte. */
  method SetBits(data: array<bv8>, position: nat, byte: bv8, length: nat)
    requires 0 < length <= 8 && position + length <= 8 * data.Length
    modifies data
    ensures Of(data[..]) == Splice(old(Of(data[..])), position, Low(byte, length))
  {
    ghost var was, low := Of(data[..]), Low(byte, length);
    for i := 0 to length
      invariant Of(data[..]) == Splice(was, position, low[..i])
    {
      var shift := length - 1 - i;
      SpliceExtend(was, position, low[..i], low[i]);
      assert low[..i + 1] == low[..i] + [low[i]];
      SetBit(data, position + i, (byte >> shift) & 1 == 1);
    }
    assert low[..length] == low;
  }

  /** Shifts the whole buffer left by one bit. */
  method PushBit(data: array<bv8>, bit: bool)
    requires 0 < data.Length
    modifies data
    ensures Of(data[..]) == old(Of(data[..]))[1..] + [bit]
  {
    ghost var was := data[..];
    var lastIndex := data.Length - 1;
    for i := 0 to lastIndex
      invariant data[i..] == was[i..]
      invariant forall j :: 0 <= j < i ==> data[j] == Pushed(was[j], ByteBit(was[j + 1], 0))
    {
      assert data[i] == was[i] && data[i + 1] == was[i + 1];
      TopOfByte(data[i + 1]);
      data[i] := (data[i] << 1) | ((data[i + 1] >> 7) & 1);
    }
    assert data[lastIndex] == was[lastIndex];
    data[lastIndex] := (data[lastIndex] << 1) | (if bit then 1 else 0);
    PushedBits(was, data[..], bit);
  }

  function Pushed(b: bv8, bit: bool): bv8 {
    (b << 1) | (if bit then 1 else 0)
  }

  lemma TopOfByte(b: bv8)
    ensures (b >> 7) & 1 == if ByteBit(b, 0) then 1 else 0
  {}

  lemma PushedBits(was: seq<bv8>, after: seq<bv8>, bit: bool)
    requires 0 < |was| == |after|
    requires forall j :: 0 <= j < |was| ==> after[j] == Pushed(was[j], NextTop(was, bit, j))
    ensures Of(after) == Of(was)[1..] + [bit]
  {
    forall q | 0 <= q < 8 * |was| ensures Of(after)[q] == (Of(was)[1..] + [bit])[q] {
      var j := q / 8;
      assert after[j] == Pushed(was[j], NextTop(was, bit, j));
      PushedPlace(was, after, bit, q);
    }
  }

  lemma PushedPlace(was: seq<bv8>, after: seq<bv8>, bit: bool, q: nat)
    requires q < 8 * |was| == 8 * |after| && after[q / 8] == Pushed(was[q / 8], NextTop(was, bit, q / 8))
    ensures Of(after)[q] == if q + 1 == 8 * |was| then bit else Of(was)[q + 1]
  {
    PushedAt(was, after[q / 8], bit, q / 8, q % 8);
    OfAt(after, q);
  }

  lemma PushedAt(was: seq<bv8>, pushed: bv8, bit: bool, j: nat, k: nat)
    requires j < |was| && k < 8 && pushed == Pushed(was[j], NextTop(was, bit, j))
    ensures ByteBit(pushed, k) == if 8 * j + k + 1 == 8 * |was| then bit else Of(was)[8 * j + k + 1]
  {
    PushedByte(was[j], NextTop(was, bit, j), k);
    NextBit(was, bit, j, k);
  }

  lemma PushedByte(b: bv8, bit: bool, k: nat)
    requires k < 8
    ensures ByteBit(Pushed(b, bit), k) == if k == 7 then bit else ByteBit(b, k + 1)
  {
    ShiftIn(b, bit, k);
  }

  lemma NextBit(was: seq<bv8>, bit: bool, j: nat, k: nat)
    requires j < |was| && k < 8
    ensures (if k == 7 then NextTop(was, bit, j) else ByteBit(was[j], k + 1))
         == if 8 * j + k + 1 == 8 * |was| then bit else Of(was)[8 * j + k + 1]
  {
    if k < 7 {
      BitOfByte(was, j, k + 1);
    } else if j + 1 < |was| {
      BitOfByte(was, j + 1, 0);
    }
  }

  lemma BitOfByte(bytes: seq<bv8>, j: nat, k: nat)
    requires j < |bytes| && k < 8
    ensures Of(bytes)[8 * j + k] == ByteBit(bytes[j], k)
  {
    OfAt(bytes, 8 * j + k);
    assert (8 * j + k) / 8 == j && (8 * j + k) % 8 == k;
  }

  /** The bit that moves up into byte `j`. */
  function NextTop(was: seq<bv8>, bit: bool, j: nat): bool
    requires j < |was|
  {
    if j + 1 == |was| then bit else ByteBit(was[j + 1], 0)
  }

  // ---------- parity ----------

  /** The source bits an addition of parity reads: a whole number of blocks from `position` on. */
  ghost function Blocks(data: seq<bv8>, position: nat, length: nat, n: nat): seq<bool>
    requires 2 <= n && position + RoundUp(length, n - 1) <= 8 * |data|
  {
    Of(data)[position..position + RoundUp(length, n - 1)]
  }

  /** Copies the bits, putting a parity bit after every `parityLength` - 1 of them; returns the number of bits
      written. */
  method AddParity(data: array<bv8>, position: nat, dest: array<bv8>, destPosition: nat, sourceLength: nat,
      parityLength: nat, kind: Kind)
    returns (bitCount: nat)
    requires data != dest && 2 <= parityLength
    requires position + RoundUp(sourceLength, parityLength - 1) <= 8 * data.Length
    requires destPosition +
        |WithParity(Blocks(data[..], position, sourceLength, parityLength), parityLength, kind)| <= 8 * dest.Length
    modifies dest
    ensures bitCount == |WithParity(Blocks(data[..], position, sourceLength, parityLength), parityLength, kind)|
    ensures Of(dest[..]) ==
        Splice(old(Of(dest[..])), destPosition,
          WithParity(Blocks(data[..], position, sourceLength, parityLength), parityLength, kind))
  {
    ghost var blocks := Blocks(data[..], position, sourceLength, parityLength);
    ghost var trace := WholeTrace(blocks, sourceLength, parityLength, kind);
    bitCount := CopyBlocks(data, position, dest, destPosition, sourceLength, parityLength, kind, blocks, trace);
  }

  /** The output after each whole number of blocks, indexed by the number of bits read. */
  ghost predicate Framing(trace: map<nat, seq<bool>>, blocks: seq<bool>, length: nat, n: nat, kind: Kind)
    requires 2 <= n
  {
    forall w: nat :: FrameAt(trace, blocks, w, length, n, kind)
  }

  ghost predicate FrameAt(trace: map<nat, seq<bool>>, blocks: seq<bool>, w: nat, length: nat, n: nat, kind: Kind)
    requires 2 <= n
  {
    w in trace ==>
      if w < length then
        && w + (n - 1) <= |blocks| && w + (n - 1) in trace
        && trace[w + (n - 1)] == trace[w] + BlockOut(blocks[w..w + (n - 1)], kind)
      else w == |blocks|
  }

  lemma {:induction false} FramingTrace(blocks: seq<bool>, w: nat, length: nat, n: nat, kind: Kind,
      out: seq<bool>) returns (trace: map<nat, seq<bool>>)
    requires 2 <= n && |blocks| == w + RoundUp(length - w, n - 1)
    ensures Framing(trace, blocks, length, n, kind)
    ensures w in trace && trace[w] == out && forall v: nat :: v < w ==> v !in trace
    ensures |blocks| in trace && trace[|blocks|] == out + WithParity(blocks[w..], n, kind)
    decreases |blocks| - w
  {
    if w < length {
      var block := blocks[w..w + (n - 1)];
      var later := FramingTrace(blocks, w + (n - 1), length, n, kind, out + BlockOut(block, kind));
      trace := later[w := out];
      TraceExtended(later, blocks, w, length, n, kind, out);
      FirstBlock(blocks, w, n, kind, out);
    } else {
      trace := map[w := out];
    }
  }

  lemma FirstBlock(blocks: seq<bool>, w: nat, n: nat, kind: Kind, out: seq<bool>)
    requires 2 <= n && w + (n - 1) <= |blocks|
    ensures out + WithParity(blocks[w..], n, kind)
         == (out + BlockOut(blocks[w..w + (n - 1)], kind)) + WithParity(blocks[w + (n - 1)..], n, kind)
  {
    ParityUnfolds(blocks[w..], n, kind, blocks[w..w + (n - 1)], blocks[w + (n - 1)..]);
    Regroup(out, BlockOut(blocks[w..w + (n - 1)], kind), WithParity(blocks[w + (n - 1)..], n, kind));
  }

  lemma ParityUnfolds(bits: seq<bool>, n: nat, kind: Kind, block: seq<bool>, rest: seq<bool>)
    requires 2 <= n <= |bits| + 1 && block == bits[..n - 1] && rest == bits[n - 1..]
    ensures WithParity(bits, n, kind) == BlockOut(block, kind) + WithParity(rest, n, kind)
  {}

  lemma TraceExtended(later: map<nat, seq<bool>>, blocks: seq<bool>, w: nat, length: nat, n: nat, kind: Kind,
      out: seq<bool>)
    requires 2 <= n && w < length && w + (n - 1) <= |blocks|
    requires Framing(later, blocks, length, n, kind) && forall v: nat :: v < w + (n - 1) ==> v !in later
    requires w + (n - 1) in later && later[w + (n - 1)] == out + BlockOut(blocks[w..w + (n - 1)], kind)
    ensures Framing(later[w := out], blocks, length, n, kind)
  {
    var trace := later[w := out];
    forall v: nat ensures FrameAt(trace, blocks, v, length, n, kind) {
      assert FrameAt(later, blocks, v, length, n, kind);
    }
  }

  lemma WholeTrace(blocks: seq<bool>, length: nat, n: nat, kind: Kind) returns (trace: map<nat, seq<bool>>)
    requires 2 <= n && |blocks| == RoundUp(length, n - 1)
    ensures Framing(trace, blocks, length, n, kind)
    ensures 0 in trace && trace[0] == [] && |blocks| in trace && trace[|blocks|] == WithParity(blocks, n, kind)
  {
    trace := FramingTrace(blocks, 0, length, n, kind, []);
    assert blocks[0..] == blocks;
  }

  /** `out` never grows beyond its final length. */
  lemma {:induction false} FramesGrow(trace: map<nat, seq<bool>>, blocks: seq<bool>, w: nat, length: nat, n: nat,
      kind: Kind)
    requires 2 <= n && Framing(trace, blocks, length, n, kind) && w in trace && |blocks| in trace
    ensures |trace[w]| <= |trace[|blocks|]|
    decreases |blocks| - w
  {
    assert FrameAt(trace, blocks, w, length, n, kind);
    if w < length {
      FramesGrow(trace, blocks, w + (n - 1), length, n, kind);
    }
  }

  lemma FrameStep(trace: map<nat, seq<bool>>, blocks: seq<bool>, w: nat, length: nat, n: nat,
      kind: Kind) returns (block: seq<bool>)
    requires 2 <= n && Framing(trace, blocks, length, n, kind) && w in trace && |blocks| in trace && w < length
    ensures w + (n - 1) <= |blocks| && block == blocks[w..w + (n - 1)] && w + (n - 1) in trace
    ensures trace[w + (n - 1)] == trace[w] + BlockOut(block, kind) && |trace[w + (n - 1)]| <= |trace[|blocks|]|
  {
    assert FrameAt(trace, blocks, w, length, n, kind);
    block := blocks[w..w + (n - 1)];
    FramesGrow(trace, blocks, w + (n - 1), length, n, kind);
  }

  lemma FrameEnd(trace: map<nat, seq<bool>>, blocks: seq<bool>, w: nat, length: nat, n: nat, kind: Kind)
    requires 2 <= n && Framing(trace, blocks, length, n, kind) && w in trace && w >= length
    ensures w == |blocks|
  {
    assert FrameAt(trace, blocks, w, length, n, kind);
  }

  method CopyBlocks(data: array<bv8>, position: nat, dest: array<bv8>, destPosition: nat, sourceLength: nat,
      parityLength: nat, kind: Kind,
                    ghost blocks: seq<bool>, ghost trace: map<nat, seq<bool>>)
    returns (bitCount: nat)
    requires data != dest && 2 <= parityLength
    requires position + |blocks| <= 8 * data.Length && blocks == Of(data[..])[position..position + |blocks|]
    requires Framing(trace, blocks, sourceLength, parityLength, kind) && 0 in trace && trace[0] == []
    requires |blocks| in trace && destPosition + |trace[|blocks|]| <= 8 * dest.Length
    modifies dest
    ensures bitCount == |trace[|blocks|]|
    ensures Of(dest[..]) == Splice(old(Of(dest[..])), destPosition, trace[|blocks|])
  {
    ghost var bytes, was := data[..], Of(dest[..]);
    bitCount := 0;
    var word := 0;
    SpliceNothing(was, destPosition);
    while word < sourceLength
      invariant data[..] == bytes && word in trace
      invariant bitCount == |trace[word]| && destPosition + bitCount <= 8 * dest.Length
      invariant Of(dest[..]) == Splice(was, destPosition, trace[word])
      decreases sourceLength - word
    {
      ghost var block := FrameStep(trace, blocks, word, sourceLength, parityLength, kind);
      CopyNext(data, position, dest, destPosition, word, bitCount, parityLength, kind, was, trace[word], block, blocks);
      bitCount := bitCount + parityLength;
      word := word + (parityLength - 1);
    }
    FrameEnd(trace, blocks, word, sourceLength, parityLength, kind);
  }

  /** The block that starts at source bit `word`, after the bits `out`. */
  method CopyNext(data: array<bv8>, position: nat, dest: array<bv8>, destPosition: nat, word: nat, bitCount: nat,
      n: nat, kind: Kind, ghost was: seq<bool>, ghost out: seq<bool>, ghost block: seq<bool>, ghost blocks: seq<bool>)
    requires data != dest && 2 <= n && word + (n - 1) <= |blocks| && position + |blocks| <= 8 * data.Length
    requires blocks == Of(data[..])[position..position + |blocks|] && block == blocks[word..word + (n - 1)]
    requires bitCount == |out| && destPosition + bitCount + n <= 8 * dest.Length == |was|
    requires Of(dest[..]) == Splice(was, destPosition, out)
    modifies dest
    ensures Of(dest[..]) == Splice(was, destPosition, out + BlockOut(block, kind))
  {
    SliceOfSlice(Of(data[..]), position, |blocks|, word, n - 1);
    AddBlock(data, position + word, dest, destPosition, bitCount, n, kind, was, out, block);
  }

  lemma SliceOfSlice(s: seq<bool>, p: nat, length: nat, q: nat, n: nat)
    requires p + length <= |s| && q + n <= length
    ensures s[p..p + length][q..q + n] == s[p + q..p + q + n]
  {
    var a, b := s[p..p + length][q..q + n], s[p + q..p + q + n];
    forall i | 0 <= i < n ensures a[i] == b[i] {
      assert a[i] == s[p..p + length][q + i];
    }
  }

  /** The word's parity bits are counted by the compiler's built-in. */
  function TestParity32(word: bv32, kind: Kind): bool
    requires kind.Even? || kind.Odd?
  {
    if kind.Even? then OddOnes(Word(word, 32)) else !OddOnes(Word(word, 32))
  }

  /** One block, after the `bitCount` bits `out` that are already there. */
  method AddBlock(data: array<bv8>, position: nat, dest: array<bv8>, destPosition: nat, bitCount: nat, n: nat,
      kind: Kind,
                  ghost was: seq<bool>, ghost out: seq<bool>, ghost block: seq<bool>)
    requires data != dest && 2 <= n
    requires position + (n - 1) <= 8 * data.Length && destPosition + bitCount + n <= 8 * dest.Length == |was|
    requires block == Of(data[..])[position..position + (n - 1)]
    requires bitCount == |out| && Of(dest[..]) == Splice(was, destPosition, out)
    modifies dest
    ensures Of(dest[..]) == Splice(was, destPosition, out + BlockOut(block, kind))
  {
    ghost var bytes := data[..];
    var parityWord: bv32 := 0;
    WordZero(32);
    var j := bitCount;
    for i := 0 to n - 1
      invariant data[..] == bytes
      invariant Word(parityWord, 32) == Register(block[..i])
      invariant j == bitCount + i && Of(dest[..]) == Splice(was, destPosition, out + block[..i])
    {
      parityWord := CopyBit(data, position, dest, destPosition, i, j, parityWord, was, out, block);
      j := j + 1;
    }
    assert block[..n - 1] == block;
    var bit := ParityOf(parityWord, kind, block);
    SpliceExtend(was, destPosition, out + block, bit);
    assert (out + block) + [bit] == out + BlockOut(block, kind);
    SetBit(dest, destPosition + j, bit);
  }

  method ParityOf(parityWord: bv32, kind: Kind, ghost block: seq<bool>) returns (bit: bool)
    requires Word(parityWord, 32) == Register(block)
    ensures bit == ParityBit(block, kind)
  {
    RegisterParity(block);
    match kind {
      case Always0 => bit := false;
      case Always1 => bit := true;
      case _ => bit := (TestParity32(parityWord, Odd) != (kind == Odd)) != true;
    }
  }

  /** One bit of a block: copied, and shifted into the parity word. */
  method CopyBit(data: array<bv8>, position: nat, dest: array<bv8>, destPosition: nat, i: nat, j: nat, parityWord: bv32,
                 ghost was: seq<bool>, ghost out: seq<bool>, ghost block: seq<bool>) returns (newWord: bv32)
    requires data != dest && i < |block| && position + |block| <= 8 * data.Length
    requires destPosition + |out| + |block| <= 8 * dest.Length == |was|
    requires block == Of(data[..])[position..position + |block|]
    requires Word(parityWord, 32) == Register(block[..i])
    requires j == |out| + i && Of(dest[..]) == Splice(was, destPosition, out + block[..i])
    modifies dest
    ensures Word(newWord, 32) == Register(block[..i + 1])
    ensures Of(dest[..]) == Splice(was, destPosition, out + block[..i + 1])
  {
    var bit := GetBit(data, position + i);
    assert bit == block[i];
    CopyStep(was, destPosition, out, block, i);
    newWord := ShiftIntoWord(parityWord, bit);
    SetBit(dest, destPosition + j, bit);
  }

  method ShiftIntoWord(word: bv32, bit: bool) returns (shifted: bv32)
    ensures Word(shifted, 32) == Word(word, 32)[1..] + [bit]
  {
    ShiftIn32(word, bit);
    shifted := (word << 1) | (if bit then 1 else 0);
  }

  lemma CopyStep(was: seq<bool>, p: nat, out: seq<bool>, block: seq<bool>, i: nat)
    requires i < |block| && p + |out| + |block| <= |was|
    ensures Register(block[..i + 1]) == Register(block[..i])[1..] + [block[i]]
    ensures Splice(was, p, out + block[..i + 1]) == Splice(was, p, out + block[..i])[p + |out| + i := block[i]]
  {
    assert block[..i + 1] == block[..i] + [block[i]];
    assert out + block[..i + 1] == (out + block[..i]) + [block[i]];
    RegisterPush(block[..i], block[i]);
    SpliceExtend(was, p, out + block[..i], block[i]);
  }

  // ---------- removing and reversing ----------

  /** Takes out every n-th bit of a stretch and moves the others together; returns how many are left. */
  method RemoveBitEveryNth(data: array<bv8>, position: nat, length: nat, n: nat) returns (resultCounter: nat)
    requires 0 < n && position + length <= 8 * data.Length
    modifies data
    ensures resultCounter == |Kept(old(Of(data[..]))[position..position + length], n)|
    ensures Of(data[..]) == Splice(old(Of(data[..])), position, Kept(old(Of(data[..]))[position..position + length], n))
  {
    ghost var was := Of(data[..]);
    ghost var source := was[position..position + length];
    ghost var trace := RemovalTrace(source, n);
    resultCounter := MoveKept(data, position, length, n, was, source, trace);
  }

  /** The stretch at `p` holds the bits, followed by what is left of their frames; nothing around it has changed. */
  ghost predicate Restored(was: seq<bool>, now: seq<bool>, p: nat, blocks: seq<bool>, framed: seq<bool>) {
    && |blocks| <= |framed| && p + |framed| <= |was|
    && now == Splice(was, p, blocks + framed[|blocks|..])
  }

  /** Framing bits with parity and then taking every parity bit out again, in place, gives the source bits. */
  method FrameAndStrip(data: array<bv8>, position: nat, dest: array<bv8>, destPosition: nat, sourceLength: nat,
      parityLength: nat, kind: Kind)
    returns (count: nat)
    requires data != dest && 2 <= parityLength
    requires position + RoundUp(sourceLength, parityLength - 1) <= 8 * data.Length
    requires destPosition +
        |WithParity(Blocks(data[..], position, sourceLength, parityLength), parityLength, kind)| <= 8 * dest.Length
    modifies dest
    ensures count == RoundUp(sourceLength, parityLength - 1)
    ensures Restored(old(Of(dest[..])), Of(dest[..]), destPosition,
        Blocks(data[..], position, sourceLength, parityLength),
        WithParity(Blocks(data[..], position, sourceLength, parityLength), parityLength, kind))
  {
    ghost var was, blocks := Of(dest[..]), Blocks(data[..], position, sourceLength, parityLength);
    ghost var framed := WithParity(blocks, parityLength, kind);
    var bitCount := AddParity(data, position, dest, destPosition, sourceLength, parityLength, kind);
    RoundUpMultiple(sourceLength, parityLength - 1);
    Stripped(was, destPosition, blocks, framed, parityLength, kind);
    count := StripParity(dest, destPosition, bitCount, parityLength, Splice(was, destPosition, framed), blocks);
    assert blocks == Blocks(data[..], position, sourceLength, parityLength);
  }

  /** Takes every n-th bit out of a stretch, when `blocks` are the bits that are kept. */
  method StripParity(dest: array<bv8>, p: nat, bitCount: nat, n: nat, ghost was: seq<bool>, ghost blocks: seq<bool>)
    returns (count: nat)
    requires 0 < n && p + bitCount <= 8 * dest.Length && Of(dest[..]) == was
    requires Kept(was[p..p + bitCount], n) == blocks
    modifies dest
    ensures count == |blocks| && Of(dest[..]) == Splice(was, p, blocks)
  {
    count := RemoveBitEveryNth(dest, p, bitCount, n);
  }

  lemma Stripped(was: seq<bool>, p: nat, blocks: seq<bool>, framed: seq<bool>, n: nat, kind: Kind)
    requires 2 <= n && Multiple(|blocks|, n - 1) && framed == WithParity(blocks, n, kind)
    requires p + |framed| <= |was|
    ensures |blocks| <= |framed| && Kept(Splice(was, p, framed)[p..p + |framed|], n) == blocks
    ensures Restored(was, Splice(Splice(was, p, framed), p, blocks), p, blocks, framed)
  {
    WithParityLength(blocks, n, kind);
    RemoveUndoesAdd(blocks, n, kind);
    SpliceHolds(was, p, framed);
    SpliceOver(was, p, framed, blocks);
  }

  /** The bits kept after each number of bits read. */
  ghost predicate Removing(trace: seq<seq<bool>>, source: seq<bool>, n: nat)
    requires 0 < n
  {
    && |trace| == |source| + 1 && trace[0] == []
    && forall k :: 0 <= k < |source| ==> trace[k + 1] == trace[k] + if Multiple(k + 1, n) then [] else [source[k]]
  }

  lemma RemovalTrace(source: seq<bool>, n: nat) returns (trace: seq<seq<bool>>)
    requires 0 < n
    ensures Removing(trace, source, n) && trace[|source|] == Kept(source, n)
  {
    trace := seq(|source| + 1, k requires 0 <= k <= |source| => KeptOf(source, k, n));
  }

  method MoveKept(data: array<bv8>, position: nat, length: nat, n: nat, ghost was: seq<bool>, ghost source: seq<bool>,
      ghost trace: seq<seq<bool>>)
    returns (resultCounter: nat)
    requires 0 < n && position + length <= 8 * data.Length && was == Of(data[..]) &&
        source == was[position..position + length]
    requires Removing(trace, source, n)
    modifies data
    ensures resultCounter == |trace[length]| <= length && Of(data[..]) == Splice(was, position, trace[length])
  {
    var counter, bitBuffer, bitCounter := 0, 0 as bv8, 0;
    ghost var kept: seq<bool> := [];
    resultCounter := 0;
    SpliceNothing(was, position);
    while counter < length
      invariant counter <= length && bitCounter < 8
      invariant kept == trace[counter] && |kept| <= counter
      invariant Buffered(kept, resultCounter, bitBuffer, bitCounter)
      invariant Of(data[..]) == Splice(was, position, kept[..resultCounter])
    {
      var dropped := IsMultiple(counter + 1, n);
      if !dropped {
        var bit := ReadAhead(data, position, counter, was, source, kept[..resultCounter]);
        bitBuffer := ShiftIntoByte(bit, resultCounter, bitBuffer, bitCounter, kept);
        bitCounter := bitCounter + 1;
        kept := kept + [bit];
      }
      bitBuffer, bitCounter, resultCounter :=
        FlushWhenFull(data, position, resultCounter, bitBuffer, bitCounter, was, kept);
      counter := counter + 1;
    }
    if bitCounter != 0 {
      Flush(data, position, resultCounter, bitBuffer, bitCounter, was, kept);
      resultCounter := resultCounter + bitCounter;
    } else {
      assert kept[..resultCounter] == kept;
    }
  }

  /** The kept bits from `resultCounter` on are still in the buffer. */
  ghost predicate Buffered(kept: seq<bool>, resultCounter: nat, bitBuffer: bv8, bitCounter: nat) {
    resultCounter + bitCounter == |kept| && bitCounter <= 8 && Low(bitBuffer, bitCounter) == kept[resultCounter..]
  }

  /** The bits not yet read are still the original ones. */
  method ReadAhead(data: array<bv8>, position: nat, counter: nat, ghost was: seq<bool>, ghost source: seq<bool>,
      ghost done: seq<bool>) returns (bit: bool)
    requires |done| <= counter < |source| && position + |source| <= 8 * data.Length == |was|
    requires source == was[position..position + |source|] && Of(data[..]) == Splice(was, position, done)
    ensures bit == source[counter]
  {
    SpliceAt(was, position, done, position + counter);
    bit := GetBit(data, position + counter);
  }

  method IsMultiple(k: nat, n: nat) returns (multiple: bool)
    requires 0 < n
    ensures multiple == Multiple(k, n)
  {
    MultipleIffNoRemainder(k, n);
    multiple := k % n == 0;
  }

  method ShiftIntoByte(bit: bool, ghost resultCounter: nat, bitBuffer: bv8, bitCounter: nat,
      ghost kept: seq<bool>) returns (shifted: bv8)
    requires bitCounter < 8 && Buffered(kept, resultCounter, bitBuffer, bitCounter)
    ensures Buffered(kept + [bit], resultCounter, shifted, bitCounter + 1)
    ensures (kept + [bit])[..resultCounter] == kept[..resultCounter]
  {
    LowShiftIn(bitBuffer, bit, bitCounter);
    assert (kept + [bit])[resultCounter..] == kept[resultCounter..] + [bit];
    shifted := (bitBuffer << 1) | (if bit then 1 else 0);
  }

  /** Writes the buffered bits after those already moved. */
  method Flush(data: array<bv8>, position: nat, resultCounter: nat, bitBuffer: bv8, bitCounter: nat,
      ghost was: seq<bool>, ghost kept: seq<bool>)
    requires 0 < bitCounter && Buffered(kept, resultCounter, bitBuffer, bitCounter)
    requires position + |kept| <= 8 * data.Length == |was|
    requires Of(data[..]) == Splice(was, position, kept[..resultCounter])
    modifies data
    ensures Of(data[..]) == Splice(was, position, kept)
    ensures kept[..|kept|] == kept && Buffered(kept, |kept|, 0, 0)
  {
    var place := position + resultCounter;
    SpliceRest(was, position, kept, resultCounter, place);
    SetBits(data, place, bitBuffer, bitCounter);
  }

  lemma SpliceRest(was: seq<bool>, p: nat, kept: seq<bool>, n: nat, place: nat)
    requires n <= |kept| && p + |kept| <= |was| && place == p + n
    ensures Splice(Splice(was, p, kept[..n]), place, kept[n..]) == Splice(was, p, kept)
    ensures kept[..|kept|] == kept
  {
    SpliceJoin(was, p, kept[..n], kept[n..]);
    assert kept[..n] + kept[n..] == kept;
  }

  /** Empties the buffer once it holds a whole byte. */
  method FlushWhenFull(data: array<bv8>, position: nat, resultCounter: nat, bitBuffer: bv8, bitCounter: nat,
      ghost was: seq<bool>, ghost kept: seq<bool>)
    returns (buffer: bv8, count: nat, moved: nat)
    requires Buffered(kept, resultCounter, bitBuffer, bitCounter)
    requires position + |kept| <= 8 * data.Length == |was|
    requires Of(data[..]) == Splice(was, position, kept[..resultCounter])
    modifies data
    ensures count < 8 && Buffered(kept, moved, buffer, count)
    ensures Of(data[..]) == Splice(was, position, kept[..moved])
  {
    buffer, count, moved := bitBuffer, bitCounter, resultCounter;
    if bitCounter == 8 {
      Flush(data, position, resultCounter, bitBuffer, 8, was, kept);
      buffer, count, moved := 0, 0, resultCounter + 8;
    }
  }

  /** Reverses the order of the bits of a stretch. */
  method ReverseBits(data: array<bv8>, position: nat, length: nat)
    requires 0 < length && position + length <= 8 * data.Length
    modifies data
    ensures Of(data[..]) ==
        Splice(old(Of(data[..])), position, Reversed(old(Of(data[..]))[position..position + length]))
  {
    ghost var was := Of(data[..]);
    var i, j := 0, length - 1;
    while i < j
      invariant i + j == length - 1 && -1 <= j - i <= length - 1
      invariant Of(data[..]) == Exchanged(was, position, length, i)
    {
      SwapPair(data, position, length, i, j, was);
      i := i + 1;
      j := j - 1;
    }
    ExchangedAll(was, position, length, i);
  }

  method SwapPair(data: array<bv8>, position: nat, length: nat, i: nat, j: nat, ghost was: seq<bool>)
    requires i < j == length - 1 - i && position + length <= 8 * data.Length == |was|
    requires Of(data[..]) == Exchanged(was, position, length, i)
    modifies data
    ensures Of(data[..]) == Exchanged(was, position, length, i + 1)
  {
    ExchangeNext(was, position, length, i);
    SwapBits(data, position + i, position + j);
  }

  method SwapBits(data: array<bv8>, p: nat, q: nat)
    requires p < 8 * data.Length && q < 8 * data.Length
    modifies data
    ensures Of(data[..]) == var bits := old(Of(data[..])); bits[p := bits[q]][q := bits[p]]
  {
    var tmp := GetBit(data, p);
    var other := GetBit(data, q);
    SetBit(data, p, other);
    SetBit(data, q, tmp);
  }

  /** Where the bit at `q` comes from after the outermost `done` pairs of a stretch were exchanged. */
  ghost function Mirror(q: nat, position: nat, length: nat, done: nat): (r: nat)
    requires 2 * done <= length + 1
    ensures if position <= q < position + length then position <= r < position + length else r == q
  {
    if position <= q < position + done || position + length - done <= q < position + length
    then 2 * position + length - 1 - q
    else q
  }

  ghost function Exchanged(bits: seq<bool>, position: nat, length: nat, done: nat): (r: seq<bool>)
    requires position + length <= |bits| && 2 * done <= length + 1
    ensures |r| == |bits|
  {
    seq(|bits|, q requires 0 <= q < |bits| => bits[Mirror(q, position, length, done)])
  }

  lemma ExchangedAt(bits: seq<bool>, position: nat, length: nat, done: nat, q: nat)
    requires position + length <= |bits| && 2 * done <= length + 1 && q < |bits|
    ensures Exchanged(bits, position, length, done)[q] == bits[Mirror(q, position, length, done)]
  {}

  lemma ExchangeNext(bits: seq<bool>, position: nat, length: nat, i: nat)
    requires position + length <= |bits| && 2 * i < length - 1
    ensures var s, j := Exchanged(bits, position, length, i), length - 1 - i;
            s[position + i := s[position + j]][position + j := s[position + i]] ==
              Exchanged(bits, position, length, i + 1)
  {
    var s, j := Exchanged(bits, position, length, i), length - 1 - i;
    var t := s[position + i := s[position + j]][position + j := s[position + i]];
    ExchangedAt(bits, position, length, i, position + i);
    ExchangedAt(bits, position, length, i, position + j);
    forall q | 0 <= q < |bits| ensures t[q] == Exchanged(bits, position, length, i + 1)[q] {
      ExchangedAt(bits, position, length, i, q);
      ExchangedAt(bits, position, length, i + 1, q);
    }
  }

  lemma ExchangedAll(bits: seq<bool>, position: nat, length: nat, i: nat)
    requires position + length <= |bits| && length - 1 <= 2 * i <= length + 1
    ensures Exchanged(bits, position, length, i) == Splice(bits, position, Reversed(bits[position..position + length]))
  {
    var s := bits[position..position + length];
    forall q | 0 <= q < |bits|
      ensures Exchanged(bits, position, length, i)[q] == Splice(bits, position, Reversed(s))[q]
    {
      SpliceAt(bits, position, Reversed(s), q);
      ExchangedAt(bits, position, length, i, q);
      MirrorAll(q, position, length, i);
    }
  }

  lemma MirrorAll(q: nat, position: nat, length: nat, i: nat)
    requires length - 1 <= 2 * i <= length + 1
    ensures Mirror(q, position, length, i) == if position <= q < position + length then
        position + (length - 1 - (q - position)) else q
  {}
}
