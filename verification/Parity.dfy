/** Parity blocks: adding a bit to every block, and taking it out again. */
module Parity {
  import opened Remainders
  import opened CrcTheory

  datatype Kind = Even | Odd | Always0 | Always1

  /** Whether the number of ones is odd. */
  function OddOnes(bits: seq<bool>): bool {
    if bits == [] then false else OddOnes(bits[..|bits| - 1]) != bits[|bits| - 1]
  }

  lemma {:induction false} OddOnesConcat(a: seq<bool>, b: seq<bool>)
    ensures OddOnes(a + b) == (OddOnes(a) != OddOnes(b))
  {
    if b == [] {
      assert a + b == a;
    } else {
      assert (a + b)[..|a + b| - 1] == a + b[..|b| - 1];
      OddOnesConcat(a, b[..|b| - 1]);
    }
  }

  /** The 32-bit word after a block was shifted into it holds the block's last 32 bits. */
  function LastWord(block: seq<bool>): seq<bool> {
    if |block| <= 32 then block else block[|block| - 32..]
  }

  /** The bit added to a block.  Even parity makes the number of ones even, odd parity odd. */
  function ParityBit(block: seq<bool>, kind: Kind): bool {
    match kind
    case Even => OddOnes(LastWord(block))
    case Odd => !OddOnes(LastWord(block))
    case Always0 => false
    case Always1 => true
  }

  /** A block followed by its parity bit. */
  function BlockOut(block: seq<bool>, kind: Kind): (r: seq<bool>)
    ensures |r| == |block| + 1
  {
    block + [ParityBit(block, kind)]
  }

  // ---------- what parity means ----------

  /** The places of the ones. */
  function OnesOf(bits: seq<bool>): set<nat> {
    set i: nat | i < |bits| && bits[i]
  }

  lemma {:induction false} OddOnesCounts(bits: seq<bool>)
    ensures OddOnes(bits) <==> |OnesOf(bits)| % 2 == 1
  {
    if bits != [] {
      var last := |bits| - 1;
      OddOnesCounts(bits[..last]);
      assert OnesOf(bits) == OnesOf(bits[..last]) + if bits[last] then {last} else {};
    }
  }

  /** The bits of a block that have left the 32-bit word by its end. */
  function ShiftedOut(block: seq<bool>): seq<bool> {
    if |block| <= 32 then [] else block[..|block| - 32]
  }

  /** A block with its even parity bit has an even number of ones, and with its odd parity bit an odd number, exactly if
      the bits before the block's last 32 have an even number of ones; for blocks of at most 32 bits there are none.
      With the constant kinds a block ends with their own bit. */
  lemma FramedOnes(block: seq<bool>)
    ensures |OnesOf(BlockOut(block, Even))| % 2 == 0 <==> |OnesOf(ShiftedOut(block))| % 2 == 0
    ensures |OnesOf(BlockOut(block, Odd))| % 2 == 1 <==> |OnesOf(ShiftedOut(block))| % 2 == 0
    ensures |block| <= 32 ==> |OnesOf(ShiftedOut(block))| == 0
    ensures !BlockOut(block, Always0)[|block|] && BlockOut(block, Always1)[|block|]
  {
    OddOnesCounts(ShiftedOut(block));
    OddOnesCounts(BlockOut(block, Even));
    OddOnesCounts(BlockOut(block, Odd));
    assert block == ShiftedOut(block) + LastWord(block);
    OddOnesConcat(ShiftedOut(block), LastWord(block));
    FramedOdd(block, Even);
    FramedOdd(block, Odd);
  }

  lemma FramedOdd(block: seq<bool>, kind: Kind)
    ensures OddOnes(BlockOut(block, kind)) == (OddOnes(block) != ParityBit(block, kind))
  {
    assert BlockOut(block, kind)[..|block|] == block;
  }

  /** Every block of `n` - 1 bits followed by its parity bit. */
  function WithParity(bits: seq<bool>, n: nat, kind: Kind): seq<bool>
    requires 2 <= n
  {
    if |bits| < n - 1 then []
    else BlockOut(bits[..n - 1], kind) + WithParity(bits[n - 1..], n, kind)
  }

  /** A 32-bit register into which the bits were shifted, starting from zero. */
  function Register(bits: seq<bool>): (r: seq<bool>)
    ensures |r| == 32
  {
    (Zeros(32) + bits)[|bits|..]
  }

  lemma RegisterPush(bits: seq<bool>, bit: bool)
    ensures Register(bits + [bit]) == Register(bits)[1..] + [bit]
  {
    assert Zeros(32) + (bits + [bit]) == (Zeros(32) + bits) + [bit];
  }

  lemma {:induction false} ZerosEven(n: nat)
    ensures !OddOnes(Zeros(n))
  {
    if n > 0 {
      ZerosEven(n - 1);
      assert Zeros(n)[..n - 1] == Zeros(n - 1);
    }
  }

  lemma RegisterParity(bits: seq<bool>)
    ensures OddOnes(Register(bits)) == OddOnes(LastWord(bits))
  {
    if |bits| <= 32 {
      assert Register(bits) == Zeros(32 - |bits|) + bits;
      ZerosEven(32 - |bits|);
      OddOnesConcat(Zeros(32 - |bits|), bits);
    } else {
      assert Register(bits) == bits[|bits| - 32..];
    }
  }

  /** What is left of the first `k` bits when every n-th bit is removed. */
  function KeptOf(bits: seq<bool>, k: nat, n: nat): (r: seq<bool>)
    requires 0 < n && k <= |bits|
    ensures |r| <= k
  {
    if k == 0 then []
    else KeptOf(bits, k - 1, n) + if Multiple(k, n) then [] else [bits[k - 1]]
  }

  function Kept(bits: seq<bool>, n: nat): (r: seq<bool>)
    requires 0 < n
    ensures |r| <= |bits|
  {
    KeptOf(bits, |bits|, n)
  }

  lemma {:induction false} KeptShort(bits: seq<bool>, k: nat, n: nat)
    requires k < n && k <= |bits|
    ensures KeptOf(bits, k, n) == bits[..k]
  {
    if k > 0 {
      KeptShort(bits, k - 1, n);
    }
  }

  /** Removal works block by block. */
  lemma {:induction false} KeptConcat(block: seq<bool>, rest: seq<bool>, k: nat, n: nat)
    requires |block| == n && 0 < n && k <= |rest|
    ensures KeptOf(block + rest, n + k, n) == block[..n - 1] + KeptOf(rest, k, n)
  {
    MultipleStep(k, n);
    if k == 0 {
      KeptShort(block + rest, n - 1, n);
    } else {
      KeptConcat(block, rest, k - 1, n);
    }
  }

  lemma FramedBlock(block: seq<bool>, rest: seq<bool>, n: nat, kind: Kind)
    requires 0 < n && |block| == n - 1
    ensures Kept(BlockOut(block, kind) + rest, n) == block + Kept(rest, n)
  {
    KeptConcat(BlockOut(block, kind), rest, |rest|, n);
    assert BlockOut(block, kind)[..n - 1] == block;
  }

  /** Adding parity and then removing every n-th bit gives back the bits, whatever the parity kind. */
  lemma {:induction false} RemoveUndoesAdd(bits: seq<bool>, n: nat, kind: Kind)
    requires 2 <= n && Multiple(|bits|, n - 1)
    ensures Kept(WithParity(bits, n, kind), n) == bits
    decreases |bits|
  {
    if |bits| >= n - 1 {
      var block, rest := bits[..n - 1], bits[n - 1..];
      RemoveUndoesAdd(rest, n, kind);
      FramedBlock(block, WithParity(rest, n, kind), n, kind);
    }
  }

  lemma {:induction false} WithParityLength(bits: seq<bool>, n: nat, kind: Kind)
    requires 2 <= n && Multiple(|bits|, n - 1)
    ensures |WithParity(bits, n, kind)| >= |bits| && Multiple(|WithParity(bits, n, kind)|, n)
    decreases |bits|
  {
    if |bits| >= n - 1 { WithParityLength(bits[n - 1..], n, kind); }
  }

  // ---------- testing parity ----------

  /** What bit_lib_test_parity asks of one block, its parity bit included. */
  function TestBlock(block: seq<bool>, kind: Kind): bool
    requires block != []
  {
    match kind
    case Even => OddOnes(block)
    case Odd => !OddOnes(block)
    case Always0 => !block[|block| - 1]
    case Always1 => block[|block| - 1]
  }

  /** bit_lib_test_parity: every whole block passes. */
  function TestParity(bits: seq<bool>, n: nat, kind: Kind): bool
    requires 0 < n
    decreases |bits|
  {
    |bits| < n || (TestBlock(bits[..n], kind) && TestParity(bits[n..], n, kind))
  }

  /** The kind under which a block that was built with `kind` is accepted. */
  function AcceptedAs(kind: Kind): Kind {
    match kind
    case Even => Odd
    case Odd => Even
    case _ => kind
  }

  /** The names Even and Odd are swapped between adding and testing: a stream with even or odd parity passes the test
      for the other name, and fails the test for its own name unless it is empty. */
  lemma {:induction false} TestNamesAreSwapped(bits: seq<bool>, n: nat, kind: Kind)
    requires 2 <= n <= 32 && Multiple(|bits|, n - 1)
    ensures TestParity(WithParity(bits, n, kind), n, AcceptedAs(kind))
    ensures kind == Even || kind == Odd ==> (TestParity(WithParity(bits, n, kind), n, kind) <==> bits == [])
    decreases |bits|
  {
    if |bits| >= n - 1 {
      var block, rest := bits[..n - 1], bits[n - 1..];
      TestNamesAreSwapped(rest, n, kind);
      var framed, all := block + [ParityBit(block, kind)], WithParity(bits, n, kind);
      assert all[..n] == framed && all[n..] == WithParity(rest, n, kind);
      assert framed[..n - 1] == block;
      assert OddOnes(framed) == (OddOnes(block) != ParityBit(block, kind));
    }
  }
}
