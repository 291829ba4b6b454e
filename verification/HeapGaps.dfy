/** What the heap in furi/core/memmgr_heap.c promises, without any free list.

    The only state is the list of live blocks in address order.  The free list is
    not stored: it is the function `Gaps` of the live blocks.  The class in
    HeapAllocator, which keeps a linked free list inside the managed memory, is proved to follow
    the functions of HeapModel step by step. */
module HeapGaps {
  import opened Remainders

  /** A run of bytes [addr, addr + size), block header included. */
  datatype Block = Block(addr: nat, size: nat) {
    function End(): nat { addr + size }
  }

  /** Where the managed region lies and how blocks are shaped:
      `first` is the first block address, `end` the address of the end marker. */
  datatype Layout = Layout(first: nat, end: nat, align: nat, header: nat) {
    ghost predicate Ok() {
      && 0 < align <= header
      && Multiple(header, align) && Multiple(first, align) && Multiple(end, align)
      && first + header <= end
      && end - first < BLOCK_ALLOCATED_BIT
    }
  }

  /** The most significant bit of a 32-bit size_t marks a block as allocated. */
  const BLOCK_ALLOCATED_BIT: nat := 0x8000_0000
  const SIZE_MAX: nat := 0xFFFF_FFFF

  // ---------- gaps between live blocks ----------

  /** The blocks are non-empty, in address order, disjoint and inside [from, to). */
  predicate Packed(live: seq<Block>, from: nat, to: nat) {
    if live == [] then from <= to
    else from <= live[0].addr && 0 < live[0].size && Packed(live[1..], live[0].End(), to)
  }

  /** The run of bytes [from, to), absent when it is empty. */
  function Span(from: nat, to: nat): seq<Block>
    requires from <= to
  {
    if from < to then [Block(from, to - from)] else []
  }

  /** The maximal runs of bytes of [from, to) that no live block covers, in address order. */
  function Gaps(live: seq<Block>, from: nat, to: nat): seq<Block>
    requires Packed(live, from, to)
  {
    if live == [] then Span(from, to)
    else
      PackedRange(live[1..], live[0].End(), to);
      Span(from, live[0].addr) + Gaps(live[1..], live[0].End(), to)
  }

  function LastEnd(live: seq<Block>, from: nat): nat {
    if live == [] then from else live[|live| - 1].End()
  }

  function NextAddr(live: seq<Block>, to: nat): nat {
    if live == [] then to else live[0].addr
  }

  lemma {:induction false} PackedRange(live: seq<Block>, from: nat, to: nat)
    requires Packed(live, from, to)
    ensures from <= LastEnd(live, from) <= to
    ensures from <= NextAddr(live, to) <= to
  {
    if live != [] {
      PackedRange(live[1..], live[0].End(), to);
      assert LastEnd(live, from) == LastEnd(live[1..], live[0].End());
    }
  }

  lemma {:induction false} PackedBounds(live: seq<Block>, from: nat, to: nat)
    requires Packed(live, from, to)
    ensures from <= to
    ensures forall i :: 0 <= i < |live| ==> from <= live[i].addr && 0 < live[i].size && live[i].End() <= to
    ensures forall i, j :: 0 <= i < j < |live| ==> live[i].End() <= live[j].addr
  {
    if live != [] {
      PackedBounds(live[1..], live[0].End(), to);
      assert forall i :: 1 <= i < |live| ==> live[i] == live[1..][i - 1];
    }
  }

  /** Where the blocks before and after a point are packed, so is their concatenation. */
  lemma {:induction false} PackedConcat(left: seq<Block>, right: seq<Block>, from: nat, to: nat)
    ensures Packed(left + right, from, to)
       <==> Packed(left, from, LastEnd(left, from)) && Packed(right, LastEnd(left, from), to)
  {
    if left == [] {
      assert left + right == right;
    } else {
      assert (left + right)[1..] == left[1..] + right;
      PackedConcat(left[1..], right, left[0].End(), to);
      assert LastEnd(left, from) == LastEnd(left[1..], left[0].End());
      if Packed(left, from, LastEnd(left, from)) && Packed(right, LastEnd(left, from), to) {
        assert Packed(left + right, from, to);
      }
    }
  }

  /** The gap around a point that lies between two neighbouring live blocks. */
  lemma {:induction false} GapsJoin(left: seq<Block>, right: seq<Block>, from: nat, to: nat)
    requires Packed(left, from, LastEnd(left, from)) && Packed(right, LastEnd(left, from), to)
    ensures Packed(left + right, from, to)
    ensures LastEnd(left, from) <= NextAddr(right, to) && Packed(right, NextAddr(right, to), to)
    ensures Gaps(left + right, from, to)
         == Gaps(left, from, LastEnd(left, from)) + Span(LastEnd(left, from), NextAddr(right, to))
          + Gaps(right, NextAddr(right, to), to)
  {
    if left == [] {
      PackedRange(right, from, to);
      assert left + right == right;
    } else {
      assert (left + right)[1..] == left[1..] + right;
      GapsJoin(left[1..], right, left[0].End(), to);
      PackedConcat(left, right, from, to);
      GapsJoinHead(left, right, from, to, Gaps(left[1..], left[0].End(), LastEnd(left, from)),
                   Span(LastEnd(left, from), NextAddr(right, to)), Gaps(right, NextAddr(right, to), to));
    }
  }

  lemma GapsJoinHead(left: seq<Block>, right: seq<Block>, from: nat, to: nat, x: seq<Block>, y: seq<Block>,
      z: seq<Block>)
    requires left != [] && Packed(left, from, LastEnd(left, from)) && Packed(left + right, from, to)
    requires (left + right)[1..] == left[1..] + right
    requires x == Gaps(left[1..], left[0].End(), LastEnd(left, from))
    requires Gaps(left[1..] + right, left[0].End(), to) == x + y + z
    ensures Gaps(left + right, from, to) == Gaps(left, from, LastEnd(left, from)) + y + z
  {
    GapsHead(left, from, LastEnd(left, from));
    GapsHead(left + right, from, to);
    ConcatFour(Span(from, left[0].addr), x, y, z);
  }

  lemma ConcatFour(w: seq<Block>, x: seq<Block>, y: seq<Block>, z: seq<Block>)
    ensures w + (x + y + z) == (w + x) + y + z
  {}

  lemma PackedHead(live: seq<Block>, from: nat, to: nat)
    requires live != [] && from <= live[0].addr && 0 < live[0].size && Packed(live[1..], live[0].End(), to)
    ensures Packed(live, from, to)
  {}

  lemma GapsHead(live: seq<Block>, from: nat, to: nat)
    requires live != [] && Packed(live, from, to)
    ensures LastEnd(live, from) == LastEnd(live[1..], live[0].End())
    ensures Gaps(live, from, to) == Span(from, live[0].addr) + Gaps(live[1..], live[0].End(), to)
  {}

  /** A live block separates the gaps below it from those above it. */
  lemma {:induction false} GapsCut(left: seq<Block>, b: Block, right: seq<Block>, from: nat, to: nat)
    requires Packed(left + [b] + right, from, to)
    ensures Packed(left, from, b.addr) && Packed(right, b.End(), to)
    ensures Gaps(left + [b] + right, from, to) == Gaps(left, from, b.addr) + Gaps(right, b.End(), to)
  {
    if left == [] {
      assert left + [b] + right == [b] + right;
      assert ([b] + right)[1..] == right;
    } else {
      assert (left + [b] + right)[0] == left[0];
      assert (left + [b] + right)[1..] == left[1..] + [b] + right;
      GapsCut(left[1..], b, right, left[0].End(), to);
      GapsHead(left + [b] + right, from, to);
      PackedHead(left, from, b.addr);
      GapsHead(left, from, b.addr);
    }
  }

  /** In address order, inside [from, to), non-empty and never adjacent. */
  ghost predicate Spaced(g: seq<Block>, from: nat, to: nat) {
    && (forall i :: 0 <= i < |g| ==> from <= g[i].addr && 0 < g[i].size && g[i].End() <= to)
    && (forall i, j :: 0 <= i < j < |g| ==> g[i].End() < g[j].addr)
  }

  /** No block of `g` shares a byte with a block of `live`. */
  ghost predicate Disjoint(g: seq<Block>, live: seq<Block>) {
    forall i, k :: 0 <= i < |g| && 0 <= k < |live| ==> g[i].End() <= live[k].addr || live[k].End() <= g[i].addr
  }

  lemma SpacedPrepend(from: nat, mid: nat, g: seq<Block>, low: nat, to: nat)
    requires from <= mid < low <= to
    requires Spaced(g, low, to)
    ensures Spaced(Span(from, mid) + g, from, to)
  {
    var head := Span(from, mid);
    assert forall i :: |head| <= i < |head + g| ==> (head + g)[i] == g[i - |head|];
  }

  lemma DisjointPrepend(head: seq<Block>, g: seq<Block>, b: Block, live: seq<Block>)
    requires Disjoint(g, live)
    requires forall i :: 0 <= i < |g| ==> b.End() <= g[i].addr
    requires forall i :: 0 <= i < |head| ==> head[i].End() <= b.addr
    requires forall k :: 0 <= k < |live| ==> b.End() <= live[k].addr
    ensures Disjoint(head + g, [b] + live)
  {
    var all := [b] + live;
    forall i, k | 0 <= i < |head + g| && 0 <= k < |all|
      ensures (head + g)[i].End() <= all[k].addr || all[k].End() <= (head + g)[i].addr
    {
      if |head| <= i { assert (head + g)[i] == g[i - |head|]; }
      if 0 < k { assert all[k] == live[k - 1]; }
    }
  }

  lemma {:induction false} GapsBounds(live: seq<Block>, from: nat, to: nat)
    requires Packed(live, from, to)
    ensures Spaced(Gaps(live, from, to), from, to)
    ensures Disjoint(Gaps(live, from, to), live)
  {
    if live != [] {
      var b, tail := live[0], live[1..];
      PackedBounds(tail, b.End(), to);
      GapsBounds(tail, b.End(), to);
      SpacedPrepend(from, b.addr, Gaps(tail, b.End(), to), b.End(), to);
      DisjointPrepend(Span(from, b.addr), Gaps(tail, b.End(), to), b, tail);
      assert live == [b] + tail;
    }
  }

  /** Every gap sits between two neighbouring live blocks (or a region bound). */
  lemma {:induction false} GapPosition(live: seq<Block>, from: nat, to: nat, i: nat) returns (k: nat)
    requires Packed(live, from, to)
    requires i < |Gaps(live, from, to)|
    ensures k <= |live|
    ensures Packed(live[..k], from, LastEnd(live[..k], from)) && Packed(live[k..], LastEnd(live[..k], from), to)
    ensures Gaps(live, from, to)[i].addr == LastEnd(live[..k], from)
    ensures Gaps(live, from, to)[i].End() == NextAddr(live[k..], to)
    ensures Gaps(live[..k], from, LastEnd(live[..k], from)) == Gaps(live, from, to)[..i]
  {
    k := 0;
    if live != [] {
      PackedRange(live[1..], live[0].End(), to);
      var head, rest := Span(from, live[0].addr), Gaps(live[1..], live[0].End(), to);
      if |head| <= i {
        var j := GapPosition(live[1..], live[0].End(), to, i - |head|);
        k := j + 1;
        assert live[..k] == [live[0]] + live[1..][..j];
        assert live[..k][1..] == live[1..][..j];
        assert live[k..] == live[1..][j..];
        assert LastEnd(live[..k], from) == LastEnd(live[1..][..j], live[0].End());
        assert Gaps(live, from, to)[..i] == head + rest[..i - |head|];
      }
    }
  }

  // ---------- taking and giving back a block ----------

  function Insert(live: seq<Block>, b: Block): seq<Block> {
    if live == [] || b.addr < live[0].addr then [b] + live
    else [live[0]] + Insert(live[1..], b)
  }

  function Remove(live: seq<Block>, k: nat): seq<Block>
    requires k < |live|
  {
    live[..k] + live[k + 1..]
  }

  lemma {:induction false} InsertBetween(left: seq<Block>, b: Block, right: seq<Block>, from: nat, to: nat)
    requires Packed(left, from, b.addr) && Packed(right, b.addr, to)
    requires 0 < b.size && b.End() <= NextAddr(right, to)
    ensures Insert(left + right, b) == left + [b] + right
  {
    if left == [] {
      assert left + right == right;
      assert left + [b] + right == [b] + right;
    } else {
      PackedRange(left[1..], left[0].End(), b.addr);
      assert (left + right)[1..] == left[1..] + right;
      assert left + [b] + right == [left[0]] + (left[1..] + [b] + right);
      InsertBetween(left[1..], b, right, left[0].End(), to);
    }
  }

  lemma PackedBetween(left: seq<Block>, b: Block, right: seq<Block>, from: nat, to: nat)
    requires Packed(left, from, b.addr) && LastEnd(left, from) == b.addr && 0 < b.size
    requires Packed(right, b.End(), to)
    ensures Packed(left + [b] + right, from, to)
  {
    assert left + [b] + right == left + ([b] + right);
    assert ([b] + right)[1..] == right;
    PackedConcat(left, [b] + right, from, to);
  }

  /** The gaps around a block that starts where the block before it ends. */
  lemma GapsAfterTake(left: seq<Block>, b: Block, right: seq<Block>, from: nat, to: nat)
    requires Packed(left, from, b.addr) && LastEnd(left, from) == b.addr && 0 < b.size
    requires Packed(right, NextAddr(right, to), to) && b.End() <= NextAddr(right, to)
    ensures Packed(left + [b] + right, from, to) && Insert(left + right, b) == left + [b] + right
    ensures Gaps(left + [b] + right, from, to)
         == Gaps(left, from, b.addr) + Span(b.End(), NextAddr(right, to)) + Gaps(right, NextAddr(right, to), to)
  {
    PackedWiden(right, NextAddr(right, to), b.End(), to);
    PackedWiden(right, NextAddr(right, to), b.addr, to);
    InsertBetween(left, b, right, from, to);
    PackedBetween(left, b, right, from, to);
    GapsCut(left, b, right, from, to);
    GapsFrom(right, b.End(), to);
  }

  /** Allocating the front of gap `i` shrinks that gap (or removes it) and touches no other gap. */
  lemma TakeGap(live: seq<Block>, from: nat, to: nat, i: nat, size: nat)
    requires Packed(live, from, to)
    requires i < |Gaps(live, from, to)| && 0 < size <= Gaps(live, from, to)[i].size
    ensures var g := Gaps(live, from, to); var b := Block(g[i].addr, size);
      && Packed(Insert(live, b), from, to)
      && Gaps(Insert(live, b), from, to) == g[..i] + Span(b.End(), g[i].End()) + g[i + 1..]
  {
    var g := Gaps(live, from, to);
    var k := GapPosition(live, from, to, i);
    var left, right := live[..k], live[k..];
    var e, a := LastEnd(left, from), NextAddr(right, to);
    assert live == left + right;
    GapsJoin(left, right, from, to);
    assert g == g[..i] + [Block(e, a - e)] + Gaps(right, a, to);
    assert g[i + 1..] == Gaps(right, a, to);
    GapsAfterTake(left, Block(e, size), right, from, to);
  }

  lemma PackedWiden(live: seq<Block>, from: nat, lower: nat, to: nat)
    requires Packed(live, from, to) && lower <= from
    ensures Packed(live, lower, to)
  {}

  /** How many gaps lie below live block `k`. */
  function GapsBelow(live: seq<Block>, from: nat, to: nat, k: nat): nat
    requires Packed(live, from, to) && k < |live|
  {
    SplitAt(live, from, to, k);
    |Gaps(live[..k], from, live[k].addr)|
  }

  lemma SplitAt(live: seq<Block>, from: nat, to: nat, k: nat)
    requires Packed(live, from, to) && k < |live|
    ensures Packed(live[..k], from, live[k].addr) && Packed(live[k + 1..], live[k].End(), to)
    ensures Gaps(live, from, to) == Gaps(live[..k], from, live[k].addr) + Gaps(live[k + 1..], live[k].End(), to)
  {
    assert live == live[..k] + [live[k]] + live[k + 1..];
    GapsCut(live[..k], live[k], live[k + 1..], from, to);
  }

  /** The gaps below live block `k` come first, the gaps above it after them. */
  lemma GapsAround(live: seq<Block>, from: nat, to: nat, k: nat)
    requires Packed(live, from, to) && k < |live|
    ensures GapsBelow(live, from, to, k) <= |Gaps(live, from, to)|
    ensures forall j :: 0 <= j < GapsBelow(live, from, to, k) ==> Gaps(live, from, to)[j].End() <= live[k].addr
    ensures forall j :: GapsBelow(live, from, to, k) <= j < |Gaps(live, from, to)| ==>
        live[k].End() <= Gaps(live, from, to)[j].addr
  {
    SplitAt(live, from, to, k);
    GapsBounds(live[..k], from, live[k].addr);
    GapsBounds(live[k + 1..], live[k].End(), to);
    var low, high, g := Gaps(live[..k], from, live[k].addr), Gaps(live[k + 1..], live[k].End(), to),
        Gaps(live, from, to);
    assert forall j :: 0 <= j < |low| ==> g[j] == low[j];
    assert forall j :: |low| <= j < |g| ==> g[j] == high[j - |low|];
  }

  /** Freeing live block `k` replaces it and the gaps that touch it by one gap, and touches no other gap. */
  lemma GiveBack(live: seq<Block>, from: nat, to: nat, k: nat)
    requires Packed(live, from, to) && k < |live|
    ensures GapsBelow(live, from, to, k) <= |Gaps(live, from, to)|
    ensures Packed(Remove(live, k), from, to)
    ensures Gaps(Remove(live, k), from, to) == Coalesced(Gaps(live, from, to), GapsBelow(live, from, to, k), live[k])
  {
    SplitAt(live, from, to, k);
    PackedAt(live, from, to, k);
    CoalescedGaps(live[..k], live[k], live[k + 1..], from, to);
  }

  lemma PackedAt(live: seq<Block>, from: nat, to: nat, k: nat)
    requires Packed(live, from, to) && k < |live|
    ensures from <= live[k].addr && 0 < live[k].size && live[k].End() <= to
  {
    PackedBounds(live, from, to);
  }

  lemma GapsUpTo(live: seq<Block>, from: nat, to: nat)
    requires Packed(live, from, to)
    ensures Packed(live, from, LastEnd(live, from)) && LastEnd(live, from) <= to
    ensures Gaps(live, from, to) == Gaps(live, from, LastEnd(live, from)) + Span(LastEnd(live, from), to)
  {
    PackedShrink(live, from, to);
    GapsJoin(live, [], from, to);
    assert live + [] == live;
  }

  lemma GapsFrom(live: seq<Block>, from: nat, to: nat)
    requires Packed(live, from, to)
    ensures from <= NextAddr(live, to) && Packed(live, NextAddr(live, to), to)
    ensures Gaps(live, from, to) == Span(from, NextAddr(live, to)) + Gaps(live, NextAddr(live, to), to)
  {
    GapsJoin([], live, from, to);
    assert [] + live == live;
  }

  lemma CoalescedGaps(left: seq<Block>, b: Block, right: seq<Block>, from: nat, to: nat)
    requires Packed(left, from, b.addr) && 0 < b.size && Packed(right, b.End(), to)
    ensures Packed(left + right, from, to)
    ensures Gaps(left + right, from, to)
         == Coalesced(Gaps(left, from, b.addr) + Gaps(right, b.End(), to), |Gaps(left, from, b.addr)|, b)
  {
    var e, a := LastEnd(left, from), NextAddr(right, to);
    GapsUpTo(left, from, b.addr);
    GapsFrom(right, b.End(), to);
    PackedWiden(right, b.End(), e, to);
    GapsJoin(left, right, from, to);
    GapsStopShort(left, from);
    GapsStartLate(right, a, to);
    CoalescedParts(Gaps(left, from, e), Gaps(right, a, to), b, e, a);
  }

  lemma CoalescedParts(below: seq<Block>, above: seq<Block>, b: Block, e: nat, a: nat)
    requires e <= b.addr < b.End() <= a
    requires forall j :: 0 <= j < |below| ==> below[j].End() < e
    requires forall j :: 0 <= j < |above| ==> a < above[j].addr
    ensures var low, high := below + Span(e, b.addr), Span(b.End(), a) + above;
      Coalesced(low + high, |low|, b) == below + [Block(e, a - e)] + above
  {
    var low, high := below + Span(e, b.addr), Span(b.End(), a) + above;
    var g, n := low + high, |low|;
    var left := 0 < n && g[n - 1].End() == b.addr;
    var right := n < |g| && g[n].addr == b.End();
    assert left <==> e < b.addr;
    assert right <==> b.End() < a;
    assert g[..if left then n - 1 else n] == below;
    assert g[if right then n + 1 else n..] == above;
  }

  /** The free list `g` after block `b` joined it between positions n - 1 and n. */
  function Coalesced(g: seq<Block>, n: nat, b: Block): seq<Block>
    requires n <= |g|
  {
    var left := 0 < n && g[n - 1].End() == b.addr;
    var right := n < |g| && g[n].addr == b.End();
    var addr := if left then g[n - 1].addr else b.addr;
    var size := (if left then g[n - 1].size else 0) + b.size + (if right then g[n].size else 0);
    g[..if left then n - 1 else n] + [Block(addr, size)] + g[if right then n + 1 else n..]
  }

  lemma {:induction false} PackedShrink(live: seq<Block>, from: nat, to: nat)
    requires Packed(live, from, to)
    ensures Packed(live, from, LastEnd(live, from)) && LastEnd(live, from) <= to
  {
    PackedRange(live, from, to);
    if live != [] { PackedShrink(live[1..], live[0].End(), to); }
  }

  /** No gap below the last live block reaches its end. */
  lemma GapsStopShort(live: seq<Block>, from: nat)
    requires Packed(live, from, LastEnd(live, from))
    ensures forall j :: 0 <= j < |Gaps(live, from, LastEnd(live, from))|
              ==> Gaps(live, from, LastEnd(live, from))[j].End() < LastEnd(live, from)
  {
    GapsBounds(live, from, LastEnd(live, from));
    PackedBounds(live, from, LastEnd(live, from));
  }

  /** No gap starts where the first live block does. */
  lemma GapsStartLate(live: seq<Block>, from: nat, to: nat)
    requires Packed(live, from, to) && from == NextAddr(live, to)
    ensures forall j :: 0 <= j < |Gaps(live, from, to)| ==> from < Gaps(live, from, to)[j].addr
  {
    GapsBounds(live, from, to);
    PackedBounds(live, from, to);
  }
}
