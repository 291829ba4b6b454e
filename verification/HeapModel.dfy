/** Allocation and release over the address-ordered list of live blocks alone.

    This is the simple form that the class in HeapAllocator refines: first fit over the gaps,
    splitting when more than two headers would be left over, and release by forgetting. */
module HeapModel {
  import opened Lists
  import opened HeapGaps
  import opened Remainders

  datatype Heap = Heap(live: seq<Block>, minimum: nat, mallocs: nat, frees: nat)

  function FreeList(c: Layout, live: seq<Block>): seq<Block>
    requires Packed(live, c.first, c.end)
  {
    Gaps(live, c.first, c.end)
  }

  function TotalSize(blocks: seq<Block>): nat {
    if blocks == [] then 0 else blocks[0].size + TotalSize(blocks[1..])
  }

  function FreeBytes(c: Layout, live: seq<Block>): nat
    requires Packed(live, c.first, c.end)
  {
    TotalSize(FreeList(c, live))
  }

  function Min(a: nat, b: nat): nat { if a < b then a else b }

  /** The size of the largest block, zero when there is none. */
  function Largest(blocks: seq<Block>): nat {
    if blocks == [] then 0
    else
      var rest := Largest(blocks[..|blocks| - 1]);
      var last := blocks[|blocks| - 1].size;
      if last > rest then last else rest
  }

  /** The size a request is padded to: header added, rounded up to the alignment. */
  function Padded(c: Layout, want: nat): nat
    requires 0 < c.align
  {
    RoundUp(want + c.header, c.align)
  }

  /** The first block of at least `size` bytes, or the length of the list. */
  function FirstFit(blocks: seq<Block>, size: nat): (i: nat)
    ensures i <= |blocks|
    ensures forall j :: 0 <= j < i ==> blocks[j].size < size
    ensures i < |blocks| ==> size <= blocks[i].size
  {
    if blocks == [] || size <= blocks[0].size then 0
    else
      var i := FirstFit(blocks[1..], size);
      assert forall j :: 1 <= j < 1 + i ==> blocks[j] == blocks[1..][j - 1];
      1 + i
  }

  /** What is taken from a free block of `available` bytes: all of it unless the rest is worth splitting off. */
  function Taken(c: Layout, available: nat, size: nat): nat
    requires size <= available
  {
    if available - size > 2 * c.header then size else available
  }

  // ---------- operations ----------

  function Init(c: Layout): Heap
    requires c.Ok()
  {
    Heap([], c.end - c.first, 0, 0)
  }

  /** The block a request gets, if any. */
  function Choice(c: Layout, live: seq<Block>, want: nat): Option<Block>
    requires 0 < c.align && Packed(live, c.first, c.end)
  {
    var g := FreeList(c, live);
    var i := FirstFit(g, Padded(c, want));
    if want == 0 || i == |g| then None
    else Some(Block(g[i].addr, Taken(c, g[i].size, Padded(c, want))))
  }

  function Malloc(c: Layout, h: Heap, want: nat): Heap
    requires c.Ok() && Ok(c, h)
  {
    match Choice(c, h.live, want)
    case None => h
    case Some(b) =>
      MallocPacked(c, h.live, want);
      var live := Insert(h.live, b);
      Heap(live, Min(h.minimum, FreeBytes(c, live)), h.mallocs + 1, h.frees)
  }

  predicate IsLive(c: Layout, live: seq<Block>, ptr: nat) {
    exists k :: 0 <= k < |live| && ptr == live[k].addr + c.header
  }

  /** The index of the live block whose payload starts at `ptr`. */
  function IndexOf(c: Layout, live: seq<Block>, ptr: nat): (k: nat)
    requires IsLive(c, live, ptr)
    ensures k < |live| && live[k].addr + c.header == ptr
  {
    if live[0].addr + c.header == ptr then 0
    else
      var k :| 0 <= k < |live| && ptr == live[k].addr + c.header;
      assert live[k] == live[1..][k - 1];
      1 + IndexOf(c, live[1..], ptr)
  }

  function Free(c: Layout, h: Heap, ptr: nat): Heap
    requires IsLive(c, h.live, ptr)
  {
    h.(live := Remove(h.live, IndexOf(c, h.live, ptr)), frees := h.frees + 1)
  }

  // ---------- the invariant ----------

  /** Live blocks are aligned and have room for more than their header. */
  ghost predicate BlocksFit(c: Layout, live: seq<Block>)
    requires 0 < c.align
  {
    forall i :: 0 <= i < |live| ==>
      Multiple(live[i].addr, c.align) && Multiple(live[i].size, c.align) && c.header < live[i].size
  }

  /** Every free block has room for its own header. */
  ghost predicate GapsFit(c: Layout, g: seq<Block>) {
    forall i :: 0 <= i < |g| ==> c.header <= g[i].size
  }

  ghost predicate Ok(c: Layout, h: Heap)
    requires 0 < c.align
  {
    && Packed(h.live, c.first, c.end)
    && BlocksFit(c, h.live)
    && GapsFit(c, FreeList(c, h.live))
    && h.minimum <= FreeBytes(c, h.live)
    && h.mallocs == h.frees + |h.live|
  }

  // ---------- allocation and release keep the invariant ----------

  lemma MallocPacked(c: Layout, live: seq<Block>, want: nat)
    requires c.Ok() && Packed(live, c.first, c.end) && Choice(c, live, want).Some?
    ensures var g, b := FreeList(c, live), Choice(c, live, want).value;
      var i := FirstFit(g, Padded(c, want));
      && Packed(Insert(live, b), c.first, c.end)
      && FreeList(c, Insert(live, b)) == g[..i] + Span(b.End(), g[i].End()) + g[i + 1..]
  {
    var g := FreeList(c, live);
    var i := FirstFit(g, Padded(c, want));
    RoundUpMultiple(want + c.header, c.align);
    TakeGap(live, c.first, c.end, i, Taken(c, g[i].size, Padded(c, want)));
  }

  lemma {:induction false} InsertElements(live: seq<Block>, b: Block)
    ensures |Insert(live, b)| == |live| + 1
    ensures b in Insert(live, b)
    ensures forall x :: x in Insert(live, b) ==> x == b || x in live
    ensures forall x :: x in live ==> x in Insert(live, b)
  {
    if live != [] && live[0].addr <= b.addr {
      InsertElements(live[1..], b);
    }
  }

  /** Gaps start and end at aligned addresses. */
  lemma GapsAligned(c: Layout, live: seq<Block>, i: nat)
    requires c.Ok() && Packed(live, c.first, c.end) && BlocksFit(c, live)
    requires i < |FreeList(c, live)|
    ensures Multiple(FreeList(c, live)[i].addr, c.align) && Multiple(FreeList(c, live)[i].size, c.align)
  {
    var k := GapPosition(live, c.first, c.end, i);
    var g := FreeList(c, live)[i];
    if k > 0 {
      assert live[..k][k - 1] == live[k - 1];
      MultipleSum(live[k - 1].addr, live[k - 1].size, c.align);
    }
    assert Multiple(g.End(), c.align);
    MultipleDifference(g.addr, g.End(), c.align);
  }

  lemma ChoiceFits(c: Layout, live: seq<Block>, want: nat)
    requires c.Ok() && Packed(live, c.first, c.end) && BlocksFit(c, live)
    requires Choice(c, live, want).Some?
    ensures var b := Choice(c, live, want).value;
      && Multiple(b.addr, c.align) && Multiple(b.size, c.align) && c.header + want <= b.size
      && Padded(c, want) <= b.size <= Padded(c, want) + 2 * c.header
  {
    RoundUpMultiple(want + c.header, c.align);
    GapsAligned(c, live, FirstFit(FreeList(c, live), Padded(c, want)));
  }

  lemma InsertFits(c: Layout, live: seq<Block>, b: Block)
    requires 0 < c.align && BlocksFit(c, live)
    requires Multiple(b.addr, c.align) && Multiple(b.size, c.align) && c.header < b.size
    ensures BlocksFit(c, Insert(live, b))
  {
    InsertElements(live, b);
    forall i | 0 <= i < |Insert(live, b)|
      ensures var x := Insert(live, b)[i]; Multiple(x.addr, c.align) && Multiple(x.size, c.align) && c.header < x.size
    {
      assert Insert(live, b)[i] in Insert(live, b);
    }
  }

  lemma GapsFitConcat(c: Layout, g: seq<Block>, i: nat, mid: seq<Block>)
    requires i < |g| && GapsFit(c, g) && GapsFit(c, mid)
    ensures GapsFit(c, g[..i] + mid + g[i + 1..])
  {}

  lemma MallocKeepsOk(c: Layout, h: Heap, want: nat)
    requires c.Ok() && Ok(c, h)
    ensures Ok(c, Malloc(c, h, want))
  {
    if Choice(c, h.live, want).Some? {
      var b := Choice(c, h.live, want).value;
      MallocPacked(c, h.live, want);
      ChoiceFits(c, h.live, want);
      InsertElements(h.live, b);
      InsertFits(c, h.live, b);
      var g := FreeList(c, h.live);
      var i := FirstFit(g, Padded(c, want));
      GapsFitConcat(c, g, i, Span(b.End(), g[i].End()));
    }
  }

  lemma {:induction false} TotalSizeConcat(a: seq<Block>, b: seq<Block>)
    ensures TotalSize(a + b) == TotalSize(a) + TotalSize(b)
  {
    if a == [] {
      assert a + b == b;
    } else {
      assert (a + b)[1..] == a[1..] + b;
      TotalSizeConcat(a[1..], b);
    }
  }

  /** Free bytes and live bytes add up to the region. */
  lemma {:induction false} BytesConserved(live: seq<Block>, from: nat, to: nat)
    requires Packed(live, from, to)
    ensures TotalSize(Gaps(live, from, to)) + TotalSize(live) == to - from
  {
    if live != [] {
      PackedBounds(live[1..], live[0].End(), to);
      BytesConserved(live[1..], live[0].End(), to);
      TotalSizeConcat(Span(from, live[0].addr), Gaps(live[1..], live[0].End(), to));
    }
  }

  lemma {:induction false} TotalSizeRemove(live: seq<Block>, k: nat)
    requires k < |live|
    ensures TotalSize(live) == TotalSize(Remove(live, k)) + live[k].size
  {
    assert live == live[..k] + ([live[k]] + live[k + 1..]);
    TotalSizeConcat(live[..k], [live[k]] + live[k + 1..]);
    TotalSizeConcat(live[..k], live[k + 1..]);
  }

  lemma GapsFitCoalesced(c: Layout, g: seq<Block>, n: nat, b: Block)
    requires n <= |g| && GapsFit(c, g) && c.header <= b.size
    ensures GapsFit(c, Coalesced(g, n, b))
  {}

  lemma FreeKeepsOk(c: Layout, h: Heap, ptr: nat)
    requires c.Ok() && Ok(c, h) && IsLive(c, h.live, ptr)
    ensures Ok(c, Free(c, h, ptr))
    ensures FreeBytes(c, Free(c, h, ptr).live) == FreeBytes(c, h.live) + h.live[IndexOf(c, h.live, ptr)].size
  {
    var k := IndexOf(c, h.live, ptr);
    GiveBack(h.live, c.first, c.end, k);
    var g, n := FreeList(c, h.live), GapsBelow(h.live, c.first, c.end, k);
    GapsFitCoalesced(c, g, n, h.live[k]);
    BytesConserved(h.live, c.first, c.end);
    BytesConserved(Remove(h.live, k), c.first, c.end);
    TotalSizeRemove(h.live, k);
  }

  lemma {:induction false} TotalSizeInsert(live: seq<Block>, b: Block)
    ensures TotalSize(Insert(live, b)) == TotalSize(live) + b.size
  {
    if live != [] && live[0].addr <= b.addr {
      TotalSizeInsert(live[1..], b);
    } else {
      assert ([b] + live)[1..] == live;
    }
  }

  lemma MallocTakesBytes(c: Layout, live: seq<Block>, want: nat, b: Block)
    requires c.Ok() && Packed(live, c.first, c.end) && Choice(c, live, want) == Some(b)
    ensures Packed(Insert(live, b), c.first, c.end)
    ensures FreeBytes(c, Insert(live, b)) == FreeBytes(c, live) - b.size
  {
    MallocPacked(c, live, want);
    TotalSizeInsert(live, b);
    BytesConserved(live, c.first, c.end);
    BytesConserved(Insert(live, b), c.first, c.end);
  }

  lemma FirstFitIs(g: seq<Block>, size: nat, i: nat)
    requires i <= |g| && (forall j :: 0 <= j < i ==> g[j].size < size) && (i < |g| ==> size <= g[i].size)
    ensures FirstFit(g, size) == i
  {
  }

  lemma MallocEffect(c: Layout, h: Heap, want: nat, b: Block)
    requires c.Ok() && Ok(c, h) && Choice(c, h.live, want) == Some(b)
    ensures Ok(c, Malloc(c, h, want))
    ensures FreeBytes(c, Malloc(c, h, want).live) == FreeBytes(c, h.live) - b.size
    ensures Malloc(c, h, want).live == Insert(h.live, b)
    ensures Malloc(c, h, want).minimum == Min(h.minimum, FreeBytes(c, h.live) - b.size)
    ensures Malloc(c, h, want).mallocs == h.mallocs + 1 && Malloc(c, h, want).frees == h.frees
  {
    MallocTakesBytes(c, h.live, want, b);
    MallocKeepsOk(c, h, want);
  }

  /** Where the request is placed: at the front of free block `i`, splitting it or not. */
  lemma ChoiceShape(c: Layout, live: seq<Block>, want: nat)
    requires c.Ok() && Packed(live, c.first, c.end) && 0 < want
    ensures var g := FreeList(c, live); var i := FirstFit(g, Padded(c, want));
      Choice(c, live, want) == if i == |g| then None else Some(Block(g[i].addr, Taken(c, g[i].size, Padded(c, want))))
  {}
}
