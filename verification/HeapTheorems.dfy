/** What holds of every heap and of every run of allocations and releases. */
module HeapTheorems {
  import opened Remainders
  import opened Lists
  import opened HeapGaps
  import opened HeapModel

  // ---------- the free list is the list of maximal gaps ----------

  ghost predicate Covers(blocks: seq<Block>, x: nat) {
    exists i :: 0 <= i < |blocks| && blocks[i].addr <= x < blocks[i].End()
  }

  lemma CoversConcat(a: seq<Block>, b: seq<Block>, x: nat)
    ensures Covers(a + b, x) <==> Covers(a, x) || Covers(b, x)
  {
    var ab := a + b;
    if i :| 0 <= i < |a| && a[i].addr <= x < a[i].End() { assert ab[i] == a[i]; }
    if i :| 0 <= i < |b| && b[i].addr <= x < b[i].End() { assert ab[|a| + i] == b[i]; }
    if i :| 0 <= i < |ab| && ab[i].addr <= x < ab[i].End() {
      if |a| <= i { assert ab[i] == b[i - |a|]; } else { assert ab[i] == a[i]; }
    }
  }

  /** Free and live blocks tile the region: a byte is free exactly when no live block has it. */
  lemma {:induction false} FreeIffNotLive(live: seq<Block>, from: nat, to: nat, x: nat)
    requires Packed(live, from, to) && from <= x < to
    ensures Covers(Gaps(live, from, to), x) <==> !Covers(live, x)
  {
    if live == [] {
      assert Span(from, to)[0].addr <= x < Span(from, to)[0].End();
    } else {
      var b, tail := live[0], live[1..];
      PackedBounds(tail, b.End(), to);
      GapsBounds(tail, b.End(), to);
      assert live == [b] + tail;
      CoversConcat([b], tail, x);
      CoversConcat(Span(from, b.addr), Gaps(tail, b.End(), to), x);
      assert Covers([b], x) <==> b.addr <= x < b.End() by { assert [b][0] == b; }
      assert Covers(Span(from, b.addr), x) <==> x < b.addr by {
        if from < b.addr { assert Span(from, b.addr)[0] == Block(from, b.addr - from); }
      }
      if b.End() <= x { FreeIffNotLive(tail, b.End(), to, x); }
    }
  }

  lemma SpacedTail(g: seq<Block>, from: nat, to: nat)
    requires g != [] && Spaced(g, from, to)
    ensures Spaced(g[1..], g[0].End() + 1, to)
  {
    assert forall i :: 0 <= i < |g| - 1 ==> g[1..][i] == g[i + 1];
  }

  lemma SpacedHead(g: seq<Block>, from: nat, to: nat, x: nat)
    requires g != [] && Spaced(g, from, to) && Covers(g, x)
    ensures g[0].addr <= x && x != g[0].End()
    ensures g[0].End() < x ==> Covers(g[1..], x)
  {
    var i :| 0 <= i < |g| && g[i].addr <= x < g[i].End();
    if i > 0 { assert g[i] == g[1..][i - 1]; }
  }

  /** Two address-ordered lists of blocks that never touch and cover the same bytes are the same list.
      So the gaps are exactly the maximal runs of free bytes, however the heap came to be. */
  lemma {:induction false} MaximalRunsUnique(g: seq<Block>, h: seq<Block>, from: nat, to: nat)
    requires Spaced(g, from, to) && Spaced(h, from, to)
    requires forall x: nat :: Covers(g, x) <==> Covers(h, x)
    ensures g == h
  {
    if g == [] {
      if h != [] { assert Covers(h, h[0].addr); }
    } else if h == [] {
      assert Covers(g, g[0].addr);
    } else {
      assert Covers(g, g[0].addr) && Covers(h, h[0].addr);
      SpacedHead(g, from, to, h[0].addr);
      SpacedHead(h, from, to, g[0].addr);
      assert Covers(g, g[0].End() - 1) && Covers(h, h[0].End() - 1);
      SameFirstEnd(g, h, from, to);
      SameFirstEnd(h, g, from, to);
      forall x: nat ensures Covers(g[1..], x) <==> Covers(h[1..], x) {
        TailCovers(g, from, to, x);
        TailCovers(h, from, to, x);
      }
      SpacedTail(g, from, to);
      SpacedTail(h, from, to);
      MaximalRunsUnique(g[1..], h[1..], g[0].End() + 1, to);
    }
  }

  lemma SameFirstEnd(g: seq<Block>, h: seq<Block>, from: nat, to: nat)
    requires g != [] && h != [] && Spaced(g, from, to) && Spaced(h, from, to)
    requires g[0].addr == h[0].addr
    requires forall x: nat :: Covers(g, x) <==> Covers(h, x)
    ensures g[0].End() <= h[0].End()
  {
    if h[0].End() < g[0].End() {
      assert Covers(g, h[0].End());
      SpacedHead(h, from, to, h[0].End());
    }
  }

  lemma TailCovers(g: seq<Block>, from: nat, to: nat, x: nat)
    requires g != [] && Spaced(g, from, to)
    ensures Covers(g[1..], x) <==> Covers(g, x) && g[0].End() < x
  {
    if Covers(g, x) { SpacedHead(g, from, to, x); }
    if i :| 0 <= i < |g[1..]| && g[1..][i].addr <= x < g[1..][i].End() { assert g[i + 1] == g[1..][i]; }
  }

  /** The free list depends on which blocks are live, not on how they came to be. */
  lemma {:induction false} SameBlocksSameList(a: seq<Block>, b: seq<Block>, from: nat, to: nat)
    requires Packed(a, from, to) && Packed(b, from, to)
    requires forall x :: x in a <==> x in b
    ensures a == b && Gaps(a, from, to) == Gaps(b, from, to)
  {
    PackedBounds(a, from, to);
    PackedBounds(b, from, to);
    assert (a == [] || a[0] in a) && (b == [] || b[0] in b);
    if a != [] && b != [] {
      assert a[0] in b && b[0] in a;
      assert a[0] == b[0];
      forall x ensures x in a[1..] <==> x in b[1..] {
        assert x in a <==> x == a[0] || x in a[1..];
        assert x in b <==> x == b[0] || x in b[1..];
        TailExcludesHead(a, from, to);
        TailExcludesHead(b, from, to);
      }
      SameBlocksSameList(a[1..], b[1..], a[0].End(), to);
    }
  }

  lemma TailExcludesHead(a: seq<Block>, from: nat, to: nat)
    requires a != [] && Packed(a, from, to)
    ensures a[0] !in a[1..]
  {
    PackedBounds(a[1..], a[0].End(), to);
  }

  // ---------- when allocation succeeds, and what it returns ----------

  lemma {:induction false} LargestBounds(g: seq<Block>, size: nat)
    requires 0 < size
    ensures size <= Largest(g) <==> FirstFit(g, size) < |g|
  {
    LargestIsMaximum(g);
    if size <= Largest(g) {
      var i :| 0 <= i < |g| && g[i].size == Largest(g);
    }
  }

  lemma {:induction false} LargestIsMaximum(g: seq<Block>)
    ensures forall i :: 0 <= i < |g| ==> g[i].size <= Largest(g)
    ensures g != [] && 0 < Largest(g) ==> exists i :: 0 <= i < |g| && g[i].size == Largest(g)
    ensures g == [] ==> Largest(g) == 0
  {
    if g != [] {
      var n := |g| - 1;
      LargestIsMaximum(g[..n]);
      assert forall i :: 0 <= i < n ==> g[..n][i] == g[i];
      if g[n].size <= Largest(g[..n]) && 0 < Largest(g) && n > 0 {
        var i :| 0 <= i < n && g[..n][i].size == Largest(g[..n]);
        assert g[i].size == Largest(g);
      } else {
        assert 0 < Largest(g) ==> g[n].size == Largest(g);
      }
    }
  }

  /** A free block with room for the request and a header has room for the padded request. */
  lemma RoomIsPaddedRoom(c: Layout, live: seq<Block>, want: nat, i: nat)
    requires c.Ok() && Packed(live, c.first, c.end) && BlocksFit(c, live) && i < |FreeList(c, live)|
    ensures Padded(c, want) <= FreeList(c, live)[i].size <==> c.header + want <= FreeList(c, live)[i].size
  {
    RoundUpMultiple(want + c.header, c.align);
    if c.header + want <= FreeList(c, live)[i].size {
      GapsAligned(c, live, i);
      RoundUpLeast(want + c.header, FreeList(c, live)[i].size, c.align);
    }
  }

  /** Some block has at least `size` bytes. */
  predicate HasRoom(g: seq<Block>, size: nat) {
    exists i :: 0 <= i < |g| && size <= g[i].size
  }

  /** A request is served exactly when it is not zero and some free block has room for it and one header. */
  lemma ServedIffRoom(c: Layout, live: seq<Block>, want: nat)
    requires c.Ok() && Packed(live, c.first, c.end) && BlocksFit(c, live)
    ensures Choice(c, live, want).Some? <==> 0 < want && HasRoom(FreeList(c, live), c.header + want)
  {
    var g := FreeList(c, live);
    var i := FirstFit(g, Padded(c, want));
    forall j: nat | j < |g| ensures Padded(c, want) <= g[j].size <==> c.header + want <= g[j].size {
      RoomIsPaddedRoom(c, live, want, j);
    }
    assert i < |g| ==> c.header + want <= g[i].size;
  }

  /** Block `b` is the front of `gap`: the least multiple `size` of the alignment that holds the request
      and a header, or all of `gap` when at most two headers would be left over. */
  predicate CutTo(c: Layout, gap: Block, want: nat, size: nat, b: Block)
    requires 0 < c.align
  {
    && LeastMultiple(size, c.header + want, c.align)
    && size <= gap.size
    && b == Block(gap.addr, if gap.size - size > 2 * c.header then size else gap.size)
  }

  /** Block `b` is cut from free block `i`, and no free block before it has the room. */
  ghost predicate CutFrom(c: Layout, g: seq<Block>, i: nat, want: nat, b: Block)
    requires 0 < c.align && i < |g|
  {
    && (exists size: nat :: CutTo(c, g[i], want, size, b))
    && forall j :: 0 <= j < i ==> g[j].size < c.header + want
  }

  lemma ChoiceIsCut(c: Layout, live: seq<Block>, want: nat, b: Block)
    requires c.Ok() && Packed(live, c.first, c.end) && BlocksFit(c, live) && Choice(c, live, want) == Some(b)
    ensures exists i :: 0 <= i < |FreeList(c, live)| && CutFrom(c, FreeList(c, live), i, want, b)
  {
    var g, p := FreeList(c, live), Padded(c, want);
    var i := FirstFit(g, p);
    RoundUpIsLeast(want + c.header, c.align);
    assert CutTo(c, g[i], want, p, b);
    forall j | 0 <= j < i ensures g[j].size < c.header + want {
      RoomIsPaddedRoom(c, live, want, j);
    }
    assert CutFrom(c, g, i, want, b);
  }

  /** A request succeeds exactly when its padded size is at most the largest free block; as blocks are aligned,
      exactly when the request and one header are. */
  lemma SucceedsIffLargestFits(c: Layout, live: seq<Block>, want: nat)
    requires c.Ok() && Packed(live, c.first, c.end)
    ensures Choice(c, live, want).Some? <==> 0 < want && Padded(c, want) <= Largest(FreeList(c, live))
    ensures BlocksFit(c, live) ==>
        (Choice(c, live, want).Some? <==> 0 < want && c.header + want <= Largest(FreeList(c, live)))
  {
    if BlocksFit(c, live) {
      ServedIffRoom(c, live, want);
      LargestIsMaximum(FreeList(c, live));
    }
    if 0 < want {
      ChoiceShape(c, live, want);
      RoundUpMultiple(want + c.header, c.align);
      LargestBounds(FreeList(c, live), Padded(c, want));
    }
  }

  /** A served request is placed in the lowest-addressed free block that is large enough. */
  lemma ServedFromLowestFit(c: Layout, live: seq<Block>, want: nat, b: Block)
    requires c.Ok() && Packed(live, c.first, c.end) && Choice(c, live, want) == Some(b)
    ensures exists i :: 0 <= i < |FreeList(c, live)| && LowestFit(FreeList(c, live), i, b, Padded(c, want))
  {
    var g := FreeList(c, live);
    GapsBounds(live, c.first, c.end);
    ChoiceShape(c, live, want);
    assert LowestFit(g, FirstFit(g, Padded(c, want)), b, Padded(c, want));
  }

  /** Block `b` is the front of free block `i`, and no free block at a lower address holds `size` bytes. */
  ghost predicate LowestFit(g: seq<Block>, i: nat, b: Block, size: nat)
    requires i < |g|
  {
    && b.addr == g[i].addr && size <= b.size <= g[i].size
    && forall j :: 0 <= j < |g| && g[j].addr < g[i].addr ==> g[j].size < size
  }

  lemma {:induction false} TotalSizeBoundsEach(g: seq<Block>)
    ensures forall i :: 0 <= i < |g| ==> g[i].size <= TotalSize(g)
  {
    if g != [] {
      TotalSizeBoundsEach(g[1..]);
      assert forall i :: 1 <= i < |g| ==> g[i] == g[1..][i - 1];
    }
  }

  /** The early tests, against the free byte count and the allocation bit, reject nothing that could be served. */
  lemma EarlyTestsAreHarmless(c: Layout, live: seq<Block>, want: nat)
    requires c.Ok() && Packed(live, c.first, c.end)
    requires FreeBytes(c, live) < Padded(c, want) || BLOCK_ALLOCATED_BIT <= Padded(c, want)
    ensures Choice(c, live, want).None?
  {
    TotalSizeBoundsEach(FreeList(c, live));
    BytesConserved(live, c.first, c.end);
  }

  /** A new allocation is aligned, inside the region, apart from every live block, and cut from the first
      free block with room to the exact size. */
  lemma AllocationHolds(c: Layout, h: Heap, want: nat, b: Block)
    requires c.Ok() && Ok(c, h) && Choice(c, h.live, want) == Some(b)
    ensures forall x :: x in Malloc(c, h, want).live <==> x == b || x in h.live
    ensures Multiple(b.addr + c.header, c.align)
    ensures c.first <= b.addr && b.End() <= c.end
    ensures want <= b.size - c.header
    ensures exists i :: 0 <= i < |FreeList(c, h.live)| && CutFrom(c, FreeList(c, h.live), i, want, b)
    ensures b.size < c.header + want + c.align + 2 * c.header
    ensures forall k :: 0 <= k < |h.live| ==> b.End() <= h.live[k].addr || h.live[k].End() <= b.addr
  {
    InsertElements(h.live, b);
    ChoiceFits(c, h.live, want);
    RoundUpMultiple(want + c.header, c.align);
    ChoiceIsCut(c, h.live, want, b);
    MultipleSum(b.addr, c.header, c.align);
    ChoiceApart(c, h.live, want, b);
  }

  lemma ChoiceApart(c: Layout, live: seq<Block>, want: nat, b: Block)
    requires c.Ok() && Packed(live, c.first, c.end) && Choice(c, live, want) == Some(b)
    ensures c.first <= b.addr && b.End() <= c.end
    ensures forall k :: 0 <= k < |live| ==> b.End() <= live[k].addr || live[k].End() <= b.addr
  {
    GapsBounds(live, c.first, c.end);
  }

  /** A release takes away the block whose payload was named, and no other. */
  lemma ReleasesExactly(c: Layout, h: Heap, ptr: nat)
    requires c.Ok() && Ok(c, h) && IsLive(c, h.live, ptr)
    ensures forall b :: b in Free(c, h, ptr).live <==> b in h.live && b.addr + c.header != ptr
  {
    PackedBounds(h.live, c.first, c.end);
    RemovedElements(h.live, IndexOf(c, h.live, ptr));
  }

  lemma RemovedElements(live: seq<Block>, k: nat)
    requires k < |live| && forall i :: 0 <= i < |live| && i != k ==> live[i].addr != live[k].addr
    ensures forall b :: b in Remove(live, k) <==> b in live && b.addr != live[k].addr
  {
    var rest := Remove(live, k);
    forall b | b in live && b.addr != live[k].addr ensures b in rest {
      var i :| 0 <= i < |live| && live[i] == b;
      assert rest[if i < k then i else i - 1] == b;
    }
    forall b | b in rest ensures b in live && b.addr != live[k].addr {
      var j :| 0 <= j < |rest| && rest[j] == b;
      assert b == live[if j < k then j else j + 1];
    }
  }

  // ---------- round trip ----------

  lemma {:induction false} InsertPosition(live: seq<Block>, b: Block) returns (k: nat)
    ensures k < |Insert(live, b)| && Insert(live, b)[k] == b
    ensures Remove(Insert(live, b), k) == live
  {
    if live == [] || b.addr < live[0].addr {
      k := 0;
    } else {
      var j := InsertPosition(live[1..], b);
      k := j + 1;
      assert Remove(Insert(live, b), k) == [live[0]] + Remove(Insert(live[1..], b), j);
    }
  }

  lemma IndexOfUnique(c: Layout, live: seq<Block>, ptr: nat, k: nat)
    requires Packed(live, c.first, c.end) && k < |live| && live[k].addr + c.header == ptr
    ensures IsLive(c, live, ptr) && IndexOf(c, live, ptr) == k
  {
    PackedBounds(live, c.first, c.end);
    var j := IndexOf(c, live, ptr);
  }

  lemma RemoveInserted(c: Layout, live: seq<Block>, b: Block, after: seq<Block>)
    requires after == Insert(live, b) && Packed(after, c.first, c.end)
    ensures IsLive(c, after, b.addr + c.header)
    ensures Remove(after, IndexOf(c, after, b.addr + c.header)) == live
  {
    var k := InsertPosition(live, b);
    IndexOfUnique(c, after, b.addr + c.header, k);
  }

  /** Releasing the block just allocated restores the same live blocks and so the identical free list. */
  lemma MallocThenFree(c: Layout, h: Heap, want: nat, b: Block)
    requires c.Ok() && Ok(c, h) && Choice(c, h.live, want) == Some(b)
    ensures IsLive(c, Malloc(c, h, want).live, b.addr + c.header)
    ensures Free(c, Malloc(c, h, want), b.addr + c.header).live == h.live
  {
    MallocEffect(c, h, want, b);
    RemoveInserted(c, h.live, b, Malloc(c, h, want).live);
  }

  // ---------- runs ----------

  datatype Op = Request(want: nat) | Release(ptr: nat)

  ghost predicate StepLegal(c: Layout, h: Heap, op: Op) {
    op.Release? ==> IsLive(c, h.live, op.ptr)
  }

  ghost function Step(c: Layout, h: Heap, op: Op): (r: Heap)
    requires c.Ok() && Ok(c, h) && StepLegal(c, h, op)
    ensures Ok(c, r)
  {
    match op
    case Request(want) => MallocKeepsOk(c, h, want); Malloc(c, h, want)
    case Release(ptr) => FreeKeepsOk(c, h, ptr); Free(c, h, ptr)
  }

  /** Every release names a payload that is live at that point. */
  ghost predicate Legal(c: Layout, h: Heap, ops: seq<Op>)
    requires c.Ok() && Ok(c, h)
    decreases |ops|
  {
    ops == [] || (StepLegal(c, h, ops[0]) && Legal(c, Step(c, h, ops[0]), ops[1..]))
  }

  ghost function Run(c: Layout, h: Heap, ops: seq<Op>): Heap
    requires c.Ok() && Ok(c, h) && Legal(c, h, ops)
    decreases |ops|
  {
    if ops == [] then h else Run(c, Step(c, h, ops[0]), ops[1..])
  }

  /** The free byte count in every state of a run, the first included. */
  ghost function FreeHistory(c: Layout, h: Heap, ops: seq<Op>): seq<nat>
    requires c.Ok() && Ok(c, h) && Legal(c, h, ops)
    decreases |ops|
  {
    [FreeBytes(c, h.live)] + if ops == [] then [] else FreeHistory(c, Step(c, h, ops[0]), ops[1..])
  }

  /** The least of `bound` and the entries of `history`. */
  function Least(bound: nat, history: seq<nat>): nat {
    if history == [] then bound else Least(Min(bound, history[0]), history[1..])
  }

  lemma {:induction false} LeastIsMinimum(bound: nat, history: seq<nat>)
    ensures Least(bound, history) <= bound && forall i :: 0 <= i < |history| ==> Least(bound, history) <= history[i]
    ensures Least(bound, history) == bound || Least(bound, history) in history
  {
    if history != [] { LeastIsMinimum(Min(bound, history[0]), history[1..]); }
  }

  lemma StepKeepsAccounts(c: Layout, h: Heap, op: Op)
    requires c.Ok() && Ok(c, h) && StepLegal(c, h, op)
    ensures Step(c, h, op).minimum == Min(h.minimum, FreeBytes(c, Step(c, h, op).live))
    ensures op.Release? ==> |Step(c, h, op).live| == |h.live| - 1
  {
    match op
    case Request(want) =>
    case Release(ptr) => FreeKeepsOk(c, h, ptr);
  }

  lemma InitOk(c: Layout)
    requires c.Ok()
    ensures Ok(c, Init(c)) && FreeList(c, []) == [Block(c.first, c.end - c.first)]
    ensures Init(c).minimum == FreeBytes(c, [])
  {
    BytesConserved([], c.first, c.end);
  }

  /** Every run keeps the invariant; the recorded minimum is the least free byte count seen;
      allocations minus releases is the number of live blocks. */
  lemma {:induction false} RunsKeepAccounts(c: Layout, h: Heap, ops: seq<Op>)
    requires c.Ok() && Ok(c, h) && Legal(c, h, ops)
    ensures Ok(c, Run(c, h, ops))
    ensures Run(c, h, ops).mallocs == Run(c, h, ops).frees + |Run(c, h, ops).live|
    ensures Run(c, h, ops).minimum == Least(h.minimum, FreeHistory(c, h, ops))
    decreases |ops|
  {
    if ops != [] {
      StepKeepsAccounts(c, h, ops[0]);
      var m := Step(c, h, ops[0]);
      RunsKeepAccounts(c, m, ops[1..]);
      var rest := FreeHistory(c, m, ops[1..]);
      assert FreeHistory(c, h, ops)[1..] == rest;
      assert Min(m.minimum, rest[0]) == m.minimum;
    }
  }

  /** From start-up, the recorded minimum is the smallest of all free byte counts so far. */
  lemma MinimumEver(c: Layout, ops: seq<Op>)
    requires c.Ok() && Ok(c, Init(c)) && Legal(c, Init(c), ops)
    ensures var seen := FreeHistory(c, Init(c), ops);
      && Run(c, Init(c), ops).minimum in seen
      && forall i :: 0 <= i < |seen| ==> Run(c, Init(c), ops).minimum <= seen[i]
  {
    var seen := FreeHistory(c, Init(c), ops);
    RunsKeepAccounts(c, Init(c), ops);
    InitOk(c);
    LeastIsMinimum(Init(c).minimum, seen);
    assert seen[0] == FreeBytes(c, []);
  }

  /** Two runs that end with the same live blocks end with the same free list. */
  lemma RunsAgree(c: Layout, ops: seq<Op>, ops': seq<Op>)
    requires c.Ok() && Ok(c, Init(c)) && Legal(c, Init(c), ops) && Legal(c, Init(c), ops')
    requires forall b :: b in Run(c, Init(c), ops).live <==> b in Run(c, Init(c), ops').live
    ensures Ok(c, Run(c, Init(c), ops)) && Ok(c, Run(c, Init(c), ops'))
    ensures FreeList(c, Run(c, Init(c), ops).live) == FreeList(c, Run(c, Init(c), ops').live)
  {
    RunsKeepAccounts(c, Init(c), ops);
    RunsKeepAccounts(c, Init(c), ops');
    SameBlocksSameList(Run(c, Init(c), ops).live, Run(c, Init(c), ops').live, c.first, c.end);
  }

  /** Releasing every live block, in any order, leaves the single initial block. */
  lemma {:induction false} FreeingAllRestoresTheHeap(c: Layout, h: Heap, ops: seq<Op>)
    requires c.Ok() && Ok(c, h) && Legal(c, h, ops)
    requires (forall i :: 0 <= i < |ops| ==> ops[i].Release?) && |ops| == |h.live|
    ensures Ok(c, Run(c, h, ops))
    ensures FreeList(c, Run(c, h, ops).live) == [Block(c.first, c.end - c.first)]
    decreases |ops|
  {
    if ops != [] {
      StepKeepsAccounts(c, h, ops[0]);
      FreeingAllRestoresTheHeap(c, Step(c, h, ops[0]), ops[1..]);
    }
  }
}
