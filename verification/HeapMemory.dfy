/** How the heap of furi/core/memmgr_heap.c lies in memory: block headers in front of payloads,
    free blocks linked through their headers, the end marker after the last block. */
module HeapMemory {
  import opened Remainders
  import opened Lists
  import opened HeapGaps
  import opened HeapModel

  /** A byte of memory.  A machine word shows its value at its first byte and `Rest` at the others. */
  datatype Cell = Raw(byte: bv8) | Link(next: nat) | Size(size: nat, used: bool) | Rest

  type Memory = seq<Cell>

  /** The linker-given heap area and the sizes the allocator is built with. */
  datatype Region = Region(base: nat, total: nat, align: nat, word: nat, head: nat) {
    /** The two words of a block header, padded to the alignment. */
    function Header(): nat
      requires 0 < align
    {
      RoundUp(2 * word, align)
    }

    function First(): nat
      requires 0 < align
    {
      RoundUp(base, align)
    }

    function End(): nat
      requires 0 < align && Header() <= base + total
    {
      RoundDown(base + total - Header(), align)
    }

    /** The area holds at least one block and the end marker, and the list head lies before it. */
    ghost predicate Ok() {
      && 0 < word && 0 < align
      && 0 < head && head + 2 * word <= base
      && total < BLOCK_ALLOCATED_BIT && base + total <= SIZE_MAX
      && First() + 2 * Header() + align <= base + total
    }
  }

  lemma RegionLayout(r: Region)
    requires r.Ok()
    ensures r.Header() <= r.base + r.total
    ensures Placed(Layout(r.First(), r.End(), r.align, r.Header()), r.word, r.head)
    ensures r.base <= r.First() && r.End() + r.Header() <= r.base + r.total
  {
    RoundUpMultiple(2 * r.word, r.align);
    RoundUpMultiple(r.base, r.align);
    RoundDownMultiple(r.base + r.total - r.Header(), r.align);
  }

  /** The heap is laid out on all of the area: from the first aligned address, with the header two words
      rounded up, to the last aligned address that leaves room for the end marker. */
  lemma RegionIsWhole(r: Region)
    requires r.Ok()
    ensures LeastMultiple(r.Header(), 2 * r.word, r.align) && LeastMultiple(r.First(), r.base, r.align)
    ensures r.End() % r.align == 0 && r.End() + r.Header() <= r.base + r.total < r.End() + r.Header() + r.align
  {
    RegionLayout(r);
    RoundUpIsLeast(2 * r.word, r.align);
    RoundUpIsLeast(r.base, r.align);
    RoundDownMultiple(r.base + r.total - r.Header(), r.align);
    MultipleIffNoRemainder(r.End(), r.align);
  }

  // ---------- words ----------

  function Store(m: Memory, word: nat, a: nat, c: Cell): (r: Memory)
    requires 0 < word && a + word <= |m|
    ensures |r| == |m| && r[a] == c
    ensures forall x :: 0 <= x < |m| && !(a <= x < a + word) ==> r[x] == m[x]
  {
    m[..a] + [c] + seq(word - 1, _ => Rest) + m[a + word..]
  }

  /** Sets `count` bytes from `a` to zero. */
  function Wipe(m: Memory, a: nat, count: nat): (r: Memory)
    requires a + count <= |m|
    ensures |r| == |m|
    ensures forall x :: a <= x < a + count ==> r[x] == Raw(0)
    ensures forall x :: 0 <= x < |m| && !(a <= x < a + count) ==> r[x] == m[x]
  {
    m[..a] + seq(count, _ => Raw(0)) + m[a + count..]
  }

  ghost predicate HeaderAt(m: Memory, word: nat, a: nat, next: nat, size: nat, used: bool) {
    a + 2 * word <= |m| && 0 < word && m[a] == Link(next) && m[a + word] == Size(size, used)
  }

  // ---------- the heap in memory ----------

  /** The address after the first `i` free blocks: the next free block, or the end marker. */
  function After(g: seq<Block>, i: nat, end: nat): nat {
    if i < |g| then g[i].addr else end
  }

  /** Node 0 is the list head, node i + 1 is free block i. */
  function Node(head: nat, g: seq<Block>, i: nat): nat
    requires i <= |g|
  {
    if i == 0 then head else g[i - 1].addr
  }

  function NodeSize(g: seq<Block>, i: nat): nat
    requires i <= |g|
  {
    if i == 0 then 0 else g[i - 1].size
  }

  /** From the head, the links visit exactly the blocks of `g`, in order, and then the end marker. */
  ghost predicate Linked(m: Memory, word: nat, head: nat, g: seq<Block>, end: nat) {
    forall i :: 0 <= i <= |g| ==> HeaderAt(m, word, Node(head, g, i), After(g, i, end), NodeSize(g, i), false)
  }

  ghost predicate LiveHeaders(m: Memory, word: nat, live: seq<Block>) {
    forall k :: 0 <= k < |live| ==> HeaderAt(m, word, live[k].addr, 0, live[k].size, true)
  }

  /** How the blocks of layout `c` are linked: words of `word` bytes, list head at address `head`. */
  ghost predicate Placed(c: Layout, word: nat, head: nat) {
    c.Ok() && 0 < word && 2 * word <= c.header && 0 < head && head + 2 * word <= c.first
  }

  /** The memory holds the heap with these live blocks and with their gaps as its free list. */
  ghost predicate InMemory(m: Memory, c: Layout, word: nat, head: nat, live: seq<Block>) {
    && Packed(live, c.first, c.end)
    && Linked(m, word, head, FreeList(c, live), c.end)
    && LiveHeaders(m, word, live)
    && HeaderAt(m, word, c.end, 0, 0, false)
  }

  // ---------- writes that keep the heap in memory ----------

  /** Free blocks with room for a header, all above the list head's header. */
  ghost predicate Roomy(head: nat, word: nat, g: seq<Block>, from: nat, to: nat) {
    && Spaced(g, from, to) && 0 < word && head + 2 * word <= from
    && forall i :: 0 <= i < |g| ==> 2 * word <= g[i].size
  }

  lemma NodesApart(head: nat, word: nat, g: seq<Block>, from: nat, to: nat, i: nat, j: nat)
    requires Roomy(head, word, g, from, to) && i < j <= |g|
    ensures Node(head, g, i) + 2 * word <= Node(head, g, j)
    ensures i > 0 ==> g[i - 1].End() < Node(head, g, j)
  {}

  ghost predicate KeptOutside(m: Memory, m': Memory, a: nat, aEnd: nat, b: nat, bEnd: nat) {
    |m'| == |m| && forall x :: 0 <= x < |m| && !(a <= x < aEnd) && !(b <= x < bEnd) ==> m'[x] == m[x]
  }

  ghost predicate NodeAt(m: Memory, word: nat, head: nat, g: seq<Block>, i: nat, end: nat)
    requires i <= |g|
  {
    HeaderAt(m, word, Node(head, g, i), After(g, i, end), NodeSize(g, i), false)
  }

  /** A node's header survives writes to another node's header and inside a block apart from it. */
  lemma NodeSurvives(m: Memory, m': Memory, word: nat, head: nat, g: seq<Block>, from: nat, to: nat, i: nat, b: nat,
      bEnd: nat, j: nat)
    requires Roomy(head, word, g, from, to) && Linked(m, word, head, g, to)
    requires i <= |g| && j <= |g| && i != j
    requires KeptOutside(m, m', Node(head, g, i), Node(head, g, i) + 2 * word, b, bEnd)
    requires Node(head, g, j) + 2 * word <= b || bEnd <= Node(head, g, j)
    ensures NodeAt(m', word, head, g, j, to)
  {
    NodesApart(head, word, g, from, to, if i < j then i else j, if i < j then j else i);
    assert HeaderAt(m, word, Node(head, g, j), After(g, j, to), NodeSize(g, j), false);
  }

  /** Taking all of free block `i` out of the list, or leaving the block `rest` in its place. */
  lemma LinkedAfterTake(m: Memory, m': Memory, word: nat, head: nat, g: seq<Block>, from: nat, to: nat, i: nat,
      rest: seq<Block>)
    requires Roomy(head, word, g, from, to) && Linked(m, word, head, g, to) && i < |g|
    requires |rest| <= 1
    requires KeptOutside(m, m', Node(head, g, i), Node(head, g, i) + 2 * word, g[i].addr, g[i].End())
    requires HeaderAt(m', word, Node(head, g, i), if rest == [] then After(g, i + 1, to)
        else rest[0].addr, NodeSize(g, i), false)
    requires rest != [] ==> HeaderAt(m', word, rest[0].addr, After(g, i + 1, to), rest[0].size, false)
    ensures Linked(m', word, head, g[..i] + rest + g[i + 1..], to)
  {
    forall j | 0 <= j <= |g| && j != i && j != i + 1
      ensures NodeAt(m', word, head, g, j, to)
    {
      NodesApart(head, word, g, from, to, if j < i + 1 then j else i + 1, if j < i + 1 then i + 1 else j);
      NodeSurvives(m, m', word, head, g, from, to, i, g[i].addr, g[i].End(), j);
    }
    if rest == [] {
      assert g[..i] + rest + g[i + 1..] == g[..i] + g[i + 1..];
      DropNode(m', word, head, g, i, to);
    } else {
      assert g[..i] + rest + g[i + 1..] == g[i := rest[0]];
      ReplaceNode(m', word, head, g, i, rest[0], to);
    }
  }

  lemma DropNode(m: Memory, word: nat, head: nat, g: seq<Block>, i: nat, to: nat)
    requires i < |g|
    requires forall j :: 0 <= j <= |g| && j != i && j != i + 1 ==> NodeAt(m, word, head, g, j, to)
    requires HeaderAt(m, word, Node(head, g, i), After(g, i + 1, to), NodeSize(g, i), false)
    ensures Linked(m, word, head, g[..i] + g[i + 1..], to)
  {
    var g' := g[..i] + g[i + 1..];
    forall j | 0 <= j <= |g'|
      ensures HeaderAt(m, word, Node(head, g', j), After(g', j, to), NodeSize(g', j), false)
    {
      if j != i { assert NodeAt(m, word, head, g, if j < i then j else j + 1, to); }
    }
  }

  lemma ReplaceNode(m: Memory, word: nat, head: nat, g: seq<Block>, i: nat, b: Block, to: nat)
    requires i < |g|
    requires forall j :: 0 <= j <= |g| && j != i && j != i + 1 ==> NodeAt(m, word, head, g, j, to)
    requires HeaderAt(m, word, Node(head, g, i), b.addr, NodeSize(g, i), false)
    requires HeaderAt(m, word, b.addr, After(g, i + 1, to), b.size, false)
    ensures Linked(m, word, head, g[i := b], to)
  {
    var g' := g[i := b];
    forall j | 0 <= j <= |g'|
      ensures HeaderAt(m, word, Node(head, g', j), After(g', j, to), NodeSize(g', j), false)
    {
      if j != i && j != i + 1 { assert NodeAt(m, word, head, g, j, to); }
    }
  }

  /** Putting block `b` into the list between nodes n and n + 1, joined with its neighbours where they touch. */
  lemma LinkedAfterGive(m: Memory, m': Memory, word: nat, head: nat, g: seq<Block>, from: nat, to: nat, n: nat,
      b: Block)
    requires Roomy(head, word, g, from, to) && Linked(m, word, head, g, to) && n <= |g|
    requires from <= b.addr && 2 * word <= b.size && b.End() <= to
    requires 0 < n ==> g[n - 1].End() <= b.addr
    requires n < |g| ==> b.End() <= g[n].addr
    requires KeptOutside(m, m', Node(head, g, n), Node(head, g, n) + 2 * word, b.addr, b.End())
    requires JoinedAt(m', word, head, g, to, n, b)
    ensures Linked(m', word, head, Coalesced(g, n, b), to)
  {
    forall j | 0 <= j <= |g| && j != n
      ensures NodeAt(m', word, head, g, j, to)
    {
      NodesApart(head, word, g, from, to, if j < n then j else n, if j < n then n else j);
      if n < j { NodesOrdered(head, word, g, from, to, n, j); }
      NodeSurvives(m, m', word, head, g, from, to, n, b.addr, b.End(), j);
    }
    CoalescedLinks(m', word, head, g, n, b, to);
  }

  lemma NodesOrdered(head: nat, word: nat, g: seq<Block>, from: nat, to: nat, n: nat, j: nat)
    requires Roomy(head, word, g, from, to) && n < j <= |g|
    ensures g[n].addr <= Node(head, g, j)
  {}

  /** The headers that joining `b` writes. */
  ghost predicate JoinedAt(m: Memory, word: nat, head: nat, g: seq<Block>, to: nat, n: nat, b: Block)
    requires n <= |g|
  {
    var right := n < |g| && g[n].addr == b.End();
    var next := After(g, if right then n + 1 else n, to);
    var size := b.size + if right then g[n].size else 0;
    if 0 < n && g[n - 1].End() == b.addr then
      HeaderAt(m, word, g[n - 1].addr, next, g[n - 1].size + size, false)
    else
      HeaderAt(m, word, Node(head, g, n), b.addr, NodeSize(g, n), false) && HeaderAt(m, word, b.addr, next, size, false)
  }

  lemma CoalescedLinks(m: Memory, word: nat, head: nat, g: seq<Block>, n: nat, b: Block, to: nat)
    requires n <= |g| && JoinedAt(m, word, head, g, to, n, b)
    requires forall j :: 0 <= j <= |g| && j != n ==> NodeAt(m, word, head, g, j, to)
    ensures Linked(m, word, head, Coalesced(g, n, b), to)
  {
    var g' := Coalesced(g, n, b);
    var left := 0 < n && g[n - 1].End() == b.addr;
    var right := n < |g| && g[n].addr == b.End();
    var at := if left then n - 1 else n;
    var shift := (if left then 1 else 0) + (if right then 1 else 0) - 1;
    forall j | 0 <= j <= |g'|
      ensures HeaderAt(m, word, Node(head, g', j), After(g', j, to), NodeSize(g', j), false)
    {
      if j < at || (j == at && left) {
        assert NodeAt(m, word, head, g, j, to);
      } else if at + 1 < j {
        assert NodeAt(m, word, head, g, j + shift, to);
        CoalescedIndex(g, n, b, j);
      }
    }
  }

  lemma CoalescedIndex(g: seq<Block>, n: nat, b: Block, j: nat)
    requires n <= |g|
    requires (if 0 < n && g[n - 1].End() == b.addr then n - 1 else n) + 1 < j <= |Coalesced(g, n, b)|
    ensures var shift := (if 0 < n && g[n - 1].End() == b.addr then 1
        else 0) + (if n < |g| && g[n].addr == b.End() then 1 else 0) - 1;
      && |Coalesced(g, n, b)| + shift == |g|
      && Coalesced(g, n, b)[j - 1] == g[j - 1 + shift]
      && (j < |Coalesced(g, n, b)| ==> Coalesced(g, n, b)[j] == g[j + shift])
  {}

  // ---------- the whole heap after an operation ----------

  lemma HeapIsRoomy(c: Layout, word: nat, head: nat, live: seq<Block>)
    requires Placed(c, word, head) && Packed(live, c.first, c.end) && GapsFit(c, FreeList(c, live))
    ensures Roomy(head, word, FreeList(c, live), c.first, c.end)
  {
    GapsBounds(live, c.first, c.end);
  }

  /** The bytes of a live block and of the end marker's header differ nowhere. */
  ghost predicate BytesKept(m: Memory, m': Memory, b: Block) {
    b.End() <= |m| == |m'| && forall x :: b.addr <= x < b.End() ==> m'[x] == m[x]
  }

  /** Writes to a node's header and inside a block apart from a live block leave that block alone. */
  lemma BlockSurvives(m: Memory, m': Memory, c: Layout, word: nat, head: nat, live: seq<Block>, i: nat, b: nat,
      bEnd: nat, k: nat)
    requires Placed(c, word, head) && InMemory(m, c, word, head, live) && GapsFit(c, FreeList(c, live))
    requires i <= |FreeList(c, live)| && k < |live| && 2 * word <= live[k].size
    requires var n := Node(head, FreeList(c, live), i); KeptOutside(m, m', n, n + 2 * word, b, bEnd)
    requires bEnd <= live[k].addr || live[k].End() <= b
    ensures BytesKept(m, m', live[k])
    ensures HeaderAt(m', word, live[k].addr, 0, live[k].size, true)
  {
    HeapIsRoomy(c, word, head, live);
    var n := Node(head, FreeList(c, live), i);
    GapsBounds(live, c.first, c.end);
    PackedBounds(live, c.first, c.end);
    assert HeaderAt(m, word, live[k].addr, 0, live[k].size, true);
    assert n + 2 * word <= live[k].addr || live[k].End() <= n;
  }

  lemma EndSurvives(m: Memory, m': Memory, c: Layout, word: nat, head: nat, live: seq<Block>, i: nat, b: nat, bEnd: nat)
    requires Placed(c, word, head) && InMemory(m, c, word, head, live) && GapsFit(c, FreeList(c, live))
    requires i <= |FreeList(c, live)| && bEnd <= c.end
    requires var n := Node(head, FreeList(c, live), i); KeptOutside(m, m', n, n + 2 * word, b, bEnd)
    ensures HeaderAt(m', word, c.end, 0, 0, false)
  {
    HeapIsRoomy(c, word, head, live);
    assert Node(head, FreeList(c, live), i) + 2 * word <= c.end;
  }

  /** The headers that allocating block `b` from the front of free block `i` writes. */
  ghost predicate TakenAt(m: Memory, word: nat, head: nat, g: seq<Block>, to: nat, i: nat, b: Block)
    requires i < |g| && b.End() <= g[i].End()
  {
    && HeaderAt(m, word, b.addr, 0, b.size, true)
    && if b.End() == g[i].End() then
         HeaderAt(m, word, Node(head, g, i), After(g, i + 1, to), NodeSize(g, i), false)
       else
         && HeaderAt(m, word, Node(head, g, i), b.End(), NodeSize(g, i), false)
         && HeaderAt(m, word, b.End(), After(g, i + 1, to), g[i].End() - b.End(), false)
  }

  /** Allocation: the node before free block `i` is relinked, the front of free block `i` becomes block `b`. */
  lemma MallocInMemory(m: Memory, m': Memory, c: Layout, word: nat, head: nat, h: Heap, i: nat, b: Block)
    requires Placed(c, word, head) && InMemory(m, c, word, head, h.live) && Ok(c, h)
    requires i < |FreeList(c, h.live)| && b.addr == FreeList(c, h.live)[i].addr && 0 < b.size
    requires Carved(m, m', word, head, FreeList(c, h.live), c.end, i, b)
    ensures InMemory(m', c, word, head, Insert(h.live, b))
    ensures forall k :: 0 <= k < |h.live| ==> BytesKept(m, m', h.live[k])
  {
    var g := FreeList(c, h.live);
    HeapIsRoomy(c, word, head, h.live);
    TakeGap(h.live, c.first, c.end, i, b.size);
    LinkedAfterTake(m, m', word, head, g, c.first, c.end, i, Span(b.End(), g[i].End()));
    GapsBounds(h.live, c.first, c.end);
    EndSurvives(m, m', c, word, head, h.live, i, b.addr, g[i].End());
    forall k | 0 <= k < |h.live|
      ensures BytesKept(m, m', h.live[k]) && HeaderAt(m', word, h.live[k].addr, 0, h.live[k].size, true)
    {
      BlockSurvives(m, m', c, word, head, h.live, i, b.addr, g[i].End(), k);
    }
    InsertHeaders(m', word, h.live, b);
  }

  ghost predicate Zeroed(m: Memory, a: nat, count: nat) {
    a + count <= |m| && forall x :: a <= x < a + count ==> m[x] == Raw(0)
  }

  /** What the writes to headers and the clearing of the payload have to leave behind. */
  ghost predicate Carved(m: Memory, m': Memory, word: nat, head: nat, g: seq<Block>, to: nat, i: nat, b: Block)
    requires i < |g|
  {
    && b.End() <= g[i].End()
    && KeptOutside(m, m', Node(head, g, i), Node(head, g, i) + 2 * word, b.addr, g[i].End())
    && TakenAt(m', word, head, g, to, i, b)
  }

  /** Clearing payload bytes of the block just taken leaves every header in place. */
  lemma CarvedThenWiped(m: Memory, m1: Memory, m2: Memory, word: nat, head: nat, g: seq<Block>, to: nat, i: nat,
      b: Block, header: nat, want: nat)
    requires i < |g| && b.addr == g[i].addr && g[i].End() <= |m1|
    requires 0 < word && 2 * word <= header && b.addr + header + want <= b.End()
    requires Node(head, g, i) + 2 * word <= b.addr
    requires Carved(m, m1, word, head, g, to, i, b)
    requires KeptOutside(m1, m2, b.addr + header, b.addr + header + want, 0, 0)
    ensures Carved(m, m2, word, head, g, to, i, b)
  {}

  /** Before allocating from free block `i`: where the node before it and the block itself are. */
  lemma BeforeCarving(m: Memory, c: Layout, word: nat, head: nat, h: Heap, i: nat)
    requires Placed(c, word, head) && InMemory(m, c, word, head, h.live) && Ok(c, h) && i < |FreeList(c, h.live)|
    ensures var g := FreeList(c, h.live);
      && Node(head, g, i) + 2 * word <= g[i].addr && g[i].End() <= c.end
      && HeaderAt(m, word, Node(head, g, i), g[i].addr, NodeSize(g, i), false)
      && HeaderAt(m, word, g[i].addr, After(g, i + 1, c.end), g[i].size, false)
  {
    var g := FreeList(c, h.live);
    HeapIsRoomy(c, word, head, h.live);
    NodesApart(head, word, g, c.first, c.end, i, i + 1);
    assert HeaderAt(m, word, Node(head, g, i), After(g, i, c.end), NodeSize(g, i), false);
    assert HeaderAt(m, word, Node(head, g, i + 1), After(g, i + 1, c.end), NodeSize(g, i + 1), false);
  }

  /** Block `b` was served from heap `h`: memory holds the heap that follows, and every other live block is
      untouched. */
  ghost predicate ServedAs(m: Memory, m': Memory, c: Layout, word: nat, head: nat, h: Heap, want: nat, b: Block)
    requires c.Ok() && Ok(c, h)
  {
    && Choice(c, h.live, want) == Some(b) && Ok(c, Malloc(c, h, want))
    && InMemory(m', c, word, head, Malloc(c, h, want).live)
    && FreeBytes(c, Malloc(c, h, want).live) == FreeBytes(c, h.live) - b.size
    && Malloc(c, h, want) ==
        Heap(Insert(h.live, b), Min(h.minimum, FreeBytes(c, h.live) - b.size), h.mallocs + 1, h.frees)
    && forall k :: 0 <= k < |h.live| ==> BytesKept(m, m', h.live[k])
  }

  /** The heap that follows, and its accounts. */
  lemma ServedHeap(m: Memory, m': Memory, c: Layout, word: nat, head: nat, h: Heap, want: nat,
      b: Block) returns (after: Heap)
    requires c.Ok() && Ok(c, h) && ServedAs(m, m', c, word, head, h, want, b)
    ensures after == Malloc(c, h, want) && Ok(c, after) && InMemory(m', c, word, head, after.live)
    ensures b.size <= FreeBytes(c, h.live) && FreeBytes(c, after.live) == FreeBytes(c, h.live) - b.size
    ensures after.minimum == Min(h.minimum, FreeBytes(c, h.live) - b.size)
    ensures after.mallocs == h.mallocs + 1 && after.frees == h.frees
    ensures Choice(c, h.live, want) == Some(b)
    ensures forall k :: 0 <= k < |h.live| ==> BytesKept(m, m', h.live[k])
  {
    after := Malloc(c, h, want);
  }

  /** The memory after a served request holds the heap that the model says follows. */
  lemma ServedInMemory(m: Memory, m': Memory, c: Layout, word: nat, head: nat, h: Heap, want: nat, i: nat, b: Block)
    requires Placed(c, word, head) && InMemory(m, c, word, head, h.live) && Ok(c, h)
    requires 0 < want && i == FirstFit(FreeList(c, h.live), Padded(c, want)) < |FreeList(c, h.live)|
    requires b == Block(FreeList(c, h.live)[i].addr, Taken(c, FreeList(c, h.live)[i].size, Padded(c, want)))
    requires Carved(m, m', word, head, FreeList(c, h.live), c.end, i, b)
    ensures ServedAs(m, m', c, word, head, h, want, b)
  {
    ChoiceShape(c, h.live, want);
    MallocEffect(c, h, want, b);
    RoundUpMultiple(want + c.header, c.align);
    MallocInMemory(m, m', c, word, head, h, i, b);
  }

  lemma InsertHeaders(m: Memory, word: nat, live: seq<Block>, b: Block)
    requires LiveHeaders(m, word, live) && HeaderAt(m, word, b.addr, 0, b.size, true)
    ensures LiveHeaders(m, word, Insert(live, b))
  {
    InsertElements(live, b);
    forall k | 0 <= k < |Insert(live, b)|
      ensures HeaderAt(m, word, Insert(live, b)[k].addr, 0, Insert(live, b)[k].size, true)
    {
      assert Insert(live, b)[k] in Insert(live, b);
    }
  }

  /** Release: block `k` is joined into the free list between the nodes around it. */
  lemma FreeInMemory(m: Memory, m': Memory, c: Layout, word: nat, head: nat, h: Heap, k: nat, n: nat)
    requires Placed(c, word, head) && InMemory(m, c, word, head, h.live) && Ok(c, h)
    requires k < |h.live| && n == GapsBelow(h.live, c.first, c.end, k) <= |FreeList(c, h.live)|
    requires var node := Node(head, FreeList(c, h.live), n);
      KeptOutside(m, m', node, node + 2 * word, h.live[k].addr, h.live[k].End())
    requires JoinedAt(m', word, head, FreeList(c, h.live), c.end, n, h.live[k])
    ensures InMemory(m', c, word, head, Remove(h.live, k))
    ensures forall j :: 0 <= j < |h.live| && j != k ==> BytesKept(m, m', h.live[j])
  {
    LinkedAfterRelease(m, m', c, word, head, h.live, k, n);
    OthersSurvive(m, m', c, word, head, h.live, k, n);
    RemoveHeaders(m', word, h.live, k);
  }

  lemma LinkedAfterRelease(m: Memory, m': Memory, c: Layout, word: nat, head: nat, live: seq<Block>, k: nat, n: nat)
    requires Placed(c, word, head) && InMemory(m, c, word, head, live) && GapsFit(c, FreeList(c, live))
    requires k < |live| && c.header < live[k].size && n == GapsBelow(live, c.first, c.end, k) <= |FreeList(c, live)|
    requires var node := Node(head, FreeList(c, live), n);
      KeptOutside(m, m', node, node + 2 * word, live[k].addr, live[k].End())
    requires JoinedAt(m', word, head, FreeList(c, live), c.end, n, live[k])
    ensures Packed(Remove(live, k), c.first, c.end)
    ensures Linked(m', word, head, FreeList(c, Remove(live, k)), c.end)
  {
    HeapIsRoomy(c, word, head, live);
    GapsAround(live, c.first, c.end, k);
    GiveBack(live, c.first, c.end, k);
    PackedAt(live, c.first, c.end, k);
    LinkedAfterGive(m, m', word, head, FreeList(c, live), c.first, c.end, n, live[k]);
  }

  lemma OthersSurvive(m: Memory, m': Memory, c: Layout, word: nat, head: nat, live: seq<Block>, k: nat, n: nat)
    requires Placed(c, word, head) && InMemory(m, c, word, head, live) && GapsFit(c, FreeList(c, live)) &&
        BlocksFit(c, live)
    requires k < |live| && n <= |FreeList(c, live)|
    requires var node := Node(head, FreeList(c, live), n);
      KeptOutside(m, m', node, node + 2 * word, live[k].addr, live[k].End())
    ensures forall j :: 0 <= j < |live| && j != k ==>
      BytesKept(m, m', live[j]) && HeaderAt(m', word, live[j].addr, 0, live[j].size, true)
    ensures HeaderAt(m', word, c.end, 0, 0, false)
  {
    PackedBounds(live, c.first, c.end);
    EndSurvives(m, m', c, word, head, live, n, live[k].addr, live[k].End());
    forall j | 0 <= j < |live| && j != k
      ensures BytesKept(m, m', live[j]) && HeaderAt(m', word, live[j].addr, 0, live[j].size, true)
    {
      BlockSurvives(m, m', c, word, head, live, n, live[k].addr, live[k].End(), j);
    }
  }

  lemma RemoveHeaders(m: Memory, word: nat, live: seq<Block>, k: nat)
    requires k < |live|
    requires forall j :: 0 <= j < |live| && j != k ==> HeaderAt(m, word, live[j].addr, 0, live[j].size, true)
    ensures LiveHeaders(m, word, Remove(live, k))
  {
    forall j | 0 <= j < |Remove(live, k)|
      ensures HeaderAt(m, word, Remove(live, k)[j].addr, 0, Remove(live, k)[j].size, true)
    {
      assert Remove(live, k)[j] == live[if j < k then j else j + 1];
    }
  }

  /** The memory right after set-up: one free block, then the end marker. */
  lemma InitialInMemory(m: Memory, c: Layout, word: nat, head: nat)
    requires Placed(c, word, head)
    requires HeaderAt(m, word, head, c.first, 0, false)
    requires HeaderAt(m, word, c.first, c.end, c.end - c.first, false)
    requires HeaderAt(m, word, c.end, 0, 0, false)
    ensures InMemory(m, c, word, head, [])
  {
    var g := FreeList(c, []);
    assert g == [Block(c.first, c.end - c.first)];
    forall i | 0 <= i <= |g| ensures HeaderAt(m, word, Node(head, g, i), After(g, i, c.end), NodeSize(g, i), false) {}
  }

  /** Before releasing live block `k`: the node below it, the block above it, and room between them. */
  lemma BeforeRelease(m: Memory, m1: Memory, c: Layout, word: nat, head: nat, h: Heap, k: nat, n: nat)
    requires Placed(c, word, head) && InMemory(m, c, word, head, h.live) && Ok(c, h)
    requires k < |h.live| && n == GapsBelow(h.live, c.first, c.end, k)
    requires KeptOutside(m, m1, h.live[k].addr, h.live[k].End(), 0, 0)
    ensures n <= |FreeList(c, h.live)| && n == GapsBelow(h.live, c.first, c.end, k)
    ensures Linked(m1, word, head, FreeList(c, h.live), c.end)
    ensures forall j :: 0 <= j < n ==> FreeList(c, h.live)[j].addr < h.live[k].addr
    ensures n < |FreeList(c, h.live)| ==> h.live[k].addr < FreeList(c, h.live)[n].addr
    ensures forall j :: 0 <= j < |FreeList(c, h.live)| ==> FreeList(c, h.live)[j].addr < c.end
    ensures Node(head, FreeList(c, h.live), n) + 2 * word <= h.live[k].addr
    ensures Node(head, FreeList(c, h.live), n) + NodeSize(FreeList(c, h.live), n) <= h.live[k].addr
    ensures 2 * word <= h.live[k].size && h.live[k].End() <= After(FreeList(c, h.live), n, c.end)
  {
    var g := FreeList(c, h.live);
    HeapIsRoomy(c, word, head, h.live);
    GapsAround(h.live, c.first, c.end, k);
    PackedAt(h.live, c.first, c.end, k);
    forall i | 0 <= i <= |g| ensures HeaderAt(m1, word, Node(head, g, i), After(g, i, c.end), NodeSize(g, i), false) {
      assert HeaderAt(m, word, Node(head, g, i), After(g, i, c.end), NodeSize(g, i), false);
      NodeOffBlock(head, word, g, c.first, c.end, n, h.live[k], i);
    }
    NodeOffBlock(head, word, g, c.first, c.end, n, h.live[k], n);
  }

  lemma NodeOffBlock(head: nat, word: nat, g: seq<Block>, from: nat, to: nat, n: nat, b: Block, i: nat)
    requires Roomy(head, word, g, from, to) && n <= |g| && from <= b.addr && 2 * word <= b.size
    requires forall j :: 0 <= j < n ==> g[j].End() <= b.addr
    requires forall j :: n <= j < |g| ==> b.End() <= g[j].addr
    requires i <= |g|
    ensures if i <= n then Node(head, g, i) + 2 * word <= b.addr && Node(head, g, i) + NodeSize(g, i) <= b.addr
            else b.End() <= Node(head, g, i)
  {}

  /** A header outside every payload. */
  lemma HeaderKept(m: Memory, m': Memory, c: Layout, word: nat, live: seq<Block>, a: nat, next: nat, size: nat,
      used: bool)
    requires PayloadsOnly(m, m', c, live) && HeaderAt(m, word, a, next, size, used)
    requires !InPayload(c, live, a) && !InPayload(c, live, a + word)
    ensures HeaderAt(m', word, a, next, size, used)
  {}

  ghost predicate PayloadsOnly(m: Memory, m': Memory, c: Layout, live: seq<Block>) {
    |m'| == |m| && forall x :: 0 <= x < |m| && !InPayload(c, live, x) ==> m'[x] == m[x]
  }

  lemma NodesOutside(c: Layout, word: nat, head: nat, h: Heap, i: nat)
    requires Placed(c, word, head) && Packed(h.live, c.first, c.end) && Ok(c, h) && i <= |FreeList(c, h.live)|
    ensures var a := Node(head, FreeList(c, h.live), i); !InPayload(c, h.live, a) && !InPayload(c, h.live, a + word)
  {
    HeapIsRoomy(c, word, head, h.live);
    GapsBounds(h.live, c.first, c.end);
    PackedBounds(h.live, c.first, c.end);
  }

  lemma LiveOutside(c: Layout, word: nat, head: nat, h: Heap, k: nat)
    requires Placed(c, word, head) && Packed(h.live, c.first, c.end) && Ok(c, h) && k < |h.live|
    ensures !InPayload(c, h.live, h.live[k].addr) && !InPayload(c, h.live, h.live[k].addr + word)
  {
    PackedBounds(h.live, c.first, c.end);
  }

  lemma EndOutside(c: Layout, word: nat, head: nat, live: seq<Block>)
    requires Placed(c, word, head) && Packed(live, c.first, c.end)
    ensures !InPayload(c, live, c.end) && !InPayload(c, live, c.end + word)
  {
    PackedBounds(live, c.first, c.end);
  }

  /** An application that writes only payload bytes of its own live blocks cannot disturb the heap. */
  lemma PayloadWritesKeepHeap(m: Memory, m': Memory, c: Layout, word: nat, head: nat, h: Heap)
    requires Placed(c, word, head) && InMemory(m, c, word, head, h.live) && Ok(c, h) && PayloadsOnly(m, m', c, h.live)
    ensures InMemory(m', c, word, head, h.live)
  {
    var g := FreeList(c, h.live);
    forall i | 0 <= i <= |g| ensures HeaderAt(m', word, Node(head, g, i), After(g, i, c.end), NodeSize(g, i), false) {
      NodesOutside(c, word, head, h, i);
      HeaderKept(m, m', c, word, h.live, Node(head, g, i), After(g, i, c.end), NodeSize(g, i), false);
    }
    forall k | 0 <= k < |h.live| ensures HeaderAt(m', word, h.live[k].addr, 0, h.live[k].size, true) {
      LiveOutside(c, word, head, h, k);
      HeaderKept(m, m', c, word, h.live, h.live[k].addr, 0, h.live[k].size, true);
    }
    EndOutside(c, word, head, h.live);
    HeaderKept(m, m', c, word, h.live, c.end, 0, 0, false);
  }

  ghost predicate InPayload(c: Layout, live: seq<Block>, x: nat) {
    exists k :: 0 <= k < |live| && live[k].addr + c.header <= x < live[k].End()
  }
}
