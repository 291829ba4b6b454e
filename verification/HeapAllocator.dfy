/** The allocator of furi/core/memmgr_heap.c: headers and free-list links rewritten in place.
    Every method is proved to do to memory what HeapModel does to the list of live blocks. */
module HeapAllocator {
  import opened Remainders
  import opened Lists
  import opened HeapGaps
  import opened HeapModel
  import opened HeapMemory
  import HeapTheorems

  /** HeapStats_t */
  datatype HeapStats = HeapStats(largest: nat, smallest: nat, blocks: nat, available: nat, allocations: nat,
      frees: nat, minimumEver: nat)

  class Allocator {
    const region: Region
    /** xHeapStructSize */
    const header: nat

    var mem: Memory
    /** pxEnd: zero until the first allocation sets the heap up. */
    var endMarker: nat
    var freeBytes: nat
    var minimumFreeBytes: nat
    var allocations: nat
    var frees: nat

    ghost const layout: Layout
    /** The heap this object stands for. */
    ghost var model: Heap

    ghost predicate Valid()
      reads this
    {
      && region.Ok()
      && header == region.Header() <= region.base + region.total
      && layout == Layout(region.First(), region.End(), region.align, header)
      && Sound()
      && (endMarker == 0 ==>
            && model == Init(layout)
            && allocations == frees == 0
            && HeaderAt(mem, region.word, region.head, 0, 0, false))
      && (endMarker != 0 ==> Ready())
    }

    /** The facts that hold before and after set-up, free of the address arithmetic. */
    ghost predicate Sound()
      reads this
    {
      && 0 < region.align == layout.align && layout.header == header
      && Placed(layout, region.word, region.head)
      && region.base <= layout.first && layout.end + header <= region.base + region.total <= SIZE_MAX
      && |mem| == region.base + region.total
      && Ok(layout, model)
    }

    ghost predicate Ready()
      reads this
      requires Sound()
    {
      && endMarker == layout.end
      && InMemory(mem, layout, region.word, region.head, model.live)
      && freeBytes == FreeBytes(layout, model.live)
      && minimumFreeBytes == model.minimum
      && allocations == model.mallocs
      && frees == model.frees
    }

    /** The state at start-up: static memory is zero, the heap is not set up yet. */
    constructor (region: Region)
      requires region.Ok()
      ensures Valid() && this.region == region && endMarker == 0
      ensures model == Init(layout)
    {
      RegionLayout(region);
      this.region := region;
      RoundingByRemainder(2 * region.word, region.align);
      RoundingByRemainder(2 * region.word + (region.align - 1), region.align);
      header := (2 * region.word + (region.align - 1)) - (2 * region.word + (region.align - 1)) % region.align;
      layout := Layout(region.First(), region.End(), region.align, region.Header());
      mem := seq(region.base + region.total, x =>
        if x == region.head then Link(0) else if x == region.head + region.word then Size(0, false) else Rest);
      endMarker := 0;
      freeBytes, minimumFreeBytes, allocations, frees := 0, 0, 0, 0;
      model := Init(Layout(region.First(), region.End(), region.align, region.Header()));
      new;
      BytesConserved([], layout.first, layout.end);
    }

    // ---------- header fields ----------

    function NextOf(a: nat): nat
      reads this
      requires a < |mem| && mem[a].Link?
    {
      mem[a].next
    }

    function SizeOf(a: nat): nat
      reads this
      requires a + region.word < |mem| && mem[a + region.word].Size?
    {
      mem[a + region.word].size
    }

    /** Writes the link word of the header at `a`, and nothing else. */
    method SetNext(a: nat, next: nat)
      requires 0 < region.word && a + region.word <= |mem|
      modifies this`mem
      ensures |mem| == |old(mem)| && mem[a] == Link(next)
      ensures forall x :: 0 <= x < |mem| && !(a <= x < a + region.word) ==> mem[x] == old(mem)[x]
    {
      mem := Store(mem, region.word, a, Link(next));
    }

    /** Writes the size word of the header at `a`, and nothing else. */
    method SetSize(a: nat, size: nat, used: bool)
      requires 0 < region.word && a + 2 * region.word <= |mem|
      modifies this`mem
      ensures |mem| == |old(mem)| && mem[a + region.word] == Size(size, used)
      ensures forall x :: 0 <= x < |mem| && !(a + region.word <= x < a + 2 * region.word) ==> mem[x] == old(mem)[x]
    {
      mem := Store(mem, region.word, a + region.word, Size(size, used));
    }

    // ---------- set-up ----------

    /** prvHeapInit */
    method HeapInit()
      requires Valid() && endMarker == 0
      modifies this
      ensures Valid() && endMarker != 0 && model == old(model)
    {
      var start, last := HeapBounds();
      SetUp(start, last);
    }

    /** The first block address and the end marker, from the linker's heap area. */
    method HeapBounds() returns (start: nat, last: nat)
      requires region.Ok() && header == region.Header() <= region.base + region.total
      ensures start == region.First() && last == region.End()
    {
      RegionLayout(region);
      start := AlignedStart(region.base);
      var total := region.total;
      if start != region.base {
        total := total - (start - region.base);
      }
      last := start + total;
      last := last - header;
      last := AlignedDown(last);
    }

    /** Moves an address that is not aligned up to the next one that is. */
    method AlignedStart(base: nat) returns (start: nat)
      requires 0 < region.align
      ensures start == RoundUp(base, region.align)
    {
      RoundingByRemainder(base, region.align);
      RoundingByRemainder(base + (region.align - 1), region.align);
      start := base;
      if start % region.align != 0 {
        start := start + (region.align - 1);
        start := start - start % region.align;
      }
    }

    method AlignedDown(a: nat) returns (down: nat)
      requires 0 < region.align
      ensures down == RoundDown(a, region.align)
    {
      RoundingByRemainder(a, region.align);
      down := a - a % region.align;
    }

    method SetUp(start: nat, last: nat)
      requires Sound() && model == Init(layout) && allocations == frees == 0
      requires start == layout.first && last == layout.end
      modifies this`mem, this`endMarker, this`freeBytes, this`minimumFreeBytes
      ensures Sound() && Ready()
    {
      WriteInitial(start, last);
      InitialInMemory(mem, layout, region.word, region.head);
      endMarker := last;
      minimumFreeBytes := last - start;
      freeBytes := last - start;
      BytesConserved([], layout.first, layout.end);
    }

    /** The list head, the end marker and the one free block between them. */
    method WriteInitial(start: nat, last: nat)
      requires 0 < region.word && region.head + 2 * region.word <= start
      requires start + 2 * region.word <= last && last + 2 * region.word <= |mem|
      modifies this`mem
      ensures |mem| == |old(mem)|
      ensures HeaderAt(mem, region.word, region.head, start, 0, false)
      ensures HeaderAt(mem, region.word, start, last, last - start, false)
      ensures HeaderAt(mem, region.word, last, 0, 0, false)
    {
      SetNext(region.head, start);
      SetSize(region.head, 0, false);
      SetSize(last, 0, false);
      SetNext(last, 0);
      SetSize(start, last - start, false);
      SetNext(start, last);
    }

    // ---------- allocation ----------

    /** The padding at the top of pvPortMalloc; zero when the sum does not fit in 32 bits. */
    method PadRequest(want: nat) returns (wanted: nat)
      requires want <= SIZE_MAX && 0 < region.align && header <= SIZE_MAX && region.align <= SIZE_MAX
      ensures wanted == if want == 0 || RoundUp(want + header, region.align) > SIZE_MAX then 0
          else RoundUp(want + header, region.align)
    {
      RoundingByRemainder(want + header, region.align);
      wanted := want;
      if wanted > 0 {
        if wanted <= SIZE_MAX - header {
          wanted := wanted + header;
          if wanted % region.align != 0 {
            var additional := region.align - wanted % region.align;
            if wanted <= SIZE_MAX - additional {
              wanted := wanted + additional;
            } else {
              wanted := 0;
            }
          }
        } else {
          wanted := 0;
        }
      }
    }

    /** The free list `g` can be walked: its links lead from the head to the end marker. */
    ghost predicate Walkable(g: seq<Block>, end: nat)
      reads this
    {
      && Linked(mem, region.word, region.head, g, end)
      && HeaderAt(mem, region.word, end, 0, 0, false)
      && 0 < end
      && forall i :: 0 <= i < |g| ==> 0 < g[i].addr < end
    }

    /** Walks to the first block that fits, and to the node before it. */
    method FindBlock(wanted: nat, ghost g: seq<Block>, ghost end: nat) returns (previous: nat, block: nat)
      requires Walkable(g, end) && 0 < wanted
      ensures previous == Node(region.head, g, FirstFit(g, wanted)) && block == After(g, FirstFit(g, wanted), end)
    {
      ghost var i := 0;
      previous := region.head;
      NodeHeader(g, end, 0);
      block := NextOf(previous);
      while SizeOf(block) < wanted && NextOf(block) != 0
        invariant i <= |g| && previous == Node(region.head, g, i) && block == After(g, i, end)
        invariant forall j :: 0 <= j < i ==> g[j].size < wanted
        invariant BlockHeaderAt(g, end, i)
        decreases |g| - i
      {
        NodeHeader(g, end, i + 1);
        previous, block, i := block, NextOf(block), i + 1;
      }
      FirstFitIs(g, wanted, i);
    }

    lemma NodeHeader(g: seq<Block>, end: nat, i: nat)
      requires Walkable(g, end) && i <= |g|
      ensures NodeAt(mem, region.word, region.head, g, i, end)
      ensures BlockHeaderAt(g, end, i)
    {
      assert HeaderAt(mem, region.word, Node(region.head, g, i), After(g, i, end), NodeSize(g, i), false);
      if i < |g| {
        assert HeaderAt(mem, region.word, Node(region.head, g, i + 1), After(g, i + 1, end), NodeSize(g, i + 1), false);
      }
    }

    /** Free block `i`, or the end marker, has its header where the list says. */
    ghost predicate BlockHeaderAt(g: seq<Block>, end: nat, i: nat)
      reads this
    {
      if i < |g| then HeaderAt(mem, region.word, g[i].addr, After(g, i + 1, end), g[i].size, false)
      else HeaderAt(mem, region.word, end, 0, 0, false)
    }

    /** Unlinks `block` after `previous`, splits it when enough is left over, and marks it allocated. */
    method TakeBlock(previous: nat, block: nat, wanted: nat, ghost next: nat, ghost size: nat, ghost previousSize: nat)
      requires 0 < region.word && 2 * region.word <= header && 2 * region.word <= wanted <= size
      requires previous + 2 * region.word <= block && block + size + 2 * region.word <= |mem|
      requires HeaderAt(mem, region.word, previous, block, previousSize, false)
      requires HeaderAt(mem, region.word, block, next, size, false)
      modifies this`mem
      ensures KeptOutside(old(mem), mem, previous, previous + 2 * region.word, block, block + size)
      ensures if size - wanted > 2 * header then
                && HeaderAt(mem, region.word, block, 0, wanted, true)
                && HeaderAt(mem, region.word, previous, block + wanted, previousSize, false)
                && HeaderAt(mem, region.word, block + wanted, next, size - wanted, false)
              else
                && HeaderAt(mem, region.word, block, 0, size, true)
                && HeaderAt(mem, region.word, previous, next, previousSize, false)
    {
      SetNext(previous, NextOf(block));
      if SizeOf(block) - wanted > 2 * header {
        var rest := block + wanted;
        SetSize(rest, SizeOf(block) - wanted, false);
        SetSize(block, wanted, false);
        SetNext(rest, NextOf(previous));
        SetNext(previous, rest);
      }
      SetSize(block, SizeOf(block), true);
      SetNext(block, 0);
    }

    /** pvPortMalloc; None stands for the out-of-memory and malloc(0) crashes. */
    method Malloc(want: nat) returns (ptr: Option<nat>)
      requires Valid() && want <= SIZE_MAX
      modifies this
      ensures Valid() && endMarker != 0
      ensures model == HeapModel.Malloc(layout, old(model), want)
      ensures ptr == PayloadOf(Choice(layout, old(model).live, want))
      ensures ptr.Some? <==> 0 < want && HeapTheorems.HasRoom(FreeList(layout, old(model).live), header + want)
      ensures ptr.Some? ==> Zeroed(mem, ptr.value, want)
      ensures old(endMarker) != 0 ==> forall k :: 0 <= k < |old(model).live| ==>
          BytesKept(old(mem), mem, old(model).live[k])
    {
      HeapTheorems.ServedIffRoom(layout, model.live, want);
      ptr := MallocBlock(want);
    }

    /** Where the payload of a chosen block begins. */
    function PayloadOf(choice: Option<Block>): Option<nat> {
      match choice
      case None => None
      case Some(b) => Some(b.addr + header)
    }

    method MallocBlock(want: nat) returns (ptr: Option<nat>)
      requires Valid() && want <= SIZE_MAX
      modifies this
      ensures Valid() && endMarker != 0
      ensures model == HeapModel.Malloc(layout, old(model), want)
      ensures ptr == PayloadOf(Choice(layout, old(model).live, want))
      ensures ptr.Some? ==> Zeroed(mem, ptr.value, want)
      ensures old(endMarker) != 0 ==> forall k :: 0 <= k < |old(model).live| ==>
          BytesKept(old(mem), mem, old(model).live[k])
    {
      var wanted := PrepareRequest(want);
      ptr := ServeUnlessRejected(want, wanted);
    }

    /** The size to look for; the heap is set up on the first call. */
    method PrepareRequest(want: nat) returns (wanted: nat)
      requires Valid() && want <= SIZE_MAX
      modifies this
      ensures Valid() && endMarker != 0 && model == old(model)
      ensures wanted == if want == 0 || Padded(layout, want) > SIZE_MAX then 0 else Padded(layout, want)
      ensures old(endMarker) != 0 ==> mem == old(mem)
    {
      wanted := PadRequest(want);
      if endMarker == 0 {
        HeapInit();
      }
    }

    /** The tests before the walk. */
    method ServeUnlessRejected(want: nat, wanted: nat) returns (ptr: Option<nat>)
      requires Sound() && Ready()
      requires wanted == if want == 0 || Padded(layout, want) > SIZE_MAX then 0 else Padded(layout, want)
      modifies this
      ensures Sound() && Ready()
      ensures model == HeapModel.Malloc(layout, old(model), want)
      ensures ptr == PayloadOf(Choice(layout, old(model).live, want))
      ensures ptr.Some? ==> Zeroed(mem, ptr.value, want)
      ensures forall k :: 0 <= k < |old(model).live| ==> BytesKept(old(mem), mem, old(model).live[k])
    {
      ptr := None;
      if wanted < BLOCK_ALLOCATED_BIT && 0 < wanted && wanted <= freeBytes {
        ptr := Serve(want, wanted);
      } else {
        RejectedRequest(want, wanted);
      }
    }

    lemma RejectedRequest(want: nat, wanted: nat)
      requires Sound() && Ready()
      requires wanted == if want == 0 || Padded(layout, want) > SIZE_MAX then 0 else Padded(layout, want)
      requires !(wanted < BLOCK_ALLOCATED_BIT && 0 < wanted && wanted <= freeBytes)
      ensures Choice(layout, model.live, want).None? && HeapModel.Malloc(layout, model, want) == model
      ensures forall k :: 0 <= k < |model.live| ==> BytesKept(mem, mem, model.live[k])
    {
      PackedBounds(model.live, layout.first, layout.end);
      RoundUpMultiple(want + header, region.align);
      if 0 < want { HeapTheorems.EarlyTestsAreHarmless(layout, model.live, want); }
    }

    /** A heap that is set up can be walked. */
    lemma ReadyToWalk()
      requires Sound() && Ready()
      ensures Walkable(FreeList(layout, model.live), layout.end)
      ensures forall k :: 0 <= k < |model.live| ==> BytesKept(mem, mem, model.live[k])
    {
      HeapIsRoomy(layout, region.word, region.head, model.live);
      PackedBounds(model.live, layout.first, layout.end);
    }

    /** Free block `i`, at address `block` and linked from `previous`, is the one to serve the request from. */
    ghost predicate Chosen(previous: nat, block: nat, wanted: nat, want: nat, i: nat)
      reads this
      requires Sound() && Ready()
    {
      && 0 < want && wanted == Padded(layout, want)
      && i == FirstFit(FreeList(layout, model.live), wanted) < |FreeList(layout, model.live)|
      && previous == Node(region.head, FreeList(layout, model.live), i)
      && block == FreeList(layout, model.live)[i].addr
    }

    /** The request was granted, or not, as the model says of heap `h`, whose memory was `m`. */
    ghost predicate Granted(m: Memory, h: Heap, want: nat, ptr: Option<nat>)
      reads this
      requires Sound() && Ok(layout, h)
    {
      && model == HeapModel.Malloc(layout, h, want)
      && ptr == PayloadOf(Choice(layout, h.live, want))
      && (ptr.Some? ==> Zeroed(mem, ptr.value, want))
      && forall k :: 0 <= k < |h.live| ==> BytesKept(m, mem, h.live[k])
    }

    /** The walk, the split and the zeroing of pvPortMalloc. */
    method Serve(want: nat, wanted: nat) returns (ptr: Option<nat>)
      requires Sound() && Ready() && 0 < want && wanted == Padded(layout, want)
      modifies this
      ensures Sound() && Ready() && Granted(old(mem), old(model), want, ptr)
    {
      ghost var g := FreeList(layout, model.live);
      ReadyToWalk();
      RoundUpMultiple(want + header, region.align);
      var previous, block := FindBlock(wanted, g, layout.end);
      ghost var i := FirstFit(g, wanted);
      if block == endMarker {
        ChoiceShape(layout, model.live, want);
        return None;
      }
      ptr := ServeFrom(previous, block, wanted, want, i);
    }

    /** Hands out the front of free block `i`: memory first, counters after. */
    method ServeFrom(previous: nat, block: nat, wanted: nat, want: nat, ghost i: nat) returns (ptr: Option<nat>)
      requires Sound() && Ready() && Chosen(previous, block, wanted, want, i)
      modifies this
      ensures Sound() && Ready() && Granted(old(mem), old(model), want, ptr)
    {
      var payload := PayloadAfter(previous, block, wanted, want, i);
      HandOut(previous, block, wanted, want, i, payload);
      ptr := Some(payload);
    }

    /** The payload of the block that `previous` links to. */
    method PayloadAfter(previous: nat, ghost block: nat, ghost wanted: nat, ghost want: nat, ghost i: nat)
      returns (payload: nat)
      requires Sound() && Ready() && Chosen(previous, block, wanted, want, i)
      ensures payload == block + header
    {
      BeforeCarving(mem, layout, region.word, region.head, model, i);
      payload := NextOf(previous) + header;
    }

    method HandOut(previous: nat, block: nat, wanted: nat, want: nat, ghost i: nat, ghost payload: nat)
      requires Sound() && Ready() && Chosen(previous, block, wanted, want, i) && payload == block + header
      modifies this
      ensures Sound() && Ready() && Granted(old(mem), old(model), want, Some(payload))
    {
      ghost var b := CarveServed(previous, block, wanted, want, i);
      ghost var after := ServedHeap(old(mem), mem, layout, region.word, region.head, model, want, b);
      AccountMalloc(block, b.size, after);
      GrantedBy(old(mem), old(model), want, payload, b);
    }

    lemma GrantedBy(m: Memory, h: Heap, want: nat, payload: nat, b: Block)
      requires Sound() && Ok(layout, h) && model == HeapModel.Malloc(layout, h, want)
      requires Choice(layout, h.live, want) == Some(b) && payload == b.addr + header && Zeroed(mem, payload, want)
      requires forall k :: 0 <= k < |h.live| ==> BytesKept(m, mem, h.live[k])
      ensures Granted(m, h, want, Some(payload))
    {}

    method CarveServed(previous: nat, block: nat, wanted: nat, want: nat, ghost i: nat) returns (ghost b: Block)
      requires Sound() && Ready() && Chosen(previous, block, wanted, want, i)
      modifies this`mem
      ensures |mem| == |old(mem)| && HeaderAt(mem, region.word, block, 0, b.size, true) &&
          Zeroed(mem, block + header, want)
      ensures b.addr == block && ServedAs(old(mem), mem, layout, region.word, region.head, model, want, b)
    {
      ghost var g := FreeList(layout, model.live);
      b := Block(block, Taken(layout, g[i].size, wanted));
      BeforeCarving(mem, layout, region.word, region.head, model, i);
      RoundUpMultiple(want + header, region.align);
      Carve(previous, block, wanted, want, g, i, b);
      ServedInMemory(old(mem), mem, layout, region.word, region.head, model, want, i, b);
    }

    /** The counters after a block was taken. */
    method AccountMalloc(block: nat, ghost size: nat, ghost after: Heap)
      requires Sound() && HeaderAt(mem, region.word, block, 0, size, true) && size <= freeBytes
      requires endMarker == layout.end && allocations + 1 == after.mallocs && frees == after.frees
      requires Ok(layout, after) && InMemory(mem, layout, region.word, region.head, after.live)
      requires after.minimum == Min(minimumFreeBytes, freeBytes - size) &&
          FreeBytes(layout, after.live) == freeBytes - size
      modifies this`freeBytes, this`minimumFreeBytes, this`allocations, this`model
      ensures Sound() && Ready() && model == after
    {
      freeBytes := freeBytes - SizeOf(block);
      if freeBytes < minimumFreeBytes {
        minimumFreeBytes := freeBytes;
      }
      allocations := allocations + 1;
      model := after;
    }

    /** Takes the block out of the list and clears the requested bytes of its payload. */
    method Carve(previous: nat, block: nat, wanted: nat, want: nat, ghost g: seq<Block>, ghost i: nat, ghost b: Block)
      requires 0 < region.word && 2 * region.word <= header && want + header <= wanted
      requires i < |g| && wanted <= g[i].size && b == Block(block, Taken(layout, g[i].size, wanted)) &&
          header == layout.header
      requires previous == Node(region.head, g, i) && block == g[i].addr
      requires previous + 2 * region.word <= block && g[i].End() + 2 * region.word <= |mem|
      requires HeaderAt(mem, region.word, previous, block, NodeSize(g, i), false)
      requires HeaderAt(mem, region.word, block, After(g, i + 1, layout.end), g[i].size, false)
      modifies this`mem
      ensures Carved(old(mem), mem, region.word, region.head, g, layout.end, i, b)
      ensures Zeroed(mem, block + header, want)
    {
      TakeBlock(previous, block, wanted, After(g, i + 1, layout.end), g[i].size, NodeSize(g, i));
      ghost var m1 := mem;
      assert Carved(old(mem), m1, region.word, region.head, g, layout.end, i, b);
      mem := Wipe(mem, block + header, want);
      CarvedThenWiped(old(mem), m1, mem, region.word, region.head, g, layout.end, i, b, header, want);
    }

    // ---------- release ----------

    /** vPortFree; the source demands the null pointer or a pointer it handed out and has not got back. */
    method Free(ptr: nat)
      requires Valid() && (ptr == 0 || IsLive(layout, model.live, ptr))
      modifies this
      ensures Valid() && endMarker == old(endMarker)
      ensures model == if ptr == 0 then old(model) else HeapModel.Free(layout, old(model), ptr)
      ensures ptr != 0 ==>
        var b := old(model).live[IndexOf(layout, old(model).live, ptr)];
        header <= b.size && Zeroed(mem, ptr, b.size - header)
      ensures forall k :: 0 <= k < |old(model).live| && old(model).live[k].addr + header != ptr ==>
                old(endMarker) != 0 ==> BytesKept(old(mem), mem, old(model).live[k])
    {
      if endMarker != 0 { ReadyToWalk(); }
      if ptr != 0 {
        Release(ptr);
      }
    }

    method Release(ptr: nat)
      requires Sound() && Ready() && IsLive(layout, model.live, ptr)
      modifies this
      ensures var b := old(model).live[IndexOf(layout, old(model).live, ptr)];
        header <= b.size && Zeroed(mem, ptr, b.size - header)
      ensures Sound() && Ready() && endMarker == old(endMarker)
      ensures model == HeapModel.Free(layout, old(model), ptr)
      ensures forall k :: 0 <= k < |old(model).live| && old(model).live[k].addr + header != ptr ==>
                BytesKept(old(mem), mem, old(model).live[k])
    {
      ghost var k := IndexOf(layout, model.live, ptr);
      var block := ptr - header;
      LiveHeader(k);
      var size := SizeOf(block);
      FreeKeepsOk(layout, model, ptr);
      ReturnBlock(block, k);
      AccountFree(size, ptr);
    }

    /** What the assertions at the top of vPortFree check. */
    lemma LiveHeader(k: nat)
      requires Sound() && Ready() && k < |model.live|
      ensures HeaderAt(mem, region.word, model.live[k].addr, 0, model.live[k].size, true)
      ensures region.base <= model.live[k].addr < region.base + region.total && header <= model.live[k].size
      ensures model.live[k].End() <= |mem|
    {
      PackedAt(model.live, layout.first, layout.end, k);
      assert HeaderAt(mem, region.word, model.live[k].addr, 0, model.live[k].size, true);
    }

    /** The counters after a block was given back. */
    method AccountFree(size: nat, ghost ptr: nat)
      requires Sound() && IsLive(layout, model.live, ptr) && Ok(layout, HeapModel.Free(layout, model, ptr))
      requires endMarker == layout.end && allocations == model.mallocs && frees == model.frees &&
          minimumFreeBytes == model.minimum
      requires freeBytes + size == FreeBytes(layout, HeapModel.Free(layout, model, ptr).live)
      requires InMemory(mem, layout, region.word, region.head, HeapModel.Free(layout, model, ptr).live)
      modifies this`freeBytes, this`frees, this`model
      ensures Sound() && Ready() && model == HeapModel.Free(layout, old(model), ptr)
    {
      freeBytes := freeBytes + size;
      frees := frees + 1;
      model := HeapModel.Free(layout, model, ptr);
    }

    /** Clears the allocated bit and puts the block into the list. */
    method ReturnBlock(block: nat, ghost k: nat)
      requires Sound() && Ready() && k < |model.live| && block == model.live[k].addr
      modifies this`mem
      ensures |mem| == |old(mem)|
      ensures InMemory(mem, layout, region.word, region.head, Remove(model.live, k))
      ensures forall j :: 0 <= j < |model.live| && j != k ==> BytesKept(old(mem), mem, model.live[j])
      ensures Zeroed(mem, block + header, model.live[k].size - header)
    {
      ghost var g, n := FreeList(layout, model.live), GapsBelow(model.live, layout.first, layout.end, k);
      LiveHeader(k);
      ClearBlock(block, model.live[k]);
      BeforeRelease(old(mem), mem, layout, region.word, region.head, model, k, n);
      ghost var m := mem;
      InsertBlockIntoFreeList(block, g, n, model.live[k].size);
      StaysCleared(old(mem), m, mem, Node(region.head, g, n), region.word, header, model.live[k]);
      FreeInMemory(old(mem), mem, layout, region.word, region.head, model, k, n);
    }

    /** Joining a cleared block into the list writes its header and the node's, so its payload stays cleared. */
    static lemma StaysCleared(m: Memory, m1: Memory, m2: Memory, node: nat, word: nat, header: nat, b: Block)
      requires 2 * word <= header <= b.size && b.End() <= |m| && node + 2 * word <= b.addr
      requires KeptOutside(m, m1, b.addr, b.End(), 0, 0) && Zeroed(m1, b.addr + header, b.size - header)
      requires KeptOutside(m1, m2, node, node + 2 * word, b.addr, b.addr + 2 * word)
      ensures KeptOutside(m, m2, node, node + 2 * word, b.addr, b.End())
      ensures Zeroed(m2, b.addr + header, b.size - header)
    {}

    /** Clears the allocated bit, and the payload if the size has room for the header. */
    method ClearBlock(block: nat, ghost b: Block)
      requires 0 < region.word && 2 * region.word <= header <= b.size && block == b.addr && b.End() <= |mem|
      requires HeaderAt(mem, region.word, block, 0, b.size, true)
      modifies this`mem
      ensures HeaderAt(mem, region.word, block, 0, b.size, false) && Zeroed(mem, block + header, b.size - header)
      ensures KeptOutside(old(mem), mem, block, b.End(), 0, 0)
    {
      SetSize(block, SizeOf(block), false);
      if SizeOf(block) >= header {
        mem := Wipe(mem, block + header, SizeOf(block) - header);
      }
    }

    /** prvInsertBlockIntoFreeList */
    method InsertBlockIntoFreeList(block: nat, ghost g: seq<Block>, ghost n: nat, ghost size: nat)
      requires Linked(mem, region.word, region.head, g, endMarker) && n <= |g| && 0 < region.word
      requires forall j :: 0 <= j < n ==> g[j].addr < block
      requires n < |g| ==> block < g[n].addr
      requires forall j :: 0 <= j < |g| ==> g[j].addr < endMarker
      requires Node(region.head, g, n) + 2 * region.word <= block && Node(region.head, g, n) + NodeSize(g, n) <= block
      requires 2 * region.word <= size && block + size <= After(g, n, endMarker)
      requires HeaderAt(mem, region.word, block, 0, size, false)
      modifies this`mem
      ensures KeptOutside(old(mem), mem, Node(region.head, g, n), Node(region.head, g, n) + 2 * region.word, block,
          block + 2 * region.word)
      ensures JoinedAt(mem, region.word, region.head, g, endMarker, n, Block(block, size))
    {
      ghost var i := 0;
      var node := region.head;
      assert HeaderAt(mem, region.word, Node(region.head, g, 0), After(g, 0, endMarker), NodeSize(g, 0), false);
      while NextOf(node) < block
        invariant i <= n && node == Node(region.head, g, i)
        invariant HeaderAt(mem, region.word, node, After(g, i, endMarker), NodeSize(g, i), false)
        decreases |g| - i
      {
        node, i := NextOf(node), i + 1;
        assert HeaderAt(mem, region.word, Node(region.head, g, i), After(g, i, endMarker), NodeSize(g, i), false);
      }
      if n < |g| {
        assert HeaderAt(mem, region.word, Node(region.head, g, n + 1), After(g, n + 1, endMarker), NodeSize(g, n + 1),
            false);
      }
      JoinBlock(node, block, After(g, n, endMarker), NodeSize(g, n), size,
                After(g, n + 1, endMarker), if n < |g| then g[n].size else 0);
    }

    /** The four ways a block joins its neighbours. */
    method JoinBlock(node: nat, block: nat, ghost after: nat, ghost nodeSize: nat, ghost size: nat,
        ghost rightNext: nat, ghost rightSize: nat)
      requires 0 < region.word && node + 2 * region.word <= block && node + nodeSize <= block
      requires 2 * region.word <= size && block + size <= after
      requires HeaderAt(mem, region.word, node, after, nodeSize, false)
      requires HeaderAt(mem, region.word, block, 0, size, false)
      requires after != endMarker ==> HeaderAt(mem, region.word, after, rightNext, rightSize, false)
      modifies this`mem
      ensures KeptOutside(old(mem), mem, node, node + 2 * region.word, block, block + 2 * region.word)
      ensures var right := block + size == after && after != endMarker;
        var next := if right then rightNext else after;
        var joined := size + if right then rightSize else 0;
        if node + nodeSize == block then
          HeaderAt(mem, region.word, node, next, nodeSize + joined, false)
        else
          && HeaderAt(mem, region.word, node, block, nodeSize, false)
          && HeaderAt(mem, region.word, block, next, joined, false)
    {
      var inserted := block;
      if node + SizeOf(node) == inserted {
        SetSize(node, SizeOf(node) + SizeOf(inserted), false);
        inserted := node;
      }
      if inserted + SizeOf(inserted) == NextOf(node) {
        if NextOf(node) != endMarker {
          SetSize(inserted, SizeOf(inserted) + SizeOf(NextOf(node)), false);
          SetNext(inserted, NextOf(NextOf(node)));
        } else {
          SetNext(inserted, endMarker);
        }
      } else {
        SetNext(inserted, NextOf(node));
      }
      if node != inserted {
        SetNext(node, inserted);
      }
    }

    // ---------- statistics ----------

    /** vPortGetHeapStats: the sizes and number of free blocks, and the four counters. */
    method GetHeapStats() returns (stats: HeapStats)
      requires Valid()
      ensures endMarker == 0 ==> stats.largest == 0 && stats.smallest == SIZE_MAX && stats.blocks == 0
      ensures endMarker != 0 ==> StatsOf(FreeList(layout, model.live), stats.largest, stats.smallest, stats.blocks)
      ensures endMarker != 0 ==>
        stats.available == TotalSize(FreeList(layout, model.live)) && stats.minimumEver == model.minimum
      ensures endMarker == 0 ==> stats.available == freeBytes && stats.minimumEver == minimumFreeBytes
      ensures stats.allocations == stats.frees + |model.live|
    {
      var largest, smallest, blocks := 0, SIZE_MAX, 0;
      if endMarker != 0 {
        ReadyToWalk();
        largest, smallest, blocks := WalkStats(FreeList(layout, model.live));
      } else {
        assert NextOf(region.head) == 0;
      }
      stats := HeapStats(largest, smallest, blocks, freeBytes, allocations, frees, minimumFreeBytes);
    }

    ghost predicate StatsOf(g: seq<Block>, largest: nat, smallest: nat, blocks: nat) {
      && largest == Largest(g) && blocks == |g|
      && (forall i :: 0 <= i < |g| ==> smallest <= g[i].size)
      && (smallest == SIZE_MAX || exists i :: 0 <= i < |g| && g[i].size == smallest)
    }

    method WalkStats(ghost g: seq<Block>) returns (largest: nat, smallest: nat, blocks: nat)
      requires Walkable(g, endMarker)
      ensures StatsOf(g, largest, smallest, blocks)
    {
      largest, smallest, blocks := 0, SIZE_MAX, 0;
      NodeHeader(g, endMarker, 0);
      var block := NextOf(region.head);
      while block != endMarker
        invariant blocks <= |g| && block == After(g, blocks, endMarker)
        invariant StatsOf(g[..blocks], largest, smallest, blocks)
        decreases |g| - blocks
      {
        NodeHeader(g, endMarker, blocks);
        StatsStep(g, blocks, largest, smallest);
        blocks := blocks + 1;
        if SizeOf(block) > largest {
          largest := SizeOf(block);
        }
        if SizeOf(block) < smallest {
          smallest := SizeOf(block);
        }
        block := NextOf(block);
      }
      assert g[..blocks] == g;
    }

    lemma StatsStep(g: seq<Block>, n: nat, largest: nat, smallest: nat)
      requires n < |g| && StatsOf(g[..n], largest, smallest, n)
      ensures StatsOf(g[..n + 1], if g[n].size > largest then g[n].size else largest,
                      if g[n].size < smallest then g[n].size else smallest, n + 1)
    {
      var g', s' := g[..n + 1], if g[n].size < smallest then g[n].size else smallest;
      assert g'[..n] == g[..n] && g'[n] == g[n];
      assert forall i :: 0 <= i < n ==> g'[i] == g[..n][i];
      if smallest != SIZE_MAX && s' == smallest {
        var i :| 0 <= i < n && g[..n][i].size == smallest;
        assert g'[i].size == s';
      }
    }

    // ---------- the application's own writes ----------

    static lemma WrittenPayload(m: Memory, m': Memory, c: Layout, live: seq<Block>, k: nat, a: nat)
      requires k < |live| && live[k].addr + c.header <= a < live[k].End() && |m'| == |m|
      requires forall x :: 0 <= x < |m| && x != a ==> m'[x] == m[x]
      ensures PayloadsOnly(m, m', c, live)
    {
      assert InPayload(c, live, a);
    }

    /** A store by the application into a payload it holds. */
    method WritePayload(ptr: nat, offset: nat, byte: bv8)
      requires Valid() && endMarker != 0 && IsLive(layout, model.live, ptr)
      requires header + offset < model.live[IndexOf(layout, model.live, ptr)].size
      modifies this`mem
      ensures Valid() && ptr + offset < |old(mem)| && mem == old(mem)[ptr + offset := Raw(byte)]
    {
      ghost var m := mem;
      ghost var k := IndexOf(layout, model.live, ptr);
      PackedAt(model.live, layout.first, layout.end, k);
      mem := mem[ptr + offset := Raw(byte)];
      WrittenPayload(m, mem, layout, model.live, k, ptr + offset);
      PayloadWritesKeepHeap(m, mem, layout, region.word, region.head, model);
    }
  }
}
