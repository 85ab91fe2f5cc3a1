/** The arena allocator of Zend/zend_arena.h: a chain of chunks with bump
    allocation, checkpoints that are bare addresses, and release back to one. */
module Arena {
  import opened MemoryHeap
  import opened ArenaLayout

  /** `struct _zend_arena` at address `base`. */
  class Chunk {
    const base: nat
    const end: nat
    const prev: Chunk?
    var ptr: nat

    constructor (base: nat, ptr: nat, end: nat, prev: Chunk?)
      ensures this.base == base && this.ptr == ptr && this.end == end && this.prev == prev
    {
      this.base, this.ptr, this.end, this.prev := base, ptr, end, prev;
    }
  }

  ghost predicate Linked(chunks: seq<Chunk>) {
    && |chunks| > 0
    && chunks[0].prev == null
    && (forall k :: 0 < k < |chunks| ==> chunks[k].prev == chunks[k - 1])
  }

  /** Popping the newest chunk leaves a chain. */
  lemma LinkedPrefix(chunks: seq<Chunk>, n: nat)
    requires Linked(chunks) && 0 < n == |chunks| - 1
    ensures Linked(chunks[..n]) && chunks[n].prev == chunks[n - 1]
  {}

  ghost predicate Mirrors(chunks: seq<Chunk>, ranges: seq<Range>)
    reads chunks
  {
    && |ranges| == |chunks|
    && forall k :: 0 <= k < |chunks| ==> ranges[k] == Range(chunks[k].base, chunks[k].ptr, chunks[k].end)
  }

  class Arena {
    const heap: Heap
    /** `*arena_ptr` */
    var arena: Chunk
    /** The chain from the oldest chunk to `arena`, and its layout. */
    ghost var chunks: seq<Chunk>
    ghost var layout: Layout

    ghost predicate Shaped()
      reads this, chunks
    {
      Linked(chunks) && arena == chunks[|chunks| - 1] && Mirrors(chunks, layout.ranges)
    }

    ghost predicate Valid()
      reads this, heap, chunks
    {
      heap.Valid() && Shaped() && LayoutOk(layout, heap.live)
    }

    /** The blocks in use, oldest first. */
    ghost function Live(): seq<Block>
      reads this
    {
      Blocks(layout.placed)
    }

    /** `zend_arena_create` */
    constructor (heap: Heap, size: nat)
      requires heap.Valid() && HEADER <= size < SIZE_T
      modifies heap
      ensures this.heap == heap && Valid() && Live() == [] && |chunks| == 1 && fresh(chunks[0])
      ensures heap.live == old(heap.live)[chunks[0].base := size] && chunks[0].base !in old(heap.live)
      ensures arena == chunks[0] && arena.ptr == arena.base + 24 && arena.end == arena.base + size
    {
      var base := heap.Emalloc(size);
      var c := new Chunk(base, base + HEADER, base + size, null);
      StartOk(heap.live, base, size);
      this.heap, arena, chunks := heap, c, [c];
      layout := Layout([Range(base, base + HEADER, base + size)], []);
    }

    /** `arena->ptr = at` */
    method SetTop(at: nat)
      requires Shaped() && DistinctBases(layout.ranges)
      modifies arena`ptr, this`layout
      ensures Shaped() && layout == Layout(WithTop(old(layout.ranges), at), old(layout.placed))
    {
      arena.ptr := at;
      layout := Layout(WithTop(layout.ranges, at), layout.placed);
      forall k | 0 <= k < |chunks| ensures layout.ranges[k] == Range(chunks[k].base, chunks[k].ptr, chunks[k].end) {
        assert k < |chunks| - 1 ==> chunks[k].base != arena.base;
      }
    }

    /** The fast path: the block fits the newest chunk. */
    method Bump(size: nat) returns (p: nat)
      requires Valid() && size % ALIGNMENT == 0 && arena.ptr + size <= arena.end
      modifies this`layout, arena`ptr
      ensures Valid() && Allocated(old(layout), heap.live, layout, heap.live, p, size)
      ensures p == old(arena.ptr) && arena.ptr == p + size
    {
      ghost var l := layout;
      assert TopRange(l) == Range(arena.base, arena.ptr, arena.end);
      BumpAllocates(l, heap.live, size);
      p := arena.ptr;
      SetTop(p + size);
      layout := BumpLayout(l, size);
    }

    /** A new chunk with one block in it. */
    method AddChunk(base: nat, end: nat, size: nat) returns (p: nat)
      requires Shaped()
      modifies this`arena, this`chunks, this`layout
      ensures Shaped()
      ensures chunks == old(chunks) + [arena] && fresh(arena) && arena.base == base && arena.end == end
      ensures p == base + HEADER
      ensures layout == AddRange(old(layout), base, end, size)
    {
      p := base + HEADER;
      var c := new Chunk(base, p + size, end, arena);
      layout := AddRange(layout, base, end, size);
      arena, chunks := c, chunks + [c];
    }

    /** A new chunk of that size from the heap, with one block in it. */
    method NewChunk(arenaSize: nat, size: nat) returns (p: nat)
      requires heap.Valid() && Shaped()
      modifies this`arena, this`chunks, this`layout, heap
      ensures heap.Valid() && Shaped()
      ensures chunks == old(chunks) + [arena] && fresh(arena) && p == arena.base + HEADER
      ensures arena.end == arena.base + arenaSize && arena.base % ALIGNMENT == 0 && arena.base !in old(heap.live)
      ensures forall q :: q in old(heap.live) ==> Apart(arena.base, arenaSize, q, old(heap.live)[q])
      ensures heap.live == old(heap.live)[arena.base := arenaSize]
      ensures layout == AddRange(old(layout), arena.base, arena.base + arenaSize, size)
    {
      var base := heap.Emalloc(arenaSize);
      p := AddChunk(base, base + arenaSize, size);
    }

    /** The slow path: a new chunk, at least as large as the newest one. */
    method Grow(size: nat) returns (p: nat)
      requires Valid() && size % ALIGNMENT == 0 && size < SIZE_T
      modifies this`arena, this`chunks, this`layout, heap
      ensures chunks == old(chunks) + [arena] && fresh(arena)
      ensures size + HEADER >= SIZE_T ==> arena.end < p + size
      ensures size + HEADER < SIZE_T ==> Valid() && Allocated(old(layout), old(heap.live), layout, heap.live, p, size)
      ensures size + HEADER < SIZE_T ==> IsNextSize(old(arena.end - arena.base), size, arena.end - arena.base)
      ensures p == arena.base + 24 && arena.base !in old(heap.live) && arena.base <= arena.end
      ensures heap.live == old(heap.live)[arena.base := arena.end - arena.base]
    {
      ghost var l, live := layout, heap.live;
      assert Size(TopRange(l)) == arena.end - arena.base < SIZE_T;
      var arenaSize := NextSize(arena.end - arena.base, size);
      assert size + HEADER >= SIZE_T ==> arenaSize < HEADER + size;
      p := NewChunk(arenaSize, size);
      if size + HEADER < SIZE_T {
        GrowAllocates(l, live, layout, heap.live, arena.base, arenaSize, size);
      }
    }

    /** `zend_arena_alloc`: a new aligned block of at least the size asked for, on top
        of the others; a request above the limit gets one that does not hold it. */
    method Alloc(size: nat) returns (p: nat)
      requires Valid() && size < SIZE_T
      modifies this, arena, heap
      ensures chunks == old(chunks) || (chunks == old(chunks) + [arena] && fresh(arena))
      ensures size <= MAX_REQUEST ==> Valid() && AlignedSize(size) >= size
      ensures size <= MAX_REQUEST ==> Allocated(old(layout), old(heap.live), layout, heap.live, p, AlignedSize(size))
      ensures size > MAX_REQUEST ==> AlignedSize(size) < size || arena.end < p + AlignedSize(size)
      ensures chunks == old(chunks) <==> AlignedSize(size) <= old(arena.end - arena.ptr)
      ensures chunks == old(chunks) ==>
        p == old(arena.ptr) && arena.ptr == p + AlignedSize(size) && heap.live == old(heap.live)
      ensures chunks != old(chunks) ==>
        p == arena.base + 24 && arena.base <= arena.end &&
          heap.live == old(heap.live)[arena.base := arena.end - arena.base]
      ensures chunks != old(chunks) && size <= MAX_REQUEST ==>
        IsNextSize(old(arena.end - arena.base), AlignedSize(size), arena.end - arena.base)
    {
      var aligned := AlignedSize(size);
      NextChunkHoldsIff(arena.end - arena.base, size);
      if aligned <= arena.end - arena.ptr {
        p := Bump(aligned);
      } else {
        p := Grow(aligned);
      }
    }

    /** `zend_arena_checkpoint`: an address that marks the present state. */
    method Checkpoint() returns (checkpoint: nat)
      requires Valid()
      ensures Marks(layout, checkpoint, |Live()|, |chunks|) && checkpoint == arena.ptr
    {
      checkpoint := arena.ptr;
    }

    /** Frees the newest chunk. */
    method PopChunk()
      requires heap.Valid() && Shaped() && |chunks| > 1 && arena.base in heap.live
      modifies this`arena, this`chunks, this`layout, heap
      ensures heap.Valid() && Shaped() && chunks == old(chunks)[..|old(chunks)| - 1]
      ensures layout == Layout(old(layout.ranges)[..|chunks|], old(layout.placed))
      ensures heap.live == old(heap.live) - {old(arena.base)}
    {
      ghost var n := |chunks| - 1;
      LinkedPrefix(chunks, n);
      var prev := arena.prev;
      heap.Efree(arena.base);
      arena, chunks := prev, chunks[..n];
      layout := Layout(layout.ranges[..n], layout.placed);
    }

    /** The loop of the release: pops and frees the chunks the checkpoint is
        outside of. */
    method PopTo(checkpoint: nat, ghost depth: nat)
      requires heap.Valid() && Shaped() && StopsAt(layout.ranges, heap.live, checkpoint, depth)
      modifies this`arena, this`chunks, this`layout, heap
      ensures heap.Valid() && Shaped() && chunks == old(chunks)[..depth]
      ensures layout == Layout(old(layout.ranges)[..depth], old(layout.placed))
      ensures heap.live == old(heap.live) - BasesOf(old(layout.ranges)[depth..])
    {
      ghost var ranges, live := layout.ranges, heap.live;
      while checkpoint > arena.end || checkpoint <= arena.base
        invariant Shaped() && chunks == old(chunks)[..|chunks|] && layout.placed == old(layout.placed)
        invariant heap.Valid() && Popped(ranges, live, layout.ranges, heap.live, depth)
        decreases |chunks|
      {
        PopOutside(ranges, live, checkpoint, depth);
      }
      PopNext(ranges, live, layout.ranges, heap.live, checkpoint, depth);
    }

    /** One round of the loop. */
    method PopOutside(ghost ranges: seq<Range>, ghost live: map<nat, nat>, ghost checkpoint: nat, ghost depth: nat)
      requires heap.Valid() && Shaped() && StopsAt(ranges, live, checkpoint, depth)
      requires Popped(ranges, live, layout.ranges, heap.live, depth) &&
        (checkpoint > arena.end || checkpoint <= arena.base)
      modifies this`arena, this`chunks, this`layout, heap
      ensures heap.Valid() && Shaped() && chunks == old(chunks)[..|old(chunks)| - 1] &&
        layout.placed == old(layout.placed)
      ensures Popped(ranges, live, layout.ranges, heap.live, depth)
    {
      PopNext(ranges, live, layout.ranges, heap.live, checkpoint, depth);
      PopChunk();
    }

    /** `zend_arena_release`: frees exactly the chunks made since the checkpoint
        and keeps exactly the blocks that were live at it. */
    method Release(checkpoint: nat, ghost height: nat, ghost depth: nat)
      requires Valid() && Marks(layout, checkpoint, height, depth)
      modifies this, chunks, heap
      ensures Valid()
      ensures Live() == Truncate(old(Live()), height)
      ensures chunks == old(chunks)[..depth]
      ensures heap.live == old(heap.live) - BasesOf(old(layout.ranges)[depth..])
      ensures layout == ReleaseLayout(old(layout), checkpoint, height, depth)
    {
      ghost var l, live := layout, heap.live;
      Rewind(checkpoint, height, depth);
      ReleaseEnds(l, live, layout, heap.live, checkpoint, height, depth);
      layout := Layout(layout.ranges, layout.placed[..height]);
    }

    /** The chunks and the heap after a release; the blocks are still recorded. */
    method Rewind(checkpoint: nat, ghost height: nat, ghost depth: nat)
      requires Valid() && Marks(layout, checkpoint, height, depth)
      modifies this, chunks, heap
      ensures heap.Valid() && Shaped() && chunks == old(chunks)[..depth]
      ensures heap.live == old(heap.live) - BasesOf(old(layout.ranges)[depth..])
      ensures layout == Layout(WithTop(old(layout.ranges)[..depth], checkpoint), old(layout.placed))
    {
      MarkStops(layout, heap.live, checkpoint, height, depth);
      PopTo(checkpoint, depth);
      SetTop(checkpoint);
    }

    /** `zend_arena_destroy`: every chunk goes back to the heap. */
    method Destroy()
      requires Valid()
      modifies heap
      ensures heap.Valid()
      ensures heap.live == old(heap.live) - BasesOf(layout.ranges)
    {
      ghost var ranges, live := layout.ranges, heap.live;
      ghost var n: nat := |chunks|;
      var c: Chunk? := arena;
      assert DistinctBases(ranges);
      while c != null
        invariant n <= |chunks| && c == (if n == 0 then null else chunks[n - 1])
        invariant heap.Valid() && heap.live == live - BasesOf(ranges[n..])
        decreases n
      {
        assert ranges[n - 1].base == c.base;
        FreeOneMore(ranges, live, n - 1);
        var prev := c.prev;
        heap.Efree(c.base);
        c := prev;
        n := n - 1;
      }
      assert ranges[0..] == ranges;
    }

    /** `zend_arena_contains` */
    method Contains(p: nat) returns (found: bool)
      requires Valid()
      ensures found <==> exists r :: r in layout.ranges && r.base < p <= r.ptr
      ensures forall b :: b in Live() && b.at == p ==> found
    {
      ghost var n: nat := |chunks|;
      var c: Chunk? := arena;
      while c != null
        invariant n <= |chunks| && c == (if n == 0 then null else chunks[n - 1])
        invariant forall k :: n <= k < |chunks| ==> !(layout.ranges[k].base < p <= layout.ranges[k].ptr)
        decreases n
      {
        if p > c.base && p <= c.ptr {
          assert layout.ranges[n - 1] == Range(c.base, c.ptr, c.end);
          return true;
        }
        c := c.prev;
        n := n - 1;
      }
      BlocksAreInside(layout, p);
      return false;
    }
  }

  /** Releasing to a checkpoint undoes the allocation made since: the arena and
      the heap are as they were. */
  method ReleaseUndoesAlloc(a: Arena, size: nat)
    requires a.Valid() && size <= MAX_REQUEST
    modifies a, a.chunks, a.heap
    ensures a.Valid() && a.chunks == old(a.chunks) && a.Live() == old(a.Live())
    ensures a.heap.live == old(a.heap.live)
  {
    ghost var before, height, depth := a.Live(), |a.Live()|, |a.chunks|;
    var checkpoint := a.Checkpoint();
    var p := a.Alloc(size);
    assert Truncate(Push(before, Block(p, AlignedSize(size))), height) == before;
    a.Release(checkpoint, height, depth);
  }
}
