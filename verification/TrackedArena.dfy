/** The tracking variant of Zend/zend_arena.h, for memory checkers: every block
    is its own allocation, and the chunks only record their addresses.  It is
    the same stack of blocks as the bump variant. */
module TrackedArena {
  import opened MemoryHeap
  import opened TrackedRecord

  /** `struct _zend_arena` at address `base`; `ptrs` are the recorded pointers,
      below `arena->ptr`. */
  class Chunk {
    const base: nat
    const prev: Chunk?
    var ptrs: seq<nat>

    constructor (base: nat, prev: Chunk?)
      ensures this.base == base && this.prev == prev && ptrs == []
    {
      this.base, this.prev, this.ptrs := base, prev, [];
    }
  }

  ghost predicate Linked(chunks: seq<Chunk>, bases: seq<nat>) {
    && |chunks| == |bases| > 0
    && chunks[0].prev == null
    && (forall k :: 0 < k < |chunks| ==> chunks[k].prev == chunks[k - 1])
    && (forall k :: 0 <= k < |chunks| ==> chunks[k].base == bases[k])
    && (forall i, j :: 0 <= i < j < |bases| ==> bases[i] != bases[j])
  }

  lemma LinkedGrows(chunks: seq<Chunk>, bases: seq<nat>, c: Chunk, base: nat)
    requires Linked(chunks, bases) && c.prev == chunks[|chunks| - 1] && c.base == base && base !in bases
    ensures Linked(chunks + [c], bases + [base])
  {}

  lemma LinkedPrefix(chunks: seq<Chunk>, bases: seq<nat>, n: nat)
    requires Linked(chunks, bases) && 0 < n == |chunks| - 1
    ensures Linked(chunks[..n], bases[..n]) && chunks[n].prev == chunks[n - 1]
  {}

  /** Where chunk `k` of a stack of `n` blocks ends. */
  function Stop(k: nat, n: nat): nat {
    if n < TRACKED_SIZE * (k + 1) then n else TRACKED_SIZE * (k + 1)
  }

  /** Chunk `k` records the blocks from `Start(k)` to `Stop(k)`. */
  ghost predicate Records(chunks: seq<Chunk>, blocks: seq<Block>)
    reads chunks
  {
    forall k :: 0 <= k < |chunks| ==> RecordsAt(chunks[k], blocks, k)
  }

  ghost predicate RecordsAt(c: Chunk, blocks: seq<Block>, k: nat)
    reads c
  {
    && TRACKED_SIZE * k <= |blocks|
    && |c.ptrs| == Stop(k, |blocks|) - TRACKED_SIZE * k
    && (forall i :: 0 <= i < |c.ptrs| ==> c.ptrs[i] == blocks[TRACKED_SIZE * k + i].at)
  }

  lemma PrefixTransitive<T>(a: seq<T>, b: seq<T>, c: seq<T>)
    requires a <= b <= c
    ensures a <= c
  {}

  class Arena {
    const heap: Heap
    /** `*arena_ptr` */
    var arena: Chunk
    ghost var chunks: seq<Chunk>
    ghost var record: Record

    ghost predicate Shaped()
      reads this, chunks
    {
      && Linked(chunks, record.bases) && arena == chunks[|chunks| - 1]
      && Filled(record) && Records(chunks, record.blocks)
    }

    ghost predicate Valid()
      reads this, heap, chunks
    {
      heap.Valid() && Shaped() && Owned(record, heap.live)
    }

    /** The blocks in use, oldest first. */
    ghost function Live(): seq<Block>
      reads this
    {
      record.blocks
    }

    /** `zend_arena_create`: the size asked for is ignored. */
    constructor (heap: Heap, size: nat)
      requires heap.Valid()
      modifies heap
      ensures this.heap == heap && Valid() && Live() == [] && |chunks| == 1 && fresh(chunks[0])
      ensures chunks[0].base !in old(heap.live) && heap.live == old(heap.live)[chunks[0].base := STRUCT_SIZE]
    {
      var base := heap.Emalloc(STRUCT_SIZE);
      var c := new Chunk(base, null);
      this.heap, arena, chunks, record := heap, c, [c], Record([], [base]);
    }

    /** A new empty chunk when the newest one is full. */
    method AddChunk()
      requires Valid() && |arena.ptrs| == TRACKED_SIZE
      modifies this`arena, this`chunks, this`record, heap
      ensures Valid() && |arena.ptrs| < TRACKED_SIZE
      ensures chunks == old(chunks) + [arena] && fresh(arena)
      ensures record == Record(old(record.blocks), old(record.bases) + [arena.base])
      ensures arena.base !in old(heap.live) && heap.live == old(heap.live)[arena.base := STRUCT_SIZE]
    {
      var base := heap.Emalloc(STRUCT_SIZE);
      var c := new Chunk(base, arena);
      OwnedChunk(record, old(heap.live), base);
      LinkedGrows(chunks, record.bases, c, base);
      arena, chunks, record := c, chunks + [c], Record(record.blocks, record.bases + [base]);
    }

    /** Records one more block in the newest chunk. */
    method Track(p: nat, ghost size: nat)
      requires Shaped() && |arena.ptrs| < TRACKED_SIZE
      modifies this`record, arena`ptrs
      ensures Shaped()
      ensures record == Record(Push(old(record.blocks), Block(p, size)), old(record.bases))
    {
      arena.ptrs := arena.ptrs + [p];
      record := Record(Push(record.blocks, Block(p, size)), record.bases);
    }

    /** `zend_arena_alloc`: one more block of the size asked for.  Checkpoints
        taken before keep their meaning. */
    method Alloc(size: nat) returns (p: nat)
      requires Valid()
      modifies this, arena, heap
      ensures Valid() && Live() == Push(old(Live()), Block(p, size)) && AllApart(Live())
      ensures chunks == old(chunks) ||
        (chunks == old(chunks) + [arena] && fresh(arena) && arena.base !in old(heap.live))
      ensures chunks == old(chunks) <==> |old(arena.ptrs)| < 1000
      ensures p !in old(heap.live) && heap.live
        == (if chunks == old(chunks) then old(heap.live) else old(heap.live)[arena.base := 8024])[p := size]
      ensures forall at, h, d :: Marks(old(record), at, h, d) ==> Marks(record, at, h, d)
    {
      ghost var r := record;
      TopOfRecord();
      if |arena.ptrs| == TRACKED_SIZE {
        AddChunk();
      }
      ghost var bases, live := record.bases, heap.live;
      p := heap.Emalloc(size);
      assert Shaped();
      Track(p, size);
      assert Owned(record, heap.live) by { OwnedPush(Record(r.blocks, bases), live, p, size); }
      assert AllApart(Live()) by { BlocksApart(record, heap.live); }
      assert r.blocks <= record.blocks && r.bases <= record.bases;
      MarksKept(r, record);
    }

    /** `zend_arena_checkpoint` */
    method Checkpoint() returns (checkpoint: nat)
      requires Valid()
      ensures Marks(record, checkpoint, |Live()|, |chunks|)
      ensures checkpoint == arena.base + 24 + 8 * |arena.ptrs|
    {
      checkpoint := SlotAddress(arena.base, |arena.ptrs|);
    }

    /** `efree(*--arena->ptr)` */
    method PopBlock()
      requires heap.Valid() && Shaped() && arena.ptrs != []
      requires record.blocks != [] && record.blocks[|record.blocks| - 1].at in heap.live
      modifies this`record, arena`ptrs, heap
      ensures heap.Valid() && Shaped()
      ensures record == Record(old(record.blocks)[..|old(record.blocks)| - 1], old(record.bases))
      ensures heap.live == old(heap.live) - {old(record.blocks)[|old(record.blocks)| - 1].at}
    {
      ghost var n := |record.blocks| - 1;
      var last := arena.ptrs[|arena.ptrs| - 1];
      assert RecordsAt(arena, record.blocks, |chunks| - 1);
      arena.ptrs := arena.ptrs[..|arena.ptrs| - 1];
      heap.Efree(last);
      record := Record(record.blocks[..n], record.bases);
      forall k | 0 <= k < |chunks| ensures RecordsAt(chunks[k], record.blocks, k) {
        if k < |chunks| - 1 {
          assert chunks[k].base != arena.base;
          assert old(RecordsAt(chunks[k], record.blocks, k));
        }
      }
    }

    /** Frees the newest chunk, which is empty. */
    method PopChunk()
      requires heap.Valid() && Shaped() && arena.ptrs == [] && |chunks| > 1 && arena.base in heap.live
      modifies this`arena, this`chunks, this`record, heap
      ensures heap.Valid() && Shaped() && chunks == old(chunks)[..|old(chunks)| - 1]
      ensures record == Record(old(record.blocks), old(record.bases)[..|chunks|])
      ensures heap.live == old(heap.live) - {old(arena.base)}
    {
      ghost var n := |chunks| - 1;
      assert RecordsAt(arena, record.blocks, n);
      LinkedPrefix(chunks, record.bases, n);
      var prev := arena.prev;
      heap.Efree(arena.base);
      arena, chunks := prev, chunks[..n];
      record := Record(record.blocks, record.bases[..n]);
    }

    /** How many blocks the newest chunk records. */
    lemma TopOfRecord()
      requires Shaped()
      ensures |chunks| == |record.bases| > 0 && arena.base == record.bases[|chunks| - 1]
      ensures |arena.ptrs| == |record.blocks| - TRACKED_SIZE * (|chunks| - 1)
      ensures TRACKED_SIZE * (|chunks| - 1) <= |record.blocks| <= TRACKED_SIZE * |chunks|
    {
      assert RecordsAt(arena, record.blocks, |chunks| - 1);
    }

    /** `zend_arena_release`: frees exactly the blocks allocated since the
        checkpoint, once each, and the chunks that recorded only those. */
    method Release(checkpoint: nat, ghost height: nat, ghost depth: nat)
      requires Valid() && Marks(record, checkpoint, height, depth)
      modifies this, chunks, heap
      ensures Valid()
      ensures Live() == Truncate(old(Live()), height)
      ensures chunks == old(chunks)[..depth]
      ensures heap.live == old(heap.live) - Freed(old(record), height, depth)
    {
      ghost var r, live := record, heap.live;
      DescendStart(r, live);
      MarkIsOnTheWay(r, live, r, live, checkpoint, height, depth);
      Descend(r, live, checkpoint, height, depth);
      OwnedBelow(r, live, height, depth);
    }

    /** The loops of the release. */
    method Descend(ghost r: Record, ghost live: map<nat, nat>, checkpoint: nat, ghost height: nat, ghost depth: nat)
      requires heap.Valid() && Shaped() && Owned(r, live) && Descending(r, live, record, heap.live)
      requires RangesApart(live) && Marks(r, checkpoint, height, depth) && OnTheWay(record, checkpoint, height, depth)
      modifies this, chunks, heap
      ensures heap.Valid() && Shaped() && chunks == old(chunks)[..depth]
      ensures record == Record(r.blocks[..height], r.bases[..depth])
      ensures heap.live == live - Freed(r, height, depth)
    {
      ghost var start := chunks;
      TopOfRecord();
      while SlotAddress(arena.base, |arena.ptrs|) != checkpoint
        invariant heap.Valid() && Shaped() && chunks <= start
        invariant Descending(r, live, record, heap.live) && OnTheWay(record, checkpoint, height, depth)
        invariant SlotAddress(arena.base, |arena.ptrs|) == TopSlot(record)
        decreases |record.blocks| + |record.bases|
      {
        StepDown(r, live, checkpoint, height, depth, start);
      }
    }

    /** One step down, after which the checkpoint is still ahead or reached. */
    method StepDown(ghost r: Record, ghost live: map<nat, nat>, ghost at: nat, ghost height: nat, ghost depth: nat,
                    ghost start: seq<Chunk>)
      requires heap.Valid() && Shaped() && chunks <= start
      requires Owned(r, live) && Descending(r, live, record, heap.live)
      requires RangesApart(live) && Marks(r, at, height, depth)
      requires OnTheWay(record, at, height, depth) && TopSlot(record) != at
      modifies this`arena, this`chunks, this`record, arena`ptrs, heap
      ensures heap.Valid() && Shaped() && chunks <= start
      ensures Descending(r, live, record, heap.live) && OnTheWay(record, at, height, depth)
      ensures SlotAddress(arena.base, |arena.ptrs|) == TopSlot(record)
      ensures |record.blocks| + |record.bases| < |old(record.blocks)| + |old(record.bases)|
    {
      ghost var before := chunks;
      TopOfRecord();
      PopOne(r, live);
      PrefixTransitive(chunks, before, start);
      TopOfRecord();
      MarkIsOnTheWay(r, live, record, heap.live, at, height, depth);
    }

    /** Frees the top block, or the newest chunk once it is empty. */
    method PopOne(ghost r: Record, ghost live: map<nat, nat>)
      requires heap.Valid() && Shaped() && Owned(r, live) && Descending(r, live, record, heap.live)
      requires arena.ptrs == [] ==> |chunks| > 1
      modifies this`arena, this`chunks, this`record, arena`ptrs, heap
      ensures heap.Valid() && Shaped() && Descending(r, live, record, heap.live)
      ensures chunks <= old(chunks)
      ensures if old(arena.ptrs) == []
              then |record.bases| == |old(record.bases)| - 1 && record.blocks == old(record.blocks)
              else |record.blocks| == |old(record.blocks)| - 1 && record.bases == old(record.bases)
    {
      ghost var rec, now := record, heap.live;
      TopOfRecord();
      if arena.ptrs == [] {
        DescendChunk(r, live, rec, now);
        PopChunk();
        assert heap.live == now - {rec.bases[|rec.bases| - 1]};
      } else {
        DescendBlock(r, live, rec, now);
        PopBlock();
        assert heap.live == now - {rec.blocks[|rec.blocks| - 1].at};
      }
    }

    /** The inner loop of `zend_arena_destroy`: the blocks of chunk `k`, upwards. */
    method FreeBlocksOf(c: Chunk, ghost k: nat, ghost live: map<nat, nat>, ghost hi: nat)
      requires heap.Valid() && Owned(record, live) && k < |record.bases| && RecordsAt(c, record.blocks, k)
      requires hi == Stop(k, |record.blocks|) && heap.live == live - Freed(record, hi, k + 1)
      modifies heap
      ensures heap.Valid() && heap.live == live - Freed(record, TRACKED_SIZE * k, k + 1)
    {
      ghost var lo := TRACKED_SIZE * k;
      assert FreedUp(record, lo, lo) == {};
      assert lo + |c.ptrs| == hi <= |record.blocks|;
      for i := 0 to |c.ptrs|
        invariant heap.Valid() && heap.live == live - Freed(record, hi, k + 1) - FreedUp(record, lo, lo + i)
      {
        FreeUp(record, live, lo, lo + i, hi, k + 1);
        assert c.ptrs[i] == record.blocks[lo + i].at;
        heap.Efree(c.ptrs[i]);
      }
      FreedUpIsFreed(record, lo, hi, k + 1);
    }

    /** `zend_arena_destroy`: every block and every chunk goes back to the heap,
        once each. */
    method Destroy()
      requires Valid()
      modifies heap
      ensures heap.Valid() && heap.live == old(heap.live) - Freed(record, 0, 0)
    {
      ghost var live := heap.live;
      ghost var m: nat := |chunks|;
      var c: Chunk? := arena;
      assert Freed(record, |record.blocks|, m) == {};
      assert RecordsAt(arena, record.blocks, m - 1);
      while c != null
        invariant m <= |chunks| && c == (if m == 0 then null else chunks[m - 1])
        invariant heap.Valid() &&
          heap.live == live - Freed(record, if m == 0 then 0 else Stop(m - 1, |record.blocks|), m)
        decreases m
      {
        assert RecordsAt(c, record.blocks, m - 1);
        FreeBlocksOf(c, m - 1, live, Stop(m - 1, |record.blocks|));
        FreeChunk(record, live, TRACKED_SIZE * (m - 1), m);
        var prev := c.prev;
        heap.Efree(c.base);
        c := prev;
        m := m - 1;
      }
    }
  }
}
