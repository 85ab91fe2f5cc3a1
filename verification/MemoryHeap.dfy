/** The memory manager as the arenas see it: `emalloc` returns any aligned range
    that overlaps no live one, `efree` gives one back. */
module MemoryHeap {

  const ALIGNMENT: nat := 8
  /** The header of a chunk, in either kind of arena: three pointers. */
  const HEADER: nat := 24
  const SIZE_T: nat := 0x1_0000_0000_0000_0000

  /** `ZEND_MM_ALIGNED_SIZE` on a 64-bit `size_t`, wrap-around included. */
  function AlignedSize(size: nat): (r: nat)
    ensures r % 8 == 0
    ensures size + ALIGNMENT - 1 < SIZE_T ==> size <= r < size + 8
  {
    (size + ALIGNMENT - 1) % SIZE_T / ALIGNMENT * ALIGNMENT
  }

  /** Rounding up works exactly when it does not wrap. */
  lemma AlignedSizeCovers(size: nat)
    requires size < SIZE_T
    ensures AlignedSize(size) >= size <==> size + ALIGNMENT - 1 < SIZE_T
    ensures AlignedSize(size) < size <==> AlignedSize(size) == 0 && 0xFFFF_FFFF_FFFF_FFF8 < size
  {
    if size + ALIGNMENT - 1 >= SIZE_T {
      assert (size + ALIGNMENT - 1) % SIZE_T == size + ALIGNMENT - 1 - SIZE_T;
    }
  }

  /** Ranges [a, a + m) and [b, b + n) share no address. */
  predicate Apart(a: nat, m: nat, b: nat, n: nat) {
    a + m <= b || b + n <= a
  }

  /** A block a program may use. */
  datatype Block = Block(at: nat, size: nat)

  /** What an arena is for: a stack of blocks, allocated one at a time and
      released down to an earlier height. */
  function Push(s: seq<Block>, b: Block): seq<Block> { s + [b] }

  function Truncate(s: seq<Block>, height: nat): seq<Block>
    requires height <= |s|
  {
    s[..height]
  }

  ghost predicate AllApart(s: seq<Block>) {
    forall i, j :: 0 <= i < j < |s| ==> Apart(s[i].at, s[i].size, s[j].at, s[j].size)
  }

  /** No two live ranges overlap. */
  ghost predicate RangesApart(live: map<nat, nat>) {
    forall p, q :: p in live && q in live && p != q ==> Apart(p, live[p], q, live[q])
  }

  class Heap {
    /** The live ranges, by start. */
    ghost var live: map<nat, nat>
    var brk: nat

    ghost predicate Valid()
      reads this
    {
      && brk % ALIGNMENT == 0 && brk > 0
      && (forall p :: p in live ==> p % ALIGNMENT == 0 && p > 0 && p + live[p] < brk)
      && RangesApart(live)
    }

    constructor ()
      ensures Valid() && live == map[]
    {
      live, brk := map[], ALIGNMENT;
    }

    method Emalloc(size: nat) returns (p: nat)
      requires Valid()
      modifies this
      ensures Valid()
      ensures p > 0 && p % ALIGNMENT == 0 && p !in old(live)
      ensures forall q :: q in old(live) ==> Apart(p, size, q, old(live)[q])
      ensures live == old(live)[p := size]
    {
      p := brk;
      brk := brk + size / ALIGNMENT * ALIGNMENT + ALIGNMENT;
      live := live[p := size];
    }

    method Efree(p: nat)
      requires Valid() && p in live
      modifies this
      ensures Valid()
      ensures live == old(live) - {p}
    {
      live := live - {p};
    }
  }
}
