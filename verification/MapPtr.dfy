/** The two-ended `map_ptr` table of Zend/zend.c: dynamic slots grow at the end
    by reallocation, static slots grow at the front, a chunk of 4096 at a time,
    by moving everything else up.  A handle is a byte offset from the border
    between the two, biased by one. */
module MapPtr {

  type Word = int
  const NULL: Word := 0
  const CHUNK: nat := 4096
  const WORD_SIZE: nat := 8

  /** `ZEND_MM_ALIGNED_SIZE_EX(n, 4096)` */
  function Aligned(n: nat): (r: nat)
    ensures n <= r < n + 4096 && r % 4096 == 0
  {
    (n + CHUNK - 1) / CHUNK * CHUNK
  }

  /** `ZEND_MAP_PTR_PTR2OFFSET` of the slot at `index`, against the biased base. */
  function Offset(index: int, staticSize: nat): int {
    (index - staticSize) * WORD_SIZE + 1
  }

  /** `ZEND_MAP_PTR_OFFSET2PTR` */
  function Index(handle: int, staticSize: nat): int {
    (handle - 1) / WORD_SIZE + staticSize
  }

  /** `ZEND_MAP_PTR_STATIC_NUM_TO_PTR`: chunks are laid out newest first. */
  function StaticIndex(n: nat, staticSize: nat): int {
    staticSize - Aligned(n + 1) + n % CHUNK
  }

  /** The handle of dynamic slot `i`, whatever the size of the table. */
  function DynamicHandle(i: nat): int { i * WORD_SIZE + 1 }

  /** The handle of static slot `n`, whatever the size of the table. */
  function StaticHandle(n: nat): int { (n % CHUNK - Aligned(n + 1)) * WORD_SIZE + 1 }

  lemma OffsetRoundTrip(index: int, staticSize: nat)
    ensures Index(Offset(index, staticSize), staticSize) == index
  {}

  /** The position of a slot against the border never changes. */
  lemma HandlesAreStable(i: nat, n: nat, staticSize: nat)
    ensures Offset(staticSize + i, staticSize) == DynamicHandle(i)
    ensures Offset(StaticIndex(n, staticSize), staticSize) == StaticHandle(n)
  {}

  /** In bytes: dynamic slots go up from the border, static chunks go down from it, each
      with its slots upwards. */
  lemma HandlesInBytes(i: nat, q: nat, r: nat)
    requires r < 4096
    ensures DynamicHandle(i) == 8 * i + 1
    ensures StaticHandle(4096 * q + r) == 8 * (r - 4096 * (q + 1)) + 1
  {
    StaticChunk(4096 * q + r);
    ChunkUnique(q, r, (4096 * q + r) / CHUNK, (4096 * q + r) % CHUNK);
  }

  /** Which chunk a static slot lies in. */
  lemma StaticChunk(n: nat)
    ensures Aligned(n + 1) == n / CHUNK * CHUNK + CHUNK && n == n / CHUNK * CHUNK + n % CHUNK
  {}

  /** Quotient and remainder determine each other. */
  lemma ChunkUnique(q: int, r: int, q': int, r': int)
    requires 0 <= r < CHUNK && 0 <= r' < CHUNK && r - q * CHUNK == r' - q' * CHUNK
    ensures q == q' && r == r'
  {}

  lemma StaticHandlesDistinct(i: nat, j: nat)
    requires StaticHandle(i) == StaticHandle(j)
    ensures i == j
  {
    StaticChunk(i);
    StaticChunk(j);
    ChunkUnique(i / CHUNK, i % CHUNK, j / CHUNK, j % CHUNK);
  }

  lemma OddHandle(x: int)
    ensures (x * WORD_SIZE + 1) % 2 == 1
  {}

  /** No two handles coincide, and all are odd, which is how an offset is told
      from a pointer. */
  lemma HandlesAreDistinct(i: nat, j: nat)
    ensures DynamicHandle(i) != StaticHandle(j)
    ensures i != j ==> DynamicHandle(i) != DynamicHandle(j) && StaticHandle(i) != StaticHandle(j)
    ensures DynamicHandle(i) % 2 == 1 && StaticHandle(i) % 2 == 1
  {
    assert StaticHandle(j) < 0 by { StaticChunk(j); }
    if StaticHandle(i) == StaticHandle(j) {
      StaticHandlesDistinct(i, j);
    }
    OddHandle(i);
    OddHandle(i % CHUNK - Aligned(i + 1));
  }

  /** Static slot `n` lies in the table once its chunk exists. */
  lemma StaticIndexInTable(n: nat, staticLast: nat, staticSize: nat)
    requires n < staticLast <= staticSize && staticSize % CHUNK == 0
    ensures 0 <= StaticIndex(n, staticSize) < staticSize
  {
    StaticChunk(n);
    assert n / CHUNK < staticSize / CHUNK;
  }

  /** Distinct static slots lie in distinct places. */
  lemma StaticIndexInjective(n: nat, m: nat, staticSize: nat)
    ensures n != m ==> StaticIndex(n, staticSize) != StaticIndex(m, staticSize)
  {
    HandlesAreDistinct(n, m);
    HandlesAreStable(0, n, staticSize);
    HandlesAreStable(0, m, staticSize);
  }

  // ---------- The slots in use, from the raw cells ----------

  /** A table of `staticSize` cells for static slots and then the dynamic ones. */
  ghost predicate Fits(cells: seq<Word>, staticSize: nat, staticLast: nat, last: nat) {
    && staticSize % CHUNK == 0 && staticLast <= staticSize
    && staticSize + last <= |cells|
  }

  ghost function DynamicOf(cells: seq<Word>, staticSize: nat, last: nat): seq<Word>
    requires staticSize + last <= |cells|
  {
    cells[staticSize..staticSize + last]
  }

  ghost function StaticOf(cells: seq<Word>, staticSize: nat, staticLast: nat): (s: seq<Word>)
    requires Fits(cells, staticSize, staticLast, 0)
    ensures |s| == staticLast
    ensures forall n :: 0 <= n < staticLast ==>
      0 <= StaticIndex(n, staticSize) < staticSize && s[n] == cells[StaticIndex(n, staticSize)]
  {
    if staticLast == 0 then []
    else
      StaticIndexInTable(staticLast - 1, staticLast, staticSize);
      StaticOf(cells, staticSize, staticLast - 1) + [cells[StaticIndex(staticLast - 1, staticSize)]]
  }

  /** Both kinds of slot live on in a table whose used cells moved up by
      `shift`, a whole number of chunks. */
  lemma MovedUp(cells: seq<Word>, moved: seq<Word>, staticSize: nat, staticLast: nat, last: nat, shift: nat)
    requires Fits(cells, staticSize, staticLast, last) && shift % CHUNK == 0
    requires Fits(moved, staticSize + shift, staticLast, last)
    requires forall k :: 0 <= k < staticSize + last ==> moved[shift + k] == cells[k]
    ensures DynamicOf(moved, staticSize + shift, last) == DynamicOf(cells, staticSize, last)
    ensures StaticOf(moved, staticSize + shift, staticLast) == StaticOf(cells, staticSize, staticLast)
  {
    var a, b := DynamicOf(moved, staticSize + shift, last), DynamicOf(cells, staticSize, last);
    forall i | 0 <= i < last ensures a[i] == b[i] {
      assert moved[shift + (staticSize + i)] == cells[staticSize + i];
    }
    var c, d := StaticOf(moved, staticSize + shift, staticLast), StaticOf(cells, staticSize, staticLast);
    forall n: nat | 0 <= n < staticLast ensures c[n] == d[n] {
      var k := StaticIndex(n, staticSize);
      assert StaticIndex(n, staticSize + shift) == shift + k;
      assert moved[shift + k] == cells[k];
    }
  }

  /** Writing dynamic slot `i` writes no other slot. */
  lemma WriteDynamic(cells: seq<Word>, staticSize: nat, staticLast: nat, last: nat, i: nat, w: Word)
    requires Fits(cells, staticSize, staticLast, last) && i < last
    ensures DynamicOf(cells[staticSize + i := w], staticSize, last) == DynamicOf(cells, staticSize, last)[i := w]
    ensures StaticOf(cells[staticSize + i := w], staticSize, staticLast) == StaticOf(cells, staticSize, staticLast)
  {}

  /** Writing static slot `n` writes no other slot. */
  lemma WriteStatic(cells: seq<Word>, staticSize: nat, staticLast: nat, last: nat, n: nat, w: Word)
    requires Fits(cells, staticSize, staticLast, last) && n < staticLast
    ensures 0 <= StaticIndex(n, staticSize) < staticSize
    ensures var written := cells[StaticIndex(n, staticSize) := w];
      && DynamicOf(written, staticSize, last) == DynamicOf(cells, staticSize, last)
      && StaticOf(written, staticSize, staticLast) == StaticOf(cells, staticSize, staticLast)[n := w]
  {
    StaticIndexInTable(n, staticLast, staticSize);
    var written := cells[StaticIndex(n, staticSize) := w];
    forall m: nat | m < staticLast
      ensures StaticOf(written, staticSize, staticLast)[m] == StaticOf(cells, staticSize, staticLast)[n := w][m]
    {
      StaticIndexInTable(m, staticLast, staticSize);
      StaticIndexInjective(m, n, staticSize);
    }
  }

  /** Taking one more dynamic slot into use, cleared. */
  lemma AppendDynamic(cells: seq<Word>, staticSize: nat, staticLast: nat, last: nat)
    requires Fits(cells, staticSize, staticLast, last + 1)
    ensures var written := cells[staticSize + last := NULL];
      && DynamicOf(written, staticSize, last + 1) == DynamicOf(cells, staticSize, last) + [NULL]
      && StaticOf(written, staticSize, staticLast) == StaticOf(cells, staticSize, staticLast)
  {
    WriteDynamic(cells, staticSize, staticLast, last + 1, last, NULL);
  }

  /** Taking one more static slot into use, cleared. */
  lemma AppendStatic(cells: seq<Word>, staticSize: nat, staticLast: nat, last: nat)
    requires Fits(cells, staticSize, staticLast + 1, last)
    ensures 0 <= StaticIndex(staticLast, staticSize) < staticSize
    ensures var written := cells[StaticIndex(staticLast, staticSize) := NULL];
      && DynamicOf(written, staticSize, last) == DynamicOf(cells, staticSize, last)
      && StaticOf(written, staticSize, staticLast + 1) == StaticOf(cells, staticSize, staticLast) + [NULL]
  {
    WriteStatic(cells, staticSize, staticLast + 1, last, staticLast, NULL);
  }

  ghost function Nulls(n: nat): (s: seq<Word>)
    ensures |s| == n && forall i :: 0 <= i < n ==> s[i] == NULL
  {
    if n == 0 then [] else Nulls(n - 1) + [NULL]
  }

  lemma NullsFollow(grown: seq<Word>, s: seq<Word>, n: nat)
    requires |grown| == |s| + n && grown[..|s|] == s && forall k :: |s| <= k < |s| + n ==> grown[k] == NULL
    ensures grown == s + Nulls(n)
  {
    assert grown == grown[..|s|] + grown[|s|..] && grown[|s|..] == Nulls(n);
  }

  /** Taking `n` more dynamic slots into use, cleared. */
  lemma AppendMany(cells: seq<Word>, written: seq<Word>, staticSize: nat, staticLast: nat, last: nat, n: nat)
    requires Fits(cells, staticSize, staticLast, last + n) && |written| == |cells|
    requires forall k :: 0 <= k < staticSize + last ==> written[k] == cells[k]
    requires forall k :: staticSize + last <= k < staticSize + last + n ==> written[k] == NULL
    ensures DynamicOf(written, staticSize, last + n) == DynamicOf(cells, staticSize, last) + Nulls(n)
    ensures StaticOf(written, staticSize, staticLast) == StaticOf(cells, staticSize, staticLast)
  {
    assert forall k :: 0 <= k < staticSize + last ==> written[0 + k] == cells[k];
    MovedUp(cells, written, staticSize, staticLast, last, 0);
    NullsFollow(DynamicOf(written, staticSize, last + n), DynamicOf(written, staticSize, last), n);
  }

  /** The place that `zend_map_ptr_new_static` computes is the one the handle
      macro computes. */
  lemma NextStaticPlace(staticLast: nat, staticSize: nat)
    requires staticSize == Aligned(staticLast + 1)
    ensures staticLast % CHUNK == StaticIndex(staticLast, staticSize)
    ensures Offset(staticLast % CHUNK, staticSize) == StaticHandle(staticLast)
  {
    StaticChunk(staticLast);
  }

  /** A full chunk makes room by one more; otherwise there is room. */
  lemma RoomForStatic(staticLast: nat)
    ensures Aligned(staticLast) == staticLast ==> Aligned(staticLast + 1) == staticLast + CHUNK
    ensures Aligned(staticLast) != staticLast ==> Aligned(staticLast + 1) == Aligned(staticLast)
  {}

  class Table {
    var realBase: array?<Word>
    /** `CG(map_ptr_last)`, `CG(map_ptr_size)` */
    var last: nat
    var size: nat
    /** `zend_map_ptr_static_last`, `zend_map_ptr_static_size` */
    var staticLast: nat
    var staticSize: nat

    ghost predicate Valid()
      reads this
    {
      && last <= size
      && staticSize == Aligned(staticLast)
      && (realBase == null ==> size == 0 && staticSize == 0)
      && (realBase != null ==> realBase.Length == staticSize + size)
    }

    ghost function Cells(): (c: seq<Word>)
      requires Valid()
      reads this, realBase
      ensures |c| == staticSize + size && Fits(c, staticSize, staticLast, last)
    {
      if realBase == null then [] else realBase[..]
    }

    /** The dynamic slots in use. */
    ghost function Dynamic(): (s: seq<Word>)
      requires Valid()
      reads this, realBase
      ensures |s| == last
    {
      DynamicOf(Cells(), staticSize, last)
    }

    /** The static slots in use. */
    ghost function Static(): (s: seq<Word>)
      requires Valid()
      reads this, realBase
      ensures |s| == staticLast
    {
      StaticOf(Cells(), staticSize, staticLast)
    }

    constructor ()
      ensures Valid() && Dynamic() == [] && Static() == []
    {
      realBase, last, size, staticLast, staticSize := null, 0, 0, 0, 0;
    }

    /** A new block that holds the first `count` cells from `shift` on. */
    method Copied(length: nat, shift: nat, count: nat, ghost cells: seq<Word>) returns (block: array<Word>)
      requires Valid() && cells == Cells() && count <= |cells| && shift + count <= length
      ensures fresh(block) && block.Length == length
      ensures forall k :: 0 <= k < count ==> block[..][shift + k] == cells[k]
    {
      block := new Word[length];
      if realBase != null {
        forall i | 0 <= i < count {
          block[shift + i] := realBase[i];
        }
      }
    }

    /** `perealloc` of the table to `newSize` dynamic slots. */
    method GrowDynamic(newSize: nat)
      requires Valid() && size <= newSize
      modifies this`realBase, this`size
      ensures Valid() && size == newSize && realBase != null && fresh(realBase)
      ensures Dynamic() == old(Dynamic()) && Static() == old(Static())
    {
      ghost var cells := Cells();
      var grown := Copied(staticSize + newSize, 0, staticSize + size, cells);
      realBase, size := grown, newSize;
      MovedUp(cells, realBase[..], staticSize, staticLast, last, 0);
    }

    /** `zend_map_ptr_new` */
    method New() returns (handle: int)
      requires Valid()
      modifies this, realBase
      ensures Valid() && (realBase == old(realBase) || fresh(realBase))
      ensures handle == DynamicHandle(old(last))
      ensures size == if old(last) < old(size) then old(size) else Aligned(old(last) + 1)
      ensures Dynamic() == old(Dynamic()) + [NULL] && Static() == old(Static())
    {
      if last >= size {
        GrowDynamic(Aligned(last + 1));
      }
      ghost var cells := realBase[..];
      AppendDynamic(cells, staticSize, staticLast, last);
      var index := staticSize + last;
      realBase[index] := NULL;
      last := last + 1;
      assert realBase[..] == cells[index := NULL];
      handle := Offset(index, staticSize);
    }

    /** The growth of `zend_map_ptr_new_static`: one more chunk in front. */
    method GrowStatic()
      requires Valid() && staticLast == staticSize
      modifies this`realBase, this`staticSize
      ensures staticSize == old(staticSize) + CHUNK && realBase != null && fresh(realBase)
      ensures realBase.Length == staticSize + size
      ensures DynamicOf(realBase[..], staticSize, last) == old(Dynamic())
      ensures StaticOf(realBase[..], staticSize, staticLast) == old(Static())
    {
      ghost var cells := Cells();
      var newBase := Copied(CHUNK + staticSize + size, CHUNK, staticSize + last, cells);
      realBase, staticSize := newBase, staticSize + CHUNK;
      MovedUp(cells, realBase[..], staticSize - CHUNK, staticLast, last, CHUNK);
    }

    method ReserveStatic()
      requires Valid()
      modifies this`realBase, this`staticSize
      ensures staticSize == Aligned(staticLast + 1) && realBase != null
      ensures (realBase == old(realBase) || fresh(realBase)) && realBase.Length == staticSize + size
      ensures DynamicOf(realBase[..], staticSize, last) == old(Dynamic())
      ensures StaticOf(realBase[..], staticSize, staticLast) == old(Static())
    {
      RoomForStatic(staticLast);
      if staticLast >= staticSize {
        GrowStatic();
      }
    }

    /** `zend_map_ptr_new_static` */
    method NewStatic() returns (handle: int)
      requires Valid()
      modifies this, realBase
      ensures Valid() && (realBase == old(realBase) || fresh(realBase))
      ensures handle == StaticHandle(old(staticLast))
      ensures Static() == old(Static()) + [NULL] && Dynamic() == old(Dynamic())
    {
      ReserveStatic();
      var index := staticLast % CHUNK;
      NextStaticPlace(staticLast, staticSize);
      handle := Offset(index, staticSize);
      ClearStatic(index);
    }

    /** The place of the next static slot is cleared and taken into use. */
    method ClearStatic(index: nat)
      requires realBase != null && realBase.Length == staticSize + size && last <= size
      requires staticSize == Aligned(staticLast + 1) && index == StaticIndex(staticLast, staticSize) < staticSize
      modifies this`staticLast, realBase
      ensures Valid() && staticLast == old(staticLast) + 1
      ensures Static() == StaticOf(old(realBase[..]), staticSize, old(staticLast)) + [NULL]
      ensures Dynamic() == DynamicOf(old(realBase[..]), staticSize, last)
    {
      ghost var cells := realBase[..];
      AppendStatic(cells, staticSize, staticLast, last);
      realBase[index] := NULL;
      staticLast := staticLast + 1;
      assert realBase[..] == cells[index := NULL];
    }

    /** `zend_map_ptr_extend` */
    method Extend(newLast: nat)
      requires Valid()
      modifies this, realBase
      ensures Valid() && (realBase == old(realBase) || fresh(realBase))
      ensures Static() == old(Static())
      ensures newLast > old(last) ==> Dynamic() == old(Dynamic()) + Nulls(newLast - old(last))
      ensures newLast <= old(last) ==> Dynamic() == old(Dynamic())
      ensures size == if old(last) < newLast && newLast >= old(size) then Aligned(newLast) else old(size)
    {
      if newLast > last {
        if newLast >= size {
          GrowDynamic(Aligned(newLast));
        }
        ClearDynamic(newLast);
      }
    }

    /** The `memset` of the slots from `last` to `newLast`. */
    method ClearDynamic(newLast: nat)
      requires Valid() && last < newLast <= size
      modifies this`last, realBase
      ensures Valid() && last == newLast
      ensures Static() == old(Static())
      ensures Dynamic() == old(Dynamic()) + Nulls(newLast - old(last))
    {
      ghost var cells := realBase[..];
      forall i | staticSize + last <= i < staticSize + newLast {
        realBase[i] := NULL;
      }
      AppendMany(cells, realBase[..], staticSize, staticLast, last, newLast - last);
      last := newLast;
    }

    /** `ZEND_MAP_PTR_SET_IMM` through the handle of a dynamic slot. */
    method SetDynamic(handle: int, w: Word, ghost i: nat)
      requires Valid() && i < last && handle == DynamicHandle(i)
      modifies realBase
      ensures Valid() && Dynamic() == old(Dynamic())[i := w] && Static() == old(Static())
    {
      ghost var cells := Cells();
      var index := Index(handle, staticSize);
      WriteDynamic(cells, staticSize, staticLast, last, i, w);
      realBase[index] := w;
      assert Cells() == cells[index := w];
    }

    /** `ZEND_MAP_PTR_SET_IMM` through the handle of a static slot. */
    method SetStatic(handle: int, w: Word, ghost n: nat)
      requires Valid() && n < staticLast && handle == StaticHandle(n)
      modifies realBase
      ensures Valid() && Static() == old(Static())[n := w] && Dynamic() == old(Dynamic())
    {
      ghost var cells := Cells();
      var index := Index(handle, staticSize);
      HandlesAreStable(0, n, staticSize);
      OffsetRoundTrip(StaticIndex(n, staticSize), staticSize);
      WriteStatic(cells, staticSize, staticLast, last, n, w);
      realBase[index] := w;
      assert Cells() == cells[index := w];
    }

    /** `ZEND_MAP_PTR_GET_IMM`: a handle reads the slot it was given for. */
    method Get(handle: int, ghost static': bool, ghost n: nat) returns (w: Word)
      requires Valid()
      requires if static' then n < staticLast && handle == StaticHandle(n) else n < last && handle == DynamicHandle(n)
      ensures w == if static' then Static()[n] else Dynamic()[n]
    {
      var index := Index(handle, staticSize);
      HandlesAreStable(0, n, staticSize);
      OffsetRoundTrip(StaticIndex(n, staticSize), staticSize);
      if static' {
        StaticIndexInTable(n, staticLast, staticSize);
      }
      w := realBase[index];
    }
  }
}
