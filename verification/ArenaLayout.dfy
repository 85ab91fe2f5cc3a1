/** Arenas as data: where the chunks and the live blocks of Zend/zend_arena.h lie,
    and what each operation does to them. */
module ArenaLayout {
  import opened MemoryHeap

  /** The largest request whose rounding and header do not wrap a `size_t`. */
  const MAX_REQUEST: nat := SIZE_T - ALIGNMENT - HEADER

  // ---------- Layouts ----------

  /** A chunk as three addresses. */
  datatype Range = Range(base: nat, ptr: nat, end: nat)

  /** A block and the index of the chunk it lies in. */
  datatype Placed = Placed(block: Block, home: nat)

  /** The chunks, oldest first, and the live blocks, oldest first. */
  datatype Layout = Layout(ranges: seq<Range>, placed: seq<Placed>)

  function Size(r: Range): int { r.end - r.base }

  /** Every chunk is a live range of the heap and sizes never fall from old to
      new. */
  ghost predicate Owned(ranges: seq<Range>, live: map<nat, nat>) {
    && (forall k :: 0 <= k < |ranges| ==>
          ranges[k].base in live && ranges[k].base + live[ranges[k].base] == ranges[k].end
          && ranges[k].base % ALIGNMENT == 0)
    && (forall i, j :: 0 <= i < j < |ranges| ==> ranges[i].base != ranges[j].base && Separate(ranges[i], ranges[j]))
    && (forall i, j :: 0 <= i < j < |ranges| ==> Size(ranges[i]) <= Size(ranges[j]))
  }

  predicate Separate(a: Range, b: Range) {
    a.end <= b.base || b.end <= a.base
  }

  ghost predicate Bumped(ranges: seq<Range>) {
    forall k :: 0 <= k < |ranges| ==>
      && ranges[k].base + HEADER <= ranges[k].ptr <= ranges[k].end < ranges[k].base + SIZE_T
      && ranges[k].ptr % ALIGNMENT == 0
  }

  /** The block lies in the chunk, aligned, past the header and below `ptr`. */
  predicate Inside(b: Block, r: Range) {
    r.base + HEADER <= b.at && b.at + b.size <= r.ptr && b.at % ALIGNMENT == 0
  }

  ghost predicate Housed(l: Layout) {
    forall i :: 0 <= i < |l.placed| ==>
      l.placed[i].home < |l.ranges| && Inside(l.placed[i].block, l.ranges[l.placed[i].home])
  }

  /** `b` lies in a newer chunk than `a` or further up the same one. */
  predicate Above(a: Placed, b: Placed) {
    a.home < b.home || (a.home == b.home && a.block.at + a.block.size <= b.block.at)
  }

  ghost predicate Stacked(placed: seq<Placed>) {
    forall i, j :: 0 <= i < j < |placed| ==> Above(placed[i], placed[j])
  }

  ghost predicate LayoutOk(l: Layout, live: map<nat, nat>) {
    match l
    case Layout(ranges, placed) => Owned(ranges, live) && Bumped(ranges) && Housed(l) && Stacked(placed)
  }

  /** One chunk without blocks. */
  lemma StartOk(live: map<nat, nat>, base: nat, size: nat)
    requires base in live && live[base] == size && base % ALIGNMENT == 0 && HEADER <= size < SIZE_T
    ensures LayoutOk(Layout([Range(base, base + HEADER, base + size)], []), live)
  {}

  function Blocks(s: seq<Placed>): (r: seq<Block>)
    ensures |r| == |s| && forall i :: 0 <= i < |s| ==> r[i] == s[i].block
  {
    seq(|s|, i requires 0 <= i < |s| => s[i].block)
  }

  /** Live blocks never overlap, and each lies inside one chunk. */
  lemma BlocksApart(l: Layout, live: map<nat, nat>)
    requires LayoutOk(l, live)
    ensures AllApart(Blocks(l.placed))
  {
    var s := Blocks(l.placed);
    forall i, j | 0 <= i < j < |s| ensures Apart(s[i].at, s[i].size, s[j].at, s[j].size) {
      var p, q := l.placed[i], l.placed[j];
      assert Above(p, q);
      assert Inside(p.block, l.ranges[p.home]) && Inside(q.block, l.ranges[q.home]);
      if p.home < q.home {
        assert Separate(l.ranges[p.home], l.ranges[q.home]);
      }
    }
  }

  // ---------- Checkpoints ----------

  predicate BelowMark(p: Placed, at: nat, depth: nat) {
    p.home + 1 < depth || (p.home + 1 == depth && p.block.at + p.block.size <= at)
  }

  predicate AboveMark(p: Placed, at: nat, depth: nat) {
    p.home + 1 > depth || (p.home + 1 == depth && at <= p.block.at)
  }

  /** The address `at` stands for the moment when `height` blocks were live and
      `depth` chunks existed. */
  ghost predicate Marks(l: Layout, at: nat, height: nat, depth: nat) {
    && 0 < depth <= |l.ranges| && height <= |l.placed| && at % ALIGNMENT == 0
    && l.ranges[depth - 1].base + HEADER <= at <= l.ranges[depth - 1].ptr
    && (forall i :: 0 <= i < height ==> BelowMark(l.placed[i], at, depth))
    && (forall i :: height <= i < |l.placed| ==> AboveMark(l.placed[i], at, depth))
  }

  /** The loop test of `zend_arena_release`. */
  predicate Outside(checkpoint: nat, r: Range) {
    checkpoint > r.end || checkpoint <= r.base
  }

  /** A checkpoint of one chunk is outside every other, even one that starts
      where the first ends. */
  lemma OutsideOthers(l: Layout, live: map<nat, nat>, at: nat, height: nat, depth: nat, k: nat)
    requires LayoutOk(l, live) && Marks(l, at, height, depth) && k < |l.ranges|
    ensures Outside(at, l.ranges[k]) <==> k != depth - 1
  {
    assert l.ranges[k].base < l.ranges[k].end;
    if k < depth - 1 {
      assert Separate(l.ranges[k], l.ranges[depth - 1]);
    } else if depth - 1 < k {
      assert Separate(l.ranges[depth - 1], l.ranges[k]);
    }
  }

  // ---------- What the operations do to a layout ----------

  ghost function TopRange(l: Layout): Range
    requires l.ranges != []
  {
    l.ranges[|l.ranges| - 1]
  }

  ghost function WithTop(ranges: seq<Range>, at: nat): seq<Range>
    requires ranges != []
  {
    ranges[|ranges| - 1 := ranges[|ranges| - 1].(ptr := at)]
  }

  ghost function BumpLayout(l: Layout, size: nat): Layout
    requires l.ranges != []
  {
    var top := TopRange(l);
    Layout(WithTop(l.ranges, top.ptr + size), l.placed + [Placed(Block(top.ptr, size), |l.ranges| - 1)])
  }

  /** A block put on top of the newest chunk is above all others. */
  lemma PlacingKeepsStacked(l: Layout, b: Placed)
    requires Housed(l) && Stacked(l.placed)
    requires forall i :: 0 <= i < |l.placed| ==> Above(l.placed[i], b)
    ensures Stacked(l.placed + [b])
  {}

  /** Blocks stay housed while ranges only grow upwards. */
  lemma PlacingKeepsHoused(l: Layout, ranges: seq<Range>, b: Placed)
    requires Housed(l) && |l.ranges| <= |ranges|
    requires forall k :: 0 <= k < |l.ranges| ==> ranges[k].base == l.ranges[k].base && l.ranges[k].ptr <= ranges[k].ptr
    requires b.home < |ranges| && Inside(b.block, ranges[b.home])
    ensures Housed(Layout(ranges, l.placed + [b]))
  {
    var l' := Layout(ranges, l.placed + [b]);
    forall i | 0 <= i < |l'.placed| ensures l'.placed[i].home < |ranges| &&
      Inside(l'.placed[i].block, ranges[l'.placed[i].home]) {
      if i < |l.placed| {
        assert Inside(l.placed[i].block, l.ranges[l.placed[i].home]);
      }
    }
  }

  lemma AlignedSum(a: nat, b: nat)
    requires a % ALIGNMENT == 0 && b % ALIGNMENT == 0
    ensures (a + b) % ALIGNMENT == 0
  {}

  lemma BumpKeeps(l: Layout, live: map<nat, nat>, size: nat)
    requires l.ranges != [] && LayoutOk(l, live) && size % ALIGNMENT == 0
    requires TopRange(l).ptr + size <= TopRange(l).end
    ensures LayoutOk(BumpLayout(l, size), live)
  {
    AlignedSum(TopRange(l).ptr, size);
    var l' := BumpLayout(l, size);
    var b := l'.placed[|l.placed|];
    forall i | 0 <= i < |l.placed| ensures Above(l.placed[i], b) {
      assert Inside(l.placed[i].block, l.ranges[l.placed[i].home]);
    }
    PlacingKeepsStacked(l, b);
    PlacingKeepsHoused(l, l'.ranges, b);
  }

  lemma BumpKeepsMark(l: Layout, size: nat, at: nat, height: nat, depth: nat)
    requires l.ranges != [] && Marks(l, at, height, depth)
    ensures Marks(BumpLayout(l, size), at, height, depth)
  {}

  lemma BumpKeepsMarks(l: Layout, size: nat)
    requires l.ranges != []
    ensures forall at, h, d :: Marks(l, at, h, d) ==> Marks(BumpLayout(l, size), at, h, d)
    ensures BasesOf(BumpLayout(l, size).ranges[|l.ranges|..]) == {}
  {
    forall at, h, d | Marks(l, at, h, d) ensures Marks(BumpLayout(l, size), at, h, d) {
      BumpKeepsMark(l, size, at, h, d);
    }
  }

  ghost function AddRange(l: Layout, base: nat, end: nat, size: nat): Layout {
    Layout(l.ranges + [Range(base, base + HEADER + size, end)],
           l.placed + [Placed(Block(base + HEADER, size), |l.ranges|)])
  }

  lemma GrowKeepsOwned(ranges: seq<Range>, live: map<nat, nat>, r: Range)
    requires ranges != [] && Owned(ranges, live) && r.base <= r.end && r.base % ALIGNMENT == 0
    requires Size(ranges[|ranges| - 1]) <= Size(r)
    requires r.base !in live && forall q :: q in live ==> Apart(r.base, r.end - r.base, q, live[q])
    ensures Owned(ranges + [r], live[r.base := r.end - r.base])
  {
    var t := ranges + [r];
    forall i, j | 0 <= i < j < |t|
      ensures t[i].base != t[j].base && Separate(t[i], t[j]) && Size(t[i]) <= Size(t[j])
    {
      if j == |ranges| {
        assert Apart(r.base, r.end - r.base, ranges[i].base, live[ranges[i].base]);
        assert i < |ranges| - 1 ==> Size(ranges[i]) <= Size(ranges[|ranges| - 1]);
      } else {
        assert Separate(ranges[i], ranges[j]);
      }
    }
  }

  /** A new chunk is as large as the one before, or as the block with its header if that
      is larger. */
  predicate IsNextSize(newest: int, block: int, size: int) {
    if block + 24 > newest then size == block + 24 else size == newest
  }

  /** The size of the next chunk: that of the newest one, or the block's and the
      header's where the sum, which may wrap, is more. */
  function NextSize(newest: nat, size: nat): (r: nat)
    ensures r >= newest && (size + HEADER < SIZE_T ==> r >= size + HEADER)
    ensures newest < SIZE_T ==> r < SIZE_T
    ensures newest < SIZE_T <= size + HEADER && size < SIZE_T ==> r < size + HEADER
    ensures size + HEADER < SIZE_T ==> IsNextSize(newest, size, r)
  {
    var sum := (size + HEADER) % SIZE_T;
    if sum > newest then sum else newest
  }

  /** The aligned block covers the request and fits the next chunk exactly when the
      request is not above the limit. */
  lemma NextChunkHoldsIff(newest: nat, size: nat)
    requires newest < SIZE_T && size < SIZE_T
    ensures AlignedSize(size) >= size && HEADER + AlignedSize(size) <= NextSize(newest, AlignedSize(size))
      <==> size <= MAX_REQUEST
    ensures size <= MAX_REQUEST <==> size <= 0xFFFF_FFFF_FFFF_FFE0
  {
    AlignedSizeCovers(size);
    if MAX_REQUEST < size && size + ALIGNMENT - 1 < SIZE_T {
      var sum := AlignedSize(size) + HEADER;
      assert sum >= SIZE_T && sum % SIZE_T == sum - SIZE_T;
    }
  }

  lemma GrowKeepsBumped(ranges: seq<Range>, base: nat, size: nat, end: nat)
    requires Bumped(ranges) && base % ALIGNMENT == 0 && size % ALIGNMENT == 0
    requires base + HEADER + size <= end < base + SIZE_T
    ensures Bumped(ranges + [Range(base, base + HEADER + size, end)])
    ensures (base + HEADER) % ALIGNMENT == 0
  {
    AlignedSum(base, HEADER);
    AlignedSum(base + HEADER, size);
  }

  lemma GrowKeepsPlaced(l: Layout, base: nat, end: nat, size: nat)
    requires Housed(l) && Stacked(l.placed) && (base + HEADER) % ALIGNMENT == 0
    ensures Housed(AddRange(l, base, end, size)) && Stacked(AddRange(l, base, end, size).placed)
  {
    var r, b := Range(base, base + HEADER + size, end), Placed(Block(base + HEADER, size), |l.ranges|);
    PlacingKeepsStacked(l, b);
    PlacingKeepsHoused(l, l.ranges + [r], b);
  }

  lemma GrowKeeps(l: Layout, live: map<nat, nat>, base: nat, arenaSize: nat, size: nat)
    requires l.ranges != [] && LayoutOk(l, live) && size % ALIGNMENT == 0 && base % ALIGNMENT == 0
    requires size + HEADER <= arenaSize < SIZE_T && Size(TopRange(l)) <= arenaSize
    requires base !in live && forall q :: q in live ==> Apart(base, arenaSize, q, live[q])
    ensures LayoutOk(AddRange(l, base, base + arenaSize, size), live[base := arenaSize])
  {
    GrowKeepsOwned(l.ranges, live, Range(base, base + HEADER + size, base + arenaSize));
    GrowKeepsBumped(l.ranges, base, size, base + arenaSize);
    GrowKeepsPlaced(l, base, base + arenaSize, size);
  }

  lemma GrowKeepsMark(l: Layout, base: nat, end: nat, size: nat, at: nat, height: nat, depth: nat)
    requires Marks(l, at, height, depth)
    ensures Marks(AddRange(l, base, end, size), at, height, depth)
  {}

  lemma GrowKeepsMarks(l: Layout, base: nat, end: nat, size: nat)
    ensures forall at, h, d :: Marks(l, at, h, d) ==> Marks(AddRange(l, base, end, size), at, h, d)
    ensures BasesOf(AddRange(l, base, end, size).ranges[|l.ranges|..]) == {base}
  {
    forall at, h, d | Marks(l, at, h, d) ensures Marks(AddRange(l, base, end, size), at, h, d) {
      GrowKeepsMark(l, base, end, size, at, h, d);
    }
    assert AddRange(l, base, end, size).ranges[|l.ranges|..] == [Range(base, base + HEADER + size, end)];
  }

  ghost function BasesOf(ranges: seq<Range>): set<nat> {
    set r | r in ranges :: r.base
  }

  /** What `zend_arena_alloc` owes: one more block at `p`, apart from the others and
      aligned, no more than the new chunks taken from the heap, every checkpoint good. */
  ghost predicate Allocated(l: Layout, live: map<nat, nat>, l': Layout, live': map<nat, nat>, p: nat, size: nat) {
    && LayoutOk(l', live') && p % ALIGNMENT == 0
    && Blocks(l'.placed) == Push(Blocks(l.placed), Block(p, size)) && AllApart(Blocks(l'.placed))
    && |l.ranges| <= |l'.ranges| && live' - BasesOf(l'.ranges[|l.ranges|..]) == live
    && forall at, h, d :: Marks(l, at, h, d) ==> Marks(l', at, h, d)
  }

  lemma BumpAllocates(l: Layout, live: map<nat, nat>, size: nat)
    requires l.ranges != [] && LayoutOk(l, live) && size % ALIGNMENT == 0
    requires TopRange(l).ptr + size <= TopRange(l).end
    ensures Allocated(l, live, BumpLayout(l, size), live, TopRange(l).ptr, size)
  {
    BumpKeeps(l, live, size);
    BumpKeepsMarks(l, size);
    BlocksAppend(l.placed, Placed(Block(TopRange(l).ptr, size), |l.ranges| - 1));
    BlocksApart(BumpLayout(l, size), live);
  }

  lemma GrowAllocates(l: Layout, live: map<nat, nat>, l': Layout, live': map<nat, nat>, base: nat, arenaSize: nat,
                      size: nat)
    requires l' == AddRange(l, base, base + arenaSize, size) && live' == live[base := arenaSize]
    requires l.ranges != [] && LayoutOk(l, live) && size % ALIGNMENT == 0 && base % ALIGNMENT == 0
    requires size + HEADER <= arenaSize < SIZE_T && Size(TopRange(l)) <= arenaSize
    requires base !in live && forall q :: q in live ==> Apart(base, arenaSize, q, live[q])
    ensures Allocated(l, live, l', live', base + HEADER, size)
  {
    GrowKeeps(l, live, base, arenaSize, size);
    GrowKeepsMarks(l, base, base + arenaSize, size);
    BlocksAppend(l.placed, Placed(Block(base + HEADER, size), |l.ranges|));
    BlocksApart(l', live');
    AlignedSum(base, HEADER);
    assert live' - {base} == live;
  }

  ghost function ReleaseLayout(l: Layout, at: nat, height: nat, depth: nat): Layout
    requires Marks(l, at, height, depth)
  {
    Layout(WithTop(l.ranges[..depth], at), l.placed[..height])
  }

  /** The chunks that stay are not among those freed. */
  lemma ReleaseKeepsOwned(ranges: seq<Range>, live: map<nat, nat>, depth: nat)
    requires Owned(ranges, live) && depth <= |ranges|
    ensures Owned(ranges[..depth], live - BasesOf(ranges[depth..]))
  {
    forall k | 0 <= k < depth ensures ranges[k].base !in BasesOf(ranges[depth..]) {
      forall r | r in ranges[depth..] ensures r.base != ranges[k].base {
        var j :| depth <= j < |ranges| && ranges[j] == r;
      }
    }
  }

  lemma ReleaseKeeps(l: Layout, live: map<nat, nat>, at: nat, height: nat, depth: nat)
    requires LayoutOk(l, live) && Marks(l, at, height, depth)
    ensures LayoutOk(ReleaseLayout(l, at, height, depth), live - BasesOf(l.ranges[depth..]))
  {
    var l' := ReleaseLayout(l, at, height, depth);
    ReleaseKeepsOwned(l.ranges, live, depth);
    forall i | 0 <= i < |l'.placed| ensures l'.placed[i].home < |l'.ranges| &&
      Inside(l'.placed[i].block, l'.ranges[l'.placed[i].home]) {
      assert BelowMark(l.placed[i], at, depth);
      assert Inside(l.placed[i].block, l.ranges[l.placed[i].home]);
    }
  }

  /** The chunks and the heap are those of the release; now the blocks. */
  lemma ReleaseEnds(l: Layout, live: map<nat, nat>, l1: Layout, live1: map<nat, nat>, at: nat, height: nat, depth: nat)
    requires LayoutOk(l, live) && Marks(l, at, height, depth)
    requires l1 == Layout(WithTop(l.ranges[..depth], at), l.placed) && live1 == live - BasesOf(l.ranges[depth..])
    ensures Layout(l1.ranges, l1.placed[..height]) == ReleaseLayout(l, at, height, depth)
    ensures LayoutOk(Layout(l1.ranges, l1.placed[..height]), live1)
    ensures Blocks(l1.placed[..height]) == Truncate(Blocks(l.placed), height)
  {
    ReleaseKeeps(l, live, at, height, depth);
  }

  /** An older checkpoint outlives the release to a newer one. */
  lemma ReleaseKeepsMark(l: Layout, at: nat, height: nat, depth: nat, at0: nat, height0: nat, depth0: nat)
    requires Marks(l, at, height, depth) && Marks(l, at0, height0, depth0)
    requires height0 <= height && depth0 <= depth && (depth0 == depth ==> at0 <= at)
    ensures Marks(ReleaseLayout(l, at, height, depth), at0, height0, depth0)
  {}

  ghost predicate DistinctBases(ranges: seq<Range>) {
    forall i, j :: 0 <= i < j < |ranges| ==> ranges[i].base != ranges[j].base
  }

  /** The release stops at the chunk of the checkpoint and at no other. */
  ghost predicate StopsAt(ranges: seq<Range>, live: map<nat, nat>, checkpoint: nat, depth: nat) {
    && DistinctBases(ranges) && 0 < depth <= |ranges|
    && (forall k :: 0 <= k < |ranges| ==> ranges[k].base in live)
    && (forall k :: 0 <= k < |ranges| ==> (Outside(checkpoint, ranges[k]) <==> k != depth - 1))
  }

  /** The chunks down to the `n`th are popped. */
  ghost predicate Popped(ranges: seq<Range>, live: map<nat, nat>, left: seq<Range>, now: map<nat, nat>, depth: nat) {
    depth <= |left| && left <= ranges && now == live - BasesOf(ranges[|left|..])
  }

  /** Whether the loop goes on, and what one more round does. */
  lemma PopNext(ranges: seq<Range>, live: map<nat, nat>, left: seq<Range>, now: map<nat, nat>, checkpoint: nat,
                depth: nat)
    requires StopsAt(ranges, live, checkpoint, depth) && Popped(ranges, live, left, now, depth)
    ensures var n := |left| - 1;
      if Outside(checkpoint, left[n]) then
        n > 0 && left[n].base in now && Popped(ranges, live, left[..n], now - {left[n].base}, depth)
      else
        left == ranges[..depth]
  {
    var n := |left| - 1;
    assert left[n] == ranges[n] && left == ranges[..|left|];
    if Outside(checkpoint, left[n]) {
      FreeOneMore(ranges, live, n);
      assert left[..n] <= ranges;
    }
  }

  lemma MarkStops(l: Layout, live: map<nat, nat>, at: nat, height: nat, depth: nat)
    requires LayoutOk(l, live) && Marks(l, at, height, depth)
    ensures StopsAt(l.ranges, live, at, depth)
  {
    forall k | 0 <= k < |l.ranges| ensures Outside(at, l.ranges[k]) <==> k != depth - 1 {
      OutsideOthers(l, live, at, height, depth, k);
    }
  }

  /** Freeing from the top frees no chunk twice. */
  lemma FreeOneMore(ranges: seq<Range>, live: map<nat, nat>, n: nat)
    requires DistinctBases(ranges) && n < |ranges| && ranges[n].base in live
    ensures ranges[n].base in live - BasesOf(ranges[n + 1..])
    ensures live - BasesOf(ranges[n + 1..]) - {ranges[n].base} == live - BasesOf(ranges[n..])
  {
    forall r | r in ranges[n + 1..] ensures r.base != ranges[n].base {
      var j :| n < j < |ranges| && ranges[j] == r;
    }
    assert ranges[n..] == [ranges[n]] + ranges[n + 1..];
    assert BasesOf(ranges[n..]) == {ranges[n].base} + BasesOf(ranges[n + 1..]);
  }

  lemma BlocksAppend(s: seq<Placed>, p: Placed)
    ensures Blocks(s + [p]) == Push(Blocks(s), p.block)
  {}

  /** The address of a live block is in a range that `Contains` accepts. */
  lemma BlocksAreInside(l: Layout, p: nat)
    requires Housed(l)
    ensures (exists b :: b in Blocks(l.placed) && b.at == p) ==> exists r :: r in l.ranges && r.base < p <= r.ptr
  {
    if b :| b in Blocks(l.placed) && b.at == p {
      var i :| 0 <= i < |l.placed| && l.placed[i].block == b;
      var r := l.ranges[l.placed[i].home];
      assert Inside(b, r) && r in l.ranges;
    }
  }
}
