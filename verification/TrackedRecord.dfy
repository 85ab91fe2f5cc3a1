/** The tracking arena of Zend/zend_arena.h as data: which blocks are live, which
    chunks record them, and what a release frees. */
module TrackedRecord {
  import opened MemoryHeap

  const TRACKED_SIZE: nat := 1000
  const WORD_SIZE: nat := 8
  const STRUCT_SIZE: nat := HEADER + WORD_SIZE * TRACKED_SIZE

  // ---------- The records as data ----------

  /** The live blocks and the chunk addresses, oldest first. */
  datatype Record = Record(blocks: seq<Block>, bases: seq<nat>)

  /** Every block and every chunk is a live range of the heap of its own. */
  ghost predicate Owned(r: Record, live: map<nat, nat>) {
    && (forall i :: 0 <= i < |r.blocks| ==> r.blocks[i].at in live && live[r.blocks[i].at] == r.blocks[i].size)
    && (forall i, j :: 0 <= i < j < |r.blocks| ==> r.blocks[i].at != r.blocks[j].at)
    && (forall k :: 0 <= k < |r.bases| ==> r.bases[k] in live && live[r.bases[k]] == STRUCT_SIZE)
    && (forall k, m :: 0 <= k < m < |r.bases| ==> r.bases[k] != r.bases[m])
    && (forall i, k :: 0 <= i < |r.blocks| && 0 <= k < |r.bases| ==> r.blocks[i].at != r.bases[k])
  }

  /** All chunks but the newest are full. */
  ghost predicate Filled(r: Record) {
    && r.bases != []
    && TRACKED_SIZE * (|r.bases| - 1) <= |r.blocks| <= TRACKED_SIZE * |r.bases|
  }

  /** The address of pointer slot `i` of the chunk at `base`. */
  function SlotAddress(base: nat, i: nat): nat { base + HEADER + WORD_SIZE * i }

  /** The address `at` stands for the moment when `height` blocks were live and
      `depth` chunks existed. */
  ghost predicate Marks(r: Record, at: nat, height: nat, depth: nat) {
    && 0 < depth <= |r.bases| && height <= |r.blocks|
    && TRACKED_SIZE * (depth - 1) <= height <= TRACKED_SIZE * depth
    && at == SlotAddress(r.bases[depth - 1], height - TRACKED_SIZE * (depth - 1))
  }

  /** What is freed on the way down to `height` blocks and `depth` chunks. */
  ghost function Freed(r: Record, height: nat, depth: nat): set<nat>
    requires height <= |r.blocks| && depth <= |r.bases|
  {
    (set i | height <= i < |r.blocks| :: r.blocks[i].at) + (set k | depth <= k < |r.bases| :: r.bases[k])
  }

  /** Slot addresses of different chunks never coincide. */
  lemma SlotsApart(r: Record, live: map<nat, nat>, k: nat, i: nat, m: nat, j: nat)
    requires Owned(r, live) && k < |r.bases| && m < |r.bases| && i <= TRACKED_SIZE && j <= TRACKED_SIZE
    requires RangesApart(live)
    ensures SlotAddress(r.bases[k], i) == SlotAddress(r.bases[m], j) <==> k == m && i == j
  {
    if k != m {
      var a, b := if k < m then k else m, if k < m then m else k;
      assert r.bases[a] != r.bases[b];
      assert Apart(r.bases[k], STRUCT_SIZE, r.bases[m], STRUCT_SIZE);
    }
  }

  /** On the way down, with `n` blocks and `m` chunks left: the slot address is
      the checkpoint exactly at the end, and until then there is something to
      free. */
  lemma StopsAtMark(r: Record, live: map<nat, nat>, at: nat, height: nat, depth: nat, n: nat, m: nat)
    requires Owned(r, live) && Marks(r, at, height, depth)
    requires RangesApart(live)
    requires height <= n <= |r.blocks| && depth <= m <= |r.bases|
    requires TRACKED_SIZE * (m - 1) <= n <= TRACKED_SIZE * m
    ensures SlotAddress(r.bases[m - 1], n - TRACKED_SIZE * (m - 1)) == at <==> n == height && m == depth
    ensures SlotAddress(r.bases[m - 1], n - TRACKED_SIZE * (m - 1)) != at ==>
      if n == TRACKED_SIZE * (m - 1) then m > depth else n > height
  {
    SlotsApart(r, live, m - 1, n - TRACKED_SIZE * (m - 1), depth - 1, height - TRACKED_SIZE * (depth - 1));
  }

  /** Freeing the top block, or an emptied chunk, frees something still live. */
  lemma FreeBlock(r: Record, live: map<nat, nat>, height: nat, depth: nat)
    requires Owned(r, live) && 0 < height <= |r.blocks| && depth <= |r.bases|
    ensures r.blocks[height - 1].at in live - Freed(r, height, depth)
    ensures live - Freed(r, height, depth) - {r.blocks[height - 1].at} == live - Freed(r, height - 1, depth)
  {
    assert Freed(r, height - 1, depth) == Freed(r, height, depth) + {r.blocks[height - 1].at};
  }

  lemma FreeChunk(r: Record, live: map<nat, nat>, height: nat, depth: nat)
    requires Owned(r, live) && height <= |r.blocks| && 0 < depth <= |r.bases|
    ensures r.bases[depth - 1] in live - Freed(r, height, depth)
    ensures live - Freed(r, height, depth) - {r.bases[depth - 1]} == live - Freed(r, height, depth - 1)
  {
    assert Freed(r, height, depth - 1) == Freed(r, height, depth) + {r.bases[depth - 1]};
  }

  /** What is left after a release is still owned. */
  lemma OwnedBelow(r: Record, live: map<nat, nat>, height: nat, depth: nat)
    requires Owned(r, live) && height <= |r.blocks| && depth <= |r.bases|
    ensures Owned(Record(r.blocks[..height], r.bases[..depth]), live - Freed(r, height, depth))
  {}

  lemma OwnedPush(r: Record, live: map<nat, nat>, p: nat, size: nat)
    requires Owned(r, live) && p !in live
    ensures Owned(Record(Push(r.blocks, Block(p, size)), r.bases), live[p := size])
  {}

  /** Checkpoints outlive allocations. */
  lemma OwnedChunk(r: Record, live: map<nat, nat>, base: nat)
    requires Owned(r, live) && base !in live
    ensures Owned(Record(r.blocks, r.bases + [base]), live[base := STRUCT_SIZE])
  {}

  lemma MarksKept(r: Record, r': Record)
    requires r.blocks <= r'.blocks && r.bases <= r'.bases
    ensures forall at, h, d :: Marks(r, at, h, d) ==> Marks(r', at, h, d)
  {}

  lemma BlocksApart(r: Record, live: map<nat, nat>)
    requires Owned(r, live)
    requires RangesApart(live)
    ensures AllApart(r.blocks)
  {}

  /** Within a chunk `zend_arena_destroy` frees upwards: the blocks from `lo` to
      `hi` on top of those counted by `Freed`. */
  ghost function FreedUp(r: Record, lo: nat, hi: nat): set<nat>
    requires lo <= hi <= |r.blocks|
  {
    set i | lo <= i < hi :: r.blocks[i].at
  }

  lemma FreeUp(r: Record, live: map<nat, nat>, lo: nat, i: nat, hi: nat, depth: nat)
    requires Owned(r, live) && lo <= i < hi <= |r.blocks| && depth <= |r.bases|
    ensures r.blocks[i].at in live - Freed(r, hi, depth) - FreedUp(r, lo, i)
    ensures live - Freed(r, hi, depth) - FreedUp(r, lo, i) - {r.blocks[i].at}
       == live - Freed(r, hi, depth) - FreedUp(r, lo, i + 1)
  {
    assert FreedUp(r, lo, i + 1) == FreedUp(r, lo, i) + {r.blocks[i].at};
  }

  lemma FreedUpIsFreed(r: Record, lo: nat, hi: nat, depth: nat)
    requires lo <= hi <= |r.blocks| && depth <= |r.bases|
    ensures Freed(r, hi, depth) + FreedUp(r, lo, hi) == Freed(r, lo, depth)
  {}

  /** On the way down from `r` and `live`: `rec` and `now` are left, and everything
      else has been freed once. */
  ghost predicate Descending(r: Record, live: map<nat, nat>, rec: Record, now: map<nat, nat>) {
    && |rec.blocks| <= |r.blocks| && rec.blocks == r.blocks[..|rec.blocks|]
    && |rec.bases| <= |r.bases| && rec.bases == r.bases[..|rec.bases|]
    && now == live - Freed(r, |rec.blocks|, |rec.bases|)
  }

  lemma DescendStart(r: Record, live: map<nat, nat>)
    ensures Descending(r, live, r, live)
  {
    assert Freed(r, |r.blocks|, |r.bases|) == {};
  }

  lemma DescendBlock(r: Record, live: map<nat, nat>, rec: Record, now: map<nat, nat>)
    requires Owned(r, live) && Descending(r, live, rec, now) && rec.blocks != []
    ensures var n := |rec.blocks| - 1;
      && rec.blocks[n].at in now
      && Descending(r, live, Record(rec.blocks[..n], rec.bases), now - {rec.blocks[n].at})
  {
    FreeBlock(r, live, |rec.blocks|, |rec.bases|);
  }

  lemma DescendChunk(r: Record, live: map<nat, nat>, rec: Record, now: map<nat, nat>)
    requires Owned(r, live) && Descending(r, live, rec, now) && rec.bases != []
    ensures var m := |rec.bases| - 1;
      && rec.bases[m] in now
      && Descending(r, live, Record(rec.blocks, rec.bases[..m]), now - {rec.bases[m]})
  {
    FreeChunk(r, live, |rec.blocks|, |rec.bases|);
  }

  /** Whether the checkpoint is reached, and if not, what there is to free. */
  ghost predicate OnTheWay(rec: Record, at: nat, height: nat, depth: nat) {
    && Filled(rec) && height <= |rec.blocks| && 0 < depth <= |rec.bases|
    && (TopSlot(rec) == at ==> |rec.blocks| == height && |rec.bases| == depth)
    && (TopSlot(rec) != at ==>
          if |rec.blocks| == TRACKED_SIZE * (|rec.bases| - 1) then |rec.bases| > depth else |rec.blocks| > height)
  }

  ghost function TopSlot(rec: Record): nat
    requires Filled(rec)
  {
    SlotAddress(rec.bases[|rec.bases| - 1], |rec.blocks| - TRACKED_SIZE * (|rec.bases| - 1))
  }

  lemma MarkIsOnTheWay(r: Record, live: map<nat, nat>, rec: Record, now: map<nat, nat>, at: nat, height: nat,
                       depth: nat)
    requires Owned(r, live) && Marks(r, at, height, depth) && Descending(r, live, rec, now)
    requires RangesApart(live)
    requires Filled(rec) && height <= |rec.blocks| && depth <= |rec.bases|
    ensures OnTheWay(rec, at, height, depth)
  {
    StopsAtMark(r, live, at, height, depth, |rec.blocks|, |rec.bases|);
  }
}
