/** The table of per-thread entries of the resource manager: buckets of linked
    nodes, walked and changed in place.  `view` is what TsrmSpec sees of it. */
module TsrmTable {
  import opened Sequences
  import opened TsrmSpec
  import opened TsrmSafety
  import opened TsrmSteps

  /** `tsrm_tls_entry`; its `count` is the length of `storage`. */
  class Node {
    ghost const serial: nat
    const thread: Thread
    var storage: seq<Slot>
    var next: Node?

    constructor (thread: Thread, ghost serial: nat)
      ensures this.thread == thread && this.serial == serial && storage == [] && next == null
    {
      this.thread, this.serial, storage, next := thread, serial, [], null;
    }
  }

  function At(c: seq<Node>, k: nat): Node? { if k < |c| then c[k] else null }

  /** The nodes `c` are linked one to the next and hold the entries `v`. */
  ghost predicate ChainLinked(c: seq<Node>, v: seq<Entry>)
    reads c
  {
    && |c| == |v|
    && (forall k {:trigger c[k].next} :: 0 <= k < |c| ==> c[k].next == At(c, k + 1))
    && (forall k :: 0 <= k < |c| ==> v[k] == Entry(c[k].serial, c[k].thread, c[k].storage))
  }

  lemma DistinctThreads(c: seq<Node>, v: seq<Entry>)
    requires ChainLinked(c, v) && ThreadsDistinct(v)
    ensures Distinct(c)
  {
    forall k, l | 0 <= k < l < |c| ensures c[k] != c[l] {
      assert v[k].thread != v[l].thread;
    }
  }

  /** After the link before position `k` is set, the chain goes on with `tail`. */
  lemma ChainSpliced(c: seq<Node>, v: seq<Entry>, k: nat, tail: seq<Node>, w: seq<Entry>)
    requires k <= |c| == |v| && ChainLinked(tail, w)
    requires forall j {:trigger c[j].next} :: 0 <= j < k ==> c[j].next == if j < k - 1 then c[j + 1] else At(tail, 0)
    requires forall j :: 0 <= j < k ==> v[j] == Entry(c[j].serial, c[j].thread, c[j].storage)
    ensures ChainLinked(c[..k] + tail, v[..k] + w)
  {
    var c', v' := c[..k] + tail, v[..k] + w;
    forall j | 0 <= j < |c'| ensures c'[j].next == At(c', j + 1) {
      if j >= k {
        assert tail[j - k].next == At(tail, j - k + 1);
      }
    }
  }

  /** The chains of two buckets have no node in common. */
  lemma ChainsApart(c: seq<Node>, v: seq<Entry>, g: nat, d: seq<Node>, w: seq<Entry>, h: nat, size: nat, k: nat)
    requires size > 0 && ChainLinked(c, v) && ThreadsHashTo(v, g, size)
    requires ChainLinked(d, w) && ThreadsHashTo(w, h, size) && g != h && k < |d|
    ensures d[k] !in c
  {
    forall j | 0 <= j < |c| ensures c[j] != d[k] {
      assert v[j].thread == c[j].thread && w[k].thread == d[k].thread;
    }
  }

  lemma RestLinked(c: seq<Node>, v: seq<Entry>, k: nat)
    requires k < |c| && ChainLinked(c, v)
    ensures ChainLinked(c[k + 1..], v[k + 1..]) && c[k].next == At(c[k + 1..], 0)
  {
    var r := c[k + 1..];
    forall j | 0 <= j < |r| ensures r[j].next == At(r, j + 1) {
      assert c[k + 1 + j].next == At(c, k + 1 + j + 1);
    }
  }

  lemma TailLinked(c: seq<Node>, v: seq<Entry>, k: nat, n: Node)
    requires k < |c| && ChainLinked(c, v) && n.next == c[k].next
    ensures ChainLinked([n] + c[k + 1..], [Entry(n.serial, n.thread, n.storage)] + v[k + 1..])
  {
    RestLinked(c, v, k);
    var r := [n] + c[k + 1..];
    forall j | 0 <= j < |r| ensures r[j].next == At(r, j + 1) {
      if j > 0 {
        assert c[k + 1..][j - 1].next == At(c[k + 1..], j);
      }
    }
  }

  // ---------- One entry ----------

  /** `tsrm_update_active_threads` on one entry. */
  method GrowNode(p: Node, types: seq<ResourceType>, n: nat) returns (ghost events: seq<Event>)
    requires n <= |types|
    modifies p`storage
    ensures p.storage == GrownStorage(types, old(p.storage), n)
    ensures events == EntryGrown(types, p.serial, |old(p.storage)|, n)
  {
    events := [];
    if |p.storage| < n {
      ghost var from := |p.storage|;
      ghost var first := if from == 0 then [Take(p.serial, true)] else [];
      ghost var built := [];
      var j := |p.storage|;
      while j < n
        invariant from <= j <= n && |p.storage| == j
        invariant p.storage == GrownStorage(types, old(p.storage), j)
        invariant built == GrowEvents(types, p.serial, from, j)
      {
        p.storage := p.storage + [if types[j].fast != 0 then Inside(types[j].fast) else Own];
        built := built + [Construction(types, p.serial, j)];
        j := j + 1;
      }
      events := first + built;
    }
  }

  /** `ts_free_resources`; the entry itself is for the caller to free. */
  method FreeResources(p: Node, types: seq<ResourceType>) returns (ghost events: seq<Event>)
    requires |p.storage| <= |types|
    ensures events + [Give(p.serial, false)] == EntryFreed(types, p.serial, |p.storage|)
  {
    events := [];
    var i := |p.storage|;
    while i > 0
      invariant 0 <= i <= |p.storage|
      invariant events + FreeEvents(types, p.serial, i) == FreeEvents(types, p.serial, |p.storage|)
    {
      i := i - 1;
      if !types[i].done {
        events := events + [Destruction(types, p.serial, i)];
      }
    }
    assert events + [] == events;
    if |p.storage| > 0 {
      events := events + [Give(p.serial, true)];
    }
  }

  /** `ts_free_id` on one entry. */
  method ReleaseNode(p: Node, types: seq<ResourceType>, id: nat) returns (ghost events: seq<Event>)
    requires id < |types|
    modifies p`storage
    ensures Entry(p.serial, p.thread, p.storage) == Release(Entry(p.serial, p.thread, old(p.storage)), id)
    ensures events == ReleaseEvents(types, Entry(p.serial, p.thread, old(p.storage)), id)
  {
    events := [];
    if |p.storage| > id && p.storage[id] != Null {
      events := [Destruction(types, p.serial, id)];
      p.storage := p.storage[id := Null];
    }
  }

  // ---------- One chain ----------

  lemma GrowEventsNext(types: seq<ResourceType>, v: seq<Entry>, k: nat, n: nat)
    requires n <= |types| && k < |v|
    ensures GrowChainEvents(types, v[..k + 1], n)
         == GrowChainEvents(types, v[..k], n) + EntryGrown(types, v[k].serial, |v[k].storage|, n)
  {
    assert v[..k + 1][..k] == v[..k];
  }

  /** The first `k` entries of `v` are enlarged to `n` ids in `w`. */
  ghost predicate GrownUpTo(types: seq<ResourceType>, v: seq<Entry>, w: seq<Entry>, k: nat, n: nat)
    requires n <= |types|
  {
    && |w| == |v|
    && (forall j :: 0 <= j < |v| && j < k ==> w[j] == v[j].(storage := GrownStorage(types, v[j].storage, n)))
    && (forall j :: k <= j < |v| ==> w[j] == v[j])
  }

  lemma GrownToTheEnd(types: seq<ResourceType>, v: seq<Entry>, w: seq<Entry>, n: nat)
    requires n <= |types| && GrownUpTo(types, v, w, |v|, n)
    ensures w == GrowChain(types, v, n) && v[..|v|] == v
  {}

  method GrowEntry(p: Node, types: seq<ResourceType>, n: nat, ghost c: seq<Node>, ghost v: seq<Entry>, ghost k: nat)
    returns (ghost events: seq<Event>)
    requires n <= |types| && k < |c| && p == c[k] && Distinct(c) && ChainLinked(c, v)
    modifies p`storage
    ensures ChainLinked(c, v[k := v[k].(storage := GrownStorage(types, v[k].storage, n))])
    ensures events == EntryGrown(types, v[k].serial, |v[k].storage|, n)
  {
    events := GrowNode(p, types, n);
  }

  /** `tsrm_update_active_threads` on one chain, from its first node. */
  method GrowFrom(first: Node?, types: seq<ResourceType>, n: nat, ghost c: seq<Node>, ghost v: seq<Entry>)
    returns (ghost events: seq<Event>)
    requires n <= |types| && ChainLinked(c, v) && Distinct(c) && first == At(c, 0)
    modifies c`storage
    ensures ChainLinked(c, GrowChain(types, v, n))
    ensures events == GrowChainEvents(types, v, n)
  {
    events := [];
    ghost var k, w := 0, v;
    var p := first;
    assert v[..0] == [];
    while p != null
      invariant 0 <= k <= |c| && p == At(c, k)
      invariant ChainLinked(c, w) && GrownUpTo(types, v, w, k, n)
      invariant events == GrowChainEvents(types, v[..k], n)
      decreases |c| - k
    {
      GrowEventsNext(types, v, k, n);
      ghost var more := GrowEntry(p, types, n, c, w, k);
      w := w[k := w[k].(storage := GrownStorage(types, w[k].storage, n))];
      events := events + more;
      p := p.next;
      k := k + 1;
    }
    GrownToTheEnd(types, v, w, n);
  }

  lemma ReleaseEventsNext(types: seq<ResourceType>, v: seq<Entry>, k: nat, id: nat)
    requires id < |types| && k < |v|
    ensures ReleaseChainEvents(types, v[..k + 1], id)
         == ReleaseChainEvents(types, v[..k], id) + ReleaseEvents(types, v[k], id)
  {
    assert v[..k + 1][..k] == v[..k];
  }

  ghost predicate ReleasedUpTo(v: seq<Entry>, w: seq<Entry>, k: nat, id: nat) {
    && |w| == |v|
    && (forall j :: 0 <= j < |v| && j < k ==> w[j] == Release(v[j], id))
    && (forall j :: k <= j < |v| ==> w[j] == v[j])
  }

  lemma ReleasedToTheEnd(v: seq<Entry>, w: seq<Entry>, id: nat)
    requires ReleasedUpTo(v, w, |v|, id)
    ensures w == ReleaseChain(v, id) && v[..|v|] == v
  {}

  method ReleaseEntry(p: Node, types: seq<ResourceType>, id: nat, ghost c: seq<Node>, ghost v: seq<Entry>, ghost k: nat)
    returns (ghost events: seq<Event>)
    requires id < |types| && k < |c| && p == c[k] && Distinct(c) && ChainLinked(c, v)
    modifies p`storage
    ensures ChainLinked(c, v[k := Release(v[k], id)])
    ensures events == ReleaseEvents(types, v[k], id)
  {
    events := ReleaseNode(p, types, id);
  }

  /** `ts_free_id` on one chain, from its first node. */
  method ReleaseFrom(first: Node?, types: seq<ResourceType>, id: nat, ghost c: seq<Node>, ghost v: seq<Entry>)
    returns (ghost events: seq<Event>)
    requires id < |types| && ChainLinked(c, v) && Distinct(c) && first == At(c, 0)
    modifies c`storage
    ensures ChainLinked(c, ReleaseChain(v, id))
    ensures events == ReleaseChainEvents(types, v, id)
  {
    events := [];
    ghost var k, w := 0, v;
    var p := first;
    assert v[..0] == [];
    while p != null
      invariant 0 <= k <= |c| && p == At(c, k)
      invariant ChainLinked(c, w) && ReleasedUpTo(v, w, k, id)
      invariant events == ReleaseChainEvents(types, v[..k], id)
      decreases |c| - k
    {
      ReleaseEventsNext(types, v, k, id);
      ghost var more := ReleaseEntry(p, types, id, c, w, k);
      w := w[k := Release(w[k], id)];
      events := events + more;
      p := p.next;
      k := k + 1;
    }
    ReleasedToTheEnd(v, w, id);
  }

  lemma FreeEventsNext(types: seq<ResourceType>, v: seq<Entry>, k: nat)
    requires k < |v| && forall j :: 0 <= j < |v| ==> |v[j].storage| <= |types|
    ensures FreeChainEvents(types, v[..k + 1])
         == FreeChainEvents(types, v[..k]) + EntryFreed(types, v[k].serial, |v[k].storage|)
  {
    assert v[..k + 1][..k] == v[..k];
  }

  /** `tsrm_shutdown` on one chain, from its first node. */
  method FreeFrom(first: Node?, types: seq<ResourceType>, ghost c: seq<Node>, ghost v: seq<Entry>)
    returns (ghost events: seq<Event>)
    requires ChainLinked(c, v) && first == At(c, 0) && forall j :: 0 <= j < |v| ==> |v[j].storage| <= |types|
    ensures events == FreeChainEvents(types, v)
  {
    events := [];
    ghost var k := 0;
    var p := first;
    while p != null
      invariant 0 <= k <= |c| && p == At(c, k)
      invariant events == FreeChainEvents(types, v[..k])
      decreases |c| - k
    {
      FreeEventsNext(types, v, k);
      var next := p.next;
      ghost var more := FreeResources(p, types);
      events := events + (more + [Give(p.serial, false)]);
      p := next;
      k := k + 1;
    }
    assert v[..k] == v;
  }

  // ---------- The table ----------

  ghost predicate TableGrownUpTo(types: seq<ResourceType>, v: seq<seq<Entry>>, w: seq<seq<Entry>>, h: nat, n: nat)
    requires n <= |types|
  {
    && |w| == |v|
    && (forall g :: 0 <= g < |v| && g < h ==> w[g] == GrowChain(types, v[g], n))
    && (forall g :: h <= g < |v| ==> w[g] == v[g])
  }

  lemma TableGrownToTheEnd(types: seq<ResourceType>, v: seq<seq<Entry>>, w: seq<seq<Entry>>, n: nat)
    requires n <= |types| && TableGrownUpTo(types, v, w, |v|, n)
    ensures w == GrowTable(types, v, n)
  {}

  ghost predicate TableReleasedUpTo(v: seq<seq<Entry>>, w: seq<seq<Entry>>, h: nat, id: nat) {
    && |w| == |v|
    && (forall g :: 0 <= g < |v| && g < h ==> w[g] == ReleaseChain(v[g], id))
    && (forall g :: h <= g < |v| ==> w[g] == v[g])
  }

  lemma TableReleasedToTheEnd(v: seq<seq<Entry>>, w: seq<seq<Entry>>, id: nat)
    requires TableReleasedUpTo(v, w, |v|, id)
    ensures w == ReleaseTable(v, id)
  {}

  /** `tsrm_tls_table` */
  class HashTable {
    const buckets: array<Node?>
    ghost var nodes: seq<seq<Node>>
    ghost var view: seq<seq<Entry>>
    ghost var repr: set<Node>

    constructor (size: nat)
      ensures Linked() && view == seq(size, _ => []) && nodes == seq(size, _ => []) && repr == {} && fresh(buckets)
    {
      buckets := new Node?[size](_ => null);
      nodes, view, repr := seq(size, _ => []), seq(size, _ => []), {};
    }

    ghost predicate BucketOk(h: nat)
      reads this, buckets, repr
    {
      && h < |nodes| == |view| == buckets.Length
      && (forall k :: 0 <= k < |nodes[h]| ==> nodes[h][k] in repr)
      && buckets[h] == At(nodes[h], 0) && ChainLinked(nodes[h], view[h])
      && ThreadsHashTo(view[h], h, |view|) && ThreadsDistinct(view[h])
    }

    ghost predicate Linked()
      reads this, buckets, repr
    {
      |nodes| == |view| == buckets.Length && forall h: nat :: h < |nodes| ==> BucketOk(h)
    }

    method GrowBucket(h: nat, types: seq<ResourceType>, n: nat) returns (ghost events: seq<Event>)
      requires Linked() && h < buckets.Length && n <= |types|
      modifies repr`storage, this`view
      ensures Linked() && view == old(view)[h := GrowChain(types, old(view[h]), n)]
      ensures events == GrowChainEvents(types, old(view[h]), n)
    {
      assert BucketOk(h);
      DistinctThreads(nodes[h], view[h]);
      ghost var v := view[h];
      events := GrowFrom(buckets[h], types, n, nodes[h], v);
      view := view[h := GrowChain(types, v, n)];
      forall g: nat | g < |nodes| ensures BucketOk(g) {
        assert old(BucketOk(g));
        if g == h {
          SameOwnersKeep(v, view[h], h, |view|);
        } else {
          assert old(nodes[g]) == nodes[g];
        }
      }
    }

    /** `tsrm_update_active_threads` */
    method Grow(types: seq<ResourceType>, n: nat) returns (ghost events: seq<Event>)
      requires Linked() && n <= |types|
      modifies repr`storage, this`view
      ensures Linked() && view == GrowTable(types, old(view), n)
      ensures events == GrowEventsBelow(types, old(view), |old(view)|, n)
    {
      events := [];
      ghost var v := view;
      var h := 0;
      while h < buckets.Length
        invariant 0 <= h <= buckets.Length == |v| && Linked()
        invariant TableGrownUpTo(types, v, view, h, n)
        invariant events == GrowEventsBelow(types, v, h, n)
      {
        ghost var more := GrowBucket(h, types, n);
        events := events + more;
        h := h + 1;
      }
      TableGrownToTheEnd(types, v, view, n);
    }

    method ReleaseBucket(h: nat, types: seq<ResourceType>, id: nat) returns (ghost events: seq<Event>)
      requires Linked() && h < buckets.Length && id < |types|
      modifies repr`storage, this`view
      ensures Linked() && view == old(view)[h := ReleaseChain(old(view[h]), id)]
      ensures events == ReleaseChainEvents(types, old(view[h]), id)
    {
      assert BucketOk(h);
      DistinctThreads(nodes[h], view[h]);
      ghost var v := view[h];
      events := ReleaseFrom(buckets[h], types, id, nodes[h], v);
      view := view[h := ReleaseChain(v, id)];
      forall g: nat | g < |nodes| ensures BucketOk(g) {
        assert old(BucketOk(g));
        if g == h {
          SameOwnersKeep(v, view[h], h, |view|);
        } else {
          assert old(nodes[g]) == nodes[g];
        }
      }
    }

    /** `ts_free_id` */
    method ReleaseId(types: seq<ResourceType>, id: nat) returns (ghost events: seq<Event>)
      requires Linked() && id < |types|
      modifies repr`storage, this`view
      ensures Linked() && view == ReleaseTable(old(view), id)
      ensures events == ReleaseEventsBelow(types, old(view), |old(view)|, id)
    {
      events := [];
      ghost var v := view;
      var h := 0;
      while h < buckets.Length
        invariant 0 <= h <= buckets.Length == |v| && Linked()
        invariant TableReleasedUpTo(v, view, h, id)
        invariant events == ReleaseEventsBelow(types, v, h, id)
      {
        ghost var more := ReleaseBucket(h, types, id);
        events := events + more;
        h := h + 1;
      }
      TableReleasedToTheEnd(v, view, id);
    }

    lemma FreeBucketNext(types: seq<ResourceType>, h: nat)
      requires h < |view| && Within(view, |types|)
      ensures forall j :: 0 <= j < |view[h]| ==> |view[h][j].storage| <= |types|
      ensures FreeEventsBelow(types, view, h + 1) == FreeEventsBelow(types, view, h) + FreeChainEvents(types, view[h])
    {}

    /** `tsrm_shutdown` */
    method FreeAll(types: seq<ResourceType>) returns (ghost events: seq<Event>)
      requires Linked() && Within(view, |types|)
      ensures events == FreeEventsBelow(types, view, |view|)
    {
      events := [];
      var h := 0;
      while h < buckets.Length
        invariant 0 <= h <= buckets.Length
        invariant events == FreeEventsBelow(types, view, h)
      {
        assert BucketOk(h);
        FreeBucketNext(types, h);
        ghost var more := FreeFrom(buckets[h], types, nodes[h], view[h]);
        events := events + more;
        h := h + 1;
      }
    }

    /** The entry of thread `t` and the one before it, walking chain `h`. */
    method Walk(h: nat, t: Thread) returns (last: Node?, found: Node?, ghost k: nat)
      requires Linked() && h < buckets.Length
      ensures k == Find(view[h], t) <= |nodes[h]|
      ensures found == At(nodes[h], Find(view[h], t))
      ensures last == if k == 0 then null else nodes[h][k - 1]
    {
      assert BucketOk(h);
      ghost var c, v := nodes[h], view[h];
      last, found, k := null, buckets[h], 0;
      while found != null && found.thread != t
        invariant 0 <= k <= |c| && found == At(c, k)
        invariant last == if k == 0 then null else c[k - 1]
        invariant forall j :: 0 <= j < k ==> v[j].thread != t
        decreases |c| - k
      {
        last := found;
        found := found.next;
        k := k + 1;
      }
    }

    /** Writes the link that follows `last`, which is in no other chain. */
    method WriteLink(h: nat, last: Node?, x: Node?, ghost k: nat)
      requires Linked() && h < buckets.Length && k <= |nodes[h]|
      requires last == if k == 0 then null else nodes[h][k - 1]
      modifies buckets, {last}`next
      ensures forall g: nat :: g < |nodes| && g != h ==> BucketOk(g)
      ensures if last == null then buckets[h] == x else buckets[h] == old(buckets[h]) && last.next == x
    {
      assert BucketOk(h);
      forall g: nat | g < |nodes| && g != h && k > 0 ensures last !in nodes[g] {
        assert BucketOk(g);
        ChainsApart(nodes[g], view[g], g, nodes[h], view[h], h, |view|, k - 1);
      }
      if last == null {
        buckets[h] := x;
      } else {
        last.next := x;
      }
      forall g: nat | g < |nodes| && g != h ensures BucketOk(g) {
        assert old(BucketOk(g));
      }
    }

    /** From the link that follows `last` on, chain `h` is `tail`. */
    method SetLink(h: nat, last: Node?, x: Node?, ghost k: nat, ghost tail: seq<Node>, ghost w: seq<Entry>)
      requires Linked() && h < buckets.Length && k <= |nodes[h]| == |view[h]|
      requires last == if k == 0 then null else nodes[h][k - 1]
      requires ChainLinked(tail, w) && x == At(tail, 0) && (k > 0 ==> nodes[h][k - 1] !in tail)
      requires ThreadsHashTo(view[h][..k] + w, h, |view|) && ThreadsDistinct(view[h][..k] + w)
      modifies this`nodes, this`view, this`repr, buckets, repr`next
      ensures Linked()
      ensures nodes == old(nodes)[h := old(nodes[h])[..k] + tail]
      ensures view == old(view)[h := old(view[h])[..k] + w]
      ensures repr == old(repr) + set y | y in tail
    {
      assert BucketOk(h);
      DistinctThreads(nodes[h], view[h]);
      ghost var c, v := nodes[h], view[h];
      WriteLink(h, last, x, k);
      ChainSpliced(c, v, k, tail, w);
      label Written:
      nodes, view, repr := nodes[h := c[..k] + tail], view[h := v[..k] + w], repr + set y | y in tail;
      assert BucketOk(h);
      forall g: nat | g < |nodes| && g != h ensures BucketOk(g) {
        assert old@Written(BucketOk(g));
      }
    }

    /** Links a new node behind the last one of its chain. */
    method LinkLast(h: nat, last: Node?, n: Node, ghost k: nat)
      requires Linked() && h < buckets.Length && n !in repr && n.next == null
      requires HashOf(n.thread, buckets.Length) == h && k == Find(view[h], n.thread) == |nodes[h]| == |view[h]|
      requires last == if k == 0 then null else nodes[h][k - 1]
      modifies this`nodes, this`view, this`repr, buckets, repr`next
      ensures Linked() && nodes == old(nodes)[h := old(nodes[h]) + [n]]
      ensures view == old(view)[h := old(view[h]) + [Entry(n.serial, n.thread, n.storage)]]
      ensures repr == old(repr) + {n}
    {
      assert BucketOk(h);
      ghost var e := Entry(n.serial, n.thread, n.storage);
      ChainAfter(view[h], h, |view|, k, [e], n.thread);
      assert view[h][..k] + [e] + [] == view[h][..k] + [e] == view[h] + [e];
      assert nodes[h][..k] == nodes[h];
      SetLink(h, last, n, k, [n], [e]);
    }

    /** Links a new node in the place of the one at position `k`. */
    method LinkInstead(h: nat, last: Node?, stale: Node, n: Node, ghost k: nat)
      requires Linked() && h < buckets.Length && n !in repr && k < |nodes[h]| == |view[h]| && stale == nodes[h][k]
      requires HashOf(n.thread, buckets.Length) == h && k == Find(view[h], n.thread)
      requires last == if k == 0 then null else nodes[h][k - 1]
      modifies this`nodes, this`view, this`repr, buckets, repr`next, n`next
      ensures Linked() && nodes == old(nodes)[h := old(nodes[h])[k := n]]
      ensures view == old(view)[h := old(view[h])[k := Entry(n.serial, n.thread, n.storage)]]
      ensures repr == old(repr) + {n}
    {
      assert BucketOk(h);
      ghost var c, v, e := nodes[h], view[h], Entry(n.serial, n.thread, n.storage);
      DistinctThreads(c, v);
      n.next := stale.next;
      assert BucketOk(h);
      ChainAfter(v, h, |view|, k, [e], n.thread);
      assert v[..k] + [e] + v[k + 1..] == v[..k] + ([e] + v[k + 1..]) == v[k := e];
      assert c[..k] + ([n] + c[k + 1..]) == c[k := n];
      TailLinked(c, v, k, n);
      ghost var tail := [n] + c[k + 1..];
      SetLink(h, last, n, k, tail, [e] + v[k + 1..]);
      assert old(repr) + (set y | y in tail) == old(repr) + {n};
    }

    /** Takes the node at position `k` out of its chain. */
    method Unlink(h: nat, last: Node?, found: Node, ghost k: nat)
      requires Linked() && h < buckets.Length && k < |nodes[h]| == |view[h]| && found == nodes[h][k]
      requires k == Find(view[h], found.thread)
      requires last == if k == 0 then null else nodes[h][k - 1]
      modifies this`nodes, this`view, this`repr, buckets, repr`next
      ensures Linked() && nodes == old(nodes)[h := old(nodes[h])[..k] + old(nodes[h])[k + 1..]]
      ensures view == old(view)[h := old(view[h])[..k] + old(view[h])[k + 1..]]
      ensures repr == old(repr)
    {
      assert BucketOk(h);
      ghost var c, v := nodes[h], view[h];
      DistinctThreads(c, v);
      ChainAfter(v, h, |view|, k, [], found.thread);
      assert v[..k] + [] + v[k + 1..] == v[..k] + v[k + 1..];
      RestLinked(c, v, k);
      SetLink(h, last, found.next, k, c[k + 1..], v[k + 1..]);
    }
  }
}
