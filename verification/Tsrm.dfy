/** The resource manager itself.  Every method does to the abstract state what the
    function of TsrmSpec of the same name does. */
module Tsrm {
  import opened Sequences
  import opened TsrmSpec
  import opened TsrmSafety
  import opened TsrmSteps
  import opened TsrmRuns
  import opened TsrmTable

  /** What `TSRM_SAFE_RETURN_RSRC` hands out: the storage itself or one pointer. */
  datatype Resource = Whole(entry: Node) | One(slot: Slot)

  /** `tls` says which entry each key points to. */
  ghost predicate SerialsOf(keys: map<Thread, Node>, tls: map<Thread, nat>) {
    keys.Keys == tls.Keys && forall t :: t in keys ==> tls[t] == keys[t].serial
  }

  /** A key points to a node of its thread. */
  ghost predicate KeysIn(nodes: seq<seq<Node>>, keys: map<Thread, Node>) {
    |nodes| > 0 && forall t :: t in keys ==> keys[t].thread == t && keys[t] in nodes[HashOf(t, |nodes|)]
  }

  /** One chain is changed; of the keys only that of thread `t` may have pointed to
      a node that is gone. */
  lemma KeysAfter(nodes: seq<seq<Node>>, h: nat, c: seq<Node>, keys: map<Thread, Node>, keys': map<Thread, Node>,
                  t: Thread)
    requires KeysIn(nodes, keys) && h < |nodes|
    requires forall j :: 0 <= j < |nodes[h]| ==> nodes[h][j] in c || nodes[h][j].thread == t
    requires keys' - {t} == keys - {t}
    requires t in keys' ==> HashOf(t, |nodes|) == h && keys'[t].thread == t && keys'[t] in c
    ensures KeysIn(nodes[h := c], keys')
  {
    forall u | u in keys' ensures keys'[u].thread == u && keys'[u] in nodes[h := c][HashOf(u, |nodes|)] {
      if u != t {
        assert u in keys' - {t} && (keys' - {t})[u] == (keys - {t})[u];
      }
    }
  }

  lemma KeysAfterReplace(nodes: seq<seq<Node>>, h: nat, k: nat, n: Node, keys: map<Thread, Node>)
    requires KeysIn(nodes, keys) && h < |nodes| && k < |nodes[h]| && nodes[h][k].thread == n.thread
    requires HashOf(n.thread, |nodes|) == h
    ensures KeysIn(nodes[h := nodes[h][k := n]], keys[n.thread := n])
  {
    var c := nodes[h][k := n];
    assert forall j :: 0 <= j < |c| && j != k ==> c[j] == nodes[h][j];
    assert c[k] == n;
    KeysAfter(nodes, h, c, keys, keys[n.thread := n], n.thread);
  }

  lemma KeysAfterRemove(nodes: seq<seq<Node>>, h: nat, k: nat, keys: map<Thread, Node>)
    requires KeysIn(nodes, keys) && h < |nodes| && k < |nodes[h]|
    ensures KeysIn(nodes[h := nodes[h][..k] + nodes[h][k + 1..]], keys - {nodes[h][k].thread})
  {
    var c, t := nodes[h][..k] + nodes[h][k + 1..], nodes[h][k].thread;
    assert forall j :: 0 <= j < |nodes[h]| && j != k ==> nodes[h][j] == c[if j < k then j else j - 1];
    KeysAfter(nodes, h, c, keys, keys - {t}, t);
  }

  // ---------- Abstract states, field by field ----------

  /** Everything but the ids, their types, the storages and the log is as before. */
  ghost predicate SameElse(st: State, st': State) {
    st'.reservedSize == st.reservedSize && st'.tls == st.tls && st'.next == st.next && st'.skipped == st.skipped
  }

  lemma IsStored(st: State, st': State, r: ResourceType)
    requires st.idCount == |st.types| + 1 && SameElse(st, st') && st'.types == st.types + [r]
    requires st'.idCount == st.idCount && st'.capacity == Max(st.capacity, st.idCount) &&
      st'.reservedPos == st.reservedPos
    requires st'.table == GrowTable(st'.types, st.table, st'.idCount)
    requires st'.log == st.log + GrowEventsBelow(st'.types, st.table, |st.table|, st'.idCount)
    ensures st' == TsrmSpec.StoreType(st, r)
  {}

  lemma IsFreeId(st: State, st': State, id: nat)
    requires id < |st.types| && SameElse(st, st') && st'.idCount == st.idCount && st'.reservedPos == st.reservedPos
    requires st'.types == st.types[id := st.types[id].(done := true)] && st'.capacity == st.capacity
    requires st'.table == ReleaseTable(st.table, id)
    requires st'.log == st.log + ReleaseEventsBelow(st.types, st.table, |st.table|, id)
    ensures st' == TsrmSpec.FreeId(st, id)
  {}

  lemma ResourceStaysComplete(st: State, t: Thread)
    requires |st.table| > 0 && st.idCount == |st.types| && Within(st.table, |st.types|)
    requires Complete(st.table, st.idCount, st.skipped)
    ensures Within(TsrmSpec.Resource(st, t).table, st.idCount)
    ensures Complete(TsrmSpec.Resource(st, t).table, st.idCount, st.skipped)
  {}

  lemma ResourceOfStaysComplete(st: State, caller: Thread, t: Thread)
    requires |st.table| > 0 && st.idCount == |st.types| && Complete(st.table, st.idCount, st.skipped)
    ensures var st' := ResourceOf(st, caller, t); var chain := st'.table[HashOf(t, |st'.table|)];
      Complete(st'.table, st.idCount, st.skipped) && Find(chain, t) < |chain|
  {}

  class Manager {
    var table: HashTable
    var types: seq<ResourceType>
    var capacity: nat
    var idCount: nat
    var reservedPos: nat
    var reservedSize: nat
    var keys: map<Thread, Node>
    ghost var tls: map<Thread, nat>
    ghost var next: nat
    ghost var skipped: set<nat>
    ghost var log: seq<Event>

    /** The links and keys are in order; what the entries hold is for the abstract
        state to say, which Healthy constrains. */
    ghost predicate Valid()
      reads this, table, table.buckets, table.repr
    {
      table.Linked() && KeysIn(table.nodes, keys) && SerialsOf(keys, tls)
    }

    ghost function Abs(): State
      reads this, table
    {
      State(table.view, types, capacity, skipped, idCount, reservedPos, reservedSize, tls, next, log)
    }

    /** `tsrm_startup` */
    constructor (expected: nat, resources: nat)
      requires expected > 0
      ensures Valid() && Abs() == Initial(expected, resources)
      ensures fresh(table) && fresh(table.buckets) && table.repr == {}
    {
      table := new HashTable(expected);
      types, capacity, idCount, reservedPos, reservedSize, keys := [], resources, 0, 0, 0, map[];
      tls, next, skipped, log := map[], 0, {}, [TakeTables];
    }

    /** `tsrm_reserve` */
    method Reserve(size: nat)
      requires Valid()
      modifies this`reservedPos, this`reservedSize
      ensures Valid() && Abs() == TsrmSpec.Reserve(old(Abs()), size)
    {
      reservedPos, reservedSize := 0, AlignedSize(size);
    }

    /** The rest of `ts_allocate_id` and `ts_allocate_fast_id` once the id is taken: the
        type is stored, in an enlarged table if need be, and every thread gets the id. */
    method StoreType(r: ResourceType)
      requires Valid() && idCount == |types| + 1
      modifies this`types, this`capacity, this`log, table`view, table.repr`storage
      ensures Valid() && Abs() == TsrmSpec.StoreType(old(Abs()), r)
    {
      ghost var st := Abs();
      if capacity < idCount {
        capacity := idCount;
      }
      types := types + [r];
      ghost var events := table.Grow(types, idCount);
      log := log + events;
      assert table.Linked();
      IsStored(st, Abs(), r);
    }

    /** `ts_allocate_id` */
    method AllocateId(size: nat, ctor: bool, dtor: bool) returns (id: nat)
      requires Valid() && idCount == |types|
      modifies this`idCount, this`types, this`capacity, this`log, table`view, table.repr`storage
      ensures Valid() && Abs() == TsrmSpec.AllocateId(old(Abs()), size, ctor, dtor)
      ensures id == old(idCount) + 1
    {
      idCount := idCount + 1;
      id := idCount;
      StoreType(ResourceType(size, ctor, dtor, 0, false));
    }

    /** The id just taken stays as it is: what a failed `ts_allocate_fast_id` leaves. */
    method LoseId()
      requires Valid() && idCount == |types| + 1
      modifies this`types, this`skipped
      ensures Valid() && Abs() == TsrmSpec.LoseId(old(Abs()))
    {
      if idCount <= capacity {
        types, skipped := types + [UNSET], skipped + {idCount - 1};
      }
    }

    /** `ts_allocate_fast_id`; id 0 means failure, with the id count already raised. */
    method AllocateFastId(size: nat, ctor: bool, dtor: bool) returns (id: nat, offset: nat)
      requires Valid() && idCount == |types| && reservedPos <= reservedSize
      modifies this`idCount, this`types, this`capacity, this`reservedPos, this`skipped, this`log, table`view,
        table.repr`storage
      ensures Valid() && Abs() == TsrmSpec.AllocateFastId(old(Abs()), size, ctor, dtor)
      ensures if old(FastFits(Abs(), size)) then id == old(idCount) + 1 && offset == types[id - 1].fast
              else id == 0 && offset == 0
    {
      ghost var st := Abs();
      idCount := idCount + 1;
      id := idCount;
      var aligned := AlignedSize(size);
      if reservedSize - reservedPos < aligned {
        assert Abs() == st.(idCount := st.idCount + 1) && !FastFits(st, size);
        LoseId();
        return 0, 0;
      }
      offset := ENTRY_SIZE + reservedPos;
      reservedPos := reservedPos + aligned;
      var r := ResourceType(aligned, ctor, dtor, offset, false);
      assert Abs() == st.(idCount := st.idCount + 1, reservedPos := st.reservedPos + aligned);
      StoreType(r);
      FastIdIsAllocate(st, size, ctor, dtor, r);
    }

    /** `ts_free_id` */
    method FreeId(id: nat)
      requires Valid() && 0 < id <= |types|
      modifies this`types, this`log, table`view, table.repr`storage
      ensures Valid() && Abs() == TsrmSpec.FreeId(old(Abs()), id - 1)
    {
      ghost var st := Abs();
      ghost var events := table.ReleaseId(types, id - 1);
      log := log + events;
      types := types[id - 1 := types[id - 1].(done := true)];
      IsFreeId(st, Abs(), id - 1);
    }

    /** `allocate_new_resource`: the node is not linked yet. */
    method AllocateNewResource(caller: Thread, t: Thread) returns (n: Node)
      requires idCount <= |types|
      modifies this`keys, this`tls, this`next, this`log
      ensures fresh(n) && n.thread == t && n.serial == old(next) && n.next == null
      ensures n.storage == NewStorage(types, idCount)
      ensures keys == old(keys)[caller := n] && Abs() == NewResource(old(Abs()), caller)
    {
      n := new Node(t, next);
      keys, tls, next := keys[caller := n], tls[caller := next], next + 1;
      ghost var events := [];
      var i := 0;
      while i < idCount
        invariant 0 <= i <= idCount && n.storage == NewStorage(types, i)
        invariant events == NewEvents(types, n.serial, i)
        modifies n`storage
      {
        if types[i].done {
          n.storage := n.storage + [Null];
        } else {
          n.storage := n.storage + [if types[i].fast != 0 then Inside(types[i].fast) else Own];
          events := events + [Construction(types, n.serial, i)];
        }
        i := i + 1;
      }
      log := log + (if idCount == 0 then [Take(n.serial, false)]
                    else [Take(n.serial, false), Take(n.serial, true)] + events);
    }

    /** A key that is set is what the walk of the chain finds. */
    lemma KeyIsFound(t: Thread)
      requires Valid() && t in keys
      ensures var h := HashOf(t, |table.nodes|); h < |table.view| && var k := Find(table.view[h], t);
        k < |table.nodes[h]| && table.nodes[h][k] == keys[t]
    {
      var h := HashOf(t, |table.nodes|);
      assert table.BucketOk(h);
      var j :| 0 <= j < |table.nodes[h]| && table.nodes[h][j] == keys[t];
      FindIsTheOnly(table.view[h], j);
    }

    /** No entry of `t` was found: a new one becomes the last of its chain. */
    method Append(caller: Thread, t: Thread, h: nat, last: Node?, ghost k: nat)
      requires Valid() && t !in keys && idCount == |types|
      requires h == HashOf(t, table.buckets.Length) && k == Find(table.view[h], t) == |table.nodes[h]|
      requires last == if k == 0 then null else table.nodes[h][k - 1]
      modifies this`keys, this`tls, this`next, this`log, table`nodes, table`view, table`repr, table.buckets,
        table.repr`next
      ensures table.Linked() && Abs() == Appended(old(Abs()), caller, t) && caller in keys
      ensures caller == t ==> Valid()
      ensures fresh(table.repr - old(table.repr))
    {
      assert table.BucketOk(h);
      ghost var nodes := table.nodes;
      var n := AllocateNewResource(caller, t);
      table.LinkLast(h, last, n, k);
      assert table.Linked();
      assert caller == t ==> KeysIn(table.nodes, keys) && SerialsOf(keys, tls) by {
        if caller == t {
          KeysAfter(nodes, h, nodes[h] + [n], old(keys), keys, t);
        }
      }
    }

    /** Frees a stale entry, to which the key points meanwhile, and makes a new one. */
    method Renew(found: Node, t: Thread) returns (n: Node)
      requires |found.storage| <= |types| && idCount <= |types|
      modifies this`keys, this`tls, this`next, this`log
      ensures fresh(n) && n.thread == t && n.serial == old(next) && n.storage == NewStorage(types, idCount)
      ensures keys == old(keys)[t := n]
      ensures Abs() == NewResource(old(Abs().(log := log + EntryFreed(types, found.serial, |found.storage|))), t)
    {
      keys := keys[t := found];
      ghost var events := FreeResources(found, types);
      log := log + (events + [Give(found.serial, false)]);
      n := AllocateNewResource(t, t);
      assert keys == old(keys)[t := n];
    }

    /** A stale entry of `t` was found: it is freed and a new one takes its place. */
    method Replace(t: Thread, h: nat, last: Node?, found: Node, ghost k: nat)
      requires Valid() && t !in keys && idCount == |types| && Within(table.view, |types|)
      requires h == HashOf(t, table.buckets.Length) && k == Find(table.view[h], t) < |table.nodes[h]| == |table.view[h]|
      requires found == table.nodes[h][k] && last == if k == 0 then null else table.nodes[h][k - 1]
      modifies this`keys, this`tls, this`next, this`log, table`nodes, table`view, table`repr, table.buckets,
        table.repr`next
      ensures Valid() && Abs() == Replaced(old(Abs()), t, h, k) && t in keys
      ensures fresh(table.repr - old(table.repr))
    {
      assert table.BucketOk(h);
      ghost var nodes := table.nodes;
      assert found.storage == table.view[h][k].storage && found.serial == table.view[h][k].serial;
      var n := Renew(found, t);
      table.LinkInstead(h, last, found, n, k);
      KeysAfterReplace(nodes, h, k, n, old(keys));
      assert table.Linked();
      assert KeysIn(table.nodes, keys) && SerialsOf(keys, tls);
    }

    lemma KeyCovers(t: Thread, id: nat)
      requires Valid() && t in keys && Complete(table.view, idCount, skipped) && id < idCount && id !in skipped
      ensures id < |keys[t].storage|
    {
      KeyIsFound(t);
      assert table.BucketOk(HashOf(t, |table.nodes|));
    }

    /** `ts_resource_ex` by the thread `t` itself: with no thread id, or with its own. */
    method ResourceEx(id: nat, t: Thread, byId: bool) returns (r: Resource)
      requires Valid() && idCount == |types| && Within(table.view, |types|) && Complete(table.view, idCount, skipped)
      requires id == 0 || (id <= idCount && id - 1 !in skipped)
      modifies this`keys, this`tls, this`next, this`log, table`nodes, table`view, table`repr, table.buckets,
        table.repr`next
      ensures Valid() && Abs() == TsrmSpec.Resource(old(Abs()), t) && t in keys
      ensures fresh(table.repr - old(table.repr))
      ensures id <= |keys[t].storage|
      ensures r == if id == 0 then Whole(keys[t]) else One(keys[t].storage[id - 1])
      decreases if t in keys then 0 else 1
    {
      var node: Node;
      if !byId && t in keys {
        node := keys[t];
      } else {
        var found := WalkOrReplace(t);
        if found == null {
          r := ResourceEx(id, t, true);
          return;
        }
        node := found;
      }
      if id > 0 {
        KeyCovers(t, id - 1);
      }
      r := if id == 0 then Whole(node) else One(node.storage[id - 1]);
    }

    /** The part of `ts_resource_ex` under the mutex: the entry of `t`, or null when
        a new one was appended and the call starts again. */
    method WalkOrReplace(t: Thread) returns (found: Node?)
      requires Valid() && idCount == |types| && Within(table.view, |types|) && Complete(table.view, idCount, skipped)
      modifies this`keys, this`tls, this`next, this`log, table`nodes, table`view, table`repr, table.buckets,
        table.repr`next
      ensures Valid() && Abs() == TsrmSpec.Resource(old(Abs()), t) && t in keys
      ensures Within(table.view, |types|) && Complete(table.view, idCount, skipped)
      ensures fresh(table.repr - old(table.repr))
      ensures if found == null then t !in old(keys) else found == keys[t]
    {
      if t in keys {
        KeyIsFound(t);
      }
      ResourceStaysComplete(Abs(), t);
      var h := HashOf(t, table.buckets.Length);
      assert table.BucketOk(h);
      var last;
      ghost var k;
      last, found, k := table.Walk(h, t);
      if found == null {
        Append(t, t, h, last, k);
      } else if t !in keys {
        Replace(t, h, last, found, k);
        found := keys[t];
      }
    }

    /** `n` is the node of the entry that the table has for thread `t`. */
    ghost predicate IsNodeOf(t: Thread, n: Node)
      reads this, table, table.buckets, table.repr
    {
      && |table.view| == |table.nodes| > 0
      && var h := HashOf(t, |table.view|);
        var k := Find(table.view[h], t);
        k < |table.view[h]| == |table.nodes[h]| && n == table.nodes[h][k] && n in table.repr
        && n.storage == table.view[h][k].storage
    }

    ghost predicate HasEntry(t: Thread)
      reads this, table
    {
      |table.view| > 0 && var chain := table.view[HashOf(t, |table.view|)]; Find(chain, t) < |chain|
    }

    /** The walk of the chain of `t`. */
    method Lookup(t: Thread) returns (found: Node?)
      requires table.Linked() && |table.view| > 0
      ensures if found == null then !HasEntry(t) else HasEntry(t) && IsNodeOf(t, found)
    {
      var h := HashOf(t, table.buckets.Length);
      assert table.BucketOk(h);
      var last;
      ghost var k;
      last, found, k := table.Walk(h, t);
    }

    /** With the id of a thread without an entry: it gets one, to which the caller's key
        points. */
    method AppendFor(caller: Thread, t: Thread)
      requires Valid() && idCount == |types| && !HasEntry(t) && caller != t
      modifies this`keys, this`tls, this`next, this`log, table`nodes, table`view, table`repr, table.buckets,
        table.repr`next
      ensures table.Linked() && |table.view| > 0 && Abs() == Appended(old(Abs()), caller, t)
    {
      if t in keys {
        KeyIsFound(t);
      }
      var h := HashOf(t, table.buckets.Length);
      assert table.BucketOk(h);
      var last, _, k := table.Walk(h, t);
      Append(caller, t, h, last, k);
    }

    /** `ts_resource_ex` by `caller` with the id of another thread `t`. */
    method ResourceExOf(id: nat, caller: Thread, t: Thread) returns (r: Resource)
      requires Valid() && idCount == |types| && Complete(table.view, idCount, skipped) && caller != t
      requires id == 0 || (id <= idCount && id - 1 !in skipped)
      modifies this`keys, this`tls, this`next, this`log, table`nodes, table`view, table`repr, table.buckets,
        table.repr`next
      ensures Abs() == ResourceOf(old(Abs()), caller, t)
      ensures old(HasEntry(t)) ==> Valid()
      ensures exists n ::
        IsNodeOf(t, n) && id <= |n.storage| && r == if id == 0 then Whole(n) else One(n.storage[id - 1])
    {
      ResourceOfStaysComplete(Abs(), caller, t);
      var found := Lookup(t);
      if found == null {
        AppendFor(caller, t);
        found := Lookup(t);
      }
      r := if id == 0 then Whole(found) else One(found.storage[id - 1]);
    }

    /** The entry of `t` was found: it is freed and the chain closed behind it. */
    method Remove(t: Thread, h: nat, last: Node?, found: Node, ghost k: nat)
      requires Valid() && Within(table.view, |types|)
      requires h == HashOf(t, table.buckets.Length) && k == Find(table.view[h], t) < |table.nodes[h]| == |table.view[h]|
      requires found == table.nodes[h][k] && last == if k == 0 then null else table.nodes[h][k - 1]
      modifies this`keys, this`tls, this`log, table`nodes, table`view, table`repr, table.buckets, table.repr`next
      ensures Valid() && Abs() == Removed(old(Abs()), t, h, k)
    {
      assert table.BucketOk(h);
      ghost var nodes := table.nodes;
      ghost var events := FreeResources(found, types);
      log := log + (events + [Give(found.serial, false)]);
      table.Unlink(h, last, found, k);
      keys, tls := keys - {t}, tls - {t};
      KeysAfterRemove(nodes, h, k, old(keys));
      assert table.Linked();
    }

    /** `ts_free_thread` by the thread `t` itself. */
    method FreeThread(t: Thread)
      requires Valid() && Within(table.view, |types|)
      modifies this`keys, this`tls, this`log, table`nodes, table`view, table`repr, table.buckets, table.repr`next
      ensures Valid() && Abs() == TsrmSpec.FreeThread(old(Abs()), t)
    {
      var h := HashOf(t, table.buckets.Length);
      assert table.BucketOk(h);
      var last, found, k := table.Walk(h, t);
      if found != null {
        Remove(t, h, last, found, k);
      }
    }

    /** `tsrm_shutdown` by the main thread. */
    method Shutdown()
      requires Valid() && Within(table.view, |types|)
      modifies this`table, this`keys, this`tls, this`log
      ensures Abs() == TsrmSpec.Shutdown(old(Abs()))
    {
      ghost var events := table.FreeAll(types);
      log := log + events + [GiveTables];
      table := new HashTable(0);
      keys, tls := map[], map[];
    }
  }
}
