/** The thread-safe resource manager of TSRM/TSRM.c as a state and what each of
    its mutex-protected functions does to it.  Every construction and destruction
    of a resource instance is logged, and so is the memory of entries and tables. */
module TsrmSpec {
  import opened Sequences

  type Thread = nat

  /** `TSRM_ALIGNED_SIZE(sizeof(tsrm_tls_entry))` */
  const ENTRY_SIZE: nat := 32

  predicate Aligned(n: nat) { n % 16 == 0 }

  /** `TSRM_ALIGNED_SIZE` */
  function AlignedSize(size: nat): (r: nat)
    ensures size <= r < size + 16 && r % 16 == 0
  {
    (size + 15) / 16 * 16
  }

  /** `THREAD_HASH_OF` */
  function HashOf(t: Thread, size: nat): nat
    requires size > 0
  {
    t % size
  }

  /** `tsrm_resource_type`; `fast` is 0 for a resource with memory of its own. */
  datatype ResourceType = ResourceType(size: nat, ctor: bool, dtor: bool, fast: nat, done: bool)

  /** A pointer in a thread's storage: to nothing, to its own block, or into the
      entry at an offset. */
  datatype Slot = Null | Own | Inside(offset: nat)

  /** `tsrm_tls_entry`; `serial` tells entries apart over time. */
  datatype Entry = Entry(serial: nat, thread: Thread, storage: seq<Slot>)

  /** `own`: the instance has a block that is allocated and freed; `hook`: the type's
      constructor or destructor is called.  `Take` and `Give` are the allocation and
      the release of an entry or of its storage array. */
  datatype Event =
    | Construct(serial: nat, id: nat, own: bool, hook: bool)
    | Destroy(serial: nat, id: nat, own: bool, hook: bool)
    | Take(serial: nat, storage: bool)
    | Give(serial: nat, storage: bool)
    | TakeTables
    | GiveTables

  /** What the table of types holds at an id that was never set. */
  const UNSET: ResourceType := ResourceType(0, false, false, 0, false)

  /** `types` are the ids below `idCount` whose type can be read, `capacity` is the
      size of the table of types, and `skipped` are the ids lost by failed calls.
      `tls` holds the serial of the entry a live thread's key points to. */
  datatype State = State(
    table: seq<seq<Entry>>,
    types: seq<ResourceType>,
    capacity: nat,
    skipped: set<nat>,
    idCount: nat,
    reservedPos: nat,
    reservedSize: nat,
    tls: map<Thread, nat>,
    next: nat,
    log: seq<Event>)

  // ---------- One instance ----------

  function MakeSlot(t: ResourceType): Slot { if t.fast != 0 then Inside(t.fast) else Own }

  function Construction(types: seq<ResourceType>, serial: nat, id: nat): Event
    requires id < |types|
  {
    Construct(serial, id, types[id].fast == 0, types[id].ctor)
  }

  function Destruction(types: seq<ResourceType>, serial: nat, id: nat): Event
    requires id < |types|
  {
    Destroy(serial, id, types[id].fast == 0, types[id].dtor)
  }

  // ---------- One entry ----------

  /** `allocate_new_resource` over the first `n` ids. */
  function NewStorage(types: seq<ResourceType>, n: nat): (s: seq<Slot>)
    requires n <= |types|
    ensures |s| == n
  {
    if n == 0 then [] else NewStorage(types, n - 1) + [if types[n - 1].done then Null else MakeSlot(types[n - 1])]
  }

  function NewEvents(types: seq<ResourceType>, serial: nat, n: nat): seq<Event>
    requires n <= |types|
  {
    if n == 0 then []
    else if types[n - 1].done then NewEvents(types, serial, n - 1)
    else NewEvents(types, serial, n - 1) + [Construction(types, serial, n - 1)]
  }

  /** `ts_free_resources`: from the last id below `n` down to the first. */
  function FreeEvents(types: seq<ResourceType>, serial: nat, n: nat): seq<Event>
    requires n <= |types|
  {
    if n == 0 then []
    else if types[n - 1].done then FreeEvents(types, serial, n - 1)
    else [Destruction(types, serial, n - 1)] + FreeEvents(types, serial, n - 1)
  }

  /** The storage of an active thread enlarged to `n` ids; the ids it lacked are
      all constructed. */
  function GrownStorage(types: seq<ResourceType>, storage: seq<Slot>, n: nat): (s: seq<Slot>)
    requires n <= |types|
    ensures |s| == (if n <= |storage| then |storage| else n) && storage <= s
    decreases n
  {
    if n <= |storage| then storage else GrownStorage(types, storage, n - 1) + [MakeSlot(types[n - 1])]
  }

  function GrowEvents(types: seq<ResourceType>, serial: nat, from: nat, n: nat): seq<Event>
    requires n <= |types|
    decreases n
  {
    if n <= from then [] else GrowEvents(types, serial, from, n - 1) + [Construction(types, serial, n - 1)]
  }

  /** `allocate_new_resource`: the entry, its storage if there are ids, the instances. */
  function EntryBuilt(types: seq<ResourceType>, serial: nat, n: nat): seq<Event>
    requires n <= |types|
  {
    if n == 0 then [Take(serial, false)]
    else [Take(serial, false), Take(serial, true)] + NewEvents(types, serial, n)
  }

  /** `ts_free_resources`, then the entry is freed. */
  function EntryFreed(types: seq<ResourceType>, serial: nat, n: nat): seq<Event>
    requires n <= |types|
  {
    if n == 0 then [Give(serial, false)]
    else FreeEvents(types, serial, n) + [Give(serial, true), Give(serial, false)]
  }

  /** An active thread is enlarged; its first id brings its storage. */
  function EntryGrown(types: seq<ResourceType>, serial: nat, from: nat, n: nat): seq<Event>
    requires n <= |types|
  {
    if from == 0 && n > 0 then [Take(serial, true)] + GrowEvents(types, serial, from, n)
    else GrowEvents(types, serial, from, n)
  }

  // ---------- Chains and the table ----------

  function GrowChain(types: seq<ResourceType>, chain: seq<Entry>, n: nat): (c: seq<Entry>)
    requires n <= |types|
    ensures |c| == |chain|
    ensures forall k :: 0 <= k < |c| ==> c[k] == chain[k].(storage := GrownStorage(types, chain[k].storage, n))
  {
    seq(|chain|, k requires 0 <= k < |chain| => chain[k].(storage := GrownStorage(types, chain[k].storage, n)))
  }

  function GrowChainEvents(types: seq<ResourceType>, chain: seq<Entry>, n: nat): seq<Event>
    requires n <= |types|
  {
    if chain == [] then []
    else
      var e := chain[|chain| - 1];
      GrowChainEvents(types, chain[..|chain| - 1], n) + EntryGrown(types, e.serial, |e.storage|, n)
  }

  /** `ts_free_id` on one entry. */
  function Release(e: Entry, id: nat): Entry {
    if id < |e.storage| then e.(storage := e.storage[id := Null]) else e
  }

  function ReleaseEvents(types: seq<ResourceType>, e: Entry, id: nat): seq<Event>
    requires id < |types|
  {
    if id < |e.storage| && e.storage[id] != Null then [Destruction(types, e.serial, id)] else []
  }

  function ReleaseChain(chain: seq<Entry>, id: nat): (c: seq<Entry>)
    ensures |c| == |chain|
    ensures forall k :: 0 <= k < |c| ==> c[k] == Release(chain[k], id)
  {
    seq(|chain|, k requires 0 <= k < |chain| => Release(chain[k], id))
  }

  function ReleaseChainEvents(types: seq<ResourceType>, chain: seq<Entry>, id: nat): seq<Event>
    requires id < |types|
  {
    if chain == [] then []
    else ReleaseChainEvents(types, chain[..|chain| - 1], id) + ReleaseEvents(types, chain[|chain| - 1], id)
  }

  /** `tsrm_shutdown` on one chain. */
  function FreeChainEvents(types: seq<ResourceType>, chain: seq<Entry>): seq<Event>
    requires forall k :: 0 <= k < |chain| ==> |chain[k].storage| <= |types|
  {
    if chain == [] then []
    else
      var e := chain[|chain| - 1];
      FreeChainEvents(types, chain[..|chain| - 1]) + EntryFreed(types, e.serial, |e.storage|)
  }

  /** The position of a thread's entry in a chain, or its length. */
  function Find(chain: seq<Entry>, t: Thread): (k: nat)
    ensures k <= |chain|
    ensures k < |chain| ==> chain[k].thread == t
    ensures forall j :: 0 <= j < k ==> chain[j].thread != t
  {
    if chain == [] then 0
    else
      var k := Find(chain[..|chain| - 1], t);
      if k < |chain| - 1 then k
      else if chain[|chain| - 1].thread == t then |chain| - 1 else |chain|
  }

  function GrowTable(types: seq<ResourceType>, table: seq<seq<Entry>>, n: nat): (r: seq<seq<Entry>>)
    requires n <= |types|
    ensures |r| == |table| && forall h :: 0 <= h < |r| ==> r[h] == GrowChain(types, table[h], n)
  {
    seq(|table|, h requires 0 <= h < |table| => GrowChain(types, table[h], n))
  }

  function ReleaseTable(table: seq<seq<Entry>>, id: nat): (r: seq<seq<Entry>>)
    ensures |r| == |table| && forall h :: 0 <= h < |r| ==> r[h] == ReleaseChain(table[h], id)
  {
    seq(|table|, h requires 0 <= h < |table| => ReleaseChain(table[h], id))
  }

  /** What enlarging the chains below `h` logs. */
  function GrowEventsBelow(types: seq<ResourceType>, table: seq<seq<Entry>>, h: nat, n: nat): seq<Event>
    requires n <= |types| && h <= |table|
  {
    if h == 0 then [] else GrowEventsBelow(types, table, h - 1, n) + GrowChainEvents(types, table[h - 1], n)
  }

  /** What releasing an id in the chains below `h` logs. */
  function ReleaseEventsBelow(types: seq<ResourceType>, table: seq<seq<Entry>>, h: nat, id: nat): seq<Event>
    requires id < |types| && h <= |table|
  {
    if h == 0 then [] else ReleaseEventsBelow(types, table, h - 1, id) + ReleaseChainEvents(types, table[h - 1], id)
  }

  /** No storage is longer than `n`. */
  ghost predicate Within(table: seq<seq<Entry>>, n: nat) {
    forall h, k :: 0 <= h < |table| && 0 <= k < |table[h]| ==> |table[h][k].storage| <= n
  }

  /** What shutting down the chains below `h` logs. */
  ghost function FreeEventsBelow(types: seq<ResourceType>, table: seq<seq<Entry>>, h: nat): seq<Event>
    requires h <= |table| && Within(table, |types|)
  {
    if h == 0 then [] else FreeEventsBelow(types, table, h - 1) + FreeChainEvents(types, table[h - 1])
  }

  // ---------- The functions of the manager ----------

  /** `tsrm_update_active_threads` */
  function UpdateActive(st: State): State
    requires st.idCount <= |st.types|
  {
    st.(table := GrowTable(st.types, st.table, st.idCount),
        log := st.log + GrowEventsBelow(st.types, st.table, |st.table|, st.idCount))
  }

  /** The id just taken gets the type `r`, for which the table of types is enlarged if it
      is full, and every active thread gets the id. */
  function StoreType(st: State, r: ResourceType): State
    requires st.idCount == |st.types| + 1
  {
    UpdateActive(st.(types := st.types + [r], capacity := Max(st.capacity, st.idCount)))
  }

  function Allocate(st: State, r: ResourceType, pos: nat): State
    requires st.idCount == |st.types|
  {
    StoreType(st.(idCount := st.idCount + 1, reservedPos := pos), r)
  }

  /** `ts_allocate_id` */
  function AllocateId(st: State, size: nat, ctor: bool, dtor: bool): State
    requires st.idCount == |st.types|
  {
    Allocate(st, ResourceType(size, ctor, dtor, 0, false), st.reservedPos)
  }

  predicate FastFits(st: State, size: nat) { st.reservedPos + AlignedSize(size) <= st.reservedSize }

  /** The id just taken gets no type.  Within the table of types it reads as one that was
      never set; at its end there is nothing to read. */
  function LoseId(st: State): State
    requires st.idCount == |st.types| + 1
  {
    if st.idCount <= st.capacity then st.(types := st.types + [UNSET], skipped := st.skipped + {st.idCount - 1}) else st
  }

  /** `ts_allocate_fast_id`; when the reserved space is used up an id is lost. */
  function AllocateFastId(st: State, size: nat, ctor: bool, dtor: bool): State
    requires st.idCount == |st.types|
  {
    var aligned := AlignedSize(size);
    if FastFits(st, size) then
      Allocate(st, ResourceType(aligned, ctor, dtor, ENTRY_SIZE + st.reservedPos, false), st.reservedPos + aligned)
    else LoseId(st.(idCount := st.idCount + 1))
  }

  /** `tsrm_reserve` */
  function Reserve(st: State, size: nat): State {
    st.(reservedPos := 0, reservedSize := AlignedSize(size))
  }

  function NewEntry(st: State, t: Thread): Entry
    requires st.idCount <= |st.types|
  {
    Entry(st.next, t, NewStorage(st.types, st.idCount))
  }

  /** `allocate_new_resource` reads the table of types at `i` for the next entry. */
  ghost predicate EntryReads(st: State, i: nat) { i < st.idCount }

  /** `ts_resource_ex` for the calling thread `t`: the entry it ends up with is found
      through the key, found in the chain, appended to it, or put in the place of a
      stale one. */
  ghost function Resource(st: State, t: Thread): State
    requires |st.table| > 0 && st.idCount <= |st.types| && Within(st.table, |st.types|)
  {
    if t in st.tls then st
    else
      var h := HashOf(t, |st.table|);
      var chain := st.table[h];
      var k := Find(chain, t);
      if k == |chain| then Appended(st, t, t) else Replaced(st, t, h, k)
  }

  /** `allocate_new_resource`: the key of `caller` points to a new entry, which is
      still to be linked. */
  function NewResource(st: State, caller: Thread): State
    requires st.idCount <= |st.types|
  {
    st.(tls := st.tls[caller := st.next], next := st.next + 1,
        log := st.log + EntryBuilt(st.types, st.next, st.idCount))
  }

  /** The stale entry of `t` is freed and a new one takes its place. */
  ghost function Replaced(st: State, t: Thread, h: nat, k: nat): State
    requires h < |st.table| && k < |st.table[h]| && st.idCount <= |st.types| && Within(st.table, |st.types|)
  {
    var stale := st.table[h][k];
    NewResource(st.(log := st.log + EntryFreed(st.types, stale.serial, |stale.storage|)), t)
      .(table := st.table[h := st.table[h][k := NewEntry(st, t)]])
  }

  /** A new entry of `t` is the last of its chain, and `caller`'s key points to it. */
  ghost function Appended(st: State, caller: Thread, t: Thread): State
    requires |st.table| > 0 && st.idCount <= |st.types|
  {
    var h := HashOf(t, |st.table|);
    NewResource(st, caller).(table := st.table[h := st.table[h] + [NewEntry(st, t)]])
  }

  /** `ts_resource_ex` by `caller` with the id of another thread `t`. */
  ghost function ResourceOf(st: State, caller: Thread, t: Thread): State
    requires |st.table| > 0 && st.idCount <= |st.types|
  {
    var chain := st.table[HashOf(t, |st.table|)];
    if Find(chain, t) < |chain| then st else Appended(st, caller, t)
  }

  /** The entry of `t` is freed and taken out of its chain. */
  ghost function Removed(st: State, t: Thread, h: nat, k: nat): State
    requires h < |st.table| && k < |st.table[h]| && Within(st.table, |st.types|)
  {
    var chain := st.table[h];
    st.(table := st.table[h := chain[..k] + chain[k + 1..]], tls := st.tls - {t},
        log := st.log + EntryFreed(st.types, chain[k].serial, |chain[k].storage|))
  }

  /** `ts_free_thread` for the calling thread `t`. */
  ghost function FreeThread(st: State, t: Thread): State
    requires |st.table| > 0 && Within(st.table, |st.types|)
  {
    var h := HashOf(t, |st.table|);
    var k := Find(st.table[h], t);
    if k == |st.table[h]| then st else Removed(st, t, h, k)
  }

  /** `ts_free_id` */
  function FreeId(st: State, id: nat): State
    requires id < |st.types|
  {
    st.(table := ReleaseTable(st.table, id),
        types := st.types[id := st.types[id].(done := true)],
        log := st.log + ReleaseEventsBelow(st.types, st.table, |st.table|, id))
  }

  /** A thread ends without `ts_free_thread`: its key is lost, its entry stays. */
  function ThreadDies(st: State, t: Thread): State {
    st.(tls := st.tls - {t})
  }

  /** `tsrm_shutdown` by the main thread. */
  ghost function Shutdown(st: State): State
    requires Within(st.table, |st.types|)
  {
    st.(table := [], tls := map[], log := st.log + FreeEventsBelow(st.types, st.table, |st.table|) + [GiveTables])
  }
}
