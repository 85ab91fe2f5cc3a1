/** Runs of the thread-safe resource manager: any interleaving of its functions,
    each of which holds the mutex, from startup to shutdown. */
module TsrmRuns {
  import opened TsrmSpec
  import opened TsrmSafety
  import opened TsrmSteps

  datatype Call =
    | AllocateIdCall(size: nat, ctor: bool, dtor: bool)
    | AllocateFastIdCall(size: nat, ctor: bool, dtor: bool)
    | ReserveCall(size: nat)
    | ResourceCall(t: Thread)
    | ResourceOfCall(caller: Thread, t: Thread)
    | FreeThreadCall(t: Thread)
    | FreeIdCall(id: nat)
    | DeathOf(t: Thread)

  /** `tsrm_startup` with `expected` buckets and room for `resources` types. */
  function Initial(expected: nat, resources: nat): State {
    State(seq(expected, _ => []), [], resources, {}, 0, 0, 0, map[], 0, [TakeTables])
  }

  /** What the callers owe: a fast id fits the reserved space or is lost inside the table
      of types, space is reserved before anything lives in it, another thread's id is
      used only while it has an entry, and only ids that were handed out are freed. */
  predicate Allowed(st: State, c: Call) {
    match c
    case AllocateFastIdCall(size, _, _) => FastFits(st, size) || st.idCount < st.capacity
    case ReserveCall(_) => Flat(st.table) == [] && forall i :: 0 <= i < |st.types| ==> st.types[i].fast == 0
    case ResourceOfCall(caller, t) =>
      |st.table| > 0 && caller != t && Find(st.table[HashOf(t, |st.table|)], t) < |st.table[HashOf(t, |st.table|)]|
    case FreeIdCall(id) => id < |st.types| && id !in st.skipped
    case _ => true
  }

  ghost function Apply(st: State, c: Call): State
    requires Healthy(st) && Allowed(st, c)
  {
    match c
    case AllocateIdCall(size, ctor, dtor) => AllocateId(st, size, ctor, dtor)
    case AllocateFastIdCall(size, ctor, dtor) => AllocateFastId(st, size, ctor, dtor)
    case ReserveCall(size) => Reserve(st, size)
    case ResourceCall(t) => Resource(st, t)
    case ResourceOfCall(caller, t) => ResourceOf(st, caller, t)
    case FreeThreadCall(t) => FreeThread(st, t)
    case FreeIdCall(id) => FreeId(st, id)
    case DeathOf(t) => ThreadDies(st, t)
  }

  lemma ThreadDiesKeeps(st: State, t: Thread)
    requires Healthy(st)
    ensures Healthy(ThreadDies(st, t))
  {
    forall u | u in (st.tls - {t}) ensures Points(st.table[HashOf(u, |st.table|)], u, (st.tls - {t})[u]) {
      assert u in st.tls;
    }
  }

  lemma ReserveKeeps(st: State, size: nat)
    requires Healthy(st) && Allowed(st, ReserveCall(size))
    ensures Healthy(Reserve(st, size))
  {}

  lemma ApplyKeeps(st: State, c: Call)
    requires Healthy(st) && Allowed(st, c)
    ensures Healthy(Apply(st, c))
  {
    match c
    case AllocateIdCall(size, ctor, dtor) => AllocateIdKeeps(st, size, ctor, dtor);
    case AllocateFastIdCall(size, ctor, dtor) => FastIdKeepsIff(st, size, ctor, dtor);
    case ReserveCall(size) => ReserveKeeps(st, size);
    case ResourceCall(t) => ResourceKeeps(st, t);
    case ResourceOfCall(caller, t) => OtherThreadIff(st, caller, t);
    case FreeThreadCall(t) => FreeThreadKeeps(st, t);
    case FreeIdCall(id) => FreeIdKeeps(st, id);
    case DeathOf(t) => ThreadDiesKeeps(st, t);
  }

  lemma {:induction false} EmptyTableIsFlat(table: seq<seq<Entry>>)
    requires forall h :: 0 <= h < |table| ==> table[h] == []
    ensures Flat(table) == []
  {
    if table != [] {
      EmptyTableIsFlat(table[..|table| - 1]);
    }
  }

  lemma InitialIsHealthy(expected: nat, resources: nat)
    requires expected > 0
    ensures Healthy(Initial(expected, resources))
  {
    var st := Initial(expected, resources);
    EmptyTableIsFlat(st.table);
    forall s, part ensures LifeOk(st.types, Flat(st.table), st.next, st.log, s, part) {
      PhaseOfOne(Fresh, TakeTables, s, part);
    }
  }

  // ---------- Calls that fail ----------

  /** Right after startup, with no space reserved and no room for types, a fast id fails
      and the first entry reads the empty table of types. */
  lemma FastIdFails()
    ensures var st' := AllocateFastId(Initial(1, 0), 1, true, true);
      !Healthy(st') && st'.capacity == 0 && EntryReads(st', 0)
  {
    InitialIsHealthy(1, 0);
    FastIdKeepsIff(Initial(1, 0), 1, true, true);
  }

  /** Right after startup thread 0 fetches by the id of thread 1: its key then points to
      the entry of that thread. */
  lemma OtherThreadFails()
    ensures var st' := ResourceOf(Initial(1, 0), 0, 1);
      !Healthy(st') && 0 in st'.tls && st'.tls[0] == 0
      && |st'.table| == 1 && st'.table[0] == [Entry(0, 1, [])]
  {
    var st := Initial(1, 0);
    assert |st.table| == 1 && st.table[0] == [];
    assert [] + [Entry(0, 1, [])] == [Entry(0, 1, [])];
    InitialIsHealthy(1, 0);
    OtherThreadIff(st, 0, 1);
  }

  // ---------- Whole runs ----------

  /** `run` is what the calls made of the initial state, one state after each. */
  ghost predicate IsRun(expected: nat, resources: nat, calls: seq<Call>, run: seq<State>) {
    && |run| == |calls| + 1 && run[0] == Initial(expected, resources)
    && forall k :: 0 <= k < |calls| ==> Follows(run[k], calls[k], run[k + 1])
  }

  ghost predicate Follows(st: State, c: Call, st': State) {
    Healthy(st) ==> Allowed(st, c) && st' == Apply(st, c)
  }

  lemma {:induction false} RunsAreHealthy(expected: nat, resources: nat, calls: seq<Call>, run: seq<State>, k: nat)
    requires expected > 0 && IsRun(expected, resources, calls, run) && k <= |calls|
    ensures Healthy(run[k])
  {
    if k == 0 {
      InitialIsHealthy(expected, resources);
    } else {
      var j := k - 1;
      RunsAreHealthy(expected, resources, calls, run, j);
      assert Follows(run[j], calls[j], run[j + 1]);
      ApplyKeeps(run[j], calls[j]);
    }
  }

  /** What a caller gets at any moment of any run: its entry has a slot for every id
      that was handed out, null exactly for the ids freed, and a fast slot lies aligned
      inside the entry's reserved space. */
  lemma SlotsAreLive(expected: nat, resources: nat, calls: seq<Call>, run: seq<State>, n: nat, h: nat, k: nat, i: nat)
    requires expected > 0 && IsRun(expected, resources, calls, run) && n <= |calls|
    requires h < |run[n].table| && k < |run[n].table[h]|
    ensures var st := run[n]; var e := st.table[h][k];
      && |e.storage| <= st.idCount == |st.types|
      && (|e.storage| <= i < st.idCount ==> i in st.skipped)
      && (i < |e.storage| ==> (e.storage[i] == Null <==> st.types[i].done))
      && (i < |e.storage| && e.storage[i].Inside? ==> 32 <= e.storage[i].offset && e.storage[i].offset % 16 == 0)
      && (i < |e.storage| && e.storage[i].Inside? ==>
            e.storage[i].offset + st.types[i].size <= 32 + st.reservedSize)
  {
    RunsAreHealthy(expected, resources, calls, run, n);
    StorageOf(run[n], h, k);
  }

  lemma StorageOf(st: State, h: nat, k: nat)
    requires Healthy(st) && h < |st.table| && k < |st.table[h]|
    ensures StorageOk(st.types, st.skipped, st.table[h][k].storage)
    ensures forall i :: 0 <= i < |st.table[h][k].storage| ==>
      st.table[h][k].storage[i] == if st.types[i].done then Null else MakeSlot(st.types[i])
  {
    FlatSplit(st.table, h, k);
    assert Flat(st.table)[|Before(st.table, h, k)|] == st.table[h][k];
    NewStorageSlots(st.types, |st.table[h][k].storage|);
  }

  /** And no two fast slots of an entry overlap. */
  lemma FastSlotsAreApart(expected: nat, resources: nat, calls: seq<Call>, run: seq<State>, n: nat, h: nat, k: nat,
                          i: nat, j: nat)
    requires expected > 0 && IsRun(expected, resources, calls, run) && n <= |calls|
    requires h < |run[n].table| && k < |run[n].table[h]| && i < j < |run[n].table[h][k].storage|
    ensures var st := run[n]; var e := st.table[h][k];
      && |e.storage| <= |st.types|
      && (e.storage[i].Inside? && e.storage[j].Inside? ==>
          e.storage[i].offset + st.types[i].size <= e.storage[j].offset)
  {
    RunsAreHealthy(expected, resources, calls, run, n);
    StorageOf(run[n], h, k);
  }

  // ---------- What the log says of a part ----------

  function Beginnings(log: seq<Event>, serial: nat, part: Part): nat {
    if log == [] then 0
    else
      var before, ev := Beginnings(log[..|log| - 1], serial, part), log[|log| - 1];
      if About(ev, serial, part) && Begins(ev) then before + 1 else before
  }

  function Endings(log: seq<Event>, serial: nat, part: Part): nat {
    if log == [] then 0
    else
      var before, ev := Endings(log[..|log| - 1], serial, part), log[|log| - 1];
      if About(ev, serial, part) && !Begins(ev) then before + 1 else before
  }

  lemma {:induction false} PhaseCounts(log: seq<Event>, serial: nat, part: Part)
    requires PhaseOf(log, serial, part) != Broken
    ensures Beginnings(log, serial, part) == (if PhaseOf(log, serial, part) == Fresh then 0 else 1)
    ensures Endings(log, serial, part) == (if PhaseOf(log, serial, part) == Gone then 1 else 0)
  {
    if log != [] {
      PhaseCounts(log[..|log| - 1], serial, part);
    }
  }

  lemma PrefixPhase(log: seq<Event>, n: nat, serial: nat, part: Part)
    requires n <= |log| && PhaseOf(log, serial, part) != Broken
    ensures PhaseOf(log[..n], serial, part) != Broken
  {
    assert log == log[..n] + log[n..];
    PhaseConcat(Fresh, log[..n], log[n..], serial, part);
    if PhaseOf(log[..n], serial, part) == Broken {
      BrokenStays(log[n..], serial, part);
    }
  }

  lemma {:induction false} BrokenStays(log: seq<Event>, serial: nat, part: Part)
    ensures PhaseFrom(Broken, log, serial, part) == Broken
  {
    if log != [] {
      BrokenStays(log[..|log| - 1], serial, part);
    }
  }

  /** At every moment of every run an instance has been constructed, and an entry or its
      storage allocated, at most once, and ended no more often than begun; it is there
      exactly when its entry is in the table and long enough, and its id is not freed. */
  lemma PartsLiveOnce(expected: nat, resources: nat, calls: seq<Call>, run: seq<State>, k: nat, serial: nat, part: Part,
                      n: nat)
    requires expected > 0 && IsRun(expected, resources, calls, run) && k <= |calls| && n <= |run[k].log|
    ensures Endings(run[k].log[..n], serial, part) <= Beginnings(run[k].log[..n], serial, part) <= 1
    ensures Beginnings(run[k].log, serial, part) - Endings(run[k].log, serial, part)
         == if part == Tables || Alive(run[k].types, Flat(run[k].table), serial, part) then 1 else 0
  {
    RunsAreHealthy(expected, resources, calls, run, k);
    var st := run[k];
    assert LifeOk(st.types, Flat(st.table), st.next, st.log, serial, part);
    PhaseCounts(st.log, serial, part);
    PrefixPhase(st.log, n, serial, part);
    PhaseCounts(st.log[..n], serial, part);
  }

  lemma ShutdownFlat(st: State)
    requires Healthy(st)
    ensures Within(st.table, |st.types|) && AllWithin(Flat(st.table), |st.types|)
    ensures Shutdown(st).log == st.log + FreeChainEvents(st.types, Flat(st.table)) + [GiveTables]
  {
    assert st.table[..|st.table|] == st.table;
    assert forall h, k :: 0 <= h < |st.table| && 0 <= k < |st.table[h]| ==>
      Covers(st.table[h][k], st.idCount, st.skipped);
    FlatWithin(st.table, |st.table|, |st.types|);
    FreeEventsBelowAreFlat(st.types, st.table, |st.table|);
  }

  lemma ShutdownPhase(st: State, serial: nat, part: Part)
    requires Healthy(st)
    ensures Within(st.table, |st.types|)
    ensures PhaseOf(Shutdown(st).log, serial, part) in {Fresh, Gone}
  {
    var list := Flat(st.table);
    ShutdownFlat(st);
    assert LifeOk(st.types, list, st.next, st.log, serial, part);
    var middle := st.log + FreeChainEvents(st.types, list);
    PhaseConcat(Fresh, middle, [GiveTables], serial, part);
    PhaseConcat(Fresh, st.log, FreeChainEvents(st.types, list), serial, part);
    FreeChainEventsPhase(st.types, list, PhaseOf(st.log, serial, part), serial, part);
    PhaseOfOne(PhaseOf(middle, serial, part), GiveTables, serial, part);
  }

  /** After shutdown all that was begun has ended, once: the instances, the storages, the
      entries and the tables; what owned a block has had that block freed. */
  lemma ShutdownLeavesNothing(expected: nat, resources: nat, calls: seq<Call>, run: seq<State>, serial: nat, part: Part)
    requires expected > 0 && IsRun(expected, resources, calls, run)
    ensures var st := run[|calls|];
      && Within(st.table, |st.types|)
      && Beginnings(Shutdown(st).log, serial, part) == Endings(Shutdown(st).log, serial, part) <= 1
      && EventsFit(st.types, Shutdown(st).log)
  {
    RunsAreHealthy(expected, resources, calls, run, |calls|);
    var st := run[|calls|];
    var list := Flat(st.table);
    ShutdownFlat(st);
    ShutdownPhase(st, serial, part);
    PhaseCounts(Shutdown(st).log, serial, part);
    FreeChainEventsFit(st.types, list);
    EventsFitConcat(st.types, st.log, FreeChainEvents(st.types, list));
  }

  lemma {:induction false} FreeChainEventsFit(types: seq<ResourceType>, list: seq<Entry>)
    requires AllWithin(list, |types|)
    ensures EventsFit(types, FreeChainEvents(types, list))
  {
    if list != [] {
      var e := list[|list| - 1];
      FreeChainEventsFit(types, list[..|list| - 1]);
      EntryEventsFit(types, e.serial, |e.storage|);
      EventsFitConcat(types, FreeChainEvents(types, list[..|list| - 1]), EntryFreed(types, e.serial, |e.storage|));
    }
  }
}
