/** What the calls of a run alone say about its later states: every id keeps the size,
    the hooks and the place it was asked for, and every thread has the entry it is due. */
module TsrmCalls {
  import opened TsrmSpec
  import opened TsrmSafety
  import opened TsrmSteps
  import opened TsrmRuns

  lemma RunGoesOn(expected: nat, resources: nat, calls: seq<Call>, run: seq<State>, k: nat)
    requires expected > 0 && IsRun(expected, resources, calls, run) && k < |calls|
    ensures Healthy(run[k]) && Allowed(run[k], calls[k]) && run[k + 1] == Apply(run[k], calls[k])
  {
    RunsAreHealthy(expected, resources, calls, run, k);
    assert Follows(run[k], calls[k], run[k + 1]);
  }

  // ---------- Types ----------

  /** The same type, but for having been freed. */
  predicate SameType(r: ResourceType, r': ResourceType) {
    r.size == r'.size && r.ctor == r'.ctor && r.dtor == r'.dtor && r.fast == r'.fast
  }

  /** A call leaves the type of an id as it is, and frees the one it is about. */
  lemma CallKeepsType(st: State, c: Call, id: nat)
    requires Healthy(st) && Allowed(st, c) && id < |st.types|
    ensures id < |Apply(st, c).types| && SameType(st.types[id], Apply(st, c).types[id])
    ensures Apply(st, c).types[id].done <==> st.types[id].done || c == FreeIdCall(id)
  {}

  lemma TypeNext(expected: nat, resources: nat, calls: seq<Call>, run: seq<State>, k: nat, id: nat)
    requires expected > 0 && IsRun(expected, resources, calls, run) && k < |calls| && id < |run[k].types|
    ensures id < |run[k + 1].types| && SameType(run[k].types[id], run[k + 1].types[id])
    ensures run[k + 1].types[id].done <==> run[k].types[id].done || calls[k] == FreeIdCall(id)
  {
    RunGoesOn(expected, resources, calls, run, k);
    CallKeepsType(run[k], calls[k], id);
  }

  ghost predicate FreedBetween(calls: seq<Call>, k: nat, n: nat, id: nat) {
    exists m :: k <= m < n && m < |calls| && calls[m] == FreeIdCall(id)
  }

  lemma FreedNext(calls: seq<Call>, k: nat, n: nat, id: nat)
    requires k <= n < |calls|
    ensures FreedBetween(calls, k, n + 1, id) <==> FreedBetween(calls, k, n, id) || calls[n] == FreeIdCall(id)
  {}

  lemma {:induction false} TypesLast(expected: nat, resources: nat, calls: seq<Call>, run: seq<State>, k: nat, n: nat,
                                     id: nat)
    requires expected > 0 && IsRun(expected, resources, calls, run) && k <= n <= |calls| && id < |run[k].types|
    ensures id < |run[n].types| && SameType(run[k].types[id], run[n].types[id])
    ensures run[n].types[id].done <==> run[k].types[id].done || FreedBetween(calls, k, n, id)
  {
    if k < n {
      TypesLast(expected, resources, calls, run, k, n - 1, id);
      TypeNext(expected, resources, calls, run, n - 1, id);
      FreedNext(calls, k, n - 1, id);
    }
  }

  /** Every event on the instances of `id`: whether it comes with a block of its own, and
      whether the hook is called. */
  ghost predicate HooksOf(log: seq<Event>, id: nat, own: bool, ctor: bool, dtor: bool) {
    && (forall n :: 0 <= n < |log| && log[n].Construct? && log[n].id == id ==> log[n].own == own && log[n].hook == ctor)
    && (forall n :: 0 <= n < |log| && log[n].Destroy? && log[n].id == id ==> log[n].own == own && log[n].hook == dtor)
  }

  /** What holds of an id and its instances in a state, also if it is shut down. */
  ghost predicate Serves(st: State, id: nat, size: nat, ctor: bool, dtor: bool, slot: Slot) {
    && id < |st.types| && st.types[id].size == size && st.types[id].ctor == ctor && st.types[id].dtor == dtor
    && HooksOf(st.log, id, slot == Own, ctor, dtor)
    && Within(st.table, |st.types|) && HooksOf(Shutdown(st).log, id, slot == Own, ctor, dtor)
    && (forall h, k :: 0 <= h < |st.table| && 0 <= k < |st.table[h]| && id < |st.table[h][k].storage| ==>
          st.table[h][k].storage[id] == if st.types[id].done then Null else slot)
  }

  /** What shutdown frees and destroys fits the types too. */
  lemma ShutdownFits(st: State)
    requires Healthy(st)
    ensures Within(st.table, |st.types|)
    ensures forall n :: 0 <= n < |Shutdown(st).log| ==> EventFits(st.types, Shutdown(st).log[n])
  {
    var list := Flat(st.table);
    ShutdownFlat(st);
    FreeChainEventsFit(st.types, list);
    EventsFitConcat(st.types, st.log, FreeChainEvents(st.types, list));
  }

  lemma TypeServes(st: State, id: nat, r: ResourceType)
    requires Healthy(st) && id < |st.types| && SameType(st.types[id], r)
    ensures Serves(st, id, r.size, r.ctor, r.dtor, if r.fast == 0 then Own else Inside(r.fast))
  {
    forall n | 0 <= n < |st.log| ensures EventFits(st.types, st.log[n]) {
    }
    ShutdownFits(st);
    forall h, k | 0 <= h < |st.table| && 0 <= k < |st.table[h]| && id < |st.table[h][k].storage|
      ensures st.table[h][k].storage[id]
           == if st.types[id].done then Null else if r.fast == 0 then Own else Inside(r.fast)
    {
      StorageOf(st, h, k);
    }
  }

  /** At any time after `ts_allocate_id` its id has that size and those hooks, every
      instance has a block of its own and was or will be constructed and destroyed with
      those hooks, and the slots are null exactly once `ts_free_id` was called for it. */
  lemma IdServesItsCall(expected: nat, resources: nat, calls: seq<Call>, run: seq<State>, k: nat, n: nat, size: nat,
                        ctor: bool, dtor: bool)
    requires expected > 0 && IsRun(expected, resources, calls, run) && k < n <= |calls|
    requires calls[k] == AllocateIdCall(size, ctor, dtor)
    ensures var id := run[k].idCount;
      && Serves(run[n], id, size, ctor, dtor, Own)
      && (run[n].types[id].done <==> FreedBetween(calls, k + 1, n, id))
  {
    var id := run[k].idCount;
    RunGoesOn(expected, resources, calls, run, k);
    RunsAreHealthy(expected, resources, calls, run, n);
    assert run[k + 1].types[id] == ResourceType(size, ctor, dtor, 0, false);
    TypesLast(expected, resources, calls, run, k + 1, n, id);
    TypeServes(run[n], id, run[k + 1].types[id]);
  }

  /** `a` is the size rounded up to the alignment of 16. */
  predicate RoundedUp(size: nat, a: nat) { a % 16 == 0 && size <= a < size + 16 }

  lemma RoundedUpIs(size: nat, a: nat)
    requires RoundedUp(size, a)
    ensures AlignedSize(size) == a
  {}

  /** The same for `ts_allocate_fast_id` when the size fits what is left of the reserved
      space: the instances lie there, behind the header of the entry. */
  lemma FastIdServesItsCall(expected: nat, resources: nat, calls: seq<Call>, run: seq<State>, k: nat, n: nat, size: nat,
                            ctor: bool, dtor: bool, a: nat)
    requires expected > 0 && IsRun(expected, resources, calls, run) && k < n <= |calls|
    requires calls[k] == AllocateFastIdCall(size, ctor, dtor) && RoundedUp(size, a)
    requires run[k].reservedPos + a <= run[k].reservedSize
    ensures var id := run[k].idCount;
      && Serves(run[n], id, a, ctor, dtor, Inside(32 + run[k].reservedPos))
      && (run[n].types[id].done <==> FreedBetween(calls, k + 1, n, id))
      && run[k + 1].reservedPos == run[k].reservedPos + a
  {
    var id := run[k].idCount;
    RoundedUpIs(size, a);
    RunGoesOn(expected, resources, calls, run, k);
    RunsAreHealthy(expected, resources, calls, run, n);
    assert run[k + 1].types[id] == ResourceType(a, ctor, dtor, 32 + run[k].reservedPos, false);
    TypesLast(expected, resources, calls, run, k + 1, n, id);
    TypeServes(run[n], id, run[k + 1].types[id]);
  }

  /** A fast id that does not fit is lost: no instance of it has a hook or a block inside
      the entry, and it is never handed out. */
  lemma LostIdServesNobody(expected: nat, resources: nat, calls: seq<Call>, run: seq<State>, k: nat, n: nat, size: nat,
                           ctor: bool, dtor: bool, a: nat)
    requires expected > 0 && IsRun(expected, resources, calls, run) && k < n <= |calls|
    requires calls[k] == AllocateFastIdCall(size, ctor, dtor) && RoundedUp(size, a)
    requires run[k].reservedPos + a > run[k].reservedSize
    ensures var id := run[k].idCount; Serves(run[n], id, 0, false, false, Own) && id in run[n].skipped
    ensures run[k + 1].reservedPos == run[k].reservedPos && run[k + 1].table == run[k].table
  {
    var id := run[k].idCount;
    RoundedUpIs(size, a);
    RunGoesOn(expected, resources, calls, run, k);
    RunsAreHealthy(expected, resources, calls, run, n);
    assert run[k + 1].types[id] == ResourceType(0, false, false, 0, false);
    TypesLast(expected, resources, calls, run, k + 1, n, id);
    TypeServes(run[n], id, run[k + 1].types[id]);
    SkippedLast(expected, resources, calls, run, k + 1, n, id);
  }

  lemma CallKeepsSkipped(st: State, c: Call, id: nat)
    requires Healthy(st) && Allowed(st, c) && id in st.skipped
    ensures id in Apply(st, c).skipped
  {}

  lemma SkippedNext(expected: nat, resources: nat, calls: seq<Call>, run: seq<State>, k: nat, id: nat)
    requires expected > 0 && IsRun(expected, resources, calls, run) && k < |calls| && id in run[k].skipped
    ensures id in run[k + 1].skipped
  {
    RunGoesOn(expected, resources, calls, run, k);
    CallKeepsSkipped(run[k], calls[k], id);
  }

  lemma {:induction false} SkippedLast(expected: nat, resources: nat, calls: seq<Call>, run: seq<State>, k: nat, n: nat,
                                       id: nat)
    requires expected > 0 && IsRun(expected, resources, calls, run) && k <= n <= |calls| && id in run[k].skipped
    ensures id in run[n].skipped
  {
    if k < n {
      SkippedLast(expected, resources, calls, run, k, n - 1, id);
      SkippedNext(expected, resources, calls, run, n - 1, id);
    }
  }

  /** `tsrm_reserve` sets the space aside; no other call but a fast id uses it. */
  lemma ReservedSpace(expected: nat, resources: nat, calls: seq<Call>, run: seq<State>, k: nat)
    requires expected > 0 && IsRun(expected, resources, calls, run) && k < |calls|
    ensures calls[k].ReserveCall? ==> run[k + 1].reservedPos == 0 && RoundedUp(calls[k].size, run[k + 1].reservedSize)
    ensures !calls[k].ReserveCall? ==> run[k + 1].reservedSize == run[k].reservedSize
    ensures !calls[k].ReserveCall? && !calls[k].AllocateFastIdCall? ==> run[k + 1].reservedPos == run[k].reservedPos
    ensures run[0].reservedPos == run[0].reservedSize == 0
  {
    RunGoesOn(expected, resources, calls, run, k);
  }

  /** The buckets stay as many as were asked for, and the table of types as large until
      the ids outgrow it. */
  lemma TablesKeepTheirSize(expected: nat, resources: nat, calls: seq<Call>, run: seq<State>, k: nat)
    requires expected > 0 && IsRun(expected, resources, calls, run) && k < |calls|
    ensures |run[0].table| == expected && run[0].capacity == resources
    ensures |run[k + 1].table| == |run[k].table|
    ensures run[k + 1].capacity
         == if run[k].capacity < run[k + 1].idCount then run[k + 1].idCount else run[k].capacity
  {
    RunGoesOn(expected, resources, calls, run, k);
  }

  /** Each id is one more than the last, whether it is lost or not. */
  lemma IdsAscend(expected: nat, resources: nat, calls: seq<Call>, run: seq<State>, k: nat)
    requires expected > 0 && IsRun(expected, resources, calls, run) && k < |calls|
    ensures run[0].idCount == 0
    ensures run[k + 1].idCount
         == if calls[k].AllocateIdCall? || calls[k].AllocateFastIdCall? then run[k].idCount + 1 else run[k].idCount
  {
    RunGoesOn(expected, resources, calls, run, k);
  }

  // ---------- Entries ----------

  /** The table has an entry of the thread with that serial. */
  ghost predicate HasEntryOf(table: seq<seq<Entry>>, t: Thread, serial: nat) {
    exists h, k :: EntryAt(table, h, k, t, serial)
  }

  ghost predicate EntryAt(table: seq<seq<Entry>>, h: int, k: int, t: Thread, serial: nat) {
    0 <= h < |table| && 0 <= k < |table[h]| && table[h][k].thread == t && table[h][k].serial == serial
  }

  lemma EntryIsInItsChain(table: seq<seq<Entry>>, t: Thread, serial: nat)
    requires |table| > 0 && ChainsOk(table)
    ensures HasEntryOf(table, t, serial) <==> Points(table[HashOf(t, |table|)], t, serial)
  {
    var g := HashOf(t, |table|);
    if HasEntryOf(table, t, serial) {
      var h, k :| EntryAt(table, h, k, t, serial);
      assert HashOf(table[h][k].thread, |table|) == h;
    }
    if Points(table[g], t, serial) {
      var k :| 0 <= k < |table[g]| && table[g][k].thread == t && table[g][k].serial == serial;
      assert EntryAt(table, g, k, t, serial);
    }
  }

  /** A chain in which the entry of `t`, at `k` or missing, gives way to `c`. */
  lemma PointsBefore(chain: seq<Entry>, k: nat, c: seq<Entry>, chain': seq<Entry>, t: Thread, u: Thread, serial: nat)
    requires k == Find(chain, t) && ThreadsDistinct(chain) && |c| <= 1 && (c != [] ==> c[0].thread == t)
    requires chain' == chain[..k] + c + if k < |chain| then chain[k + 1..] else []
    requires Points(chain', u, serial)
    ensures if u == t then c != [] && c[0].serial == serial else Points(chain, u, serial)
  {
    var l :| 0 <= l < |chain'| && chain'[l].thread == u && chain'[l].serial == serial;
    if l < k {
      assert chain'[l] == chain[l];
    } else if l < k + |c| {
      assert chain'[l] == c[0];
    } else {
      var m := l - |c| + 1;
      assert chain'[l] == chain[m] && chain[m].thread != chain[k].thread;
    }
  }

  lemma PointsAfter(chain: seq<Entry>, k: nat, c: seq<Entry>, chain': seq<Entry>, t: Thread, u: Thread, serial: nat)
    requires k == Find(chain, t) && ThreadsDistinct(chain) && |c| <= 1 && (c != [] ==> c[0].thread == t)
    requires chain' == chain[..k] + c + if k < |chain| then chain[k + 1..] else []
    ensures Points(chain', u, serial) <==> if u == t then c != [] && c[0].serial == serial else Points(chain, u, serial)
  {
    if Points(chain', u, serial) {
      PointsBefore(chain, k, c, chain', t, u, serial);
    }
    if u == t && c != [] && c[0].serial == serial {
      assert chain'[k] == c[0];
    }
    if u != t && Points(chain, u, serial) {
      PointsKept(chain, k, c, u, serial);
    }
  }

  /** The same for the table whose chain it is. */
  lemma EntriesAfter(table: seq<seq<Entry>>, h: nat, k: nat, c: seq<Entry>, table': seq<seq<Entry>>, t: Thread,
                     u: Thread, serial: nat)
    requires |table| > 0 && ChainsOk(table) && ChainsOk(table') && h == HashOf(t, |table|) && k == Find(table[h], t)
    requires |c| <= 1 && (c != [] ==> c[0].thread == t)
    requires table' == table[h := table[h][..k] + c + if k < |table[h]| then table[h][k + 1..] else []]
    ensures HasEntryOf(table', u, serial)
       <==> if u == t then c != [] && c[0].serial == serial else HasEntryOf(table, u, serial)
  {
    EntryIsInItsChain(table, u, serial);
    EntryIsInItsChain(table', u, serial);
    if HashOf(u, |table|) == h {
      PointsAfter(table[h], k, c, table'[h], t, u, serial);
    }
  }

  /** `ts_free_thread` frees the entry of its thread and no other. */
  lemma FreeThreadFreesItsEntry(st: State, t: Thread, u: Thread, serial: nat)
    requires Healthy(st)
    ensures HasEntryOf(FreeThread(st, t).table, u, serial) <==> HasEntryOf(st.table, u, serial) && u != t
    ensures FreeThread(st, t).tls == st.tls - {t}
  {
    var h := HashOf(t, |st.table|);
    var k := Find(st.table[h], t);
    FreeThreadKeeps(st, t);
    if k < |st.table[h]| {
      assert st.table[h][..k] + [] + st.table[h][k + 1..] == st.table[h][..k] + st.table[h][k + 1..];
    } else {
      assert st.table[h][..k] + [] + [] == st.table[h];
    }
    EntriesAfter(st.table, h, k, [], FreeThread(st, t).table, t, u, serial);
  }

  /** Linked last or in the place of a stale one, the new entry is the only one of `t`. */
  lemma NewEntryIsOnly(st: State, st': State, t: Thread, h: nat, k: nat, e: Entry, u: Thread, serial: nat)
    requires |st.table| > 0 && ChainsOk(st.table) && ChainsOk(st'.table) && e.thread == t
    requires h == HashOf(t, |st.table|) && k == Find(st.table[h], t)
    requires st'.table == st.table[h := if k < |st.table[h]| then st.table[h][k := e] else st.table[h] + [e]]
    ensures HasEntryOf(st'.table, u, serial) <==> if u == t then serial == e.serial else HasEntryOf(st.table, u, serial)
  {
    if k < |st.table[h]| {
      assert st.table[h][..k] + [e] + st.table[h][k + 1..] == st.table[h][k := e];
    } else {
      assert st.table[h][..k] + [e] + [] == st.table[h] + [e];
    }
    EntriesAfter(st.table, h, k, [e], st'.table, t, u, serial);
  }

  /** `ts_resource_ex` leaves its thread with the entry that its key points to: the one it
      has, or a new one, and then none of an earlier thread with the same id is left.  It
      touches no other thread's. */
  lemma ResourceGivesAnEntry(st: State, t: Thread, u: Thread, serial: nat)
    requires Healthy(st)
    ensures var st' := Resource(st, t);
      && t in st'.tls && st'.tls == st.tls[t := if t in st.tls then st.tls[t] else st.next]
      && (HasEntryOf(st'.table, u, serial) <==>
          if u == t then serial == st'.tls[t] else HasEntryOf(st.table, u, serial))
      && !HasEntryOf(st.table, u, st.next)
  {
    var h := HashOf(t, |st.table|);
    ResourceKeeps(st, t);
    NextIsNew(st, u);
    if t in st.tls {
      KeyIsWalk(st, t);
      EntryIsInItsChain(st.table, t, serial);
      OnlyOneEntry(st.table[h], t, serial);
      assert st.tls[t := st.tls[t]] == st.tls;
    } else {
      NewEntryIsOnly(st, Resource(st, t), t, h, Find(st.table[h], t), NewEntry(st, t), u, serial);
    }
  }

  lemma OnlyOneEntry(chain: seq<Entry>, t: Thread, serial: nat)
    requires ThreadsDistinct(chain) && Find(chain, t) < |chain|
    ensures Points(chain, t, serial) <==> chain[Find(chain, t)].serial == serial
  {
    if Points(chain, t, serial) {
      var k :| 0 <= k < |chain| && chain[k].thread == t && chain[k].serial == serial;
      FindIsTheOnly(chain, k);
    }
  }

  lemma NextIsNew(st: State, u: Thread)
    requires Healthy(st)
    ensures !HasEntryOf(st.table, u, st.next)
  {
    forall h, k | 0 <= h < |st.table| && 0 <= k < |st.table[h]| ensures st.table[h][k].serial < st.next {
      FlatSplit(st.table, h, k);
      assert Flat(st.table)[|Before(st.table, h, k)|] == st.table[h][k];
    }
  }

  /** `ts_free_id` frees its id and no other, and no entry. */
  lemma FreeIdFreesItsId(st: State, id: nat, j: nat, u: Thread, serial: nat)
    requires Healthy(st) && id < |st.types| && id !in st.skipped && j < |st.types|
    ensures var st' := FreeId(st, id);
      && |st'.types| == |st.types| && SameType(st.types[j], st'.types[j])
      && (st'.types[j].done <==> st.types[j].done || j == id)
      && (HasEntryOf(st'.table, u, serial) <==> HasEntryOf(st.table, u, serial)) && st'.tls == st.tls
  {
    var table' := FreeId(st, id).table;
    forall h, k ensures EntryAt(table', h, k, u, serial) <==> EntryAt(st.table, h, k, u, serial) {
    }
  }
}
