/** Every function of the manager keeps the state healthy; over any run each
    resource instance is constructed at most once and destroyed exactly once. */
module TsrmSteps {
  import opened Sequences
  import opened TsrmSpec
  import opened TsrmSafety

  // ---------- What the loops over the table log ----------

  lemma FlatNext(table: seq<seq<Entry>>, h: nat)
    requires h < |table|
    ensures Flat(table[..h + 1]) == Flat(table[..h]) + table[h]
  {
    assert table[..h + 1][..h] == table[..h];
  }

  lemma {:induction false} GrowEventsConcat(types: seq<ResourceType>, a: seq<Entry>, b: seq<Entry>, n: nat)
    requires n <= |types|
    ensures GrowChainEvents(types, a + b, n) == GrowChainEvents(types, a, n) + GrowChainEvents(types, b, n)
  {
    if b == [] {
      assert a + b == a;
    } else {
      var e := b[|b| - 1];
      assert (a + b)[..|a + b| - 1] == a + b[..|b| - 1];
      GrowEventsConcat(types, a, b[..|b| - 1], n);
      Associate(GrowChainEvents(types, a, n), GrowChainEvents(types, b[..|b| - 1], n),
                EntryGrown(types, e.serial, |e.storage|, n));
    }
  }

  lemma {:induction false} GrowEventsBelowAreFlat(types: seq<ResourceType>, table: seq<seq<Entry>>, h: nat, n: nat)
    requires n <= |types| && h <= |table|
    ensures GrowEventsBelow(types, table, h, n) == GrowChainEvents(types, Flat(table[..h]), n)
  {
    if h > 0 {
      GrowEventsBelowAreFlat(types, table, h - 1, n);
      FlatNext(table, h - 1);
      GrowEventsConcat(types, Flat(table[..h - 1]), table[h - 1], n);
    }
  }

  lemma {:induction false} ReleaseEventsConcat(types: seq<ResourceType>, a: seq<Entry>, b: seq<Entry>, id: nat)
    requires id < |types|
    ensures ReleaseChainEvents(types, a + b, id) == ReleaseChainEvents(types, a, id) + ReleaseChainEvents(types, b, id)
  {
    if b == [] {
      assert a + b == a;
    } else {
      assert (a + b)[..|a + b| - 1] == a + b[..|b| - 1];
      ReleaseEventsConcat(types, a, b[..|b| - 1], id);
    }
  }

  lemma {:induction false} ReleaseEventsBelowAreFlat(types: seq<ResourceType>, table: seq<seq<Entry>>, h: nat, id: nat)
    requires id < |types| && h <= |table|
    ensures ReleaseEventsBelow(types, table, h, id) == ReleaseChainEvents(types, Flat(table[..h]), id)
  {
    if h > 0 {
      ReleaseEventsBelowAreFlat(types, table, h - 1, id);
      FlatNext(table, h - 1);
      ReleaseEventsConcat(types, Flat(table[..h - 1]), table[h - 1], id);
    }
  }

  lemma {:induction false} FreeChainConcat(types: seq<ResourceType>, a: seq<Entry>, b: seq<Entry>)
    requires AllWithin(a, |types|) && AllWithin(b, |types|)
    ensures FreeChainEvents(types, a + b) == FreeChainEvents(types, a) + FreeChainEvents(types, b)
  {
    if b == [] {
      assert a + b == a;
    } else {
      var e := b[|b| - 1];
      assert (a + b)[..|a + b| - 1] == a + b[..|b| - 1];
      FreeChainConcat(types, a, b[..|b| - 1]);
      Associate(FreeChainEvents(types, a), FreeChainEvents(types, b[..|b| - 1]),
                EntryFreed(types, e.serial, |e.storage|));
    }
  }

  lemma {:induction false} FlatWithin(table: seq<seq<Entry>>, h: nat, n: nat)
    requires h <= |table| && Within(table, n)
    ensures AllWithin(Flat(table[..h]), n)
  {
    if h > 0 {
      FlatNext(table, h - 1);
      FlatWithin(table, h - 1, n);
    }
  }

  lemma {:induction false} FreeEventsBelowAreFlat(types: seq<ResourceType>, table: seq<seq<Entry>>, h: nat)
    requires h <= |table| && Within(table, |types|) && AllWithin(Flat(table[..h]), |types|)
    ensures FreeEventsBelow(types, table, h) == FreeChainEvents(types, Flat(table[..h]))
  {
    if h > 0 {
      var flat := Flat(table[..h - 1]);
      FlatNext(table, h - 1);
      FlatWithin(table, h - 1, |types|);
      FreeEventsBelowAreFlat(types, table, h - 1);
      FreeChainConcat(types, flat, table[h - 1]);
      assert FreeChainEvents(types, flat + table[h - 1])
          == FreeEventsBelow(types, table, h - 1) + FreeChainEvents(types, table[h - 1]);
    }
  }

  // ---------- A new resource id ----------

  lemma {:induction false} NewStoragePrefix(types: seq<ResourceType>, r: ResourceType, n: nat)
    requires n <= |types|
    ensures NewStorage(types + [r], n) == NewStorage(types, n)
  {
    if n > 0 {
      NewStoragePrefix(types, r, n - 1);
    }
  }

  /** An entry that lacks ids enlarged has the storage a new one gets, unless one of
      them is done: the loop does not look. */
  lemma {:induction false} GrownIsNew(types: seq<ResourceType>, m: nat, n: nat)
    requires m <= n <= |types| && forall i :: m <= i < n ==> !types[i].done
    ensures GrownStorage(types, NewStorage(types, m), n) == NewStorage(types, n)
    decreases n
  {
    if m < n {
      GrownIsNew(types, m, n - 1);
    }
  }

  lemma GrowChainConcat(types: seq<ResourceType>, a: seq<Entry>, b: seq<Entry>, n: nat)
    requires n <= |types|
    ensures GrowChain(types, a + b, n) == GrowChain(types, a, n) + GrowChain(types, b, n)
  {}

  lemma {:induction false} FlatGrow(types: seq<ResourceType>, table: seq<seq<Entry>>, n: nat)
    requires n <= |types|
    ensures Flat(GrowTable(types, table, n)) == GrowChain(types, Flat(table), n)
  {
    if table != [] {
      FlatGrow(types, table[..|table| - 1], n);
      assert GrowTable(types, table, n)[..|table| - 1] == GrowTable(types, table[..|table| - 1], n);
      GrowChainConcat(types, Flat(table[..|table| - 1]), table[|table| - 1], n);
    }
  }

  /** Two lists whose entries differ in their storages only. */
  ghost predicate SameOwners(a: seq<Entry>, b: seq<Entry>) {
    |a| == |b| && forall k :: 0 <= k < |a| ==> a[k].thread == b[k].thread && a[k].serial == b[k].serial
  }

  lemma SameOwnersSerials(a: seq<Entry>, b: seq<Entry>, serial: nat)
    requires SameOwners(a, b)
    ensures HasSerial(a, serial) <==> HasSerial(b, serial)
  {
    if HasSerial(a, serial) {
      var k :| 0 <= k < |a| && a[k].serial == serial;
      assert b[k].serial == serial;
    }
    if HasSerial(b, serial) {
      var k :| 0 <= k < |b| && b[k].serial == serial;
      assert a[k].serial == serial;
    }
  }

  ghost predicate SameTables(a: seq<seq<Entry>>, b: seq<seq<Entry>>) {
    |a| == |b| && forall h :: 0 <= h < |a| ==> SameOwners(a[h], b[h])
  }

  lemma SameOwnersKeep(a: seq<Entry>, b: seq<Entry>, h: nat, size: nat)
    requires SameOwners(a, b) && size > 0 && ThreadsHashTo(a, h, size) && ThreadsDistinct(a)
    ensures ThreadsHashTo(b, h, size) && ThreadsDistinct(b)
  {
    forall k, l | 0 <= k < l < |b| ensures b[k].thread != b[l].thread {
      assert a[k].thread != a[l].thread;
    }
  }

  lemma SameTablesKeep(a: seq<seq<Entry>>, b: seq<seq<Entry>>, tls: map<Thread, nat>)
    requires |a| > 0 && SameTables(a, b) && ChainsOk(a) && KeysAgree(a, tls)
    ensures ChainsOk(b) && KeysAgree(b, tls)
  {
    forall t | t in tls ensures Points(b[HashOf(t, |b|)], t, tls[t]) {
      var h := HashOf(t, |a|);
      assert Points(a[h], t, tls[t]);
      var k :| 0 <= k < |a[h]| && a[h][k].thread == t && a[h][k].serial == tls[t];
      assert SameOwners(a[h], b[h]);
      assert b[h][k].thread == t && b[h][k].serial == tls[t];
    }
    forall h | 0 <= h < |b| ensures ThreadsHashTo(b[h], h, |b|) && ThreadsDistinct(b[h]) {
      SameOwnersKeep(a[h], b[h], h, |a|);
    }
  }

  /** A list whose entries all have `n` slots. */
  ghost predicate Full(list: seq<Entry>, n: nat) { forall k :: 0 <= k < |list| ==> |list[k].storage| == n }

  lemma FullHolds(list: seq<Entry>, n: nat, serial: nat, part: Part)
    requires Full(list, n)
    ensures Holds(list, serial, part) <==> HasSerial(list, serial) && (Gains(0, n, part) || part == Body)
  {
    if HasSerial(list, serial) {
      var k :| 0 <= k < |list| && list[k].serial == serial;
      assert Reaches(list[k], part) <==> Gains(0, n, part) || part == Body;
    }
  }

  /** An entry lacks only ids that were lost, which are not done. */
  lemma LackedIsSkipped(types: seq<ResourceType>, skipped: set<nat>, list: seq<Entry>, serial: nat, id: nat)
    requires SkippedOk(types, skipped) && StoragesOk(types, skipped, list)
    requires HasSerial(list, serial) && !Holds(list, serial, Instance(id)) && id < |types|
    ensures !types[id].done
  {
    var k :| 0 <= k < |list| && list[k].serial == serial;
    assert !Reaches(list[k], Instance(id));
    assert StorageOk(types, skipped, list[k].storage);
  }

  lemma HasBody(list: seq<Entry>, serial: nat)
    ensures Holds(list, serial, Body) <==> HasSerial(list, serial)
  {
    if HasSerial(list, serial) {
      var k :| 0 <= k < |list| && list[k].serial == serial;
      assert Reaches(list[k], Body);
    }
  }

  /** A new id, and what an entry lacked, is built in every entry. */
  lemma LivesAfterId(types: seq<ResourceType>, skipped: set<nat>, r: ResourceType, list: seq<Entry>, list': seq<Entry>,
                     next: nat, log: seq<Event>)
    requires LivesOk(types, list, next, log) && SerialsOk(list, next) && !r.done
    requires SkippedOk(types, skipped) && StoragesOk(types, skipped, list)
    requires SameOwners(list, list') && Full(list', |types| + 1)
    ensures LivesOk(types + [r], list', next, log + GrowChainEvents(types + [r], list, |types| + 1))
  {
    var types', n := types + [r], |types| + 1;
    var events := GrowChainEvents(types', list, n);
    var log' := log + events;
    forall s, part ensures LifeOk(types', list', next, log', s, part) {
      assert LifeOk(types, list, next, log, s, part);
      PhaseConcat(Fresh, log, events, s, part);
      GrowChainEventsPhase(types', list, n, PhaseOf(log, s, part), s, part);
      SameOwnersSerials(list, list', s);
      FullHolds(list', n, s, part);
      HasBody(list, s);
      HoldsHas(list, s, part);
      if part.Instance? && part.id < |types| && HasSerial(list, s) && !Holds(list, s, part) {
        LackedIsSkipped(types, skipped, list, s, part.id);
      }
    }
  }

  lemma StoragesAfterId(types: seq<ResourceType>, skipped: set<nat>, r: ResourceType, list: seq<Entry>)
    requires SkippedOk(types, skipped) && StoragesOk(types, skipped, list) && !r.done
    ensures var types' := types + [r]; var list' := GrowChain(types', list, |types'|);
      Full(list', |types'|) && StoragesOk(types', skipped, list') && SkippedOk(types', skipped)
  {
    var types' := types + [r];
    var list' := GrowChain(types', list, |types'|);
    forall k | 0 <= k < |list'| ensures list'[k].storage == NewStorage(types', |types'|) {
      var m := |list[k].storage|;
      assert StorageOk(types, skipped, list[k].storage);
      NewStoragePrefix(types, r, m);
      GrownIsNew(types', m, |types'|);
    }
  }

  lemma SoundAfterId(types: seq<ResourceType>, skipped: set<nat>, r: ResourceType, list: seq<Entry>, next: nat,
                     log: seq<Event>)
    requires Sound(types, skipped, list, next, log) && !r.done
    ensures var types' := types + [r];
      Sound(types', skipped, GrowChain(types', list, |types'|), next, log + GrowChainEvents(types', list, |types'|))
  {
    var types' := types + [r];
    var list', events := GrowChain(types', list, |types'|), GrowChainEvents(types', list, |types'|);
    StoragesAfterId(types, skipped, r, list);
    LivesAfterId(types, skipped, r, list, list', next, log);
    GrowChainEventsFit(types', list, |types'|);
    assert EventsFit(types', log);
    EventsFitConcat(types', log, events);
    SerialsKept(list, list', next);
  }

  lemma SerialsKept(list: seq<Entry>, list': seq<Entry>, next: nat)
    requires SerialsOk(list, next) && SameOwners(list, list')
    ensures SerialsOk(list', next)
  {
    forall k, l | 0 <= k < l < |list'| ensures list'[k].serial != list'[l].serial {
      assert list[k].serial != list[l].serial;
    }
  }

  lemma AllocateKeeps(st: State, r: ResourceType, pos: nat)
    requires Healthy(st) && !r.done && FastOk(st.types + [r], pos, st.reservedSize)
    ensures Healthy(Allocate(st, r, pos))
  {
    var types' := st.types + [r];
    var table' := GrowTable(types', st.table, |types'|);
    FlatGrow(types', st.table, |types'|);
    GrowEventsBelowAreFlat(types', st.table, |st.table|, |types'|);
    assert st.table[..|st.table|] == st.table;
    SoundAfterId(st.types, st.skipped, r, Flat(st.table), st.next, st.log);
    SameTablesKeep(st.table, table', st.tls);
    StoragesAreComplete(types', st.skipped, table');
  }

  lemma AllocateIdKeeps(st: State, size: nat, ctor: bool, dtor: bool)
    requires Healthy(st)
    ensures Healthy(AllocateId(st, size, ctor, dtor))
  {
    AllocateKeeps(st, ResourceType(size, ctor, dtor, 0, false), st.reservedPos);
  }

  // ---------- An id is lost ----------

  lemma LivesAfterSkip(types: seq<ResourceType>, skipped: set<nat>, list: seq<Entry>, next: nat, log: seq<Event>)
    requires LivesOk(types, list, next, log) && StoragesOk(types, skipped, list)
    ensures LivesOk(types + [UNSET], list, next, log)
  {
    var types' := types + [UNSET];
    forall s, part ensures LifeOk(types', list, next, log, s, part) {
      assert LifeOk(types, list, next, log, s, part);
    }
  }

  lemma StoragesAfterSkip(types: seq<ResourceType>, skipped: set<nat>, list: seq<Entry>)
    requires SkippedOk(types, skipped) && StoragesOk(types, skipped, list)
    ensures var types', skipped' := types + [UNSET], skipped + {|types|};
      SkippedOk(types', skipped') && StoragesOk(types', skipped', list)
  {
    forall k | 0 <= k < |list| ensures StorageOk(types + [UNSET], skipped + {|types|}, list[k].storage) {
      assert StorageOk(types, skipped, list[k].storage);
      NewStoragePrefix(types, UNSET, |list[k].storage|);
    }
  }

  lemma SkipKeeps(st: State, st': State)
    requires Healthy(st) && st.idCount < st.capacity
    requires st' == st.(idCount := st.idCount + 1, types := st.types + [UNSET], skipped := st.skipped + {st.idCount})
    ensures Healthy(st')
  {
    StoragesAfterSkip(st.types, st.skipped, Flat(st.table));
    LivesAfterSkip(st.types, st.skipped, Flat(st.table), st.next, st.log);
    StoragesAreComplete(st'.types, st'.skipped, st'.table);
  }

  lemma AlignedSum(a: nat, b: nat)
    requires Aligned(a) && Aligned(b)
    ensures Aligned(a + b) && Aligned(ENTRY_SIZE + a)
  {}

  lemma FastOkGrows(types: seq<ResourceType>, pos: nat, reserved: nat, r: ResourceType)
    requires FastOk(types, pos, reserved) && pos + r.size <= reserved && Aligned(r.size) && r.fast == ENTRY_SIZE + pos
    ensures FastOk(types + [r], pos + r.size, reserved)
  {
    AlignedSum(pos, r.size);
  }

  lemma FastIdIsAllocate(st: State, size: nat, ctor: bool, dtor: bool, r: ResourceType)
    requires st.idCount == |st.types| && FastFits(st, size)
    requires r == ResourceType(AlignedSize(size), ctor, dtor, ENTRY_SIZE + st.reservedPos, false)
    ensures AllocateFastId(st, size, ctor, dtor) == Allocate(st, r, st.reservedPos + r.size)
  {}

  lemma FastTypeKeeps(st: State, r: ResourceType)
    requires Healthy(st) && !r.done && Aligned(r.size) && r.fast == ENTRY_SIZE + st.reservedPos
    requires st.reservedPos + r.size <= st.reservedSize
    ensures Healthy(Allocate(st, r, st.reservedPos + r.size))
  {
    FastOkGrows(st.types, st.reservedPos, st.reservedSize, r);
    AllocateKeeps(st, r, st.reservedPos + r.size);
  }

  lemma FittingFastIdKeeps(st: State, size: nat, ctor: bool, dtor: bool)
    requires Healthy(st) && FastFits(st, size)
    ensures Healthy(AllocateFastId(st, size, ctor, dtor))
  {
    var r := ResourceType(AlignedSize(size), ctor, dtor, ENTRY_SIZE + st.reservedPos, false);
    FastIdIsAllocate(st, size, ctor, dtor, r);
    FastTypeKeeps(st, r);
  }

  /** A fast id leaves a healthy state exactly when it fits the reserved space or the id
      it loses lies inside the table of types, where later calls read its type.  Otherwise
      the next entry made, and no other step is needed for that, reads the table past its
      end. */
  lemma FastIdKeepsIff(st: State, size: nat, ctor: bool, dtor: bool)
    requires Healthy(st)
    ensures Healthy(AllocateFastId(st, size, ctor, dtor)) <==> FastFits(st, size) || st.idCount < st.capacity
    ensures var st' := AllocateFastId(st, size, ctor, dtor);
      Healthy(st') <==> forall i: nat :: EntryReads(st', i) ==> i < st'.capacity
  {
    if FastFits(st, size) {
      FittingFastIdKeeps(st, size, ctor, dtor);
    } else if st.idCount < st.capacity {
      SkipKeeps(st, AllocateFastId(st, size, ctor, dtor));
    } else {
      var st' := AllocateFastId(st, size, ctor, dtor);
      assert st'.idCount == st'.capacity + 1;
      assert EntryReads(st', st'.capacity);
    }
  }

  // ---------- A thread's entry ----------

  lemma ChainsOkUpdate(table: seq<seq<Entry>>, h: nat, c: seq<Entry>)
    requires ChainsOk(table) && h < |table|
    requires ThreadsHashTo(c, h, |table|) && ThreadsDistinct(c)
    ensures ChainsOk(table[h := c])
  {}

  lemma KeysAgreeUpdate(table: seq<seq<Entry>>, h: nat, c: seq<Entry>, tls: map<Thread, nat>, tls': map<Thread, nat>)
    requires |table| > 0 && KeysAgree(table, tls) && h < |table|
    requires forall t :: t in tls' && HashOf(t, |table|) != h ==> t in tls && tls'[t] == tls[t]
    requires forall t :: t in tls' && HashOf(t, |table|) == h ==> Points(c, t, tls'[t])
    ensures KeysAgree(table[h := c], tls')
  {
    forall t | t in tls' ensures Points(table[h := c][HashOf(t, |table|)], t, tls'[t]) {
      if HashOf(t, |table|) != h {
        assert Points(table[HashOf(t, |table|)], t, tls[t]);
      }
    }
  }

  lemma EntriesAfterNew(types: seq<ResourceType>, skipped: set<nat>, p: seq<Entry>, q: seq<Entry>, next: nat, e: Entry)
    requires StoragesOk(types, skipped, p + q) && SerialsOk(p + q, next)
    requires e.serial == next && StorageOk(types, skipped, e.storage)
    ensures StoragesOk(types, skipped, p + [e] + q) && SerialsOk(p + [e] + q, next + 1)
  {
    InsertDistinct(p, q, e);
    var r, r' := p + q, p + [e] + q;
    forall k | 0 <= k < |r'| ensures StorageOk(types, skipped, r'[k].storage) && r'[k].serial < next + 1 {
      assert r'[k] == if k == |p| then e else r[if k < |p| then k else k - 1];
    }
  }

  lemma SoundAfterNew(types: seq<ResourceType>, skipped: set<nat>, p: seq<Entry>, q: seq<Entry>, next: nat,
                      log: seq<Event>, e: Entry)
    requires Sound(types, skipped, p + q, next, log) && e.serial == next && e.storage == NewStorage(types, |types|)
    ensures Sound(types, skipped, p + [e] + q, next + 1, log + EntryBuilt(types, next, |types|))
  {
    LivesAfterNew(types, p, q, next, log, e);
    EntriesAfterNew(types, skipped, p, q, next, e);
    EntryEventsFit(types, next, |types|);
    EventsFitConcat(types, log, EntryBuilt(types, next, |types|));
  }

  lemma EntriesAfterFree(types: seq<ResourceType>, skipped: set<nat>, p: seq<Entry>, q: seq<Entry>, next: nat, e: Entry)
    requires StoragesOk(types, skipped, p + [e] + q) && SerialsOk(p + [e] + q, next)
    ensures StorageOk(types, skipped, e.storage) && StoragesOk(types, skipped, p + q) && SerialsOk(p + q, next)
  {
    InsertDistinct(p, q, e);
    var r, r' := p + q, p + [e] + q;
    assert r'[|p|] == e;
    forall k | 0 <= k < |r| ensures StorageOk(types, skipped, r[k].storage) && r[k].serial < next {
      assert r[k] == r'[if k < |p| then k else k + 1];
    }
  }

  lemma SoundAfterFree(types: seq<ResourceType>, skipped: set<nat>, p: seq<Entry>, q: seq<Entry>, next: nat,
                       log: seq<Event>, e: Entry)
    requires Sound(types, skipped, p + [e] + q, next, log)
    ensures |e.storage| <= |types|
    ensures Sound(types, skipped, p + q, next, log + EntryFreed(types, e.serial, |e.storage|))
  {
    EntriesAfterFree(types, skipped, p, q, next, e);
    LivesAfterFree(types, p, q, next, log, e);
    EntryEventsFit(types, e.serial, |e.storage|);
    EventsFitConcat(types, log, EntryFreed(types, e.serial, |e.storage|));
  }

  lemma PointsHere(c: seq<Entry>, k: nat, t: Thread, serial: nat)
    requires k < |c| && c[k].thread == t && c[k].serial == serial
    ensures Points(c, t, serial)
  {}

  /** The key of another thread stays good when an entry is appended, replaced or
      removed. */
  lemma PointsKept(chain: seq<Entry>, k: nat, c: seq<Entry>, t: Thread, serial: nat)
    requires Points(chain, t, serial) && k <= |chain|
    requires k < |chain| ==> chain[k].thread != t
    ensures Points(chain[..k] + c + if k < |chain| then chain[k + 1..] else [], t, serial)
  {
    var l :| 0 <= l < |chain| && chain[l].thread == t && chain[l].serial == serial;
    var r := chain[..k] + c + if k < |chain| then chain[k + 1..] else [];
    PointsHere(r, if l < k then l else l + |c| - 1, t, serial);
  }

  /** The part of the invariant about one changed chain. */
  lemma LinksAfter(table: seq<seq<Entry>>, h: nat, k: nat, c: seq<Entry>, tls: map<Thread, nat>, tls': map<Thread, nat>,
                   t: Thread)
    requires h < |table| && k <= |table[h]| && HashOf(t, |table|) == h && ChainsOk(table) && KeysAgree(table, tls)
    requires k == Find(table[h], t)
    requires tls' - {t} == tls - {t}
    requires if t in tls' then |c| == 1 && c[0].thread == t && c[0].serial == tls'[t] else c == []
    ensures var tail := if k < |table[h]| then table[h][k + 1..] else [];
      ChainsOk(table[h := table[h][..k] + c + tail]) && KeysAgree(table[h := table[h][..k] + c + tail], tls')
  {
    var chain := table[h];
    var r := chain[..k] + c + if k < |chain| then chain[k + 1..] else [];
    ChainAfter(chain, h, |table|, k, c, t);
    ChainsOkUpdate(table, h, r);
    forall u | u in tls' && HashOf(u, |table|) == h ensures Points(r, u, tls'[u]) {
      if u == t {
        PointsHere(r, k, t, tls'[t]);
      } else {
        assert u in tls' - {t} && (tls' - {t})[u] == (tls - {t})[u];
        PointsKept(chain, k, c, u, tls[u]);
      }
    }
    forall u | u in tls' && HashOf(u, |table|) != h ensures u in tls && tls'[u] == tls[u] {
      assert u in tls' - {t} && (tls' - {t})[u] == (tls - {t})[u];
    }
    KeysAgreeUpdate(table, h, r, tls, tls');
  }

  /** A chain without the entry of `t`, or with another entry of `t` in its place. */
  lemma ChainAfter(chain: seq<Entry>, h: nat, size: nat, k: nat, c: seq<Entry>, t: Thread)
    requires size > 0 && k == Find(chain, t) && HashOf(t, size) == h && ThreadsHashTo(chain, h, size) &&
      ThreadsDistinct(chain)
    requires |c| <= 1 && (c != [] ==> c[0].thread == t)
    ensures var r := chain[..k] + c + if k < |chain| then chain[k + 1..] else [];
      ThreadsHashTo(r, h, size) && ThreadsDistinct(r)
  {
    var r := chain[..k] + c + if k < |chain| then chain[k + 1..] else [];
    forall a | 0 <= a < |r| ensures HashOf(r[a].thread, size) == h {
      assert r[a] == if a < k then chain[a] else if a < k + |c| then c[0] else chain[a - |c| + 1];
    }
    forall a, b | 0 <= a < b < |r| ensures r[a].thread != r[b].thread {
      assert r[a] == if a < k then chain[a] else if a < k + |c| then c[0] else chain[a - |c| + 1];
      assert r[b] == if b < k then chain[b] else if b < k + |c| then c[0] else chain[b - |c| + 1];
    }
  }

  lemma SoundAfterAppend(types: seq<ResourceType>, skipped: set<nat>, table: seq<seq<Entry>>, h: nat, next: nat,
                         log: seq<Event>, e: Entry, table': seq<seq<Entry>>)
    requires h < |table| && Sound(types, skipped, Flat(table), next, log) && table' == table[h := table[h] + [e]]
    requires e.serial == next && e.storage == NewStorage(types, |types|)
    ensures Sound(types, skipped, Flat(table'), next + 1, log + EntryBuilt(types, next, |types|))
  {
    FlatWhole(table, h);
    FlatAppend(table, h, [e]);
    SoundAfterNew(types, skipped, Before(table, h, |table[h]|), After(table, h, |table[h]|), next, log, e);
  }

  lemma LinksAfterAppend(table: seq<seq<Entry>>, h: nat, e: Entry, tls: map<Thread, nat>, table': seq<seq<Entry>>,
                         tls': map<Thread, nat>)
    requires h < |table| && HashOf(e.thread, |table|) == h && ChainsOk(table) && KeysAgree(table, tls)
    requires Find(table[h], e.thread) == |table[h]|
    requires table' == table[h := table[h] + [e]] && tls' == tls[e.thread := e.serial]
    ensures |table'| > 0 && ChainsOk(table') && KeysAgree(table', tls')
  {
    LinksAfter(table, h, |table[h]|, [e], tls, tls[e.thread := e.serial], e.thread);
    assert table[h][..|table[h]|] + [e] + [] == table[h] + [e];
  }

  /** Everything but the entries, the keys and the log is as before. */
  ghost predicate SameTypes(st: State, st': State) {
    && st'.types == st.types && st'.capacity == st.capacity && st'.skipped == st.skipped && st'.idCount == st.idCount
    && st'.reservedPos == st.reservedPos && st'.reservedSize == st.reservedSize
  }

  lemma HealthyWith(st: State, st': State)
    requires Healthy(st) && SameTypes(st, st')
    requires |st'.table| > 0 && ChainsOk(st'.table) && KeysAgree(st'.table, st'.tls)
    requires Sound(st'.types, st'.skipped, Flat(st'.table), st'.next, st'.log)
    ensures Healthy(st')
  {
    StoragesAreComplete(st'.types, st'.skipped, st'.table);
  }

  lemma AppendedKeeps(st: State, st': State, h: nat, e: Entry)
    requires Healthy(st) && SameTypes(st, st') && h == HashOf(e.thread, |st.table|)
    requires Find(st.table[h], e.thread) == |st.table[h]|
    requires e.serial == st.next && e.storage == NewStorage(st.types, |st.types|)
    requires st'.table == st.table[h := st.table[h] + [e]] && st'.tls == st.tls[e.thread := e.serial]
    requires st'.next == st.next + 1 && st'.log == st.log + EntryBuilt(st.types, st.next, |st.types|)
    ensures Healthy(st')
  {
    SoundAfterAppend(st.types, st.skipped, st.table, h, st.next, st.log, e, st'.table);
    LinksAfterAppend(st.table, h, e, st.tls, st'.table, st'.tls);
    HealthyWith(st, st');
  }

  /** A thread without an entry: the new one is linked last. */
  lemma AppendKeeps(st: State, t: Thread)
    requires Healthy(st) && t !in st.tls
    requires var chain := st.table[HashOf(t, |st.table|)]; Find(chain, t) == |chain|
    ensures Healthy(Appended(st, t, t))
  {
    AppendedKeeps(st, Appended(st, t, t), HashOf(t, |st.table|), NewEntry(st, t));
  }

  /** An entry made for another thread leaves the caller's key pointing to it: by the
      id of another thread a resource is fetched safely exactly when it has an entry. */
  lemma OtherThreadIff(st: State, caller: Thread, t: Thread)
    requires Healthy(st) && caller != t
    ensures var chain := st.table[HashOf(t, |st.table|)];
      Healthy(ResourceOf(st, caller, t)) <==> Find(chain, t) < |chain|
  {
    var h := HashOf(t, |st.table|);
    var chain := st.table[h];
    if Find(chain, t) == |chain| {
      var g := HashOf(caller, |st.table|);
      var st' := Appended(st, caller, t);
      forall k | 0 <= k < |st'.table[g]|
        ensures !(st'.table[g][k].thread == caller && st'.table[g][k].serial == st.next) {
        if k < |st.table[g]| {
          FlatSplit(st.table, g, k);
          assert Flat(st.table)[|Before(st.table, g, k)|] == st.table[g][k];
        }
      }
      assert !Points(st'.table[g], caller, st.next);
      assert caller in st'.tls && !KeysAgree(st'.table, st'.tls);
    }
  }

  lemma SoundAfterSwap(types: seq<ResourceType>, skipped: set<nat>, p: seq<Entry>, q: seq<Entry>, next: nat,
                       log: seq<Event>, e: Entry, e': Entry)
    requires Sound(types, skipped, p + [e] + q, next, log) && e'.serial == next &&
      e'.storage == NewStorage(types, |types|)
    ensures |e.storage| <= |types|
    ensures Sound(types, skipped, p + [e'] + q, next + 1,
                  log + EntryFreed(types, e.serial, |e.storage|) + EntryBuilt(types, next, |types|))
  {
    SoundAfterFree(types, skipped, p, q, next, log, e);
    SoundAfterNew(types, skipped, p, q, next, log + EntryFreed(types, e.serial, |e.storage|), e');
  }

  lemma SoundAfterReplace(types: seq<ResourceType>, skipped: set<nat>, table: seq<seq<Entry>>, h: nat, k: nat,
                          next: nat, log: seq<Event>, e: Entry)
    requires h < |table| && k < |table[h]|
    requires Sound(types, skipped, Flat(table), next, log) && e.serial == next &&
      e.storage == NewStorage(types, |types|)
    ensures |table[h][k].storage| <= |types|
    ensures Sound(types, skipped, Flat(table[h := table[h][k := e]]), next + 1,
                  log + EntryFreed(types, table[h][k].serial, |table[h][k].storage|) + EntryBuilt(types, next, |types|))
  {
    FlatSplit(table, h, k);
    FlatReplace(table, h, k, [e]);
    assert table[h][..k] + [e] + table[h][k + 1..] == table[h][k := e];
    SoundAfterSwap(types, skipped, Before(table, h, k), After(table, h, k + 1), next, log, table[h][k], e);
  }

  lemma LinksAfterReplace(table: seq<seq<Entry>>, h: nat, k: nat, e: Entry, tls: map<Thread, nat>)
    requires h < |table| && k < |table[h]| && HashOf(e.thread, |table|) == h && ChainsOk(table) && KeysAgree(table, tls)
    requires k == Find(table[h], e.thread)
    ensures ChainsOk(table[h := table[h][k := e]]) && KeysAgree(table[h := table[h][k := e]], tls[e.thread := e.serial])
  {
    LinksAfter(table, h, k, [e], tls, tls[e.thread := e.serial], e.thread);
    assert table[h][..k] + [e] + table[h][k + 1..] == table[h][k := e];
  }

  /** A reused thread id: the stale entry is freed and a new one takes its place. */
  lemma ReplaceKeeps(st: State, t: Thread, h: nat, k: nat)
    requires Healthy(st) && h == HashOf(t, |st.table|) && k == Find(st.table[h], t) < |st.table[h]|
    ensures Healthy(Replaced(st, t, h, k))
  {
    var e := NewEntry(st, t);
    SoundAfterReplace(st.types, st.skipped, st.table, h, k, st.next, st.log, e);
    LinksAfterReplace(st.table, h, k, e, st.tls);
    HealthyWith(st, Replaced(st, t, h, k));
  }

  lemma ResourceKeeps(st: State, t: Thread)
    requires Healthy(st)
    ensures Healthy(Resource(st, t)) && t in Resource(st, t).tls
  {
    if t !in st.tls {
      var h := HashOf(t, |st.table|);
      if Find(st.table[h], t) < |st.table[h]| {
        ReplaceKeeps(st, t, h, Find(st.table[h], t));
      } else {
        AppendKeeps(st, t);
      }
    }
  }

  lemma SoundAfterRemove(types: seq<ResourceType>, skipped: set<nat>, table: seq<seq<Entry>>, h: nat, k: nat, next: nat,
                         log: seq<Event>)
    requires h < |table| && k < |table[h]| && Sound(types, skipped, Flat(table), next, log)
    ensures |table[h][k].storage| <= |types|
    ensures Sound(types, skipped, Flat(table[h := table[h][..k] + table[h][k + 1..]]), next,
                  log + EntryFreed(types, table[h][k].serial, |table[h][k].storage|))
  {
    FlatSplit(table, h, k);
    FlatRemove(table, h, k);
    SoundAfterFree(types, skipped, Before(table, h, k), After(table, h, k + 1), next, log, table[h][k]);
  }

  lemma LinksAfterRemove(table: seq<seq<Entry>>, h: nat, k: nat, tls: map<Thread, nat>)
    requires h < |table| && k < |table[h]| && ChainsOk(table) && KeysAgree(table, tls)
    requires k == Find(table[h], table[h][k].thread)
    ensures var table' := table[h := table[h][..k] + table[h][k + 1..]];
      ChainsOk(table') && KeysAgree(table', tls - {table[h][k].thread})
  {
    var t := table[h][k].thread;
    LinksAfter(table, h, k, [], tls, tls - {t}, t);
    assert table[h][..k] + [] + table[h][k + 1..] == table[h][..k] + table[h][k + 1..];
  }

  lemma FreeThreadKeeps(st: State, t: Thread)
    requires Healthy(st)
    ensures Healthy(FreeThread(st, t)) && t !in FreeThread(st, t).tls
  {
    var h := HashOf(t, |st.table|);
    var k := Find(st.table[h], t);
    if k == |st.table[h]| {
      if t in st.tls {
        KeyIsWalk(st, t);
      }
    } else {
      SoundAfterRemove(st.types, st.skipped, st.table, h, k, st.next, st.log);
      LinksAfterRemove(st.table, h, k, st.tls);
      HealthyWith(st, FreeThread(st, t));
    }
  }

  // ---------- An id is freed ----------

  lemma {:induction false} NewStorageDone(types: seq<ResourceType>, id: nat, n: nat)
    requires id < |types| && n <= |types|
    ensures NewStorage(types[id := types[id].(done := true)], n)
         == if id < n then NewStorage(types, n)[id := Null] else NewStorage(types, n)
  {
    if n > 0 {
      NewStorageDone(types, id, n - 1);
    }
  }

  lemma ReleaseChainConcat(a: seq<Entry>, b: seq<Entry>, id: nat)
    ensures ReleaseChain(a + b, id) == ReleaseChain(a, id) + ReleaseChain(b, id)
  {}

  lemma {:induction false} FlatRelease(table: seq<seq<Entry>>, id: nat)
    ensures Flat(ReleaseTable(table, id)) == ReleaseChain(Flat(table), id)
  {
    if table != [] {
      FlatRelease(table[..|table| - 1], id);
      assert ReleaseTable(table, id)[..|table| - 1] == ReleaseTable(table[..|table| - 1], id);
      ReleaseChainConcat(Flat(table[..|table| - 1]), table[|table| - 1], id);
    }
  }

  lemma SameLengths(list: seq<Entry>, list': seq<Entry>, serial: nat, part: Part)
    requires SameOwners(list, list') && forall k :: 0 <= k < |list| ==> |list'[k].storage| == |list[k].storage|
    ensures Holds(list', serial, part) <==> Holds(list, serial, part)
  {
    if Holds(list, serial, part) {
      var k :| 0 <= k < |list| && list[k].serial == serial && Reaches(list[k], part);
      assert list'[k].serial == serial && Reaches(list'[k], part);
    }
    if Holds(list', serial, part) {
      var k :| 0 <= k < |list'| && list'[k].serial == serial && Reaches(list'[k], part);
      assert list[k].serial == serial && Reaches(list[k], part);
    }
  }

  lemma LifeAfterFreeId(types: seq<ResourceType>, list: seq<Entry>, list': seq<Entry>, next: nat, log: seq<Event>,
                        id: nat, s: nat, part: Part)
    requires id < |types| && LifeOk(types, list, next, log, s, part) && DistinctSerials(list) &&
      AllWithin(list, |types|)
    requires forall k :: 0 <= k < |list| && id < |list[k].storage| ==>
      (list[k].storage[id] != Null <==> !types[id].done)
    requires list' == ReleaseChain(list, id)
    ensures LifeOk(types[id := types[id].(done := true)], list', next, log + ReleaseChainEvents(types, list, id), s,
                   part)
  {
    PhaseConcat(Fresh, log, ReleaseChainEvents(types, list, id), s, part);
    ReleaseChainEventsPhase(types, list, id, PhaseOf(log, s, part), s, part);
    SameOwnersSerials(list, list', s);
    SameLengths(list, list', s, part);
  }

  lemma LivesAfterFreeId(types: seq<ResourceType>, skipped: set<nat>, list: seq<Entry>, next: nat, log: seq<Event>,
                         id: nat)
    requires id < |types| && LivesOk(types, list, next, log) && SerialsOk(list, next) &&
      StoragesOk(types, skipped, list)
    ensures LivesOk(types[id := types[id].(done := true)], ReleaseChain(list, id), next,
                    log + ReleaseChainEvents(types, list, id))
  {
    var types', list' := types[id := types[id].(done := true)], ReleaseChain(list, id);
    var log' := log + ReleaseChainEvents(types, list, id);
    StoragesAreNull(types, skipped, list, id);
    forall s, part ensures LifeOk(types', list', next, log', s, part) {
      LifeAfterFreeId(types, list, list', next, log, id, s, part);
    }
  }

  lemma StoragesAreNull(types: seq<ResourceType>, skipped: set<nat>, list: seq<Entry>, id: nat)
    requires id < |types| && StoragesOk(types, skipped, list)
    ensures AllWithin(list, |types|)
    ensures forall k :: 0 <= k < |list| && id < |list[k].storage| ==> (list[k].storage[id] != Null <==> !types[id].done)
  {
    forall k | 0 <= k < |list|
      ensures |list[k].storage| <= |types|
      ensures id < |list[k].storage| ==> (list[k].storage[id] != Null <==> !types[id].done)
    {
      assert StorageOk(types, skipped, list[k].storage);
      NewStorageSlots(types, |list[k].storage|);
    }
  }

  lemma StoragesAfterFreeId(types: seq<ResourceType>, skipped: set<nat>, list: seq<Entry>, id: nat)
    requires id < |types| && id !in skipped && SkippedOk(types, skipped) && StoragesOk(types, skipped, list)
    ensures var types' := types[id := types[id].(done := true)];
      SkippedOk(types', skipped) && StoragesOk(types', skipped, ReleaseChain(list, id))
  {
    var types', list' := types[id := types[id].(done := true)], ReleaseChain(list, id);
    forall k | 0 <= k < |list'| ensures StorageOk(types', skipped, list'[k].storage) {
      assert StorageOk(types, skipped, list[k].storage);
      NewStorageDone(types, id, |list[k].storage|);
    }
  }

  lemma SoundAfterFreeId(types: seq<ResourceType>, skipped: set<nat>, list: seq<Entry>, next: nat, log: seq<Event>,
                         id: nat)
    requires Sound(types, skipped, list, next, log) && id < |types| && id !in skipped
    ensures var types' := types[id := types[id].(done := true)];
      Sound(types', skipped, ReleaseChain(list, id), next, log + ReleaseChainEvents(types, list, id))
  {
    var types', list' := types[id := types[id].(done := true)], ReleaseChain(list, id);
    StoragesAfterFreeId(types, skipped, list, id);
    LivesAfterFreeId(types, skipped, list, next, log, id);
    ReleaseChainEventsFit(types, list, id);
    EventsFitConcat(types, log, ReleaseChainEvents(types, list, id));
    assert EventsFit(types', log + ReleaseChainEvents(types, list, id));
    SerialsKept(list, list', next);
  }

  lemma FreeIdFlat(st: State, id: nat)
    requires id < |st.types|
    ensures Flat(FreeId(st, id).table) == ReleaseChain(Flat(st.table), id)
    ensures FreeId(st, id).log == st.log + ReleaseChainEvents(st.types, Flat(st.table), id)
  {
    FlatRelease(st.table, id);
    ReleaseEventsBelowAreFlat(st.types, st.table, |st.table|, id);
    assert st.table[..|st.table|] == st.table;
  }

  lemma FreeIdKeeps(st: State, id: nat)
    requires Healthy(st) && id < |st.types| && id !in st.skipped
    ensures Healthy(FreeId(st, id)) && FreeId(st, id).types[id].done
  {
    var st' := FreeId(st, id);
    FreeIdFlat(st, id);
    SoundAfterFreeId(st.types, st.skipped, Flat(st.table), st.next, st.log, id);
    SameTablesKeep(st.table, st'.table, st.tls);
    StoragesAreComplete(st'.types, st.skipped, st'.table);
  }
}
