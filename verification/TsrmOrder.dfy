/** In what order the log of the resource manager has its events: an instance is made and
    destroyed only while its storage is there, a storage only while its entry is, an entry
    only while the tables are. */
module TsrmOrder {
  import opened Sequences
  import opened TsrmSpec
  import opened TsrmSafety
  import opened TsrmSteps
  import opened TsrmRuns

  // ---------- One part inside another ----------

  /** What a part lies in. */
  function Outer(part: Part): Part {
    match part
    case Instance(_) => Storage
    case Storage => Body
    case Body => Tables
    case Tables => Tables
  }

  /** Every event about the part finds what it lies in built; `p` is the phase of that
      when the log starts. */
  predicate Nested(p: Phase, log: seq<Event>, serial: nat, part: Part) {
    if log == [] then true
    else
      var front := log[..|log| - 1];
      && Nested(p, front, serial, part)
      && (About(log[|log| - 1], serial, part) ==> PhaseFrom(p, front, serial, Outer(part)) == Built)
  }

  lemma {:induction false} NestedAt(p: Phase, log: seq<Event>, serial: nat, part: Part, n: nat)
    requires Nested(p, log, serial, part) && n < |log| && About(log[n], serial, part)
    ensures PhaseFrom(p, log[..n], serial, Outer(part)) == Built
  {
    if n < |log| - 1 {
      var front := log[..|log| - 1];
      assert front[..n] == log[..n];
      NestedAt(p, front, serial, part, n);
    }
  }

  lemma {:induction false} NestedConcat(p: Phase, a: seq<Event>, b: seq<Event>, serial: nat, part: Part)
    ensures Nested(p, a + b, serial, part)
       <==> Nested(p, a, serial, part) && Nested(PhaseFrom(p, a, serial, Outer(part)), b, serial, part)
  {
    if b == [] {
      assert a + b == a;
    } else {
      var front := b[..|b| - 1];
      assert (a + b)[..|a + b| - 1] == a + front;
      NestedConcat(p, a, front, serial, part);
      PhaseConcat(p, a, front, serial, Outer(part));
    }
  }

  ghost predicate Silent(log: seq<Event>, serial: nat, part: Part) {
    forall n :: 0 <= n < |log| ==> !About(log[n], serial, part)
  }

  lemma {:induction false} SilentKeepsPhase(p: Phase, log: seq<Event>, serial: nat, part: Part)
    requires Silent(log, serial, part)
    ensures PhaseFrom(p, log, serial, part) == p
  {
    if log != [] {
      SilentKeepsPhase(p, log[..|log| - 1], serial, part);
    }
  }

  lemma {:induction false} SilentIsNested(p: Phase, log: seq<Event>, serial: nat, part: Part)
    requires Silent(log, serial, part) || (p == Built && Silent(log, serial, Outer(part)))
    ensures Nested(p, log, serial, part)
  {
    if log != [] {
      var front := log[..|log| - 1];
      SilentIsNested(p, front, serial, part);
      if Silent(log, serial, Outer(part)) {
        SilentKeepsPhase(p, front, serial, Outer(part));
      }
    }
  }

  // ---------- What is logged for one entry ----------

  /** Constructions and destructions in one entry. */
  ghost predicate HooksIn(log: seq<Event>, serial: nat) {
    forall n :: 0 <= n < |log| ==> (log[n].Construct? || log[n].Destroy?) && log[n].serial == serial
  }

  lemma {:induction false} EventsAreHooks(types: seq<ResourceType>, serial: nat, from: nat, n: nat)
    requires n <= |types|
    ensures HooksIn(NewEvents(types, serial, n), serial) && HooksIn(FreeEvents(types, serial, n), serial)
    ensures HooksIn(GrowEvents(types, serial, from, n), serial)
  {
    if n > 0 {
      EventsAreHooks(types, serial, from, n - 1);
    }
  }

  /** While its storage is there, hooks may be called in the entry. */
  lemma HooksAreNested(p: Phase, log: seq<Event>, made: nat, serial: nat, part: Part)
    requires HooksIn(log, made) && (serial == made && part.Instance? ==> p == Built)
    ensures Nested(p, log, serial, part)
    ensures !part.Instance? || serial != made ==> Silent(log, serial, part)
  {
    if part.Instance? && serial == made {
      assert Silent(log, serial, Outer(part));
    }
    SilentIsNested(p, log, serial, part);
  }

  lemma NestedOne(p: Phase, ev: Event, serial: nat, part: Part)
    ensures Nested(p, [ev], serial, part) <==> (About(ev, serial, part) ==> p == Built)
  {
    assert [ev][..0] == [];
  }

  lemma NestedTwo(p: Phase, ev: Event, ev': Event, serial: nat, part: Part)
    ensures Nested(p, [ev, ev'], serial, part) <==>
      && (About(ev, serial, part) ==> p == Built)
      && (About(ev', serial, part) ==> PhaseFrom(p, [ev], serial, Outer(part)) == Built)
  {
    assert [ev, ev'] == [ev] + [ev'];
    NestedConcat(p, [ev], [ev'], serial, part);
    NestedOne(p, ev, serial, part);
    NestedOne(PhaseFrom(p, [ev], serial, Outer(part)), ev', serial, part);
  }

  /** A new entry: the entry, its storage, the instances. */
  lemma EntryBuiltNests(types: seq<ResourceType>, made: nat, n: nat, p: Phase, serial: nat, part: Part)
    requires n <= |types| && !part.Tables? && (serial == made ==> p == if part.Body? then Built else Fresh)
    ensures Nested(p, EntryBuilt(types, made, n), serial, part)
  {
    var body, storage := Take(made, false), Take(made, true);
    PhaseOfOne(p, body, serial, Outer(part));
    if n == 0 {
      NestedOne(p, body, serial, part);
    } else {
      NestedTwo(p, body, storage, serial, part);
      PhaseOfTwo(p, body, storage, serial, Outer(part));
      NestedConcat(p, [body, storage], NewEvents(types, made, n), serial, part);
      EventsAreHooks(types, made, 0, n);
      HooksAreNested(PhaseFrom(p, [body, storage], serial, Outer(part)), NewEvents(types, made, n), made, serial, part);
    }
  }

  /** A freed entry: the instances, the storage, the entry. */
  lemma EntryFreedNests(types: seq<ResourceType>, freed: nat, n: nat, p: Phase, serial: nat, part: Part)
    requires n <= |types| && !part.Tables? && (serial == freed && (n > 0 || !part.Instance?) ==> p == Built)
    ensures Nested(p, EntryFreed(types, freed, n), serial, part)
  {
    var body, storage := Give(freed, false), Give(freed, true);
    if n == 0 {
      NestedOne(p, body, serial, part);
    } else {
      var hooks := FreeEvents(types, freed, n);
      EventsAreHooks(types, freed, 0, n);
      HooksAreNested(p, hooks, freed, serial, part);
      SilentKeepsPhase(p, hooks, serial, Outer(part));
      NestedConcat(p, hooks, [storage, body], serial, part);
      NestedTwo(p, storage, body, serial, part);
      PhaseOfOne(p, storage, serial, Outer(part));
    }
  }

  /** An entry enlarged: its storage if it had none, then the instances. */
  lemma EntryGrownNests(types: seq<ResourceType>, grown: nat, from: nat, n: nat, p: Phase, serial: nat, part: Part)
    requires n <= |types| && !part.Tables?
    requires serial == grown ==> p == if part.Instance? && from == 0 then Fresh else Built
    ensures Nested(p, EntryGrown(types, grown, from, n), serial, part)
  {
    var hooks, storage := GrowEvents(types, grown, from, n), Take(grown, true);
    EventsAreHooks(types, grown, from, n);
    if from == 0 && n > 0 {
      NestedOne(p, storage, serial, part);
      PhaseOfOne(p, storage, serial, Outer(part));
      NestedConcat(p, [storage], hooks, serial, part);
      HooksAreNested(PhaseFrom(p, [storage], serial, Outer(part)), hooks, grown, serial, part);
    } else if n <= from {
      assert hooks == [];
    } else {
      HooksAreNested(p, hooks, grown, serial, part);
    }
  }

  // ---------- What is logged for a list of entries ----------

  /** `p` is the phase of what the part lies in, for an entry in the list. */
  ghost predicate Fits(list: seq<Entry>, p: Phase, serial: nat, part: Part) {
    forall k :: 0 <= k < |list| && list[k].serial == serial ==> p == PhaseIn(list[k], part)
  }

  /** Before its first id an entry has no storage. */
  ghost function PhaseIn(e: Entry, part: Part): Phase { if part.Instance? && e.storage == [] then Fresh else Built }

  lemma {:induction false} GrowChainNests(types: seq<ResourceType>, list: seq<Entry>, n: nat, p: Phase, serial: nat,
                                          part: Part)
    requires n <= |types| && !part.Tables? && DistinctSerials(list) && AllWithin(list, n) && Fits(list, p, serial, part)
    ensures Nested(p, GrowChainEvents(types, list, n), serial, part)
  {
    if list != [] {
      var front, e := list[..|list| - 1], list[|list| - 1];
      var events := GrowChainEvents(types, front, n);
      LastOf(list, serial, Outer(part));
      GrowChainNests(types, front, n, p, serial, part);
      NestedConcat(p, events, EntryGrown(types, e.serial, |e.storage|, n), serial, part);
      GrowChainEventsPhase(types, front, n, p, serial, Outer(part));
      EntryGrownNests(types, e.serial, |e.storage|, n, PhaseFrom(p, events, serial, Outer(part)), serial, part);
    }
  }

  lemma {:induction false} ReleaseChainNests(types: seq<ResourceType>, list: seq<Entry>, id: nat, p: Phase, serial: nat,
                                             part: Part)
    requires id < |types| && !part.Tables? && Fits(list, p, serial, part)
    ensures Nested(p, ReleaseChainEvents(types, list, id), serial, part)
    ensures forall n :: 0 <= n < |ReleaseChainEvents(types, list, id)| ==>
      ReleaseChainEvents(types, list, id)[n].Destroy?
  {
    if list != [] {
      var front, e := list[..|list| - 1], list[|list| - 1];
      var events, more := ReleaseChainEvents(types, front, id), ReleaseEvents(types, e, id);
      ReleaseChainNests(types, front, id, p, serial, part);
      assert Silent(events, serial, Outer(part));
      SilentKeepsPhase(p, events, serial, Outer(part));
      NestedConcat(p, events, more, serial, part);
      if more != [] {
        HooksAreNested(p, more, e.serial, serial, part);
      }
    }
  }

  lemma {:induction false} FreeChainNests(types: seq<ResourceType>, list: seq<Entry>, p: Phase, serial: nat, part: Part)
    requires !part.Tables? && DistinctSerials(list) && AllWithin(list, |types|) && Fits(list, p, serial, part)
    ensures Nested(p, FreeChainEvents(types, list), serial, part)
  {
    if list != [] {
      var front, e := list[..|list| - 1], list[|list| - 1];
      var events := FreeChainEvents(types, front);
      LastOf(list, serial, Outer(part));
      FreeChainNests(types, front, p, serial, part);
      NestedConcat(p, events, EntryFreed(types, e.serial, |e.storage|), serial, part);
      FreeChainEventsPhase(types, front, p, serial, Outer(part));
      EntryFreedNests(types, e.serial, |e.storage|, PhaseFrom(p, events, serial, Outer(part)), serial, part);
    }
  }

  // ---------- Steps and runs ----------

  /** Everything in the log finds what it lies in built. */
  ghost predicate InPlace(log: seq<Event>) {
    forall serial, part :: part != Tables ==> Nested(Fresh, log, serial, part)
  }

  lemma PhasesFit(st: State, serial: nat, part: Part)
    requires Healthy(st) && part != Tables
    ensures Fits(Flat(st.table), PhaseOf(st.log, serial, Outer(part)), serial, part)
    ensures serial >= st.next ==> PhaseOf(st.log, serial, Outer(part)) == if part.Body? then Built else Fresh
  {
    var list := Flat(st.table);
    assert LifeOk(st.types, list, st.next, st.log, serial, Outer(part));
    forall k | 0 <= k < |list| && list[k].serial == serial
      ensures PhaseOf(st.log, serial, Outer(part)) == PhaseIn(list[k], part)
    {
      if list[k].storage != [] || !part.Instance? {
        assert part.Body? || (list[k].serial == serial && Reaches(list[k], Outer(part)));
      } else {
        OnlyThisSerial(list, k, Storage);
      }
    }
  }

  lemma OnlyThisSerial(list: seq<Entry>, k: nat, part: Part)
    requires k < |list| && DistinctSerials(list)
    ensures HasSerial(list, list[k].serial) && (Holds(list, list[k].serial, part) <==> Reaches(list[k], part))
  {
    if Holds(list, list[k].serial, part) {
      var l :| 0 <= l < |list| && list[l].serial == list[k].serial && Reaches(list[l], part);
    }
  }

  lemma IdInPlace(st: State, r: ResourceType, pos: nat)
    requires Healthy(st) && InPlace(st.log)
    ensures InPlace(Allocate(st, r, pos).log)
  {
    var types', list := st.types + [r], Flat(st.table);
    GrowEventsBelowAreFlat(types', st.table, |st.table|, |types'|);
    assert st.table[..|st.table|] == st.table;
    ListIsWithin(st);
    var events := GrowChainEvents(types', list, |types'|);
    forall serial, part | part != Tables ensures Nested(Fresh, st.log + events, serial, part) {
      PhasesFit(st, serial, part);
      NestedConcat(Fresh, st.log, events, serial, part);
      GrowChainNests(types', list, |types'|, PhaseOf(st.log, serial, Outer(part)), serial, part);
    }
  }

  lemma ListIsWithin(st: State)
    requires Healthy(st)
    ensures AllWithin(Flat(st.table), |st.types|) && Within(st.table, |st.types|)
  {
    ShutdownFlat(st);
  }

  lemma FreedIdInPlace(st: State, id: nat)
    requires Healthy(st) && InPlace(st.log) && id < |st.types|
    ensures InPlace(FreeId(st, id).log)
  {
    var events := ReleaseChainEvents(st.types, Flat(st.table), id);
    FreeIdFlat(st, id);
    forall serial, part | part != Tables ensures Nested(Fresh, st.log + events, serial, part) {
      PhasesFit(st, serial, part);
      NestedConcat(Fresh, st.log, events, serial, part);
      ReleaseChainNests(st.types, Flat(st.table), id, PhaseOf(st.log, serial, Outer(part)), serial, part);
    }
  }

  /** The entry at a place of the table is freed. */
  lemma FreedInPlace(st: State, h: nat, k: nat)
    requires Healthy(st) && InPlace(st.log) && h < |st.table| && k < |st.table[h]|
    ensures |st.table[h][k].storage| <= |st.types|
    ensures InPlace(st.log + EntryFreed(st.types, st.table[h][k].serial, |st.table[h][k].storage|))
    ensures st.table[h][k].serial < st.next
  {
    var e, list := st.table[h][k], Flat(st.table);
    ListIsWithin(st);
    FlatSplit(st.table, h, k);
    assert list[|Before(st.table, h, k)|] == e;
    var events := EntryFreed(st.types, e.serial, |e.storage|);
    forall serial, part | part != Tables ensures Nested(Fresh, st.log + events, serial, part) {
      PhasesFit(st, serial, part);
      NestedConcat(Fresh, st.log, events, serial, part);
      EntryFreedNests(st.types, e.serial, |e.storage|, PhaseOf(st.log, serial, Outer(part)), serial, part);
    }
  }

  /** A new entry is made, after one that is freed, if any. */
  lemma MadeInPlace(st: State, log: seq<Event>)
    requires Healthy(st) && InPlace(log)
    requires forall part :: part != Tables ==>
      PhaseOf(log, st.next, Outer(part)) == if part.Body? then Built else Fresh
    ensures InPlace(log + EntryBuilt(st.types, st.next, st.idCount))
  {
    var events := EntryBuilt(st.types, st.next, st.idCount);
    forall serial, part | part != Tables ensures Nested(Fresh, log + events, serial, part) {
      NestedConcat(Fresh, log, events, serial, part);
      EntryBuiltNests(st.types, st.next, st.idCount, PhaseOf(log, serial, Outer(part)), serial, part);
    }
  }

  lemma AppendedInPlace(st: State, caller: Thread, t: Thread)
    requires Healthy(st) && InPlace(st.log)
    ensures InPlace(Appended(st, caller, t).log)
  {
    forall part | part != Tables ensures PhaseOf(st.log, st.next, Outer(part)) == if part.Body? then Built else Fresh {
      PhasesFit(st, st.next, part);
    }
    MadeInPlace(st, st.log);
  }

  lemma ReplacedInPlace(st: State, t: Thread, h: nat, k: nat)
    requires Healthy(st) && InPlace(st.log) && h < |st.table| && k < |st.table[h]|
    ensures InPlace(Replaced(st, t, h, k).log)
  {
    FreedInPlace(st, h, k);
    var e := st.table[h][k];
    var events := EntryFreed(st.types, e.serial, |e.storage|);
    forall part | part != Tables
      ensures PhaseOf(st.log + events, st.next, Outer(part)) == if part.Body? then Built else Fresh
    {
      PhasesFit(st, st.next, part);
      PhaseConcat(Fresh, st.log, events, st.next, Outer(part));
      EntryFreedPhase(st.types, e.serial, |e.storage|, PhaseOf(st.log, st.next, Outer(part)), st.next, Outer(part));
    }
    MadeInPlace(st, st.log + events);
  }

  lemma FastIdInPlace(st: State, size: nat, ctor: bool, dtor: bool)
    requires Healthy(st) && InPlace(st.log)
    ensures InPlace(AllocateFastId(st, size, ctor, dtor).log)
  {
    if FastFits(st, size) {
      var r := ResourceType(AlignedSize(size), ctor, dtor, ENTRY_SIZE + st.reservedPos, false);
      FastIdIsAllocate(st, size, ctor, dtor, r);
      IdInPlace(st, r, st.reservedPos + r.size);
    }
  }

  lemma ResourceInPlace(st: State, t: Thread)
    requires Healthy(st) && InPlace(st.log)
    ensures InPlace(Resource(st, t).log)
  {
    var h := HashOf(t, |st.table|);
    var k := Find(st.table[h], t);
    if t !in st.tls && k < |st.table[h]| {
      ReplacedInPlace(st, t, h, k);
    } else if t !in st.tls {
      AppendedInPlace(st, t, t);
    }
  }

  lemma FreedThreadInPlace(st: State, t: Thread)
    requires Healthy(st) && InPlace(st.log)
    ensures InPlace(FreeThread(st, t).log)
  {
    var h := HashOf(t, |st.table|);
    if Find(st.table[h], t) < |st.table[h]| {
      FreedInPlace(st, h, Find(st.table[h], t));
    }
  }

  lemma CallInPlace(st: State, c: Call)
    requires Healthy(st) && Allowed(st, c) && InPlace(st.log)
    ensures InPlace(Apply(st, c).log)
  {
    match c
    case AllocateIdCall(size, ctor, dtor) => IdInPlace(st, ResourceType(size, ctor, dtor, 0, false), st.reservedPos);
    case AllocateFastIdCall(size, ctor, dtor) => FastIdInPlace(st, size, ctor, dtor);
    case ReserveCall(_) =>
    case ResourceCall(t) => ResourceInPlace(st, t);
    case ResourceOfCall(_, _) =>
    case FreeThreadCall(t) => FreedThreadInPlace(st, t);
    case FreeIdCall(id) => FreedIdInPlace(st, id);
    case DeathOf(_) =>
  }

  /** In every run an instance is made and destroyed only while the storage of its entry is
      allocated, a storage is allocated and freed only while its entry is, and an entry
      only while the tables are. */
  lemma {:induction false} RunsAreInPlace(expected: nat, resources: nat, calls: seq<Call>, run: seq<State>, k: nat)
    requires expected > 0 && IsRun(expected, resources, calls, run) && k <= |calls|
    ensures InPlace(run[k].log)
  {
    if k == 0 {
      forall serial, part | part != Tables ensures Nested(Fresh, [TakeTables], serial, part) {
        NestedOne(Fresh, TakeTables, serial, part);
      }
    } else {
      RunsAreInPlace(expected, resources, calls, run, k - 1);
      RunsAreHealthy(expected, resources, calls, run, k - 1);
      assert Follows(run[k - 1], calls[k - 1], run[k - 1 + 1]);
      CallInPlace(run[k - 1], calls[k - 1]);
    }
  }

  /** Shutdown keeps to that as well. */
  lemma ShutdownInPlace(expected: nat, resources: nat, calls: seq<Call>, run: seq<State>)
    requires expected > 0 && IsRun(expected, resources, calls, run)
    ensures Within(run[|calls|].table, |run[|calls|].types|) && InPlace(Shutdown(run[|calls|]).log)
  {
    var st := run[|calls|];
    RunsAreHealthy(expected, resources, calls, run, |calls|);
    RunsAreInPlace(expected, resources, calls, run, |calls|);
    ShutdownFlat(st);
    var events := FreeChainEvents(st.types, Flat(st.table));
    forall serial, part | part != Tables ensures Nested(Fresh, st.log + events + [GiveTables], serial, part) {
      PhasesFit(st, serial, part);
      NestedConcat(Fresh, st.log, events, serial, part);
      FreeChainNests(st.types, Flat(st.table), PhaseOf(st.log, serial, Outer(part)), serial, part);
      NestedConcat(Fresh, st.log + events, [GiveTables], serial, part);
      NestedOne(PhaseFrom(Fresh, st.log + events, serial, Outer(part)), GiveTables, serial, part);
    }
  }

  /** What that says of one event of the log. */
  lemma EventFindsItsPlace(log: seq<Event>, n: nat, serial: nat, part: Part)
    requires InPlace(log) && n < |log| && part != Tables && About(log[n], serial, part)
    ensures PhaseOf(log[..n], serial, Outer(part)) == Built
  {
    NestedAt(Fresh, log, serial, part, n);
  }
}
