/** What every step of the thread-safe resource manager keeps: well-formed
    chains, complete storages, a thread-local key that agrees with the chain, and
    one construction and at most one destruction per resource instance. */
module TsrmSafety {
  import opened Sequences
  import opened TsrmSpec

  // ---------- The life of a part ----------

  /** What can be had and given back: an instance of a resource, the storage array of an
      entry, the entry itself, and the two tables, which belong to no entry. */
  datatype Part = Instance(id: nat) | Storage | Body | Tables

  datatype Phase = Fresh | Built | Gone | Broken

  predicate About(ev: Event, serial: nat, part: Part) {
    match ev
    case Construct(s, id, _, _) => s == serial && part == Instance(id)
    case Destroy(s, id, _, _) => s == serial && part == Instance(id)
    case Take(s, storage) => s == serial && part == if storage then Storage else Body
    case Give(s, storage) => s == serial && part == if storage then Storage else Body
    case TakeTables => part == Tables
    case GiveTables => part == Tables
  }

  predicate Begins(ev: Event) { ev.Construct? || ev.Take? || ev.TakeTables? }

  /** Anything but one beginning and then one end breaks a part. */
  function Advance(p: Phase, begins: bool): Phase {
    if begins then (if p == Fresh then Built else Broken) else if p == Built then Gone else Broken
  }

  function PhaseFrom(p: Phase, log: seq<Event>, serial: nat, part: Part): Phase {
    if log == [] then p
    else
      var before := PhaseFrom(p, log[..|log| - 1], serial, part);
      var ev := log[|log| - 1];
      if About(ev, serial, part) then Advance(before, Begins(ev)) else before
  }

  /** The phase of a part of the entry with that serial. */
  function PhaseOf(log: seq<Event>, serial: nat, part: Part): Phase {
    PhaseFrom(Fresh, log, serial, part)
  }

  lemma {:induction false} PhaseConcat(p: Phase, a: seq<Event>, b: seq<Event>, serial: nat, part: Part)
    ensures PhaseFrom(p, a + b, serial, part) == PhaseFrom(PhaseFrom(p, a, serial, part), b, serial, part)
  {
    if b == [] {
      assert a + b == a;
    } else {
      assert (a + b)[..|a + b| - 1] == a + b[..|b| - 1];
      PhaseConcat(p, a, b[..|b| - 1], serial, part);
    }
  }

  lemma PhaseOfOne(p: Phase, ev: Event, serial: nat, part: Part)
    ensures PhaseFrom(p, [ev], serial, part) == if About(ev, serial, part) then Advance(p, Begins(ev)) else p
  {
    assert [ev][..0] == [];
  }

  lemma PhaseOfTwo(p: Phase, ev: Event, ev': Event, serial: nat, part: Part)
    requires About(ev, serial, part) ==> !About(ev', serial, part)
    ensures PhaseFrom(p, [ev, ev'], serial, part)
         == if About(ev, serial, part) then Advance(p, Begins(ev))
            else if About(ev', serial, part) then Advance(p, Begins(ev')) else p
  {
    assert [ev, ev'] == [ev] + [ev'];
    PhaseConcat(p, [ev], [ev'], serial, part);
    PhaseOfOne(p, ev, serial, part);
    PhaseOfOne(PhaseFrom(p, [ev], serial, part), ev', serial, part);
  }

  /** Parts an entry with the first `n` ids has. */
  predicate Owns(types: seq<ResourceType>, n: nat, part: Part)
    requires n <= |types|
  {
    match part
    case Instance(id) => id < n && !types[id].done
    case Storage => n > 0
    case Body => true
    case Tables => false
  }

  /** Parts an entry gets when it is enlarged. */
  predicate Gains(from: nat, n: nat, part: Part) {
    match part
    case Instance(id) => from <= id < n
    case Storage => from == 0 && n > 0
    case Body => false
    case Tables => false
  }

  lemma {:induction false} NewEventsPhase(types: seq<ResourceType>, made: nat, n: nat, p: Phase, serial: nat,
                                          part: Part)
    requires n <= |types|
    ensures PhaseFrom(p, NewEvents(types, made, n), serial, part)
         == if serial == made && part.Instance? && part.id < n && !types[part.id].done then Advance(p, true) else p
  {
    if n > 0 {
      var events := NewEvents(types, made, n - 1);
      NewEventsPhase(types, made, n - 1, p, serial, part);
      if !types[n - 1].done {
        var ev := Construction(types, made, n - 1);
        assert NewEvents(types, made, n) == events + [ev];
        PhaseConcat(p, events, [ev], serial, part);
        PhaseOfOne(PhaseFrom(p, events, serial, part), ev, serial, part);
      }
    }
  }

  lemma {:induction false} FreeEventsPhase(types: seq<ResourceType>, freed: nat, n: nat, p: Phase, serial: nat,
                                           part: Part)
    requires n <= |types|
    ensures PhaseFrom(p, FreeEvents(types, freed, n), serial, part)
         == if serial == freed && part.Instance? && part.id < n && !types[part.id].done then Advance(p, false) else p
  {
    if n > 0 {
      if types[n - 1].done {
        FreeEventsPhase(types, freed, n - 1, p, serial, part);
      } else {
        var ev := Destruction(types, freed, n - 1);
        PhaseConcat(p, [ev], FreeEvents(types, freed, n - 1), serial, part);
        PhaseOfOne(p, ev, serial, part);
        FreeEventsPhase(types, freed, n - 1, PhaseFrom(p, [ev], serial, part), serial, part);
      }
    }
  }

  lemma {:induction false} GrowEventsPhase(types: seq<ResourceType>, grown: nat, from: nat, n: nat, p: Phase,
                                           serial: nat, part: Part)
    requires n <= |types|
    ensures PhaseFrom(p, GrowEvents(types, grown, from, n), serial, part)
         == if serial == grown && part.Instance? && from <= part.id < n then Advance(p, true) else p
    decreases n
  {
    if n > from {
      GrowEventsPhase(types, grown, from, n - 1, p, serial, part);
      var ev := Construction(types, grown, n - 1);
      PhaseConcat(p, GrowEvents(types, grown, from, n - 1), [ev], serial, part);
      PhaseOfOne(PhaseFrom(p, GrowEvents(types, grown, from, n - 1), serial, part), ev, serial, part);
    }
  }

  /** A new entry begins what it owns, and nothing else. */
  lemma EntryBuiltPhase(types: seq<ResourceType>, made: nat, n: nat, p: Phase, serial: nat, part: Part)
    requires n <= |types|
    ensures PhaseFrom(p, EntryBuilt(types, made, n), serial, part)
         == if serial == made && Owns(types, n, part) then Advance(p, true) else p
  {
    if n == 0 {
      PhaseOfOne(p, Take(made, false), serial, part);
    } else {
      var two := [Take(made, false), Take(made, true)];
      PhaseConcat(p, two, NewEvents(types, made, n), serial, part);
      PhaseOfTwo(p, Take(made, false), Take(made, true), serial, part);
      NewEventsPhase(types, made, n, PhaseFrom(p, two, serial, part), serial, part);
    }
  }

  /** A freed entry ends what it owns, and nothing else. */
  lemma EntryFreedPhase(types: seq<ResourceType>, freed: nat, n: nat, p: Phase, serial: nat, part: Part)
    requires n <= |types|
    ensures PhaseFrom(p, EntryFreed(types, freed, n), serial, part)
         == if serial == freed && Owns(types, n, part) then Advance(p, false) else p
  {
    if n == 0 {
      PhaseOfOne(p, Give(freed, false), serial, part);
    } else {
      var middle := PhaseFrom(p, FreeEvents(types, freed, n), serial, part);
      PhaseConcat(p, FreeEvents(types, freed, n), [Give(freed, true), Give(freed, false)], serial, part);
      FreeEventsPhase(types, freed, n, p, serial, part);
      PhaseOfTwo(middle, Give(freed, true), Give(freed, false), serial, part);
    }
  }

  lemma EntryGrownPhase(types: seq<ResourceType>, grown: nat, from: nat, n: nat, p: Phase, serial: nat, part: Part)
    requires n <= |types|
    ensures PhaseFrom(p, EntryGrown(types, grown, from, n), serial, part)
         == if serial == grown && Gains(from, n, part) then Advance(p, true) else p
  {
    if from == 0 && n > 0 {
      var one := [Take(grown, true)];
      PhaseConcat(p, one, GrowEvents(types, grown, from, n), serial, part);
      PhaseOfOne(p, Take(grown, true), serial, part);
      GrowEventsPhase(types, grown, from, n, PhaseFrom(p, one, serial, part), serial, part);
    } else {
      GrowEventsPhase(types, grown, from, n, p, serial, part);
    }
  }

  // ---------- Lists of entries ----------

  /** The whole table as one list, in the order the loops visit it. */
  function Flat(table: seq<seq<Entry>>): seq<Entry> {
    if table == [] then [] else Flat(table[..|table| - 1]) + table[|table| - 1]
  }

  ghost predicate HasSerial(list: seq<Entry>, serial: nat) {
    exists k :: 0 <= k < |list| && list[k].serial == serial
  }

  ghost predicate DistinctSerials(list: seq<Entry>) {
    forall k, l :: 0 <= k < l < |list| ==> list[k].serial != list[l].serial
  }

  /** No storage has more than `n` slots. */
  ghost predicate AllWithin(list: seq<Entry>, n: nat) {
    forall k :: 0 <= k < |list| ==> |list[k].storage| <= n
  }

  /** The entry with that serial is long enough to have the part. */
  ghost predicate Holds(list: seq<Entry>, serial: nat, part: Part) {
    exists k :: 0 <= k < |list| && list[k].serial == serial && Reaches(list[k], part)
  }

  predicate Reaches(e: Entry, part: Part) {
    match part
    case Instance(id) => id < |e.storage|
    case Storage => 0 < |e.storage|
    case Body => true
    case Tables => false
  }

  lemma LastOf(list: seq<Entry>, serial: nat, part: Part)
    requires list != []
    ensures var front, last := list[..|list| - 1], list[|list| - 1];
      && (HasSerial(list, serial) <==> HasSerial(front, serial) || last.serial == serial)
      && (Holds(list, serial, part) <==> Holds(front, serial, part) || (last.serial == serial && Reaches(last, part)))
      && (Holds(front, serial, part) ==> HasSerial(front, serial))
      && (DistinctSerials(list) ==> !HasSerial(front, last.serial))
  {
    var front, last := list[..|list| - 1], list[|list| - 1];
    assert forall k :: 0 <= k < |front| ==> front[k] == list[k];
    assert list[|list| - 1] == last;
    if HasSerial(list, serial) {
      var k :| 0 <= k < |list| && list[k].serial == serial;
      assert k < |front| ==> front[k].serial == serial;
    }
    if Holds(list, serial, part) {
      var k :| 0 <= k < |list| && list[k].serial == serial && Reaches(list[k], part);
      assert k < |front| ==> front[k].serial == serial && Reaches(front[k], part);
    }
    if HasSerial(front, serial) {
      var k :| 0 <= k < |front| && front[k].serial == serial;
      assert list[k].serial == serial;
    }
    if Holds(front, serial, part) {
      var k :| 0 <= k < |front| && front[k].serial == serial && Reaches(front[k], part);
      assert list[k].serial == serial && Reaches(list[k], part) && front[k].serial == serial;
    }
  }

  /** Enlarging the entries to `n` ids begins in each what it lacks, once. */
  lemma {:induction false} GrowChainEventsPhase(types: seq<ResourceType>, list: seq<Entry>, n: nat, p: Phase,
                                                serial: nat, part: Part)
    requires n <= |types| && DistinctSerials(list) && AllWithin(list, n)
    ensures PhaseFrom(p, GrowChainEvents(types, list, n), serial, part)
         == if HasSerial(list, serial) && !Holds(list, serial, part) && Gains(0, n, part) then Advance(p, true) else p
  {
    if list != [] {
      var front, e := list[..|list| - 1], list[|list| - 1];
      LastOf(list, serial, part);
      GrowChainEventsPhase(types, front, n, p, serial, part);
      var events := GrowChainEvents(types, front, n);
      PhaseConcat(p, events, EntryGrown(types, e.serial, |e.storage|, n), serial, part);
      EntryGrownPhase(types, e.serial, |e.storage|, n, PhaseFrom(p, events, serial, part), serial, part);
    }
  }

  /** Freeing an id destroys it once in each entry that has it. */
  lemma {:induction false} ReleaseChainEventsPhase(types: seq<ResourceType>, list: seq<Entry>, freed: nat, p: Phase,
                                                   serial: nat, part: Part)
    requires freed < |types| && DistinctSerials(list) && AllWithin(list, |types|)
    requires forall k :: 0 <= k < |list| && freed < |list[k].storage| ==>
      (list[k].storage[freed] != Null <==> !types[freed].done)
    ensures PhaseFrom(p, ReleaseChainEvents(types, list, freed), serial, part)
         == if Holds(list, serial, part) && part == Instance(freed) && !types[freed].done then Advance(p, false) else p
  {
    if list != [] {
      var front, e := list[..|list| - 1], list[|list| - 1];
      LastOf(list, serial, part);
      ReleaseChainEventsPhase(types, front, freed, p, serial, part);
      var events, more := ReleaseChainEvents(types, front, freed), ReleaseEvents(types, e, freed);
      assert ReleaseChainEvents(types, list, freed) == events + more;
      PhaseConcat(p, events, more, serial, part);
      PhaseOfOne(PhaseFrom(p, events, serial, part), Destruction(types, e.serial, freed), serial, part);
    }
  }

  /** A part that is there: its entry is, and has it, and its id is not done. */
  ghost predicate Alive(types: seq<ResourceType>, list: seq<Entry>, serial: nat, part: Part) {
    Holds(list, serial, part) && (part.Instance? ==> part.id < |types| && !types[part.id].done)
  }

  /** Shutting down ends every part that is there, once. */
  lemma {:induction false} FreeChainEventsPhase(types: seq<ResourceType>, list: seq<Entry>, p: Phase, serial: nat,
                                                part: Part)
    requires DistinctSerials(list) && AllWithin(list, |types|)
    ensures PhaseFrom(p, FreeChainEvents(types, list), serial, part)
         == if Alive(types, list, serial, part) then Advance(p, false) else p
  {
    if list != [] {
      var front, e := list[..|list| - 1], list[|list| - 1];
      LastOf(list, serial, part);
      FreeChainEventsPhase(types, front, p, serial, part);
      var events := FreeChainEvents(types, front);
      PhaseConcat(p, events, EntryFreed(types, e.serial, |e.storage|), serial, part);
      EntryFreedPhase(types, e.serial, |e.storage|, PhaseFrom(p, events, serial, part), serial, part);
    }
  }

  // ---------- The invariant ----------

  ghost predicate ThreadsDistinct(chain: seq<Entry>) {
    forall k, l :: 0 <= k < l < |chain| ==> chain[k].thread != chain[l].thread
  }

  ghost predicate ThreadsHashTo(chain: seq<Entry>, h: nat, size: nat)
    requires size > 0
  {
    forall k :: 0 <= k < |chain| ==> HashOf(chain[k].thread, size) == h
  }

  /** A chain holds only threads hashing to its bucket, at most one entry each. */
  ghost predicate ChainsOk(table: seq<seq<Entry>>) {
    && (forall h :: 0 <= h < |table| ==> ThreadsHashTo(table[h], h, |table|))
    && (forall h :: 0 <= h < |table| ==> ThreadsDistinct(table[h]))
  }

  /** Ids that a failed call lost: never set, and never freed. */
  ghost predicate SkippedOk(types: seq<ResourceType>, skipped: set<nat>) {
    forall i :: i in skipped ==> i < |types| && types[i] == UNSET
  }

  /** Every entry has a slot for each of the first ids, null exactly for the ids done,
      and in its own block or at the fast offset otherwise; the ids it lacks were lost. */
  ghost predicate StoragesOk(types: seq<ResourceType>, skipped: set<nat>, list: seq<Entry>) {
    forall k :: 0 <= k < |list| ==> StorageOk(types, skipped, list[k].storage)
  }

  ghost predicate StorageOk(types: seq<ResourceType>, skipped: set<nat>, storage: seq<Slot>) {
    && |storage| <= |types| && storage == NewStorage(types, |storage|)
    && forall i :: |storage| <= i < |types| ==> i in skipped
  }

  /** Every entry has a slot for every id that was handed out. */
  ghost predicate Complete(table: seq<seq<Entry>>, n: nat, skipped: set<nat>) {
    forall h, k :: 0 <= h < |table| && 0 <= k < |table[h]| ==> Covers(table[h][k], n, skipped)
  }

  ghost predicate Covers(e: Entry, n: nat, skipped: set<nat>) {
    |e.storage| <= n && forall i :: |e.storage| <= i < n ==> i in skipped
  }

  ghost predicate SerialsOk(list: seq<Entry>, next: nat) {
    DistinctSerials(list) && forall k :: 0 <= k < |list| ==> list[k].serial < next
  }

  ghost predicate Points(chain: seq<Entry>, t: Thread, serial: nat) {
    exists k :: 0 <= k < |chain| && chain[k].thread == t && chain[k].serial == serial
  }

  /** A key that is set points to an entry of its thread in the right chain. */
  ghost predicate KeysAgree(table: seq<seq<Entry>>, tls: map<Thread, nat>)
    requires |table| > 0
  {
    forall t :: t in tls ==> Points(table[HashOf(t, |table|)], t, tls[t])
  }

  /** Fast slots lie aligned in the reserved space of an entry, and apart. */
  ghost predicate FastOk(types: seq<ResourceType>, pos: nat, size: nat) {
    && pos <= size && Aligned(pos)
    && (forall i :: 0 <= i < |types| && types[i].fast != 0 ==> Aligned(types[i].fast))
    && (forall i :: 0 <= i < |types| && types[i].fast != 0 ==>
          ENTRY_SIZE <= types[i].fast && types[i].fast + types[i].size <= ENTRY_SIZE + pos)
    && (forall i, j :: 0 <= i < j < |types| && types[i].fast != 0 && types[j].fast != 0 ==>
          types[i].fast + types[i].size <= types[j].fast)
  }

  /** Exactly the parts that are there are built; what is not yet possible is fresh;
      nothing is broken. */
  ghost predicate LivesOk(types: seq<ResourceType>, list: seq<Entry>, next: nat, log: seq<Event>) {
    forall s, part :: LifeOk(types, list, next, log, s, part)
  }

  ghost predicate LifeOk(types: seq<ResourceType>, list: seq<Entry>, next: nat, log: seq<Event>, s: nat, part: Part) {
    if part.Tables? then PhaseOf(log, s, part) == Built
    else
      && PhaseOf(log, s, part) != Broken
      && (PhaseOf(log, s, part) == Built <==> Alive(types, list, s, part))
      && (NotYet(types, list, next, s, part) ==> PhaseOf(log, s, part) == Fresh)
  }

  /** Its entry is not made yet, or has not got it yet. */
  ghost predicate NotYet(types: seq<ResourceType>, list: seq<Entry>, next: nat, s: nat, part: Part) {
    s >= next || (part.Instance? && part.id >= |types|) || (HasSerial(list, s) && !Holds(list, s, part))
  }

  /** Blocks are freed exactly where they were allocated, and the hooks are those
      of the type. */
  ghost predicate EventsFit(types: seq<ResourceType>, log: seq<Event>) {
    forall n :: 0 <= n < |log| ==> EventFits(types, log[n])
  }

  predicate EventFits(types: seq<ResourceType>, ev: Event) {
    ev.Construct? || ev.Destroy? ==>
      && ev.id < |types| && ev.own == (types[ev.id].fast == 0)
      && ev.hook == (if ev.Construct? then types[ev.id].ctor else types[ev.id].dtor)
  }

  /** What the entries, the next serial and the log satisfy together. */
  ghost predicate Sound(types: seq<ResourceType>, skipped: set<nat>, list: seq<Entry>, next: nat, log: seq<Event>) {
    && SkippedOk(types, skipped) && StoragesOk(types, skipped, list) && SerialsOk(list, next)
    && LivesOk(types, list, next, log) && EventsFit(types, log)
  }

  ghost predicate Healthy(st: State) {
    && |st.table| > 0 && st.idCount == |st.types| <= st.capacity
    && ChainsOk(st.table)
    && Complete(st.table, st.idCount, st.skipped)
    && KeysAgree(st.table, st.tls)
    && FastOk(st.types, st.reservedPos, st.reservedSize)
    && Sound(st.types, st.skipped, Flat(st.table), st.next, st.log)
  }

  // ---------- The table as one list ----------

  lemma {:induction false} FlatConcat(a: seq<seq<Entry>>, b: seq<seq<Entry>>)
    ensures Flat(a + b) == Flat(a) + Flat(b)
  {
    if b == [] {
      assert a + b == a;
    } else {
      assert (a + b)[..|a + b| - 1] == a + b[..|b| - 1];
      FlatConcat(a, b[..|b| - 1]);
    }
  }

  /** Replacing a chain replaces a stretch of the list. */
  lemma FlatUpdate(table: seq<seq<Entry>>, h: nat, c: seq<Entry>)
    requires h < |table|
    ensures Flat(table[h := c]) == Flat(table[..h]) + c + Flat(table[h + 1..])
  {
    var t := table[h := c];
    assert t == table[..h] + ([c] + table[h + 1..]);
    FlatConcat(table[..h], [c] + table[h + 1..]);
    FlatConcat([c], table[h + 1..]);
    assert Flat([c]) == c by { assert [c][..0] == []; }
  }

  /** The list around position `k` of chain `h`. */
  ghost function Before(table: seq<seq<Entry>>, h: nat, k: nat): seq<Entry>
    requires h < |table| && k <= |table[h]|
  {
    Flat(table[..h]) + table[h][..k]
  }

  ghost function After(table: seq<seq<Entry>>, h: nat, k: nat): seq<Entry>
    requires h < |table| && k <= |table[h]|
  {
    table[h][k..] + Flat(table[h + 1..])
  }

  lemma FlatAppend(table: seq<seq<Entry>>, h: nat, c: seq<Entry>)
    requires h < |table|
    ensures Flat(table[h := table[h] + c]) == Before(table, h, |table[h]|) + c + After(table, h, |table[h]|)
  {
    FlatUpdate(table, h, table[h] + c);
    assert table[h][..|table[h]|] == table[h];
    assert After(table, h, |table[h]|) == Flat(table[h + 1..]);
    assert Flat(table[..h]) + (table[h] + c) == Before(table, h, |table[h]|) + c;
  }

  lemma FlatWhole(table: seq<seq<Entry>>, h: nat)
    requires h < |table|
    ensures Flat(table) == Before(table, h, |table[h]|) + After(table, h, |table[h]|)
  {
    FlatAppend(table, h, []);
    assert table[h] + [] == table[h];
    assert table[h := table[h]] == table;
    assert Before(table, h, |table[h]|) + [] == Before(table, h, |table[h]|);
  }

  /** Replacing the entry at position `k` by the entries `c`. */
  lemma FlatReplace(table: seq<seq<Entry>>, h: nat, k: nat, c: seq<Entry>)
    requires h < |table| && k < |table[h]|
    ensures Flat(table[h := table[h][..k] + c + table[h][k + 1..]]) == Before(table, h, k) + c + After(table, h, k + 1)
  {
    FlatUpdate(table, h, table[h][..k] + c + table[h][k + 1..]);
  }

  lemma FlatSplit(table: seq<seq<Entry>>, h: nat, k: nat)
    requires h < |table| && k < |table[h]|
    ensures Flat(table) == Before(table, h, k) + [table[h][k]] + After(table, h, k + 1)
  {
    FlatReplace(table, h, k, [table[h][k]]);
    assert table[h][..k] + [table[h][k]] + table[h][k + 1..] == table[h];
    assert table[h := table[h]] == table;
  }

  lemma FlatRemove(table: seq<seq<Entry>>, h: nat, k: nat)
    requires h < |table| && k < |table[h]|
    ensures Flat(table[h := table[h][..k] + table[h][k + 1..]]) == Before(table, h, k) + After(table, h, k + 1)
  {
    FlatReplace(table, h, k, []);
    assert table[h][..k] + [] + table[h][k + 1..] == table[h][..k] + table[h][k + 1..];
    assert Before(table, h, k) + [] == Before(table, h, k);
  }

  lemma StoragesAreComplete(types: seq<ResourceType>, skipped: set<nat>, table: seq<seq<Entry>>)
    requires StoragesOk(types, skipped, Flat(table))
    ensures Complete(table, |types|, skipped)
  {
    forall h, k | 0 <= h < |table| && 0 <= k < |table[h]| ensures Covers(table[h][k], |types|, skipped) {
      FlatSplit(table, h, k);
      assert Flat(table)[|Before(table, h, k)|] == table[h][k];
    }
  }

  lemma InsertSerial(p: seq<Entry>, q: seq<Entry>, e: Entry, serial: nat)
    ensures HasSerial(p + [e] + q, serial) <==> HasSerial(p + q, serial) || e.serial == serial
  {
    var r, r' := p + q, p + [e] + q;
    if HasSerial(r, serial) {
      var k :| 0 <= k < |r| && r[k].serial == serial;
      assert r'[if k < |p| then k else k + 1].serial == serial;
    }
    if e.serial == serial {
      assert r'[|p|].serial == serial;
    }
    if HasSerial(r', serial) && e.serial != serial {
      var k :| 0 <= k < |r'| && r'[k].serial == serial;
      assert r[if k < |p| then k else k - 1].serial == serial;
    }
  }

  lemma InsertHolds(p: seq<Entry>, q: seq<Entry>, e: Entry, serial: nat, part: Part)
    ensures Holds(p + [e] + q, serial, part) <==> Holds(p + q, serial, part) || (e.serial == serial && Reaches(e, part))
  {
    var r, r' := p + q, p + [e] + q;
    if Holds(r, serial, part) {
      var k :| 0 <= k < |r| && r[k].serial == serial && Reaches(r[k], part);
      assert r'[if k < |p| then k else k + 1] == r[k];
    }
    if e.serial == serial && Reaches(e, part) {
      assert r'[|p|] == e;
    }
    if Holds(r', serial, part) && !(e.serial == serial && Reaches(e, part)) {
      var k :| 0 <= k < |r'| && r'[k].serial == serial && Reaches(r'[k], part);
      assert r[if k < |p| then k else k - 1] == r'[k];
    }
  }

  /** An entry with a new serial joins a list of distinct ones; an entry that
      leaves takes its serial away. */
  lemma InsertDistinct(p: seq<Entry>, q: seq<Entry>, e: Entry)
    ensures DistinctSerials(p + [e] + q) <==> DistinctSerials(p + q) && !HasSerial(p + q, e.serial)
  {
    var r, r' := p + q, p + [e] + q;
    assert forall k :: 0 <= k < |r| ==> r[k] == r'[if k < |p| then k else k + 1];
    assert r'[|p|] == e;
    if DistinctSerials(r) && !HasSerial(r, e.serial) {
      forall k, l | 0 <= k < l < |r'| ensures r'[k].serial != r'[l].serial {
        var k', l' := if k < |p| then k else k - 1, if l < |p| then l else l - 1;
        if k == |p| {
          assert r[l'].serial == r'[l].serial;
        } else if l == |p| {
          assert r[k'].serial == r'[k].serial;
        } else {
          assert r[k'].serial != r[l'].serial;
        }
      }
    }
    if DistinctSerials(r') {
      forall k, l | 0 <= k < l < |r| ensures r[k].serial != r[l].serial {
        assert r'[if k < |p| then k else k + 1].serial != r'[if l < |p| then l else l + 1].serial;
      }
      forall k | 0 <= k < |r| ensures r[k].serial != e.serial {
        assert r'[if k < |p| then k else k + 1].serial != r'[|p|].serial;
      }
    }
  }

  // ---------- What the logged events are ----------

  lemma EventsFitConcat(types: seq<ResourceType>, a: seq<Event>, b: seq<Event>)
    requires EventsFit(types, a) && EventsFit(types, b)
    ensures EventsFit(types, a + b)
  {}

  lemma {:induction false} NewEventsFit(types: seq<ResourceType>, serial: nat, n: nat)
    requires n <= |types|
    ensures EventsFit(types, NewEvents(types, serial, n))
  {
    if n > 0 {
      NewEventsFit(types, serial, n - 1);
    }
  }

  lemma {:induction false} FreeEventsFit(types: seq<ResourceType>, serial: nat, n: nat)
    requires n <= |types|
    ensures EventsFit(types, FreeEvents(types, serial, n))
  {
    if n > 0 {
      FreeEventsFit(types, serial, n - 1);
    }
  }

  /** Within one entry destruction runs from the last id to the first. */
  lemma {:induction false} FreeEventsDescend(types: seq<ResourceType>, serial: nat, n: nat)
    requires n <= |types|
    ensures forall a :: 0 <= a < |FreeEvents(types, serial, n)| ==>
      FreeEvents(types, serial, n)[a].Destroy? && FreeEvents(types, serial, n)[a].id < n
    ensures forall a, b :: 0 <= a < b < |FreeEvents(types, serial, n)| ==>
      FreeEvents(types, serial, n)[a].id > FreeEvents(types, serial, n)[b].id
  {
    if n > 0 {
      FreeEventsDescend(types, serial, n - 1);
    }
  }

  /** And construction from the first to the last, in a new entry and in an enlarged one. */
  lemma {:induction false} NewEventsAscend(types: seq<ResourceType>, serial: nat, n: nat)
    requires n <= |types|
    ensures forall a :: 0 <= a < |NewEvents(types, serial, n)| ==>
      NewEvents(types, serial, n)[a].Construct? && NewEvents(types, serial, n)[a].id < n
    ensures forall a, b :: 0 <= a < b < |NewEvents(types, serial, n)| ==>
      NewEvents(types, serial, n)[a].id < NewEvents(types, serial, n)[b].id
  {
    if n > 0 {
      NewEventsAscend(types, serial, n - 1);
    }
  }

  lemma {:induction false} GrowEventsAscend(types: seq<ResourceType>, serial: nat, from: nat, n: nat, a: nat)
    requires from <= n <= |types| && a < n - from
    ensures |GrowEvents(types, serial, from, n)| == n - from
    ensures GrowEvents(types, serial, from, n)[a].Construct? && GrowEvents(types, serial, from, n)[a].id == from + a
    decreases n
  {
    if n - 1 > from && a < n - 1 - from {
      GrowEventsAscend(types, serial, from, n - 1, a);
    } else if n - 1 > from {
      GrowEventsAscend(types, serial, from, n - 1, 0);
    }
  }

  /** A thread id below the number of buckets is its bucket, and the buckets come round. */
  lemma BucketsComeRound(t: Thread, size: nat)
    requires size > 0
    ensures t < size ==> HashOf(t, size) == t
    ensures HashOf(t, size) < size && HashOf(t + size, size) == HashOf(t, size)
  {
    if t < size {
      DivIs(t, size, 0);
    }
    NextQuotient(t, size);
  }

  lemma {:induction false} GrowEventsFit(types: seq<ResourceType>, serial: nat, from: nat, n: nat)
    requires n <= |types|
    ensures EventsFit(types, GrowEvents(types, serial, from, n))
    decreases n
  {
    if n > from {
      GrowEventsFit(types, serial, from, n - 1);
    }
  }

  lemma {:induction false} GrowChainEventsFit(types: seq<ResourceType>, list: seq<Entry>, n: nat)
    requires n <= |types|
    ensures EventsFit(types, GrowChainEvents(types, list, n))
  {
    if list != [] {
      var e := list[|list| - 1];
      GrowChainEventsFit(types, list[..|list| - 1], n);
      GrowEventsFit(types, e.serial, |e.storage|, n);
    }
  }

  lemma EntryEventsFit(types: seq<ResourceType>, serial: nat, n: nat)
    requires n <= |types|
    ensures EventsFit(types, EntryBuilt(types, serial, n)) && EventsFit(types, EntryFreed(types, serial, n))
  {
    NewEventsFit(types, serial, n);
    FreeEventsFit(types, serial, n);
  }

  lemma {:induction false} ReleaseChainEventsFit(types: seq<ResourceType>, list: seq<Entry>, id: nat)
    requires id < |types|
    ensures EventsFit(types, ReleaseChainEvents(types, list, id))
  {
    if list != [] {
      ReleaseChainEventsFit(types, list[..|list| - 1], id);
    }
  }

  // ---------- Threads come and go ----------

  lemma NewStorageSlots(types: seq<ResourceType>, n: nat)
    requires n <= |types|
    ensures forall i :: 0 <= i < n ==> (NewStorage(types, n)[i] == if types[i].done then Null else MakeSlot(types[i]))
  {}

  lemma FindIsTheOnly(chain: seq<Entry>, k: nat)
    requires k < |chain|
    requires ThreadsDistinct(chain)
    ensures Find(chain, chain[k].thread) == k
  {}

  /** The key, when set, is where the walk of the chain ends: the lock-free fast
      path agrees with the slow path. */
  lemma KeyIsWalk(st: State, t: Thread)
    requires Healthy(st) && t in st.tls
    ensures var chain := st.table[HashOf(t, |st.table|)];
      Find(chain, t) < |chain| && chain[Find(chain, t)].serial == st.tls[t]
  {
    var chain := st.table[HashOf(t, |st.table|)];
    assert Points(chain, t, st.tls[t]);
    var k :| 0 <= k < |chain| && chain[k].thread == t && chain[k].serial == st.tls[t];
    FindIsTheOnly(chain, k);
  }

  /** One more entry whose serial is new: what it owns is built. */
  lemma LivesAfterNew(types: seq<ResourceType>, p: seq<Entry>, q: seq<Entry>, next: nat, log: seq<Event>, e: Entry)
    requires LivesOk(types, p + q, next, log) && SerialsOk(p + q, next) && e.serial == next && |e.storage| == |types|
    ensures LivesOk(types, p + [e] + q, next + 1, log + EntryBuilt(types, next, |types|))
  {
    var list, next', log' := p + [e] + q, next + 1, log + EntryBuilt(types, next, |types|);
    forall s, part ensures LifeOk(types, list, next', log', s, part) {
      assert LifeOk(types, p + q, next, log, s, part);
      PhaseConcat(Fresh, log, EntryBuilt(types, next, |types|), s, part);
      EntryBuiltPhase(types, next, |types|, PhaseOf(log, s, part), s, part);
      InsertSerial(p, q, e, s);
      InsertHolds(p, q, e, s, part);
      HoldsHas(p + q, s, part);
    }
  }

  lemma HoldsHas(list: seq<Entry>, serial: nat, part: Part)
    ensures Holds(list, serial, part) ==> HasSerial(list, serial)
    ensures HasSerial(list, serial) ==> exists k :: 0 <= k < |list| && list[k].serial == serial
  {}

  /** One entry less: what was built of it is gone. */
  lemma LivesAfterFree(types: seq<ResourceType>, p: seq<Entry>, q: seq<Entry>, next: nat, log: seq<Event>, e: Entry)
    requires LivesOk(types, p + [e] + q, next, log) && SerialsOk(p + [e] + q, next) && |e.storage| <= |types|
    ensures LivesOk(types, p + q, next, log + EntryFreed(types, e.serial, |e.storage|))
  {
    var list, log' := p + q, log + EntryFreed(types, e.serial, |e.storage|);
    InsertDistinct(p, q, e);
    assert (p + [e] + q)[|p|] == e;
    forall s, part ensures LifeOk(types, list, next, log', s, part) {
      assert LifeOk(types, p + [e] + q, next, log, s, part);
      PhaseConcat(Fresh, log, EntryFreed(types, e.serial, |e.storage|), s, part);
      EntryFreedPhase(types, e.serial, |e.storage|, PhaseOf(log, s, part), s, part);
      InsertSerial(p, q, e, s);
      InsertHolds(p, q, e, s, part);
      HoldsHas(p + q, s, part);
    }
  }
}
