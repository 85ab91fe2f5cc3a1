/** What every run of the parallel test scheduler keeps: no test is lost,
    duplicated or stranded, no two workers share a conflict key, tests with one
    common key keep their order, and the loop ends. */
module SchedulerSafety {
  import opened Sequences
  import opened OrderedMaps
  import opened Scheduling

  // ---------- The invariant ----------

  ghost predicate WellFormed(st: State) {
    st.active.Ok() && st.waiting.Ok() && st.running.Ok()
  }

  /** Every test is in exactly one place, as often as it was given. */
  ghost predicate Conserved(tests: seq<Test>, st: State)
    requires WellFormed(st)
  {
    && multiset(st.pending) + Elements(st.waiting) + multiset(st.sequential)
         + Elements(st.running) + multiset(st.finished) == multiset(tests)
    && multiset(st.dispatched) == Elements(st.running) + multiset(st.finished)
  }

  /** Some test of the batch conflicts on `k`. */
  ghost predicate Uses(cfg: Config, batch: seq<Test>, k: Key) {
    exists t :: t in batch && k in ConflictsOf(cfg, t)
  }

  /** `$activeConflicts` holds exactly the keys of the batches in flight, each
      with the worker that runs it. */
  ghost predicate KeysHeld(cfg: Config, active: map<Key, Worker>, running: map<Worker, seq<Test>>) {
    && (forall w, k :: w in running && Uses(cfg, running[w], k) ==> k in active && active[k] == w)
    && (forall k :: k in active ==> active[k] in running && Uses(cfg, running[active[k]], k))
  }

  /** A test waiting on `k` conflicts on `k`, and some worker holds `k`. */
  ghost predicate WaitsOnHeld(cfg: Config, active: map<Key, Worker>, waiting: map<Key, seq<Test>>) {
    && (forall k :: k in waiting ==> k in active)
    && WaitsOnOwn(cfg, waiting)
  }

  ghost predicate WaitsOnOwn(cfg: Config, waiting: map<Key, seq<Test>>) {
    forall k, t :: k in waiting && t in waiting[k] ==> k in ConflictsOf(cfg, t)
  }

  /** Every live worker other than `idle` is busy or has yet to report. */
  ghost predicate WorkersAccounted(st: State, idle: set<Worker>) {
    && st.live == st.unready + st.running.at.Keys + idle
    && st.unready !! st.running.at.Keys
    && idle !! st.unready + st.running.at.Keys
    && st.inProgress == |st.running.at|
    && (forall w :: w in st.running.at ==> st.running.at[w] != [])
  }

  /** While two workers live, tests conflicting with "all" are held back. */
  ghost predicate AllHeldBack(cfg: Config, st: State)
    requires WellFormed(st)
  {
    && (forall t :: t in st.sequential ==> IsSequential(cfg, t))
    && (|st.live| > 1 ==> forall t :: t in multiset(st.pending) + Elements(st.waiting) + Elements(st.running) ==>
        !IsSequential(cfg, t))
  }

  /** The last worker goes only when there is nothing left to hand out. */
  ghost predicate DrainedAtEnd(st: State) {
    st.live == {} ==> st.pending == [] && st.sequential == []
  }

  /** `t` conflicts on `k` and on nothing else. */
  predicate OnlyOn(cfg: Config, k: Key, t: Test) {
    var keys := ConflictsOf(cfg, t);
    keys != [] && forall n :: 0 <= n < |keys| ==> keys[n] == k
  }

  /** The tests of `s` whose only conflict key is `k`, in order. */
  function Only(cfg: Config, k: Key, s: seq<Test>): seq<Test> {
    if s == [] then []
    else if OnlyOn(cfg, k, s[0]) then [s[0]] + Only(cfg, k, s[1..])
    else Only(cfg, k, s[1..])
  }

  /** The tests on `k` that wait, then those that are pending, in popping order. */
  ghost function StillToCome(cfg: Config, k: Key, waiting: OrderedMap<Key, seq<Test>>, pending: seq<Test>): seq<Test> {
    Only(cfg, k, Under(waiting, k)) + Only(cfg, k, Reverse(pending))
  }

  /** Handed out, then still to come: together the tests on `k` are in their
      original order. */
  ghost predicate OrderKept(cfg: Config, tests: seq<Test>, k: Key, st: State) {
    Only(cfg, k, st.dispatched) + StillToCome(cfg, k, st.waiting, st.pending) == Only(cfg, k, tests)
  }

  ghost predicate InOrder(cfg: Config, tests: seq<Test>, st: State) {
    forall k :: k != ALL ==> OrderKept(cfg, tests, k, st)
  }

  ghost predicate Inv(cfg: Config, tests: seq<Test>, st: State, idle: set<Worker>) {
    && WellFormed(st)
    && Conserved(tests, st)
    && KeysHeld(cfg, st.active.at, st.running.at)
    && WaitsOnHeld(cfg, st.active.at, st.waiting.at)
    && WorkersAccounted(st, idle)
    && AllHeldBack(cfg, st)
    && DrainedAtEnd(st)
    && InOrder(cfg, tests, st)
  }

  /** Test names are non-empty and not "0". */
  ghost predicate NamesTruthy(tests: seq<Test>) {
    forall t :: t in tests ==> Truthy(t)
  }

  // ---------- Sequences ----------

  lemma {:induction false} OnlyConcat(cfg: Config, k: Key, a: seq<Test>, b: seq<Test>)
    ensures Only(cfg, k, a + b) == Only(cfg, k, a) + Only(cfg, k, b)
  {
    if a == [] {
      assert a + b == b;
    } else {
      assert (a + b)[1..] == a[1..] + b;
      OnlyConcat(cfg, k, a[1..], b);
    }
  }

  lemma {:induction false} OnlyNone(cfg: Config, k: Key, s: seq<Test>)
    requires forall t :: t in s ==> !OnlyOn(cfg, k, t)
    ensures Only(cfg, k, s) == []
  {
    if s != [] {
      OnlyNone(cfg, k, s[1..]);
    }
  }

  lemma {:induction false} PopAllReverses(s: seq<Test>)
    requires NamesTruthy(s)
    ensures PopAll(s) == Reverse(s)
  {
    if s != [] {
      ReverseLast(s);
      PopAllReverses(s[..|s| - 1]);
    }
  }

  lemma PutGrows<K, V>(m: map<K, V>, k: K, v: V)
    requires k !in m
    ensures m[k := v].Keys == m.Keys + {k} && |m[k := v]| == |m| + 1
  {
    assert |m[k := v]| == |m[k := v].Keys|;
  }

  lemma RemoveShrinks<K, V>(m: map<K, V>, k: K)
    requires k in m
    ensures (m - {k}).Keys == m.Keys - {k} && |m - {k}| == |m| - 1
  {
    assert |m - {k}| == |(m - {k}).Keys|;
  }

  // ---------- Releasing keys ----------

  ghost function Freed(keys: seq<Key>, snapshot: map<Key, Worker>, i: Worker): set<Key> {
    set k | k in keys && k in snapshot && snapshot[k] == i
  }

  ghost predicate ListsTruthy(waiting: map<Key, seq<Test>>) {
    forall k :: k in waiting ==> NamesTruthy(waiting[k])
  }

  ghost predicate QueuesOk(q: Queues) {
    q.active.Ok() && q.waiting.Ok() && ListsTruthy(q.waiting.at)
  }

  /** What `FreeKey` does to its list, names being truthy. */
  lemma FreeKeyQueues(k: Key, q: Queues)
    requires QueuesOk(q)
    ensures var q' := FreeKey(k, q);
      && q'.active == q.active.Remove(k)
      && q'.waiting.Ok() && q'.waiting.at == q.waiting.at - {k}
      && q'.pending == q.pending + Reverse(Under(q.waiting, k))
  {
    if k in q.waiting.at {
      PopAllReverses(q.waiting.at[k]);
    } else {
      assert q.waiting.at - {k} == q.waiting.at;
    }
  }

  lemma FreeKeyConserves(k: Key, q: Queues)
    requires QueuesOk(q)
    ensures QueuesOk(FreeKey(k, q))
    ensures var q' := FreeKey(k, q);
      multiset(q'.pending) + Elements(q'.waiting) == multiset(q.pending) + Elements(q.waiting)
  {
    FreeKeyQueues(k, q);
    if k in q.waiting.at {
      ElementsAfterRemove(q.waiting, k);
      ReversePermutes(q.waiting.at[k]);
    }
  }

  lemma {:induction false} FreeKeysConserves(keys: seq<Key>, snapshot: map<Key, Worker>, i: Worker, q: Queues)
    requires QueuesOk(q)
    ensures QueuesOk(FreeKeys(keys, snapshot, i, q))
    ensures var q' := FreeKeys(keys, snapshot, i, q);
      multiset(q'.pending) + Elements(q'.waiting) == multiset(q.pending) + Elements(q.waiting)
  {
    if keys != [] {
      if keys[0] in snapshot && snapshot[keys[0]] == i {
        FreeKeyConserves(keys[0], q);
        FreeKeysConserves(keys[1..], snapshot, i, FreeKey(keys[0], q));
      } else {
        FreeKeysConserves(keys[1..], snapshot, i, q);
      }
    }
  }

  /** Exactly the keys that the snapshot gives to `i` are freed. */
  lemma {:induction false} FreeKeysFrees(keys: seq<Key>, snapshot: map<Key, Worker>, i: Worker, q: Queues)
    requires QueuesOk(q)
    ensures FreeKeys(keys, snapshot, i, q).active.at == q.active.at - Freed(keys, snapshot, i)
    ensures FreeKeys(keys, snapshot, i, q).waiting.at == q.waiting.at - Freed(keys, snapshot, i)
  {
    if keys == [] {
      assert Freed(keys, snapshot, i) == {};
    } else {
      var k := keys[0];
      var rest := Freed(keys[1..], snapshot, i);
      if k in snapshot && snapshot[k] == i {
        assert Freed(keys, snapshot, i) == rest + {k};
        FreeKeyQueues(k, q);
        FreeKeyConserves(k, q);
        FreeKeysFrees(keys[1..], snapshot, i, FreeKey(k, q));
        assert q.active.at - {k} - rest == q.active.at - (rest + {k});
        assert q.waiting.at - {k} - rest == q.waiting.at - (rest + {k});
      } else {
        assert Freed(keys, snapshot, i) == rest;
        FreeKeysFrees(keys[1..], snapshot, i, q);
      }
    }
  }

  /** A list put back on the stack is again the first to be popped. */
  lemma PutBackOrder(cfg: Config, k: Key, list: seq<Test>, pending: seq<Test>)
    ensures Only(cfg, k, Reverse(pending + Reverse(list))) == Only(cfg, k, list) + Only(cfg, k, Reverse(pending))
  {
    ReverseConcat(pending, Reverse(list));
    ReverseTwice(list);
    OnlyConcat(cfg, k, list, Reverse(pending));
  }

  /** Moving a wait list back to the stack keeps the tests on `k` in order. */
  lemma FreeKeyKeepsOrder(cfg: Config, k: Key, key: Key, q: Queues)
    requires QueuesOk(q) && WaitsOnOwn(cfg, q.waiting.at)
    ensures WaitsOnOwn(cfg, FreeKey(key, q).waiting.at)
    ensures StillToCome(cfg, k, FreeKey(key, q).waiting, FreeKey(key, q).pending)
       == StillToCome(cfg, k, q.waiting, q.pending)
  {
    FreeKeyQueues(key, q);
    PutBackOrder(cfg, k, Under(q.waiting, key), q.pending);
    if key == k {
      assert Under(FreeKey(key, q).waiting, k) == [];
    } else {
      assert Under(FreeKey(key, q).waiting, k) == Under(q.waiting, k);
      OnlyNone(cfg, k, Under(q.waiting, key));
    }
  }

  lemma {:induction false} FreeKeysKeepsOrder(cfg: Config, k: Key, keys: seq<Key>, snapshot: map<Key, Worker>,
                                              i: Worker, q: Queues)
    requires QueuesOk(q) && WaitsOnOwn(cfg, q.waiting.at)
    ensures var q' := FreeKeys(keys, snapshot, i, q);
      StillToCome(cfg, k, q'.waiting, q'.pending) == StillToCome(cfg, k, q.waiting, q.pending)
  {
    if keys != [] {
      var key := keys[0];
      if key in snapshot && snapshot[key] == i {
        FreeKeyConserves(key, q);
        FreeKeyKeepsOrder(cfg, k, key, q);
        FreeKeysKeepsOrder(cfg, k, keys[1..], snapshot, i, FreeKey(key, q));
      } else {
        FreeKeysKeepsOrder(cfg, k, keys[1..], snapshot, i, q);
      }
    }
  }

  // ---------- Filling a batch ----------

  lemma {:induction false} BlockerIsHeld(keys: seq<Key>, active: map<Key, Worker>)
    ensures Blocker(keys, active).Some? ==> Blocker(keys, active).value in keys && Blocker(keys, active).value in active
    ensures Blocker(keys, active).None? ==> forall k :: k in keys ==> k !in active
  {
    if keys != [] {
      BlockerIsHeld(keys[1..], active);
    }
  }

  /** What filling a batch keeps: no key of the batch is held elsewhere, and
      whoever waits does so on a held key of its own. */
  ghost predicate FillingOk(cfg: Config, active: map<Key, Worker>, f: Filling) {
    && f.waiting.Ok()
    && WaitsOnHeld(cfg, active, f.waiting.at)
    && (forall k :: Uses(cfg, f.files, k) ==> k !in active)
  }

  ghost function Held(f: Filling): multiset<Test>
    requires f.waiting.Ok()
  {
    multiset(f.pending) + Elements(f.waiting) + multiset(f.files)
  }

  lemma WaitsConserves(f: Filling, rest: seq<Test>, file: Test, k: Key, list: seq<Test>)
    requires f.pending == rest + [file] && f.waiting.Ok() && list == Under(f.waiting, k)
    ensures Held(Filling(rest, f.waiting.Put(k, list + [file]), f.files)) == Held(f)
  {
    ElementsAfterAppend(f.waiting, k, file);
  }

  lemma JoinsConserves(f: Filling, rest: seq<Test>, file: Test)
    requires f.pending == rest + [file] && f.waiting.Ok()
    ensures Held(Filling(rest, f.waiting, f.files + [file])) == Held(f)
  {}

  lemma PlaceConserves(cfg: Config, active: map<Key, Worker>, f: Filling)
    requires f.pending != [] && f.waiting.Ok()
    ensures Place(cfg, active, f).waiting.Ok()
    ensures Held(Place(cfg, active, f)) == Held(f)
  {
    var file := f.pending[|f.pending| - 1];
    var rest := f.pending[..|f.pending| - 1];
    assert f.pending == rest + [file];
    match Blocker(ConflictsOf(cfg, file), active)
    case Some(k) =>
      WaitsConserves(f, rest, file, k, Under(f.waiting, k));
    case None =>
      JoinsConserves(f, rest, file);
  }

  lemma UsesOneMore(cfg: Config, files: seq<Test>, file: Test, k: Key)
    ensures Uses(cfg, files + [file], k) <==> Uses(cfg, files, k) || k in ConflictsOf(cfg, file)
  {
    if Uses(cfg, files, k) {
      var t :| t in files && k in ConflictsOf(cfg, t);
      assert t in files + [file];
    }
    if k in ConflictsOf(cfg, file) {
      assert file in files + [file];
    }
  }

  lemma PlaceKeeps(cfg: Config, active: map<Key, Worker>, f: Filling)
    requires f.pending != [] && FillingOk(cfg, active, f)
    ensures FillingOk(cfg, active, Place(cfg, active, f))
  {
    var file := f.pending[|f.pending| - 1];
    PlaceConserves(cfg, active, f);
    BlockerIsHeld(ConflictsOf(cfg, file), active);
    forall k ensures Uses(cfg, f.files + [file], k) <==> Uses(cfg, f.files, k) || k in ConflictsOf(cfg, file) {
      UsesOneMore(cfg, f.files, file, k);
    }
  }

  lemma {:induction false} FillKeeps(cfg: Config, active: map<Key, Worker>, batchSize: nat, f: Filling)
    requires FillingOk(cfg, active, f) && NamesTruthy(f.pending) && |f.files| <= batchSize + 1
    ensures FillingOk(cfg, active, Fill(cfg, active, batchSize, f))
    ensures Held(Fill(cfg, active, batchSize, f)) == Held(f)
    ensures |Fill(cfg, active, batchSize, f).files| <= batchSize + 1
    ensures Fill(cfg, active, batchSize, f).files == [] ==> Fill(cfg, active, batchSize, f).pending == []
    decreases |f.pending|
  {
    if |f.files| <= batchSize && f.pending != [] {
      PlaceKeeps(cfg, active, f);
      PlaceConserves(cfg, active, f);
      FillKeeps(cfg, active, batchSize, Place(cfg, active, f));
    }
  }

  lemma {:induction false} OnlyOnFirst(cfg: Config, k: Key, keys: seq<Key>, active: map<Key, Worker>)
    requires keys != [] && forall n :: 0 <= n < |keys| ==> keys[n] == k
    ensures Blocker(keys, active) == if k in active then Some(k) else None
  {
    if keys[1..] != [] {
      OnlyOnFirst(cfg, k, keys[1..], active);
    }
  }

  /** The tests on `k`: into the batch, else onto the wait list, else pending. */
  ghost function InSight(cfg: Config, k: Key, f: Filling): seq<Test> {
    Only(cfg, k, f.files) + StillToCome(cfg, k, f.waiting, f.pending)
  }

  /** A test on `k` alone waits while `k` is held. */
  lemma PlaceWaits(cfg: Config, k: Key, f: Filling, rest: seq<Test>, file: Test, list: seq<Test>)
    requires f.pending == rest + [file] && Only(cfg, k, f.files) == [] && OnlyOn(cfg, k, file)
    requires list == Under(f.waiting, k)
    ensures InSight(cfg, k, Filling(rest, f.waiting.Put(k, list + [file]), f.files)) == InSight(cfg, k, f)
  {
    OnlyOne(cfg, k, file, rest);
    OnlyConcat(cfg, k, list, [file]);
  }

  /** It joins the batch while `k` is free, when nothing waits for `k`. */
  lemma PlaceJoins(cfg: Config, k: Key, f: Filling, rest: seq<Test>, file: Test)
    requires f.pending == rest + [file] && Under(f.waiting, k) == [] && OnlyOn(cfg, k, file)
    ensures InSight(cfg, k, Filling(rest, f.waiting, f.files + [file])) == InSight(cfg, k, f)
  {
    OnlyOne(cfg, k, file, rest);
    OnlyConcat(cfg, k, f.files, [file]);
    assert Only(cfg, k, Under(f.waiting, k)) == [];
  }

  /** A test on `k` alone: waits while `k` is held, else joins the batch. */
  lemma PlaceOwnKeepsOrder(cfg: Config, active: map<Key, Worker>, k: Key, f: Filling)
    requires f.pending != [] && FillingOk(cfg, active, f)
    requires k in active ==> Only(cfg, k, f.files) == []
    requires OnlyOn(cfg, k, f.pending[|f.pending| - 1])
    ensures InSight(cfg, k, Place(cfg, active, f)) == InSight(cfg, k, f)
    ensures k in active ==> Only(cfg, k, Place(cfg, active, f).files) == []
  {
    var file := f.pending[|f.pending| - 1];
    var rest := f.pending[..|f.pending| - 1];
    OnlyOnFirst(cfg, k, ConflictsOf(cfg, file), active);
    if k in active {
      PlaceWaits(cfg, k, f, rest, file, Under(f.waiting, k));
    } else {
      PlaceJoins(cfg, k, f, rest, file);
    }
  }

  lemma OnlyOne(cfg: Config, k: Key, file: Test, rest: seq<Test>)
    requires OnlyOn(cfg, k, file)
    ensures Only(cfg, k, [file]) == [file]
    ensures Only(cfg, k, Reverse(rest + [file])) == [file] + Only(cfg, k, Reverse(rest))
  {
    ReverseLast(rest + [file]);
    assert (rest + [file])[..|rest|] == rest;
    assert ([file] + Reverse(rest))[1..] == Reverse(rest);
    assert [file][1..] == [];
  }

  /** Any other test leaves the tests on `k` where they are. */
  lemma PlaceOtherKeepsOrder(cfg: Config, active: map<Key, Worker>, k: Key, f: Filling)
    requires f.pending != []
    requires !OnlyOn(cfg, k, f.pending[|f.pending| - 1])
    ensures var f' := Place(cfg, active, f);
      && Only(cfg, k, f'.files) == Only(cfg, k, f.files)
      && Only(cfg, k, Under(f'.waiting, k)) == Only(cfg, k, Under(f.waiting, k))
      && Only(cfg, k, Reverse(f'.pending)) == Only(cfg, k, Reverse(f.pending))
  {
    var file := f.pending[|f.pending| - 1];
    assert Only(cfg, k, [file]) == [];
    ReverseLast(f.pending);
    assert Reverse(f.pending)[1..] == Reverse(f.pending[..|f.pending| - 1]);
    match Blocker(ConflictsOf(cfg, file), active)
    case Some(key) => OnlyConcat(cfg, k, Under(f.waiting, key), [file]);
    case None => OnlyConcat(cfg, k, f.files, [file]);
  }

  lemma PlaceKeepsOrder(cfg: Config, active: map<Key, Worker>, k: Key, f: Filling)
    requires f.pending != [] && FillingOk(cfg, active, f)
    requires k in active ==> Only(cfg, k, f.files) == []
    ensures InSight(cfg, k, Place(cfg, active, f)) == InSight(cfg, k, f)
    ensures k in active ==> Only(cfg, k, Place(cfg, active, f).files) == []
  {
    if OnlyOn(cfg, k, f.pending[|f.pending| - 1]) {
      PlaceOwnKeepsOrder(cfg, active, k, f);
    } else {
      PlaceOtherKeepsOrder(cfg, active, k, f);
    }
  }

  lemma {:induction false} FillKeepsOrder(cfg: Config, active: map<Key, Worker>, batchSize: nat, k: Key, f: Filling)
    requires FillingOk(cfg, active, f) && NamesTruthy(f.pending)
    requires k in active ==> Only(cfg, k, f.files) == []
    ensures InSight(cfg, k, Fill(cfg, active, batchSize, f)) == InSight(cfg, k, f)
    ensures k in active ==> Only(cfg, k, Fill(cfg, active, batchSize, f).files) == []
    decreases |f.pending|
  {
    if |f.files| <= batchSize && f.pending != [] {
      PlaceKeeps(cfg, active, f);
      PlaceKeepsOrder(cfg, active, k, f);
      FillKeepsOrder(cfg, active, batchSize, k, Place(cfg, active, f));
    }
  }

  // ---------- Holding the keys of a batch ----------

  lemma {:induction false} HoldKeysHolds(keys: seq<Key>, i: Worker, active: OrderedMap<Key, Worker>)
    requires active.Ok()
    ensures HoldKeys(keys, i, active).Ok()
    ensures forall k :: k in HoldKeys(keys, i, active).at <==> k in active.at || k in keys
    ensures forall k :: k in HoldKeys(keys, i, active).at ==>
      HoldKeys(keys, i, active).at[k] == if k in keys then i else active.at[k]
  {
    if keys != [] {
      HoldKeysHolds(keys[1..], i, active.Put(keys[0], i));
    }
  }

  lemma {:induction false} HoldAllHolds(cfg: Config, files: seq<Test>, i: Worker, active: OrderedMap<Key, Worker>)
    requires active.Ok()
    ensures HoldAll(cfg, files, i, active).Ok()
    ensures forall k :: k in HoldAll(cfg, files, i, active).at <==> k in active.at || Uses(cfg, files, k)
    ensures forall k :: k in HoldAll(cfg, files, i, active).at ==>
      HoldAll(cfg, files, i, active).at[k] == if Uses(cfg, files, k) then i else active.at[k]
  {
    if files != [] {
      var keys := ConflictsOf(cfg, files[0]);
      var middle := HoldKeys(keys, i, active);
      HoldKeysHolds(keys, i, active);
      HoldAllHolds(cfg, files[1..], i, middle);
      forall k ensures Uses(cfg, files, k) <==> k in keys || Uses(cfg, files[1..], k) {
        if k in keys {
          assert files[0] in files;
        }
        if Uses(cfg, files[1..], k) {
          var t :| t in files[1..] && k in ConflictsOf(cfg, t);
          assert t in files;
        }
      }
    }
  }

  // ---------- "tests_finished" ----------

  lemma WaitListsTruthy(tests: seq<Test>, st: State)
    requires WellFormed(st) && Conserved(tests, st) && NamesTruthy(tests)
    ensures ListsTruthy(st.waiting.at) && NamesTruthy(st.pending) && NamesTruthy(st.sequential)
  {
    forall k, t | k in st.waiting.at && t in st.waiting.at[k] ensures Truthy(t) {
      ElementsAreMembers(st.waiting, t);
      assert t in multiset(tests);
    }
    forall t | t in st.pending || t in st.sequential ensures Truthy(t) {
      assert t in multiset(tests);
    }
  }

  ghost function ActiveQueues(st: State): Queues { Queues(st.active, st.waiting, st.pending) }

  lemma FinishConserves(tests: seq<Test>, st: State, i: Worker)
    requires WellFormed(st) && Conserved(tests, st) && NamesTruthy(tests) && i in st.running.at
    ensures WellFormed(Finish(st, i)) && Conserved(tests, Finish(st, i))
    ensures multiset(Finish(st, i).pending) + Elements(Finish(st, i).waiting)
         == multiset(st.pending) + Elements(st.waiting)
    ensures Elements(st.running) == Elements(Finish(st, i).running) + multiset(st.running.at[i])
  {
    WaitListsTruthy(tests, st);
    FreeKeysConserves(st.active.keys, st.active.at, i, ActiveQueues(st));
    ElementsAfterRemove(st.running, i);
  }

  /** Dropping a worker together with its keys. */
  lemma KeysHeldWithout(cfg: Config, active: map<Key, Worker>, running: map<Worker, seq<Test>>, i: Worker,
                        gone: set<Key>)
    requires KeysHeld(cfg, active, running)
    requires forall k :: k in gone <==> k in active && active[k] == i
    ensures KeysHeld(cfg, active - gone, running - {i})
  {}

  lemma FinishKeys(cfg: Config, tests: seq<Test>, st: State, i: Worker)
    requires WellFormed(st) && Conserved(tests, st) && NamesTruthy(tests) && i in st.running.at
    requires KeysHeld(cfg, st.active.at, st.running.at) && WaitsOnHeld(cfg, st.active.at, st.waiting.at)
    ensures KeysHeld(cfg, Finish(st, i).active.at, Finish(st, i).running.at)
    ensures WaitsOnHeld(cfg, Finish(st, i).active.at, Finish(st, i).waiting.at)
  {
    WaitListsTruthy(tests, st);
    FreeKeysFrees(st.active.keys, st.active.at, i, ActiveQueues(st));
    KeysHeldWithout(cfg, st.active.at, st.running.at, i, Freed(st.active.keys, st.active.at, i));
  }

  lemma FinishOrder(cfg: Config, tests: seq<Test>, st: State, i: Worker)
    requires WellFormed(st) && Conserved(tests, st) && NamesTruthy(tests) && i in st.running.at
    requires WaitsOnHeld(cfg, st.active.at, st.waiting.at) && InOrder(cfg, tests, st)
    ensures InOrder(cfg, tests, Finish(st, i))
  {
    WaitListsTruthy(tests, st);
    forall k | k != ALL ensures OrderKept(cfg, tests, k, Finish(st, i)) {
      assert OrderKept(cfg, tests, k, st);
      FreeKeysKeepsOrder(cfg, k, st.active.keys, st.active.at, i, ActiveQueues(st));
    }
  }

  lemma FinishWorkers(st: State, i: Worker)
    requires WorkersAccounted(st, {}) && i in st.running.at
    ensures WorkersAccounted(Finish(st, i), {i})
  {
    RemoveShrinks(st.running.at, i);
  }

  lemma FinishKeeps(cfg: Config, tests: seq<Test>, st: State, i: Worker)
    requires Inv(cfg, tests, st, {}) && NamesTruthy(tests) && i in st.running.at
    ensures Inv(cfg, tests, Finish(st, i), {i})
  {
    FinishConserves(tests, st, i);
    FinishKeys(cfg, tests, st, i);
    FinishOrder(cfg, tests, st, i);
    FinishWorkers(st, i);
    var st' := Finish(st, i);
    forall t | t in multiset(st'.pending) + Elements(st'.waiting) + Elements(st'.running)
      ensures t in multiset(st.pending) + Elements(st.waiting) + Elements(st.running)
    {
    }
  }

  // ---------- "ready" ----------

  lemma ReadyKeeps(cfg: Config, tests: seq<Test>, st: State, i: Worker)
    requires Inv(cfg, tests, st, {}) && i in st.unready
    ensures Inv(cfg, tests, st.(unready := st.unready - {i}), {i})
  {
    var st' := st.(unready := st.unready - {i});
    forall k | k != ALL ensures OrderKept(cfg, tests, k, st') {
      assert OrderKept(cfg, tests, k, st);
    }
  }

  /** Tests conflicting with "all" are on no single other key. */
  lemma SequentialNotOnKey(cfg: Config, k: Key, s: seq<Test>)
    requires k != ALL && forall t :: t in s ==> IsSequential(cfg, t)
    ensures Only(cfg, k, Reverse(s)) == []
  {
    ReverseMembers(s);
    OnlyNone(cfg, k, Reverse(s));
  }

  lemma JoinOrder(cfg: Config, tests: seq<Test>, st: State)
    requires InOrder(cfg, tests, st) && forall t :: t in st.sequential ==> IsSequential(cfg, t)
    ensures InOrder(cfg, tests, JoinSequential(st))
  {
    forall k | k != ALL ensures OrderKept(cfg, tests, k, JoinSequential(st)) {
      assert OrderKept(cfg, tests, k, st);
      SequentialNotOnKey(cfg, k, st.sequential);
      ReverseConcat(st.pending, st.sequential);
      OnlyConcat(cfg, k, Reverse(st.sequential), Reverse(st.pending));
    }
  }

  lemma JoinKeeps(cfg: Config, tests: seq<Test>, st: State, i: Worker)
    requires Inv(cfg, tests, st, {i})
    ensures Inv(cfg, tests, JoinSequential(st), {i})
    ensures |st.live| == 1 ==> JoinSequential(st).sequential == []
  {
    JoinOrder(cfg, tests, st);
  }

  ghost function Filled(cfg: Config, s: State): Filling {
    Fill(cfg, s.active.at, BatchSize(cfg, s.live), Filling(s.pending, s.waiting, []))
  }

  /** The state after the batch loop, before the batch is handed out. */
  lemma FilledFacts(cfg: Config, tests: seq<Test>, s: State, i: Worker)
    requires Inv(cfg, tests, s, {i}) && NamesTruthy(tests)
    ensures var f := Filled(cfg, s);
      && FillingOk(cfg, s.active.at, f)
      && multiset(f.pending) + Elements(f.waiting) + multiset(f.files) == multiset(s.pending) + Elements(s.waiting)
      && |f.files| <= BatchSize(cfg, s.live) + 1
      && (f.files == [] ==> f.pending == [])
  {
    WaitListsTruthy(tests, s);
    FillKeeps(cfg, s.active.at, BatchSize(cfg, s.live), Filling(s.pending, s.waiting, []));
    assert Held(Filling(s.pending, s.waiting, [])) == multiset(s.pending) + Elements(s.waiting);
  }

  /** `s` with the outcome of the batch loop. */
  ghost function WithFilled(cfg: Config, s: State): State {
    s.(pending := Filled(cfg, s).pending, waiting := Filled(cfg, s).waiting)
  }

  ghost function Dispatched(cfg: Config, s: State, i: Worker): State {
    var f, t := Filled(cfg, s), WithFilled(cfg, s);
    t.(active := HoldAll(cfg, f.files, i, t.active),
       inProgress := t.inProgress + 1,
       running := t.running.Put(i, f.files),
       dispatched := t.dispatched + f.files)
  }

  ghost function Terminated(cfg: Config, s: State, i: Worker): State {
    WithFilled(cfg, s).(live := s.live - {i})
  }

  lemma Regroup(p: multiset<Test>, w: multiset<Test>, p': multiset<Test>, w': multiset<Test>, f: multiset<Test>,
                s: multiset<Test>, r: multiset<Test>, d: multiset<Test>, all: multiset<Test>)
    requires p' + w' + f == p + w
    requires p + w + s + r + d == all
    ensures p' + w' + s + (r + f) + d == all
  {}

  lemma DispatchConserves(tests: seq<Test>, s: State, i: Worker, f: Filling)
    requires WellFormed(s) && Conserved(tests, s) && i !in s.running.at && f.waiting.Ok()
    requires multiset(f.pending) + Elements(f.waiting) + multiset(f.files) == multiset(s.pending) + Elements(s.waiting)
    ensures Elements(s.running.Put(i, f.files)) == Elements(s.running) + multiset(f.files)
    ensures multiset(f.pending) + Elements(f.waiting) + multiset(s.sequential)
         + Elements(s.running.Put(i, f.files)) + multiset(s.finished) == multiset(tests)
    ensures multiset(s.dispatched + f.files) == Elements(s.running.Put(i, f.files)) + multiset(s.finished)
  {
    ElementsAfterPut(s.running, i, f.files);
    assert multiset(Under(s.running, i)) == multiset{};
    Regroup(multiset(s.pending), Elements(s.waiting), multiset(f.pending), Elements(f.waiting), multiset(f.files),
            multiset(s.sequential), Elements(s.running), multiset(s.finished), multiset(tests));
  }

  /** Adding a worker together with its keys, none of them held. */
  lemma KeysHeldWith(cfg: Config, active: map<Key, Worker>, running: map<Worker, seq<Test>>,
                     i: Worker, files: seq<Test>, active': map<Key, Worker>)
    requires KeysHeld(cfg, active, running) && i !in running
    requires forall k :: Uses(cfg, files, k) ==> k !in active
    requires forall k :: k in active' <==> k in active || Uses(cfg, files, k)
    requires forall k :: k in active' ==> active'[k] == if Uses(cfg, files, k) then i else active[k]
    ensures KeysHeld(cfg, active', running[i := files])
  {
    var running' := running[i := files];
    forall w, k | w in running' && Uses(cfg, running'[w], k) ensures k in active' && active'[k] == w {
      if w != i {
        assert Uses(cfg, running[w], k);
      }
    }
  }

  lemma DispatchKeys(cfg: Config, s: State, i: Worker, f: Filling)
    requires WellFormed(s) && KeysHeld(cfg, s.active.at, s.running.at)
    requires FillingOk(cfg, s.active.at, f) && i !in s.running.at
    ensures KeysHeld(cfg, HoldAll(cfg, f.files, i, s.active).at, s.running.Put(i, f.files).at)
    ensures WaitsOnHeld(cfg, HoldAll(cfg, f.files, i, s.active).at, f.waiting.at)
  {
    HoldAllHolds(cfg, f.files, i, s.active);
    KeysHeldWith(cfg, s.active.at, s.running.at, i, f.files, HoldAll(cfg, f.files, i, s.active).at);
  }

  lemma FilledOrder(cfg: Config, tests: seq<Test>, s: State, i: Worker, k: Key)
    requires Inv(cfg, tests, s, {i}) && NamesTruthy(tests) && k != ALL
    ensures Only(cfg, k, s.dispatched) + InSight(cfg, k, Filled(cfg, s)) == Only(cfg, k, tests)
  {
    assert OrderKept(cfg, tests, k, s);
    WaitListsTruthy(tests, s);
    var f0 := Filling(s.pending, s.waiting, []);
    FillKeepsOrder(cfg, s.active.at, BatchSize(cfg, s.live), k, f0);
    assert InSight(cfg, k, f0) == StillToCome(cfg, k, s.waiting, s.pending);
  }

  lemma DispatchOneKey(cfg: Config, tests: seq<Test>, s: State, f: Filling, k: Key)
    requires Only(cfg, k, s.dispatched) + InSight(cfg, k, f) == Only(cfg, k, tests)
    ensures Only(cfg, k, s.dispatched + f.files) + StillToCome(cfg, k, f.waiting, f.pending) == Only(cfg, k, tests)
  {
    OnlyConcat(cfg, k, s.dispatched, f.files);
  }

  lemma DispatchOrder(cfg: Config, tests: seq<Test>, s: State, i: Worker)
    requires Inv(cfg, tests, s, {i}) && NamesTruthy(tests)
    ensures InOrder(cfg, tests, Dispatched(cfg, s, i))
  {
    forall k | k != ALL ensures OrderKept(cfg, tests, k, Dispatched(cfg, s, i)) {
      FilledOrder(cfg, tests, s, i, k);
      DispatchOneKey(cfg, tests, s, Filled(cfg, s), k);
    }
  }

  lemma DispatchWorkers(s: State, i: Worker, files: seq<Test>)
    requires WorkersAccounted(s, {i}) && files != []
    ensures WorkersAccounted(s.(inProgress := s.inProgress + 1, running := s.running.Put(i, files)), {})
  {
    PutGrows(s.running.at, i, files);
    MoveToBusy(s.live, s.unready, s.running.at.Keys, i);
  }

  lemma MoveToBusy(live: set<Worker>, unready: set<Worker>, busy: set<Worker>, i: Worker)
    requires live == unready + busy + {i} && unready !! busy && {i} !! unready + busy
    ensures live == unready + (busy + {i}) + {} && unready !! busy + {i}
  {}

  /** A test held back is in none of the lists, whichever of them it moves to. */
  lemma HeldBackKept(cfg: Config, s: State, s': State)
    requires WellFormed(s) && WellFormed(s') && AllHeldBack(cfg, s)
    requires |s'.live| <= |s.live| && s'.sequential == s.sequential
    requires multiset(s'.pending) + Elements(s'.waiting) + Elements(s'.running)
          == multiset(s.pending) + Elements(s.waiting) + Elements(s.running)
    ensures AllHeldBack(cfg, s')
  {}

  /** What handing out the batch `f.files` keeps, once the batch is known to fit. */
  lemma HandOutKeeps(cfg: Config, tests: seq<Test>, s: State, i: Worker, f: Filling, t: State)
    requires WellFormed(s) && Conserved(tests, s) && KeysHeld(cfg, s.active.at, s.running.at)
    requires WorkersAccounted(s, {i}) && AllHeldBack(cfg, s) && FillingOk(cfg, s.active.at, f) && f.files != []
    requires multiset(f.pending) + Elements(f.waiting) + multiset(f.files) == multiset(s.pending) + Elements(s.waiting)
    requires t == s.(pending := f.pending, waiting := f.waiting, active := HoldAll(cfg, f.files, i, s.active),
                     inProgress := s.inProgress + 1, running := s.running.Put(i, f.files),
                     dispatched := s.dispatched + f.files)
    ensures WellFormed(t) && Conserved(tests, t) && KeysHeld(cfg, t.active.at, t.running.at)
    ensures WaitsOnHeld(cfg, t.active.at, t.waiting.at) && WorkersAccounted(t, {}) && AllHeldBack(cfg, t)
  {
    HoldAllHolds(cfg, f.files, i, s.active);
    DispatchConserves(tests, s, i, f);
    DispatchKeys(cfg, s, i, f);
    DispatchWorkers(s, i, f.files);
    HeldBackKept(cfg, s, t);
  }

  lemma DispatchKeeps(cfg: Config, tests: seq<Test>, s: State, i: Worker)
    requires Inv(cfg, tests, s, {i}) && NamesTruthy(tests)
    requires Filled(cfg, s).files != []
    ensures Inv(cfg, tests, Dispatched(cfg, s, i), {})
  {
    FilledFacts(cfg, tests, s, i);
    HandOutKeeps(cfg, tests, s, i, Filled(cfg, s), Dispatched(cfg, s, i));
    DispatchOrder(cfg, tests, s, i);
  }

  lemma TerminateOrder(cfg: Config, tests: seq<Test>, s: State, i: Worker)
    requires Inv(cfg, tests, s, {i}) && NamesTruthy(tests)
    requires Filled(cfg, s).files == []
    ensures InOrder(cfg, tests, Terminated(cfg, s, i))
  {
    forall k | k != ALL ensures OrderKept(cfg, tests, k, Terminated(cfg, s, i)) {
      FilledOrder(cfg, tests, s, i, k);
      DispatchOneKey(cfg, tests, s, Filled(cfg, s), k);
      assert s.dispatched + [] == s.dispatched;
    }
  }

  lemma TerminateEnds(cfg: Config, tests: seq<Test>, s: State, i: Worker)
    requires Inv(cfg, tests, s, {i}) && NamesTruthy(tests)
    requires |s.live| == 1 ==> s.sequential == []
    requires Filled(cfg, s).files == []
    ensures var t := Terminated(cfg, s, i); WorkersAccounted(t, {}) && DrainedAtEnd(t)
  {
    FilledFacts(cfg, tests, s, i);
    var t := Terminated(cfg, s, i);
    assert i in s.live && |t.live| == |s.live| - 1;
  }

  lemma TerminateKeeps(cfg: Config, tests: seq<Test>, s: State, i: Worker)
    requires Inv(cfg, tests, s, {i}) && NamesTruthy(tests)
    requires |s.live| == 1 ==> s.sequential == []
    requires Filled(cfg, s).files == []
    ensures Inv(cfg, tests, Terminated(cfg, s, i), {})
  {
    FilledFacts(cfg, tests, s, i);
    TerminateOrder(cfg, tests, s, i);
    TerminateEnds(cfg, tests, s, i);
    HeldBackKept(cfg, s, Terminated(cfg, s, i));
  }

  // ---------- Every step, every run ----------

  lemma ScheduleKeeps(cfg: Config, tests: seq<Test>, st: State, i: Worker)
    requires Inv(cfg, tests, st, {i}) && NamesTruthy(tests)
    ensures Inv(cfg, tests, Schedule(cfg, st, i), {})
  {
    JoinKeeps(cfg, tests, st, i);
    var s := JoinSequential(st);
    if Filled(cfg, s).files != [] {
      DispatchKeeps(cfg, tests, s, i);
      assert Schedule(cfg, st, i) == Dispatched(cfg, s, i);
    } else {
      TerminateKeeps(cfg, tests, s, i);
      assert Schedule(cfg, st, i) == Terminated(cfg, s, i);
    }
  }

  /** One message, whoever sends it, keeps the invariant. */
  lemma StepKeeps(cfg: Config, tests: seq<Test>, st: State, i: Worker)
    requires Inv(cfg, tests, st, {}) && NamesTruthy(tests) && Enabled(st, i)
    ensures Inv(cfg, tests, Step(cfg, st, i), {})
  {
    if i in st.running.at {
      FinishKeeps(cfg, tests, st, i);
      ScheduleKeeps(cfg, tests, Finish(st, i), i);
    } else {
      ReadyKeeps(cfg, tests, st, i);
      ScheduleKeeps(cfg, tests, st.(unready := st.unready - {i}), i);
    }
  }
}
