/** What the batch loop of the scheduler takes from the stack, and what the last
    worker is handed. */
module SchedulerBatches {
  import opened Sequences
  import opened OrderedMaps
  import opened Scheduling
  import opened SchedulerSafety
  import opened SchedulerRuns

  // ---------- Names that are false to PHP ----------

  /** A pop loop empties a list exactly when every name in it is true to PHP. */
  lemma {:induction false} PopAllMovesAllIffTruthy(s: seq<Test>)
    ensures PopAll(s) == Reverse(s) <==> forall t :: t in s ==> t != "" && t != "0"
    ensures |PopAll(s)| == |s| <==> forall t :: t in s ==> t != "" && t != "0"
  {
    if s != [] {
      var front, last := s[..|s| - 1], s[|s| - 1];
      PopAllMovesAllIffTruthy(front);
      ReverseLast(s);
      assert s == front + [last];
      assert NamesTruthy(s) <==> NamesTruthy(front) && Truthy(last);
      if Truthy(last) {
        assert PopAll(s)[1..] == PopAll(front) && Reverse(s)[1..] == Reverse(front);
      }
    }
  }

  /** Only names true to PHP are ever handed out. */
  ghost predicate HandedTruthy(st: State) {
    && NamesTruthy(st.finished)
    && forall w :: w in st.running.at ==> NamesTruthy(st.running.at[w])
  }

  lemma {:induction false} FillTruthy(cfg: Config, active: map<Key, Worker>, batchSize: nat, f: Filling)
    requires NamesTruthy(f.files)
    ensures NamesTruthy(Fill(cfg, active, batchSize, f).files)
    decreases |f.pending|
  {
    if |f.files| <= batchSize && f.pending != [] && Truthy(f.pending[|f.pending| - 1]) {
      FillTruthy(cfg, active, batchSize, Place(cfg, active, f));
    }
  }

  lemma StepTruthy(cfg: Config, st: State, i: Worker)
    requires Enabled(st, i) && HandedTruthy(st)
    ensures HandedTruthy(Step(cfg, st, i))
  {
    var idle := if i in st.running.at then Finish(st, i) else st.(unready := st.unready - {i});
    var s := JoinSequential(idle);
    FillTruthy(cfg, s.active.at, BatchSize(cfg, s.live), Filling(s.pending, s.waiting, []));
  }

  lemma {:induction false} RunTruthy(cfg: Config, tests: seq<Test>, requested: nat, states: seq<State>,
                                     senders: seq<Worker>, n: nat)
    requires IsRun(cfg, tests, requested, states, senders) && n <= |senders|
    ensures HandedTruthy(states[n])
  {
    if n > 0 {
      RunTruthy(cfg, tests, requested, states, senders, n - 1);
      StepTruthy(cfg, states[n - 1], senders[n - 1]);
    }
  }

  /** A run that is over has finished every test if and only if every name is true
      to PHP. */
  lemma RunFinishesAllIffTruthy(cfg: Config, tests: seq<Test>, requested: nat, states: seq<State>, senders: seq<Worker>,
                                n: nat)
    requires IsRun(cfg, tests, requested, states, senders) && n <= |senders| && !Guard(states[n])
    ensures multiset(states[n].finished) == multiset(tests) <==> forall t :: t in tests ==> t != "" && t != "0"
  {
    if NamesTruthy(tests) {
      RunIsSafe(cfg, tests, requested, states, senders, n);
    } else {
      RunTruthy(cfg, tests, requested, states, senders, n);
      var t :| t in tests && !Truthy(t);
      assert t in multiset(tests) && t !in multiset(states[n].finished);
    }
  }

  // ---------- What the batch loop takes ----------

  /** No key of the test is held. */
  predicate Free(cfg: Config, active: map<Key, Worker>, t: Test) {
    forall k :: k in ConflictsOf(cfg, t) ==> k !in active
  }

  /** The free tests of a stack, from the top down. */
  function Unblocked(cfg: Config, active: map<Key, Worker>, pending: seq<Test>): seq<Test> {
    if pending == [] then []
    else
      var last, rest := pending[|pending| - 1], Unblocked(cfg, active, pending[..|pending| - 1]);
      if Free(cfg, active, last) then [last] + rest else rest
  }

  lemma {:induction false} BlockerNoneIffFree(keys: seq<Key>, active: map<Key, Worker>)
    ensures Blocker(keys, active) == None <==> forall k :: k in keys ==> k !in active
  {
    if keys != [] {
      BlockerNoneIffFree(keys[1..], active);
    }
  }

  lemma PlaceTakesFree(cfg: Config, active: map<Key, Worker>, f: Filling)
    requires f.pending != []
    ensures var last, g := f.pending[|f.pending| - 1], Place(cfg, active, f);
      && g.pending == f.pending[..|f.pending| - 1]
      && g.files == (if Free(cfg, active, last) then f.files + [last] else f.files)
      && (Free(cfg, active, last) ==> g.waiting == f.waiting)
  {
    BlockerNoneIffFree(ConflictsOf(cfg, f.pending[|f.pending| - 1]), active);
  }

  /** A batch holds the first free tests from the top of the stack, one more than
      the batch size if there are as many. */
  lemma {:induction false} FillTakesFirstFree(cfg: Config, active: map<Key, Worker>, batchSize: nat, f: Filling)
    requires NamesTruthy(f.pending) && |f.files| <= batchSize + 1
    ensures Fill(cfg, active, batchSize, f).files
         == Taking(f.files, Unblocked(cfg, active, f.pending), batchSize + 1)
    decreases |f.pending|
  {
    if |f.files| <= batchSize && f.pending != [] {
      PlaceTakesFree(cfg, active, f);
      FillTakesFirstFree(cfg, active, batchSize, Place(cfg, active, f));
      var last, rest := f.pending[|f.pending| - 1], f.pending[..|f.pending| - 1];
      TakeNext(f.files, last, Unblocked(cfg, active, rest), batchSize + 1);
    } else {
      TakeNone(f.files, Unblocked(cfg, active, f.pending), batchSize + 1);
    }
  }

  /** `files` filled up to `size` from the front of `free`. */
  function Taking(files: seq<Test>, free: seq<Test>, size: nat): seq<Test>
    requires |files| <= size
  {
    files + free[..Min(|free|, size - |files|)]
  }

  lemma TakeNext(files: seq<Test>, next: Test, free: seq<Test>, size: nat)
    requires |files| < size
    ensures Taking(files + [next], free, size) == Taking(files, [next] + free, size)
  {}

  lemma TakeNone(files: seq<Test>, free: seq<Test>, size: nat)
    requires |files| <= size && (|files| == size || free == [])
    ensures Taking(files, free, size) == files
  {}

  /** The batch exceeds the batch size, by one test, if and only if more tests than
      that are free. */
  lemma BatchExceedsIff(cfg: Config, active: map<Key, Worker>, batchSize: nat, pending: seq<Test>,
                        waiting: OrderedMap<Key, seq<Test>>)
    requires NamesTruthy(pending)
    ensures var files := Fill(cfg, active, batchSize, Filling(pending, waiting, [])).files;
      && |files| <= batchSize + 1
      && (|files| > batchSize <==> |Unblocked(cfg, active, pending)| >= batchSize + 1)
  {
    FillTakesFirstFree(cfg, active, batchSize, Filling(pending, waiting, []));
  }

  ghost predicate AllFree(cfg: Config, active: map<Key, Worker>, s: seq<Test>) {
    forall t :: t in s ==> Free(cfg, active, t)
  }

  lemma {:induction false} AllUnblocked(cfg: Config, active: map<Key, Worker>, s: seq<Test>)
    requires AllFree(cfg, active, s)
    ensures Unblocked(cfg, active, s) == Reverse(s)
  {
    if s != [] {
      assert Free(cfg, active, s[|s| - 1]);
      AllUnblocked(cfg, active, s[..|s| - 1]);
      ReverseLast(s);
    }
  }

  /** When all are free none has to wait. */
  lemma {:induction false} FreeFill(cfg: Config, active: map<Key, Worker>, batchSize: nat, f: Filling)
    requires NamesTruthy(f.pending) && AllFree(cfg, active, f.pending) && |f.files| <= batchSize + 1
    ensures var n := Min(|f.pending|, batchSize + 1 - |f.files|);
      && Fill(cfg, active, batchSize, f).pending == f.pending[..|f.pending| - n]
      && Fill(cfg, active, batchSize, f).waiting == f.waiting
    decreases |f.pending|
  {
    if |f.files| <= batchSize && f.pending != [] {
      assert Free(cfg, active, f.pending[|f.pending| - 1]);
      PlaceTakesFree(cfg, active, f);
      FreeFill(cfg, active, batchSize, Place(cfg, active, f));
    }
  }

  lemma FillFreely(cfg: Config, s: State)
    requires AllFree(cfg, s.active.at, s.pending) && NamesTruthy(s.pending)
    ensures var n := Min(|s.pending|, BatchSize(cfg, s.live) + 1);
      Filled(cfg, s) == Filling(s.pending[..|s.pending| - n], s.waiting, Reverse(s.pending)[..n])
  {
    assert forall r: seq<Test> :: [] + r == r;
    var f := Filling(s.pending, s.waiting, []);
    FreeFill(cfg, s.active.at, BatchSize(cfg, s.live), f);
    FillTakesFirstFree(cfg, s.active.at, BatchSize(cfg, s.live), f);
    AllUnblocked(cfg, s.active.at, s.pending);
  }

  /** A worker is handed the top of a stack of free tests, or ends. */
  lemma HandsTop(cfg: Config, st: State, i: Worker, s: State, n: nat)
    requires s == JoinSequential(st) && AllFree(cfg, s.active.at, s.pending) && NamesTruthy(s.pending)
    requires n == Min(|s.pending|, BatchSize(cfg, s.live) + 1)
    ensures var t := Schedule(cfg, st, i); var files := Reverse(s.pending)[..n];
      && t.waiting == s.waiting && t.sequential == s.sequential && t.unready == s.unready
      && Reverse(t.pending) == Reverse(s.pending)[n..] && t.dispatched == s.dispatched + files
      && t.live == (if n == 0 then s.live - {i} else s.live)
      && t.running == (if n == 0 then s.running else s.running.Put(i, files))
      && t.active == HoldAll(cfg, files, i, s.active)
  {
    FillFreely(cfg, s);
    ReverseFront(s.pending, n);
  }

  lemma ReverseFront<T>(s: seq<T>, n: nat)
    requires n <= |s|
    ensures Reverse(s[..|s| - n]) == Reverse(s)[n..]
  {}

  // ---------- The last worker ----------

  /** The tests not yet handed out, in the order an idle last worker gets them. */
  ghost function Rest(st: State): seq<Test> {
    Reverse(st.sequential) + Reverse(st.pending)
  }

  lemma {:induction false} FreeKeysNoneWaiting(keys: seq<Key>, snapshot: map<Key, Worker>, i: Worker, q: Queues)
    requires q.waiting.at == map[]
    ensures FreeKeys(keys, snapshot, i, q).pending == q.pending
  {
    if keys != [] {
      FreeKeysNoneWaiting(keys[1..], snapshot, i,
                          if keys[0] in snapshot && snapshot[keys[0]] == i then FreeKey(keys[0], q) else q);
    }
  }

  lemma IdleHoldsNothing(cfg: Config, tests: seq<Test>, st: State, i: Worker)
    requires Inv(cfg, tests, st, {i}) && st.live == {i}
    ensures st.active.at == map[] && st.waiting.at == map[]
  {
    assert st.running.at.Keys == {};
    assert st.running.at == map[];
    assert st.active.at == map[];
  }

  /** An idle last worker is handed a stretch of what is left, from its start. */
  lemma LastWorkerIsHanded(cfg: Config, tests: seq<Test>, st: State, i: Worker)
    requires Inv(cfg, tests, st, {i}) && NamesTruthy(tests) && st.live == {i}
    ensures var t := Schedule(cfg, st, i); var n := Min(|Rest(st)|, BatchSize(cfg, st.live) + 1);
      && t.dispatched == st.dispatched + Rest(st)[..n] && Rest(t) == Rest(st)[n..]
      && t.sequential == [] && t.waiting.at == map[]
      && (t.live == if n == 0 then {} else {i})
  {
    IdleHoldsNothing(cfg, tests, st, i);
    WaitListsTruthy(tests, st);
    var s := JoinSequential(st);
    assert s.pending == st.pending + st.sequential && s.sequential == [];
    ReverseConcat(st.pending, st.sequential);
    assert AllFree(cfg, map[], s.pending);
    HandsTop(cfg, st, i, s, Min(|Rest(st)|, BatchSize(cfg, st.live) + 1));
  }

  /** What happens after `st`, a state with an idle worker `i`. */
  ghost predicate Continues(cfg: Config, st: State, i: Worker, states: seq<State>, senders: seq<Worker>) {
    && |states| == |senders| + 1 && states[0] == Schedule(cfg, st, i)
    && forall n :: 0 <= n < |senders| ==>
         Enabled(states[n], senders[n]) && states[n + 1] == Step(cfg, states[n], senders[n])
  }

  /** While worker `i` is alone what it was handed and what is left add up. */
  ghost predicate Draining(st: State, i: Worker, now: State) {
    && now.live <= {i} && now.waiting.at == map[] && now.sequential == []
    && st.dispatched + Rest(st) == now.dispatched + Rest(now)
  }

  lemma DrainSchedule(cfg: Config, tests: seq<Test>, st: State, i: Worker, idle: State)
    requires Inv(cfg, tests, idle, {i}) && NamesTruthy(tests) && idle.live == {i}
    requires st.dispatched + Rest(st) == idle.dispatched + Rest(idle)
    ensures Draining(st, i, Schedule(cfg, idle, i))
  {
    LastWorkerIsHanded(cfg, tests, idle, i);
    MoveOver(idle.dispatched, Rest(idle), Min(|Rest(idle)|, BatchSize(cfg, idle.live) + 1));
  }

  lemma MoveOver<T>(done: seq<T>, left: seq<T>, n: nat)
    requires n <= |left|
    ensures done + left[..n] + left[n..] == done + left
  {}

  lemma DrainStep(cfg: Config, tests: seq<Test>, st: State, i: Worker, now: State, w: Worker)
    requires Inv(cfg, tests, now, {}) && Draining(st, i, now) && NamesTruthy(tests) && Enabled(now, w)
    ensures Draining(st, i, Step(cfg, now, w))
  {
    assert w in now.live && now.live == {i};
    if w in now.running.at {
      FinishKeeps(cfg, tests, now, w);
      FreeKeysNoneWaiting(now.active.keys, now.active.at, w, ActiveQueues(now));
      assert Rest(Finish(now, w)) == Rest(now);
      DrainSchedule(cfg, tests, st, i, Finish(now, w));
    } else {
      ReadyKeeps(cfg, tests, now, w);
      DrainSchedule(cfg, tests, st, i, now.(unready := now.unready - {w}));
    }
  }

  lemma {:induction false} DrainRun(cfg: Config, tests: seq<Test>, st: State, i: Worker, states: seq<State>,
                                    senders: seq<Worker>, n: nat)
    requires Inv(cfg, tests, st, {i}) && NamesTruthy(tests) && st.live == {i}
    requires Continues(cfg, st, i, states, senders) && n <= |senders|
    ensures Inv(cfg, tests, states[n], {}) && Draining(st, i, states[n])
  {
    if n == 0 {
      DrainSchedule(cfg, tests, st, i, st);
      ScheduleKeeps(cfg, tests, st, i);
    } else {
      DrainRun(cfg, tests, st, i, states, senders, n - 1);
      DrainStep(cfg, tests, st, i, states[n - 1], senders[n - 1]);
      StepKeeps(cfg, tests, states[n - 1], senders[n - 1]);
    }
  }

  /** Every one of `late` comes after every one of `early`. */
  ghost predicate ComesLast(s: seq<Test>, late: seq<Test>, early: seq<Test>) {
    forall p, q :: 0 <= p < |s| && 0 <= q < |s| && s[p] in late && s[q] in early ==> q < p
  }

  lemma FirstsAreNotLast(late: seq<Test>, early: seq<Test>)
    ensures ComesLast(Reverse(late) + Reverse(early), late, early) <==> late == [] || early == []
  {
    var s := Reverse(late) + Reverse(early);
    if late != [] && early != [] {
      assert s[0] in late && s[|late|] == early[|early| - 1];
    } else {
      ReverseMembers(late);
      ReverseMembers(early);
    }
  }

  /** The last worker is handed all that is left, the sequential tests first, in
      reverse order: they come after the others if and only if there are no others
      or no sequential ones. */
  lemma LastWorkerOrder(cfg: Config, tests: seq<Test>, st: State, i: Worker, states: seq<State>, senders: seq<Worker>)
    requires Inv(cfg, tests, st, {i}) && NamesTruthy(tests) && st.live == {i}
    requires Continues(cfg, st, i, states, senders) && states[|senders|].live == {}
    ensures var handed := Reverse(st.sequential) + Reverse(st.pending);
      && states[|senders|].dispatched == st.dispatched + handed
      && (ComesLast(handed, st.sequential, st.pending) <==> st.sequential == [] || st.pending == [])
  {
    DrainRun(cfg, tests, st, i, states, senders, |senders|);
    FirstsAreNotLast(st.sequential, st.pending);
    var end := states[|senders|];
    assert Rest(end) == [] && end.dispatched + [] == end.dispatched;
  }

  // ---------- One worker ----------

  lemma StartOfTwo(cfg: Config, tests: seq<Test>)
    requires |tests| == 2 && !IsSequential(cfg, tests[0]) && IsSequential(cfg, tests[1])
    ensures var start := Initial(cfg, tests, 1);
      && start.pending == [tests[0]] && start.sequential == [tests[1]]
      && start.live == {1} && start.unready == {1} && start.dispatched == []
  {
    var one := tests[..1];
    assert one[..0] == [] && one[0] == tests[0];
    assert Select(cfg, one[..0], false) == [] && Select(cfg, one[..0], true) == [];
    assert Select(cfg, one, false) == [tests[0]] && Select(cfg, one, true) == [];
    assert Select(cfg, tests, false) == [tests[0]] && Select(cfg, tests, true) == [tests[1]];
    assert WorkerIds(1) == WorkerIds(0) + {1};
  }

  lemma HandedSecondFirst(cfg: Config, tests: seq<Test>)
    requires |tests| == 2 && !IsSequential(cfg, tests[0]) && IsSequential(cfg, tests[1])
    requires NamesTruthy(tests) && cfg.total == 1 && cfg.maxBatch >= 1
    ensures var start := Initial(cfg, tests, 1);
      Enabled(start, 1) && Step(cfg, start, 1).dispatched == [tests[1], tests[0]]
  {
    var start := Initial(cfg, tests, 1);
    StartOfTwo(cfg, tests);
    InitialHolds(cfg, tests, 1);
    ReadyKeeps(cfg, tests, start, 1);
    var idle := start.(unready := start.unready - {1});
    LastWorkerIsHanded(cfg, tests, idle, 1);
    assert Rest(idle) == [tests[1], tests[0]];
    assert BatchSize(cfg, idle.live) == 1;
  }

  /** One worker, a test and a sequential test given after it: the sequential one
      goes first. */
  lemma SequentialGoesFirst()
    ensures var cfg := Config(map["p" := [], "s" := ["all"]], 1, 32);
      var start := Initial(cfg, ["p", "s"], 1);
      Enabled(start, 1) && Step(cfg, start, 1).dispatched == ["s", "p"]
  {
    var cfg := Config(map["p" := [], "s" := ["all"]], 1, 32);
    var tests := ["p", "s"];
    HandedSecondFirst(cfg, tests);
  }
}
