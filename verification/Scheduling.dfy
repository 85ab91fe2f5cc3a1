/** The event loop of `run_all_tests_parallel` in run-tests.php.

    `Step` is what one message of a worker does; the class holds the loop's
    variables and its methods are proved to take that step.  What the invariants
    say over every run is in SchedulerSafety. */
module Scheduling {
  import opened Sequences
  import opened OrderedMaps

  type Test = string
  type Key = string
  type Worker = nat

  const ALL: Key := "all"

  /** `conflicts` is `$fileConflictsWith`; `total` is `$totalFileCount`. */
  datatype Config = Config(conflicts: map<Test, seq<Key>>, total: nat, maxBatch: nat)

  /** The loop's variables, then what the workers hold: `unready` have still to
      report for the first time, `running` have a batch.  The end of `pending`
      is the next test. */
  datatype State = State(
    pending: seq<Test>,
    sequential: seq<Test>,
    active: OrderedMap<Key, Worker>,
    waiting: OrderedMap<Key, seq<Test>>,
    live: set<Worker>,
    inProgress: int,
    unready: set<Worker>,
    running: OrderedMap<Worker, seq<Test>>,
    finished: seq<Test>,
    dispatched: seq<Test>)

  /** PHP truth of a string: the pop loops stop at a false one. */
  predicate Truthy(s: string) { s != "" && s != "0" }

  function ConflictsOf(cfg: Config, t: Test): seq<Key> {
    if t in cfg.conflicts then cfg.conflicts[t] else []
  }

  // ---------- A finished batch frees its keys ----------

  /** The tests a pop loop moves, in the order it moves them. */
  function PopAll(s: seq<Test>): seq<Test> {
    if s == [] || !Truthy(s[|s| - 1]) then [] else [s[|s| - 1]] + PopAll(s[..|s| - 1])
  }

  datatype Queues = Queues(active: OrderedMap<Key, Worker>, waiting: OrderedMap<Key, seq<Test>>, pending: seq<Test>)

  function FreeKey(k: Key, q: Queues): Queues {
    if q.waiting.Has(k) then
      Queues(q.active.Remove(k), q.waiting.Remove(k), q.pending + PopAll(q.waiting.at[k]))
    else q.(active := q.active.Remove(k))
  }

  /** The `foreach` over a snapshot of the active keys. */
  function FreeKeys(keys: seq<Key>, snapshot: map<Key, Worker>, i: Worker, q: Queues): Queues {
    if keys == [] then q
    else
      FreeKeys(keys[1..], snapshot, i, if keys[0] in snapshot && snapshot[keys[0]] == i then FreeKey(keys[0], q) else q)
  }

  function Finish(st: State, i: Worker): State
    requires i in st.running.at
  {
    var q := FreeKeys(st.active.keys, st.active.at, i, Queues(st.active, st.waiting, st.pending));
    st.(active := q.active, waiting := q.waiting, pending := q.pending,
        inProgress := st.inProgress - 1,
        finished := st.finished + st.running.at[i],
        running := st.running.Remove(i))
  }

  // ---------- Filling a batch ----------

  datatype Option<T> = None | Some(value: T)

  /** The first conflict key that some worker holds. */
  function Blocker(keys: seq<Key>, active: map<Key, Worker>): Option<Key> {
    if keys == [] then None
    else if keys[0] in active then Some(keys[0])
    else Blocker(keys[1..], active)
  }

  datatype Filling = Filling(pending: seq<Test>, waiting: OrderedMap<Key, seq<Test>>, files: seq<Test>)

  /** One popped test: it waits on its first active key, or joins the batch. */
  function Place(cfg: Config, active: map<Key, Worker>, f: Filling): Filling
    requires f.pending != []
  {
    var file := f.pending[|f.pending| - 1];
    var rest := f.pending[..|f.pending| - 1];
    match Blocker(ConflictsOf(cfg, file), active)
    case Some(k) =>
      Filling(rest, f.waiting.Put(k, (if f.waiting.Has(k) then f.waiting.at[k] else []) + [file]), f.files)
    case None =>
      Filling(rest, f.waiting, f.files + [file])
  }

  function Fill(cfg: Config, active: map<Key, Worker>, batchSize: nat, f: Filling): Filling
    decreases |f.pending|
  {
    if |f.files| > batchSize || f.pending == [] then f
    else if !Truthy(f.pending[|f.pending| - 1]) then f.(pending := f.pending[..|f.pending| - 1])
    else Fill(cfg, active, batchSize, Place(cfg, active, f))
  }

  function CeilDiv(a: nat, b: nat): nat
    requires b > 0
  {
    (a + b - 1) / b
  }

  /** min of the batch limit and the average per live worker, at least one. */
  function BatchSize(cfg: Config, live: set<Worker>): nat {
    var average := if live == {} then 1 else if CeilDiv(cfg.total, |live|) > 1 then CeilDiv(cfg.total, |live|) else 1;
    if cfg.maxBatch < average then cfg.maxBatch else average
  }

  /** The batch limit, or the least number of tests per worker with which all are handed
      out in one round, if that is less; but not 0. */
  ghost predicate Averages(size: nat, total: nat, workers: nat, limit: nat) {
    && size <= limit && (limit >= 1 ==> size >= 1)
    && (size < limit ==> total <= size * workers)
    && (size > 1 ==> (size - 1) * workers < total)
  }

  lemma CeilDivIs(a: nat, b: nat)
    requires b > 0
    ensures a <= CeilDiv(a, b) * b && (a > 0 ==> CeilDiv(a, b) >= 1 && (CeilDiv(a, b) - 1) * b < a)
  {
    var q := CeilDiv(a, b);
    assert a + b - 1 == q * b + (a + b - 1) % b;
    assert (q - 1) * b == q * b - b;
  }

  lemma BatchSizeAverages(cfg: Config, live: set<Worker>)
    requires live != {}
    ensures Averages(BatchSize(cfg, live), cfg.total, |live|, cfg.maxBatch)
  {
    CeilDivIs(cfg.total, |live|);
    var b := BatchSize(cfg, live);
    if b > 1 {
      assert (b - 1) * |live| <= (CeilDiv(cfg.total, |live|) - 1) * |live|;
    }
    if b == 1 < cfg.maxBatch {
      assert CeilDiv(cfg.total, |live|) * |live| <= 1 * |live|;
    }
  }

  // ---------- Handing it out ----------

  function HoldKeys(keys: seq<Key>, i: Worker, active: OrderedMap<Key, Worker>): OrderedMap<Key, Worker> {
    if keys == [] then active else HoldKeys(keys[1..], i, active.Put(keys[0], i))
  }

  function HoldAll(cfg: Config, files: seq<Test>, i: Worker, active: OrderedMap<Key, Worker>): OrderedMap<Key, Worker> {
    if files == [] then active else HoldAll(cfg, files[1..], i, HoldKeys(ConflictsOf(cfg, files[0]), i, active))
  }

  /** The sequential tests join once a single worker is left. */
  function JoinSequential(st: State): State {
    if |st.live| == 1 && st.sequential != [] then
      st.(pending := st.pending + st.sequential, sequential := [])
    else st
  }

  /** Send worker `i` a batch, or terminate it when there is none. */
  function Schedule(cfg: Config, st: State, i: Worker): State {
    var s := JoinSequential(st);
    var f := Fill(cfg, s.active.at, BatchSize(cfg, s.live), Filling(s.pending, s.waiting, []));
    var t := s.(pending := f.pending, waiting := f.waiting);
    if f.files != [] then
      t.(active := HoldAll(cfg, f.files, i, t.active),
         inProgress := t.inProgress + 1,
         running := t.running.Put(i, f.files),
         dispatched := t.dispatched + f.files)
    else
      t.(live := t.live - {i})
  }

  /** A worker with a message on its way: "ready" once, then "tests_finished"
      after every batch. */
  predicate Enabled(st: State, i: Worker) {
    i in st.unready || i in st.running.at
  }

  function Step(cfg: Config, st: State, i: Worker): State
    requires Enabled(st, i)
  {
    if i in st.running.at then Schedule(cfg, Finish(st, i), i)
    else Schedule(cfg, st.(unready := st.unready - {i}), i)
  }

  /** The loop guard. */
  predicate Guard(st: State) {
    st.pending != [] || st.sequential != [] || st.inProgress > 0
  }

  // ---------- The start ----------

  function IsSequential(cfg: Config, t: Test): bool { ALL in ConflictsOf(cfg, t) }

  function Select(cfg: Config, tests: seq<Test>, sequential: bool): seq<Test> {
    if tests == [] then []
    else if IsSequential(cfg, tests[|tests| - 1]) == sequential then
      Select(cfg, tests[..|tests| - 1], sequential) + [tests[|tests| - 1]]
    else Select(cfg, tests[..|tests| - 1], sequential)
  }

  /** No more workers than tests outside the sequential ones, and at least one. */
  function WorkerCount(requested: nat, tests: nat): nat {
    if requested < tests then (if requested < 1 then 1 else requested) else if tests < 1 then 1 else tests
  }

  /** The number of tests that may run beside others. */
  function WithoutAll(conflicts: map<Test, seq<Key>>, tests: seq<Test>): nat {
    if tests == [] then 0
    else
      var rest := WithoutAll(conflicts, tests[1..]);
      if tests[0] in conflicts && "all" in conflicts[tests[0]] then rest else rest + 1
  }

  lemma {:induction false} SelectConcat(cfg: Config, s: seq<Test>, t: seq<Test>, b: bool)
    ensures Select(cfg, s + t, b) == Select(cfg, s, b) + Select(cfg, t, b)
  {
    if t == [] {
      assert s + t == s;
    } else {
      assert (s + t)[..|s + t| - 1] == s + t[..|t| - 1];
      SelectConcat(cfg, s, t[..|t| - 1], b);
    }
  }

  lemma {:induction false} SelectCounts(cfg: Config, tests: seq<Test>)
    ensures |Select(cfg, tests, false)| == WithoutAll(cfg.conflicts, tests)
  {
    if tests != [] {
      assert tests == [tests[0]] + tests[1..];
      SelectConcat(cfg, [tests[0]], tests[1..], false);
      assert [tests[0]][..0] == [];
      SelectCounts(cfg, tests[1..]);
    }
  }

  /** At least one worker, and beyond that as many as are asked for and have a test, no
      fewer and no more. */
  ghost predicate WellStaffed(workers: set<Worker>, requested: nat, tests: nat) {
    && |workers| >= 1 && (|workers| > 1 ==> |workers| <= requested && |workers| <= tests)
    && (|workers| >= requested || |workers| >= tests)
    && (forall w :: w in workers <==> 1 <= w <= |workers|)
  }

  lemma {:induction false} WorkerIdsFrom1(n: nat)
    ensures |WorkerIds(n)| == n && forall w :: w in WorkerIds(n) <==> 1 <= w <= n
  {
    if n > 0 {
      WorkerIdsFrom1(n - 1);
    }
  }

  lemma StaffIsEnough(requested: nat, tests: nat)
    ensures WellStaffed(WorkerIds(WorkerCount(requested, tests)), requested, tests)
  {
    WorkerIdsFrom1(WorkerCount(requested, tests));
  }

  /** Workers are numbered from 1. */
  function WorkerIds(n: nat): set<Worker> {
    if n == 0 then {} else WorkerIds(n - 1) + {n}
  }

  function Initial(cfg: Config, tests: seq<Test>, requested: nat): State {
    var parallel := Select(cfg, tests, false);
    var workers := WorkerIds(WorkerCount(requested, |parallel|));
    State(Reverse(parallel), Select(cfg, tests, true), Empty(), Empty(), workers, 0, workers, Empty(), [], [])
  }

  // ---------- The program ----------

  class Scheduler {
    const cfg: Config
    var testFiles: seq<Test>
    var sequentialTests: seq<Test>
    var activeConflicts: OrderedMap<Key, Worker>
    var waitingTests: OrderedMap<Key, seq<Test>>
    var workerProcs: set<Worker>
    var testsInProgress: int
    // the workers' side
    var unready: set<Worker>
    var running: OrderedMap<Worker, seq<Test>>
    ghost var finished: seq<Test>
    ghost var dispatched: seq<Test>

    ghost function View(): State
      reads this
    {
      State(testFiles, sequentialTests, activeConflicts, waitingTests, workerProcs, testsInProgress,
            unready, running, finished, dispatched)
    }

    constructor (tests: seq<Test>, conflicts: map<Test, seq<Key>>, requested: nat, valgrind: bool)
      ensures cfg.conflicts == conflicts
      ensures cfg.total == |Select(cfg, tests, false)| && cfg.maxBatch == if valgrind then 1 else 32
      ensures View() == Initial(cfg, tests, requested)
      ensures WellStaffed(workerProcs, requested, WithoutAll(conflicts, tests))
      ensures |testFiles| == cfg.total == WithoutAll(conflicts, tests)
    {
      var draft := Config(conflicts, 0, if valgrind then 1 else 32);
      var parallel, sequential: seq<Test> := [], [];
      for n := 0 to |tests|
        invariant parallel == Select(draft, tests[..n], false) && sequential == Select(draft, tests[..n], true)
      {
        assert tests[..n + 1][..n] == tests[..n];
        if ALL in ConflictsOf(draft, tests[n]) {
          sequential := sequential + [tests[n]];
        } else {
          parallel := parallel + [tests[n]];
        }
      }
      assert tests[..|tests|] == tests;
      var c := draft.(total := |parallel|);
      SelectIgnoresTotal(draft, c, tests);
      SelectCounts(c, tests);
      StaffIsEnough(requested, |parallel|);
      var workers := WorkerIds(WorkerCount(requested, |parallel|));
      cfg := c;
      testFiles, sequentialTests := Reverse(parallel), sequential;
      activeConflicts, waitingTests := Empty(), Empty();
      workerProcs, testsInProgress := workers, 0;
      unready, running, finished, dispatched := workers, Empty(), [], [];
    }

    /** The body of "tests_finished" before it falls through to "ready". */
    method FinishBatch(i: Worker)
      requires i in running.at
      modifies this
      ensures View() == Finish(old(View()), i)
    {
      testsInProgress := testsInProgress - 1;
      var snapshot := activeConflicts;
      ghost var goal := FreeKeys(snapshot.keys, snapshot.at, i, Queues(activeConflicts, waitingTests, testFiles));
      for n := 0 to |snapshot.keys|
        invariant testsInProgress == old(testsInProgress) - 1
        invariant sequentialTests == old(sequentialTests) && workerProcs == old(workerProcs)
        invariant unready == old(unready) && running == old(running)
        invariant finished == old(finished) && dispatched == old(dispatched)
        invariant goal == FreeKeys(snapshot.keys[n..], snapshot.at, i, Queues(activeConflicts, waitingTests, testFiles))
      {
        var key := snapshot.keys[n];
        assert snapshot.keys[n..][1..] == snapshot.keys[n + 1..];
        if key in snapshot.at && snapshot.at[key] == i {
          ReleaseKey(key);
        }
      }
      finished := finished + running.at[i];
      running := running.Remove(i);
    }

    method ReleaseKey(key: Key)
      modifies this
      ensures Queues(activeConflicts, waitingTests, testFiles)
           == FreeKey(key, old(Queues(activeConflicts, waitingTests, testFiles)))
      ensures sequentialTests == old(sequentialTests) && workerProcs == old(workerProcs)
      ensures testsInProgress == old(testsInProgress) && unready == old(unready) && running == old(running)
      ensures finished == old(finished) && dispatched == old(dispatched)
    {
      activeConflicts := activeConflicts.Remove(key);
      if waitingTests.Has(key) {
        var list := waitingTests.at[key];
        ghost var goal := testFiles + PopAll(list);
        while list != [] && Truthy(list[|list| - 1])
          invariant goal == testFiles + PopAll(list)
          invariant activeConflicts == old(activeConflicts).Remove(key) && waitingTests == old(waitingTests)
          invariant sequentialTests == old(sequentialTests) && workerProcs == old(workerProcs)
          invariant testsInProgress == old(testsInProgress) && unready == old(unready) && running == old(running)
          invariant finished == old(finished) && dispatched == old(dispatched)
          decreases |list|
        {
          testFiles := testFiles + [list[|list| - 1]];
          list := list[..|list| - 1];
        }
        waitingTests := waitingTests.Remove(key);
      }
    }

    /** The batch loop. */
    method CollectBatch(batchSize: nat) returns (files: seq<Test>)
      modifies this`testFiles, this`waitingTests
      ensures Filling(testFiles, waitingTests, files)
           == Fill(cfg, activeConflicts.at, batchSize, Filling(old(testFiles), old(waitingTests), []))
    {
      files := [];
      ghost var goal := Fill(cfg, activeConflicts.at, batchSize, Filling(testFiles, waitingTests, []));
      while |files| <= batchSize && testFiles != []
        invariant goal == Fill(cfg, activeConflicts.at, batchSize, Filling(testFiles, waitingTests, files))
        decreases |testFiles|
      {
        var file := testFiles[|testFiles| - 1];
        testFiles := testFiles[..|testFiles| - 1];
        if !Truthy(file) {
          return;
        }
        var keys := ConflictsOf(cfg, file);
        var n := 0;
        while n < |keys| && keys[n] !in activeConflicts.at
          invariant 0 <= n <= |keys|
          invariant Blocker(keys, activeConflicts.at) == Blocker(keys[n..], activeConflicts.at)
        {
          n := n + 1;
        }
        if n < |keys| {
          var queue := if waitingTests.Has(keys[n]) then waitingTests.at[keys[n]] else [];
          waitingTests := waitingTests.Put(keys[n], queue + [file]);
        } else {
          files := files + [file];
        }
      }
    }

    /** Marks every key of the batch as held by worker `i`. */
    method Hold(files: seq<Test>, i: Worker)
      modifies this`activeConflicts
      ensures activeConflicts == HoldAll(cfg, files, i, old(activeConflicts))
    {
      ghost var goal := HoldAll(cfg, files, i, activeConflicts);
      for n := 0 to |files|
        invariant goal == HoldAll(cfg, files[n..], i, activeConflicts)
      {
        var keys := ConflictsOf(cfg, files[n]);
        ghost var inner := HoldKeys(keys, i, activeConflicts);
        assert files[n..][1..] == files[n + 1..];
        for m := 0 to |keys|
          invariant inner == HoldKeys(keys[m..], i, activeConflicts)
        {
          assert keys[m..][1..] == keys[m + 1..];
          activeConflicts := activeConflicts.Put(keys[m], i);
        }
      }
    }

    method ChooseBatchSize() returns (batchSize: nat)
      requires workerProcs != {}
      ensures batchSize == BatchSize(cfg, workerProcs)
      ensures Averages(batchSize, cfg.total, |workerProcs|, cfg.maxBatch)
    {
      BatchSizeAverages(cfg, workerProcs);
      var average := CeilDiv(cfg.total, |workerProcs|);
      if average < 1 {
        average := 1;
      }
      batchSize := if cfg.maxBatch < average then cfg.maxBatch else average;
    }

    /** The last worker gets the sequential tests as well. */
    method MergeSequential()
      modifies this`testFiles, this`sequentialTests
      ensures View() == JoinSequential(old(View()))
    {
      if |workerProcs| == 1 && sequentialTests != [] {
        testFiles := testFiles + sequentialTests;
        sequentialTests := [];
      }
    }

    /** The body of "ready". */
    method ScheduleWorker(i: Worker)
      requires i in workerProcs
      modifies this
      ensures View() == Schedule(cfg, old(View()), i)
    {
      MergeSequential();
      var batchSize := ChooseBatchSize();
      var files := CollectBatch(batchSize);
      if files != [] {
        Hold(files, i);
        testsInProgress := testsInProgress + 1;
        running := running.Put(i, files);
        dispatched := dispatched + files;
      } else {
        workerProcs := workerProcs - {i};
      }
    }

    /** One message: "tests_finished" of a busy worker, "ready" of a new one. */
    method HandleMessage(i: Worker, testsFinished: bool)
      requires if testsFinished then i in running.at else i in unready && i !in running.at
      requires i in workerProcs
      modifies this
      ensures View() == Step(cfg, old(View()), i)
    {
      if testsFinished {
        FinishBatch(i);
      } else {
        unready := unready - {i};
      }
      ScheduleWorker(i);
    }
  }

  lemma {:induction false} SelectIgnoresTotal(c: Config, c': Config, tests: seq<Test>)
    requires c.conflicts == c'.conflicts
    ensures forall b :: Select(c, tests, b) == Select(c', tests, b)
  {
    if tests != [] {
      SelectIgnoresTotal(c, c', tests[..|tests| - 1]);
    }
  }
}
