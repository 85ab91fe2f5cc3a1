/** When the tests that conflict with "all" come last: for which tests, keys and
    numbers of workers every run hands them out after all others. */
module SchedulerSequential {
  import opened Sequences
  import opened OrderedMaps
  import opened Scheduling
  import opened SchedulerSafety
  import opened SchedulerRuns
  import opened SchedulerBatches

  // ---------- Stretches ----------

  ghost predicate ShareKey(cfg: Config, s: Test, t: Test) {
    exists k :: k in ConflictsOf(cfg, s) && k in ConflictsOf(cfg, t)
  }

  /** No test of the one list shares a key with one of the other. */
  ghost predicate Apart(cfg: Config, early: seq<Test>, late: seq<Test>) {
    forall i, j :: 0 <= i < |early| && 0 <= j < |late| ==> !ShareKey(cfg, early[i], late[j])
  }

  /** Cut into stretches of `size`, tests that share a key are in the same one. */
  ghost predicate KeysStayInStretch(cfg: Config, s: seq<Test>, size: nat)
    requires size > 0
  {
    forall i, j :: 0 <= i < j < |s| && ShareKey(cfg, s[i], s[j]) ==> i / size == j / size
  }

  /** The same, one stretch after the other. */
  ghost predicate StretchesApart(cfg: Config, s: seq<Test>, size: nat)
    requires size > 0
  {
    |s| <= size || (Apart(cfg, s[..size], s[size..]) && StretchesApart(cfg, s[size..], size))
  }

  lemma {:induction false} StretchesIff(cfg: Config, s: seq<Test>, size: nat)
    requires size > 0
    ensures StretchesApart(cfg, s, size) <==> KeysStayInStretch(cfg, s, size)
    decreases |s|
  {
    if |s| <= size {
      forall i | 0 <= i < |s| ensures i / size == 0 {
        NextQuotient(i, size);
      }
    } else {
      StretchesIff(cfg, s[size..], size);
      FirstStretch(cfg, s, size);
    }
  }

  lemma FirstStretch(cfg: Config, s: seq<Test>, size: nat)
    requires 0 < size < |s|
    ensures KeysStayInStretch(cfg, s, size)
       <==> Apart(cfg, s[..size], s[size..]) && KeysStayInStretch(cfg, s[size..], size)
  {
    var early, late := s[..size], s[size..];
    forall j | 0 <= j < |late| ensures late[j] == s[j + size] && (j + size) / size == j / size + 1 {
      NextQuotient(j, size);
    }
    forall i | 0 <= i < size ensures early[i] == s[i] && i / size == 0 {
      NextQuotient(i, size);
    }
    if KeysStayInStretch(cfg, s, size) {
      forall i, j | 0 <= i < |early| && 0 <= j < |late| ensures !ShareKey(cfg, early[i], late[j]) {
        assert s[j + size] == late[j];
      }
      forall i, j | 0 <= i < j < |late| && ShareKey(cfg, late[i], late[j]) ensures i / size == j / size {
        assert s[i + size] == late[i] && s[j + size] == late[j];
      }
    }
    if Apart(cfg, early, late) && KeysStayInStretch(cfg, late, size) {
      forall i, j | 0 <= i < size <= j < |s| ensures !ShareKey(cfg, s[i], s[j]) {
        assert early[i] == s[i] && late[j - size] == s[j];
      }
      forall i, j | 0 <= i < j < |s| && ShareKey(cfg, s[i], s[j]) ensures i / size == j / size {
        if size <= i {
          assert late[i - size] == s[i] && late[j - size] == s[j];
        }
      }
    }
  }

  // ---------- Runs in which they come last ----------

  ghost predicate SequentialLast(cfg: Config, s: seq<Test>) {
    forall p, q :: 0 <= p < q < |s| && IsSequential(cfg, s[p]) ==> IsSequential(cfg, s[q])
  }

  ghost predicate AllSequential(cfg: Config, s: seq<Test>) { forall t :: t in s ==> IsSequential(cfg, t) }

  ghost predicate NoneSequential(cfg: Config, s: seq<Test>) { forall t :: t in s ==> !IsSequential(cfg, t) }

  /** The stretch that the workers take while all of them are there. */
  function Stretch(cfg: Config, w: nat): nat { BatchSize(cfg, WorkerIds(w)) + 1 }

  /** Whole stretches have been handed out: no key they hold is one of a pending test. */
  ghost predicate InStretches(cfg: Config, size: nat, st: State)
    requires size > 0
  {
    AllFree(cfg, st.active.at, st.pending) && StretchesApart(cfg, Reverse(st.pending), size)
  }

  /** Nothing waits; the stack is handed out stretch by stretch while all `w` workers are
      there, and is empty as soon as one of them is not. */
  ghost predicate Separate(cfg: Config, w: nat, st: State) {
    && st.waiting.at == map[] && SequentialLast(cfg, st.dispatched)
    && (|st.live| >= 2 ==> NoneSequential(cfg, st.dispatched) && InStretches(cfg, Stretch(cfg, w), st))
    && (|st.live| >= 2 ==> |st.live| == w || st.pending == [])
    && (|st.live| <= 1 ==> AllSequential(cfg, st.pending))
  }

  lemma SameBatchSize(cfg: Config, live: set<Worker>, w: nat)
    requires |live| == w
    ensures BatchSize(cfg, live) + 1 == Stretch(cfg, w)
  {
    WorkerIdsFrom1(w);
    assert live == {} <==> w == 0;
    assert WorkerIds(w) == {} <==> w == 0;
  }

  /** The next stretch is handed out. */
  lemma TakesStretch(cfg: Config, st: State, i: Worker, t: State, size: nat)
    requires st.active.Ok() && |st.live| >= 2 && NamesTruthy(st.pending) && BatchSize(cfg, st.live) + 1 == size
    requires AllFree(cfg, st.active.at, st.pending) && t == Schedule(cfg, st, i)
    ensures var left := Reverse(st.pending); var n := Min(|left|, size);
      && t.waiting == st.waiting && t.sequential == st.sequential && Reverse(t.pending) == left[n..]
      && t.dispatched == st.dispatched + left[..n] && t.unready == st.unready
      && t.live == (if n == 0 then st.live - {i} else st.live)
      && t.running == (if n == 0 then st.running else st.running.Put(i, left[..n]))
      && (forall k :: k in t.active.at <==> k in st.active.at || Uses(cfg, left[..n], k))
  {
    assert JoinSequential(st) == st;
    var n := Min(|st.pending|, size);
    HandsTop(cfg, st, i, st, n);
    HoldAllHolds(cfg, Reverse(st.pending)[..n], i, st.active);
  }

  lemma StretchKeepsApart(cfg: Config, size: nat, st: State, t: State)
    requires size > 0 && InStretches(cfg, size, st)
    requires var left := Reverse(st.pending); var n := Min(|left|, size);
      && Reverse(t.pending) == left[n..]
      && (forall k :: k in t.active.at <==> k in st.active.at || Uses(cfg, left[..n], k))
    ensures InStretches(cfg, size, t) && (Reverse(st.pending) == [] ==> t.pending == [])
  {
    var left, late := Reverse(st.pending), Reverse(t.pending);
    ReverseMembers(st.pending);
    ReverseMembers(t.pending);
    forall u | u in t.pending ensures Free(cfg, t.active.at, u) {
      var j :| 0 <= j < |late| && late[j] == u;
      assert u in left && Free(cfg, st.active.at, u);
      var early := left[..size];
      forall k | k in ConflictsOf(cfg, u) ensures !Uses(cfg, early, k) {
        forall i | 0 <= i < |early| ensures k !in ConflictsOf(cfg, early[i]) {
          assert !ShareKey(cfg, early[i], late[j]);
        }
      }
    }
  }

  /** Tests still on the stack do not conflict with "all" while two workers live. */
  lemma PendingIsParallel(cfg: Config, st: State)
    requires WellFormed(st) && AllHeldBack(cfg, st) && |st.live| >= 2
    ensures NoneSequential(cfg, st.pending)
  {
    forall t | t in st.pending ensures !IsSequential(cfg, t) {
      assert t in multiset(st.pending);
    }
  }

  lemma HandingParallel(cfg: Config, st: State, t: State, n: nat)
    requires NoneSequential(cfg, st.dispatched) && NoneSequential(cfg, st.pending) && n <= |st.pending|
    requires t.dispatched == st.dispatched + Reverse(st.pending)[..n]
    ensures NoneSequential(cfg, t.dispatched) && SequentialLast(cfg, t.dispatched)
  {
    ReverseMembers(st.pending);
    assert NoneSequential(cfg, Reverse(st.pending)[..n]);
  }

  lemma StretchOrNothing(cfg: Config, w: nat, st: State, t: State)
    requires |st.live| >= 2 && InStretches(cfg, Stretch(cfg, w), st) && (|st.live| == w || st.pending == [])
    requires var left := Reverse(st.pending); var n := Min(|left|, BatchSize(cfg, st.live) + 1);
      && Reverse(t.pending) == left[n..]
      && (forall k :: k in t.active.at <==> k in st.active.at || Uses(cfg, left[..n], k))
    ensures InStretches(cfg, Stretch(cfg, w), t) && (st.pending == [] ==> t.pending == [])
  {
    if |st.live| == w {
      SameBatchSize(cfg, st.live, w);
      StretchKeepsApart(cfg, Stretch(cfg, w), st, t);
    } else {
      assert Reverse(t.pending) == [];
    }
  }

  lemma SeparateWithOthers(cfg: Config, tests: seq<Test>, w: nat, st: State, i: Worker)
    requires Inv(cfg, tests, st, {i}) && NamesTruthy(tests) && Separate(cfg, w, st) && |st.live| >= 2
    ensures Separate(cfg, w, Schedule(cfg, st, i))
  {
    var t := Schedule(cfg, st, i);
    WaitListsTruthy(tests, st);
    PendingIsParallel(cfg, st);
    TakesStretch(cfg, st, i, t, BatchSize(cfg, st.live) + 1);
    HandingParallel(cfg, st, t, Min(|st.pending|, BatchSize(cfg, st.live) + 1));
    StretchOrNothing(cfg, w, st, t);
  }

  lemma SeparateAlone(cfg: Config, tests: seq<Test>, w: nat, st: State, i: Worker)
    requires Inv(cfg, tests, st, {i}) && NamesTruthy(tests) && st.live == {i} && Separate(cfg, w, st)
    ensures Separate(cfg, w, Schedule(cfg, st, i))
  {
    LastWorkerIsHanded(cfg, tests, st, i);
    HandingSequential(cfg, st, Schedule(cfg, st, i), Min(|Rest(st)|, BatchSize(cfg, st.live) + 1));
  }

  lemma HandingSequential(cfg: Config, st: State, t: State, n: nat)
    requires SequentialLast(cfg, st.dispatched) && AllSequential(cfg, st.pending) && AllSequential(cfg, st.sequential)
    requires n <= |Rest(st)| && t.dispatched == st.dispatched + Rest(st)[..n] && Rest(t) == Rest(st)[n..]
    ensures SequentialLast(cfg, t.dispatched) && AllSequential(cfg, t.pending)
  {
    ReverseMembers(st.sequential);
    ReverseMembers(st.pending);
    ReverseMembers(t.pending);
    assert AllSequential(cfg, Rest(st));
    assert forall x :: x in t.pending ==> x in Rest(t);
  }

  lemma SeparateSchedule(cfg: Config, tests: seq<Test>, w: nat, st: State, i: Worker)
    requires Inv(cfg, tests, st, {i}) && NamesTruthy(tests) && Separate(cfg, w, st)
    ensures Separate(cfg, w, Schedule(cfg, st, i))
  {
    assert i in st.live;
    if |st.live| >= 2 {
      SeparateWithOthers(cfg, tests, w, st, i);
    } else {
      OnlyElement(st.live, i);
      SeparateAlone(cfg, tests, w, st, i);
    }
  }

  lemma SeparateStep(cfg: Config, tests: seq<Test>, w: nat, st: State, i: Worker)
    requires Inv(cfg, tests, st, {}) && NamesTruthy(tests) && Separate(cfg, w, st) && Enabled(st, i)
    ensures Separate(cfg, w, Step(cfg, st, i))
  {
    if i in st.running.at {
      FinishKeeps(cfg, tests, st, i);
      FreeKeysNoneWaiting(st.active.keys, st.active.at, i, ActiveQueues(st));
      WaitListsTruthy(tests, st);
      FreeKeysFrees(st.active.keys, st.active.at, i, ActiveQueues(st));
      assert forall t :: t in st.pending && Free(cfg, st.active.at, t) ==> Free(cfg, Finish(st, i).active.at, t);
      SeparateSchedule(cfg, tests, w, Finish(st, i), i);
    } else {
      ReadyKeeps(cfg, tests, st, i);
      SeparateSchedule(cfg, tests, w, st.(unready := st.unready - {i}), i);
    }
  }

  /** How many workers the program starts. */
  function Workers(cfg: Config, tests: seq<Test>, requested: nat): nat {
    WorkerCount(requested, |Select(cfg, tests, false)|)
  }

  /** Two workers or more, and parallel tests that share a key are in one stretch. */
  ghost predicate KeysAllowIt(cfg: Config, tests: seq<Test>, requested: nat) {
    var w := Workers(cfg, tests, requested);
    w >= 2 && KeysStayInStretch(cfg, Select(cfg, tests, false), Stretch(cfg, w))
  }

  /** Then every run hands out the sequential tests last. */
  lemma {:induction false} SequentialTestsComeLast(cfg: Config, tests: seq<Test>, requested: nat, states: seq<State>,
                                                   senders: seq<Worker>, n: nat)
    requires NamesTruthy(tests) && KeysAllowIt(cfg, tests, requested)
    requires IsRun(cfg, tests, requested, states, senders) && n <= |senders|
    ensures Separate(cfg, Workers(cfg, tests, requested), states[n])
  {
    var w := Workers(cfg, tests, requested);
    if n == 0 {
      WorkerIdsFrom1(w);
      StretchesIff(cfg, Select(cfg, tests, false), Stretch(cfg, w));
      ReverseTwice(Select(cfg, tests, false));
    } else {
      SequentialTestsComeLast(cfg, tests, requested, states, senders, n - 1);
      RunInvariant(cfg, tests, requested, states, senders, n - 1);
      SeparateStep(cfg, tests, w, states[n - 1], senders[n - 1]);
    }
  }

  // ---------- To the end of a run ----------

  /** One message more. */
  lemma RunStep(cfg: Config, tests: seq<Test>, requested: nat, states: seq<State>, senders: seq<Worker>, st: State,
                i: Worker)
    returns (next: State)
    requires NamesTruthy(tests) && Reaches(cfg, tests, requested, states, senders, st) && Inv(cfg, tests, st, {})
    requires Enabled(st, i) && Guard(st)
    ensures Reaches(cfg, tests, requested, states + [next], senders + [i], next) && Inv(cfg, tests, next, {})
    ensures next == Step(cfg, st, i) && 0 <= Work(tests, next) < Work(tests, st) && st.dispatched <= next.dispatched
  {
    next := Step(cfg, st, i);
    StepKeeps(cfg, tests, st, i);
    StepProgresses(cfg, tests, st, i);
    StepHandsOutOrEnds(cfg, tests, st, i);
    RunGoesOn(cfg, tests, requested, states, senders, st, i, next);
  }

  /** Every run can go on until the loop ends. */
  lemma {:induction false} RunEnds(cfg: Config, tests: seq<Test>, requested: nat, states: seq<State>,
                                   senders: seq<Worker>, st: State)
    returns (states': seq<State>, senders': seq<Worker>, end: State)
    requires NamesTruthy(tests) && Reaches(cfg, tests, requested, states, senders, st) && Inv(cfg, tests, st, {})
    ensures Reaches(cfg, tests, requested, states', senders', end) && st.dispatched <= end.dispatched
    ensures multiset(end.dispatched) == multiset(tests) && !Guard(end)
    decreases Work(tests, st)
  {
    DispatchedFits(tests, st);
    if Guard(st) {
      NeverStuck(cfg, tests, st);
      var i :| i in st.live && Enabled(st, i);
      var next := RunStep(cfg, tests, requested, states, senders, st, i);
      states', senders', end := RunEnds(cfg, tests, requested, states + [next], senders + [i], next);
    } else {
      NothingStranded(cfg, tests, st);
      states', senders', end := states, senders, st;
    }
  }

  // ---------- A test that has to wait for the first worker ----------

  /** `t` has still to be handed out as often as it was given. */
  ghost predicate Owed(tests: seq<Test>, st: State, t: Test) {
    multiset(st.dispatched)[t] < multiset(tests)[t]
  }

  /** Worker 1 holds a key of `t`, which is still to be handed out. */
  ghost predicate HeldUp(cfg: Config, tests: seq<Test>, st: State, x: Key, t: Test) {
    && 1 in st.running.at && x in st.active.at && st.active.at[x] == 1 && x in ConflictsOf(cfg, t)
    && Owed(tests, st, t) && st.sequential != []
  }

  lemma ScheduleLeavesHeldUp(cfg: Config, tests: seq<Test>, st: State, j: Worker, x: Key, t: Test)
    requires Inv(cfg, tests, st, {j}) && NamesTruthy(tests) && HeldUp(cfg, tests, st, x, t)
    ensures HeldUp(cfg, tests, Schedule(cfg, st, j), x, t)
  {
    assert {1, j} <= st.live && |{1, j}| == 2;
    SubsetSize({1, j}, st.live);
    assert JoinSequential(st) == st;
    FilledFacts(cfg, tests, st, j);
    var files := Filled(cfg, st).files;
    assert !Uses(cfg, files, x);
    assert t !in files;
    HoldAllHolds(cfg, files, j, st.active);
    assert multiset(st.dispatched + files)[t] == multiset(st.dispatched)[t];
  }

  lemma SubsetSize(a: set<Worker>, b: set<Worker>)
    requires a <= b
    ensures |a| <= |b|
  {
    assert b == a + (b - a);
  }

  lemma StepLeavesHeldUp(cfg: Config, tests: seq<Test>, st: State, j: Worker, x: Key, t: Test)
    requires Inv(cfg, tests, st, {}) && NamesTruthy(tests) && HeldUp(cfg, tests, st, x, t) && Enabled(st, j) && j != 1
    ensures HeldUp(cfg, tests, Step(cfg, st, j), x, t)
  {
    if j in st.running.at {
      FinishKeeps(cfg, tests, st, j);
      WaitListsTruthy(tests, st);
      FreeKeysFrees(st.active.keys, st.active.at, j, ActiveQueues(st));
      ScheduleLeavesHeldUp(cfg, tests, Finish(st, j), j, x, t);
    } else {
      ReadyKeeps(cfg, tests, st, j);
      ScheduleLeavesHeldUp(cfg, tests, st.(unready := st.unready - {j}), j, x, t);
    }
  }

  /** The other workers report until worker 1 is the only one left. */
  lemma {:induction false} OthersLeave(cfg: Config, tests: seq<Test>, requested: nat, states: seq<State>,
                                       senders: seq<Worker>, st: State, x: Key, t: Test)
    returns (states': seq<State>, senders': seq<Worker>, st': State)
    requires NamesTruthy(tests) && Reaches(cfg, tests, requested, states, senders, st) && Inv(cfg, tests, st, {})
    requires HeldUp(cfg, tests, st, x, t)
    ensures Reaches(cfg, tests, requested, states', senders', st') && Inv(cfg, tests, st', {})
    ensures HeldUp(cfg, tests, st', x, t) && st'.live == {1}
    decreases Work(tests, st)
  {
    DispatchedFits(tests, st);
    if j :| j in st.live && j != 1 {
      StepLeavesHeldUp(cfg, tests, st, j, x, t);
      var next := RunStep(cfg, tests, requested, states, senders, st, j);
      states', senders', st' := OthersLeave(cfg, tests, requested, states + [next], senders + [j], next, x, t);
    } else {
      assert 1 in st.live;
      states', senders', st' := states, senders, st;
    }
  }

  // ---------- The last worker gets the sequential tests first ----------

  lemma HandsSequential(cfg: Config, tests: seq<Test>, st: State, i: Worker)
    requires Inv(cfg, tests, st, {i}) && NamesTruthy(tests) && st.live == {i} && st.sequential != []
    ensures var t := Schedule(cfg, st, i); var n := |st.dispatched|;
      st.dispatched < t.dispatched && IsSequential(cfg, t.dispatched[n])
  {
    LastWorkerIsHanded(cfg, tests, st, i);
    assert Rest(st)[0] == st.sequential[|st.sequential| - 1];
    assert Rest(st)[..Min(|Rest(st)|, BatchSize(cfg, st.live) + 1)] != [];
  }

  lemma StepHandsSequential(cfg: Config, tests: seq<Test>, st: State, i: Worker)
    requires Inv(cfg, tests, st, {}) && NamesTruthy(tests) && st.live == {i} && st.sequential != []
    ensures Enabled(st, i)
    ensures var t := Step(cfg, st, i); var n := |st.dispatched|;
      st.dispatched < t.dispatched && IsSequential(cfg, t.dispatched[n])
  {
    assert i in st.live;
    if i in st.running.at {
      FinishKeeps(cfg, tests, st, i);
      HandsSequential(cfg, tests, Finish(st, i), i);
    } else {
      ReadyKeeps(cfg, tests, st, i);
      HandsSequential(cfg, tests, st.(unready := st.unready - {i}), i);
    }
  }

  lemma {:induction false} CountOfPrefix(s: seq<Test>, n: nat, t: Test)
    requires n <= |s| && multiset(s[..n])[t] < multiset(s)[t]
    ensures t in s[n..]
  {
    assert s == s[..n] + s[n..];
    assert multiset(s)[t] == multiset(s[..n])[t] + multiset(s[n..])[t];
  }

  /** A sequential test has been handed out, another one is still to come. */
  lemma NotLast(cfg: Config, tests: seq<Test>, d: seq<Test>, end: seq<Test>, t: Test)
    requires d <= end && |d| < |end| && IsSequential(cfg, end[|d|]) && !IsSequential(cfg, t)
    requires multiset(d)[t] < multiset(tests)[t] && multiset(end) == multiset(tests)
    ensures !SequentialLast(cfg, end)
  {
    assert end[..|d|] == d;
    CountOfPrefix(end, |d|, t);
    var q :| 0 <= q < |end[|d|..]| && end[|d|..][q] == t;
    assert end[|d| + q] == t && q != 0;
  }

  /** One worker is left, with sequential tests and another one to hand out. */
  lemma LastWorkerRun(cfg: Config, tests: seq<Test>, requested: nat, states: seq<State>, senders: seq<Worker>,
                      st: State, t: Test)
    returns (states': seq<State>, senders': seq<Worker>, end: State)
    requires NamesTruthy(tests) && Reaches(cfg, tests, requested, states, senders, st) && Inv(cfg, tests, st, {})
    requires st.live == {1} && st.sequential != [] && Owed(tests, st, t) && !IsSequential(cfg, t)
    ensures Reaches(cfg, tests, requested, states', senders', end) && !SequentialLast(cfg, end.dispatched)
  {
    StepHandsSequential(cfg, tests, st, 1);
    var next := RunStep(cfg, tests, requested, states, senders, st, 1);
    states', senders', end := RunEnds(cfg, tests, requested, states + [next], senders + [1], next);
    NotLast(cfg, tests, st.dispatched, end.dispatched, t);
  }

  // ---------- One worker takes the stretches ----------

  /** Worker 1 alone has reported; it has a batch or is about to get its first. */
  ghost predicate OnlyFirst(cfg: Config, w: nat, st: State) {
    && w >= 2 && |st.live| == w && st.running.at.Keys <= {1} && Enabled(st, 1) && st.waiting.at == map[]
    && st.sequential != []
  }

  /** When worker 1 asks again nothing is held, and it takes the next stretch. */
  lemma FirstAsks(cfg: Config, tests: seq<Test>, w: nat, st: State)
    requires Inv(cfg, tests, st, {}) && NamesTruthy(tests) && OnlyFirst(cfg, w, st)
    requires |st.pending| > Stretch(cfg, w)
    ensures var t := Step(cfg, st, 1); var size, left := Stretch(cfg, w), Reverse(st.pending);
      && OnlyFirst(cfg, w, t) && Reverse(t.pending) == left[size..] && t.running.at.Keys == {1}
      && (forall k :: Uses(cfg, left[..size], k) ==> k in t.active.at)
  {
    var idle := if 1 in st.running.at then Finish(st, 1) else st.(unready := st.unready - {1});
    FirstIsIdle(cfg, tests, w, st, idle);
    WaitListsTruthy(tests, idle);
    IdleTakes(cfg, w, idle, Step(cfg, st, 1));
  }

  lemma IdleTakes(cfg: Config, w: nat, idle: State, t: State)
    requires w >= 2 && |idle.live| == w && idle.active.Ok() && idle.active.at == map[] && idle.running.at == map[]
    requires idle.waiting.at == map[] && idle.sequential != [] && NamesTruthy(idle.pending)
    requires |idle.pending| > Stretch(cfg, w) && t == Schedule(cfg, idle, 1)
    ensures var size, left := Stretch(cfg, w), Reverse(idle.pending);
      && OnlyFirst(cfg, w, t) && Reverse(t.pending) == left[size..] && t.running.at.Keys == {1}
      && (forall k :: Uses(cfg, left[..size], k) ==> k in t.active.at)
  {
    SameBatchSize(cfg, idle.live, w);
    TakesStretch(cfg, idle, 1, t, Stretch(cfg, w));
  }

  lemma FirstIsIdle(cfg: Config, tests: seq<Test>, w: nat, st: State, idle: State)
    requires Inv(cfg, tests, st, {}) && NamesTruthy(tests) && OnlyFirst(cfg, w, st)
    requires idle == if 1 in st.running.at then Finish(st, 1) else st.(unready := st.unready - {1})
    ensures Inv(cfg, tests, idle, {1}) && idle.active.at == map[] && idle.running.at == map[]
    ensures idle.waiting.at == map[] && idle.pending == st.pending && idle.sequential == st.sequential
    ensures idle.live == st.live
  {
    if 1 in st.running.at {
      FinishKeeps(cfg, tests, st, 1);
      FreeKeysNoneWaiting(st.active.keys, st.active.at, 1, ActiveQueues(st));
    } else {
      ReadyKeeps(cfg, tests, st, 1);
    }
    NothingHeld(cfg, idle);
  }

  lemma NothingHeld(cfg: Config, idle: State)
    requires KeysHeld(cfg, idle.active.at, idle.running.at) && WaitsOnHeld(cfg, idle.active.at, idle.waiting.at)
    requires idle.running.at.Keys == {}
    ensures idle.running.at == map[] && idle.active.at == map[] && idle.waiting.at == map[]
  {}

  lemma PendingIsOwed(tests: seq<Test>, st: State, t: Test)
    requires WellFormed(st) && Conserved(tests, st) && t in st.pending
    ensures Owed(tests, st, t)
  {
    assert multiset(st.pending)[t] > 0;
  }

  lemma SharedIsHeldUp(cfg: Config, tests: seq<Test>, st: State, early: seq<Test>, late: seq<Test>)
    returns (x: Key, t: Test)
    requires Inv(cfg, tests, st, {}) && |st.live| >= 2 && st.running.at.Keys == {1} && st.sequential != []
    requires Reverse(st.pending) == late && !Apart(cfg, early, late)
    requires forall k :: Uses(cfg, early, k) ==> k in st.active.at
    ensures HeldUp(cfg, tests, st, x, t) && !IsSequential(cfg, t)
  {
    var i, j :| 0 <= i < |early| && 0 <= j < |late| && ShareKey(cfg, early[i], late[j]);
    t := late[j];
    x :| x in ConflictsOf(cfg, early[i]) && x in ConflictsOf(cfg, t);
    assert Uses(cfg, early, x);
    ReverseMembers(st.pending);
    PendingIsParallel(cfg, st);
    PendingIsOwed(tests, st, t);
  }

  /** Worker 1 takes stretch after stretch, up to the first that shares a key with a
      later one. */
  lemma {:induction false} FirstTakes(cfg: Config, tests: seq<Test>, requested: nat, states: seq<State>,
                                      senders: seq<Worker>, st: State, w: nat)
    returns (states': seq<State>, senders': seq<Worker>, st': State, x: Key, t: Test)
    requires NamesTruthy(tests) && Reaches(cfg, tests, requested, states, senders, st) && Inv(cfg, tests, st, {})
    requires OnlyFirst(cfg, w, st) && !StretchesApart(cfg, Reverse(st.pending), Stretch(cfg, w))
    ensures Reaches(cfg, tests, requested, states', senders', st') && Inv(cfg, tests, st', {})
    ensures HeldUp(cfg, tests, st', x, t) && !IsSequential(cfg, t)
    decreases |st.pending|
  {
    var size, left := Stretch(cfg, w), Reverse(st.pending);
    FirstAsks(cfg, tests, w, st);
    var next := RunStep(cfg, tests, requested, states, senders, st, 1);
    if Apart(cfg, left[..size], left[size..]) {
      states', senders', st', x, t := FirstTakes(cfg, tests, requested, states + [next], senders + [1], next, w);
    } else {
      states', senders', st' := states + [next], senders + [1], next;
      x, t := SharedIsHeldUp(cfg, tests, next, left[..size], left[size..]);
    }
  }

  // ---------- The exact condition ----------

  /** In every run of the program no other test is handed out after a sequential one. */
  ghost predicate SequentialComesLast(cfg: Config, tests: seq<Test>, requested: nat) {
    forall states, senders, end ::
      Reaches(cfg, tests, requested, states, senders, end) ==> SequentialLast(cfg, end.dispatched)
  }

  /** With one worker, or a key shared across stretches, some run breaks the promise. */
  lemma OthersBreak(cfg: Config, tests: seq<Test>, requested: nat)
    requires NamesTruthy(tests) && Select(cfg, tests, true) != [] && Select(cfg, tests, false) != []
    requires var w := Workers(cfg, tests, requested);
      w < 2 || !StretchesApart(cfg, Select(cfg, tests, false), Stretch(cfg, w))
    ensures !SequentialComesLast(cfg, tests, requested)
  {
    var start, w := Initial(cfg, tests, requested), Workers(cfg, tests, requested);
    InitialHolds(cfg, tests, requested);
    RunStarts(cfg, tests, requested, start);
    if w >= 2 {
      StartsWithFirst(cfg, tests, requested, w);
      SharedKeyBreaks(cfg, tests, requested, start, w);
    } else {
      WorkerIdsFrom1(w);
      assert start.live == {1};
      OneWorkerBreaks(cfg, tests, requested, start);
    }
  }

  lemma StartsWithFirst(cfg: Config, tests: seq<Test>, requested: nat, w: nat)
    requires w == Workers(cfg, tests, requested) >= 2 && Select(cfg, tests, true) != []
    requires !StretchesApart(cfg, Select(cfg, tests, false), Stretch(cfg, w))
    ensures var start := Initial(cfg, tests, requested);
      OnlyFirst(cfg, w, start) && !StretchesApart(cfg, Reverse(start.pending), Stretch(cfg, w))
  {
    WorkerIdsFrom1(w);
    ReverseTwice(Select(cfg, tests, false));
  }

  lemma OneWorkerBreaks(cfg: Config, tests: seq<Test>, requested: nat, start: State)
    requires NamesTruthy(tests) && Reaches(cfg, tests, requested, [start], [], start) && Inv(cfg, tests, start, {})
    requires start.live == {1} && start.sequential != [] && start.pending == Reverse(Select(cfg, tests, false)) != []
    ensures !SequentialComesLast(cfg, tests, requested)
  {
    var t := start.pending[0];
    SelectSplits(cfg, tests);
    ReverseMembers(Select(cfg, tests, false));
    PendingIsOwed(tests, start, t);
    var states, senders, end := LastWorkerRun(cfg, tests, requested, [start], [], start, t);
  }

  lemma SharedKeyBreaks(cfg: Config, tests: seq<Test>, requested: nat, start: State, w: nat)
    requires NamesTruthy(tests) && Reaches(cfg, tests, requested, [start], [], start) && Inv(cfg, tests, start, {})
    requires OnlyFirst(cfg, w, start) && !StretchesApart(cfg, Reverse(start.pending), Stretch(cfg, w))
    ensures !SequentialComesLast(cfg, tests, requested)
  {
    var states, senders, st, x, t := FirstTakes(cfg, tests, requested, [start], [], start, w);
    var states2, senders2, st2 := OthersLeave(cfg, tests, requested, states, senders, st, x, t);
    var states3, senders3, end := LastWorkerRun(cfg, tests, requested, states2, senders2, st2, t);
  }

  lemma OneKindOnly(cfg: Config, tests: seq<Test>, st: State)
    requires WellFormed(st) && Conserved(tests, st)
    requires Select(cfg, tests, true) == [] || Select(cfg, tests, false) == []
    ensures SequentialLast(cfg, st.dispatched)
  {
    SelectSplits(cfg, tests);
    forall t | t in st.dispatched ensures IsSequential(cfg, t) <==> Select(cfg, tests, true) != [] {
      assert t in multiset(st.dispatched);
      assert t in multiset(Select(cfg, tests, false)) + multiset(Select(cfg, tests, true));
    }
  }

  /** The tests that conflict with "all" come last in every run if and only if there are
      no others or none of them, or there are two workers or more and the others that
      share a key are all in one stretch of those taken while every worker is there. */
  lemma SequentialComesLastIff(cfg: Config, tests: seq<Test>, requested: nat)
    requires NamesTruthy(tests)
    ensures SequentialComesLast(cfg, tests, requested) <==>
      Select(cfg, tests, true) == [] || Select(cfg, tests, false) == [] || KeysAllowIt(cfg, tests, requested)
  {
    if Select(cfg, tests, true) != [] && Select(cfg, tests, false) != [] && !KeysAllowIt(cfg, tests, requested) {
      StretchesIff(cfg, Select(cfg, tests, false), Stretch(cfg, Workers(cfg, tests, requested)));
      OthersBreak(cfg, tests, requested);
    } else {
      forall states, senders, end | Reaches(cfg, tests, requested, states, senders, end)
        ensures SequentialLast(cfg, end.dispatched)
      {
        RunInvariant(cfg, tests, requested, states, senders, |senders|);
        if KeysAllowIt(cfg, tests, requested) {
          SequentialTestsComeLast(cfg, tests, requested, states, senders, |senders|);
        } else {
          OneKindOnly(cfg, tests, end);
        }
      }
    }
  }
}
