/** The guarantees of the parallel test scheduler, over every run and for the
    whole program. */
module SchedulerRuns {
  import opened Sequences
  import opened OrderedMaps
  import opened Scheduling
  import opened SchedulerSafety

  // ---------- The start ----------

  lemma {:induction false} SelectSplits(cfg: Config, tests: seq<Test>)
    ensures multiset(Select(cfg, tests, false)) + multiset(Select(cfg, tests, true)) == multiset(tests)
    ensures forall t :: t in Select(cfg, tests, true) ==> IsSequential(cfg, t)
    ensures forall t :: t in Select(cfg, tests, false) ==> !IsSequential(cfg, t)
  {
    if tests != [] {
      var front, last := tests[..|tests| - 1], tests[|tests| - 1];
      assert tests == front + [last];
      SelectSplits(cfg, front);
    }
  }

  lemma {:induction false} SelectKeepsOrder(cfg: Config, k: Key, tests: seq<Test>)
    requires k != ALL
    ensures Only(cfg, k, Select(cfg, tests, false)) == Only(cfg, k, tests)
  {
    if tests != [] {
      var front, last := tests[..|tests| - 1], tests[|tests| - 1];
      assert tests == front + [last];
      SelectKeepsOrder(cfg, k, front);
      OnlyConcat(cfg, k, front, [last]);
      OnlyConcat(cfg, k, Select(cfg, front, false), [last]);
      if IsSequential(cfg, last) {
        assert !OnlyOn(cfg, k, last);
        assert Only(cfg, k, [last]) == [];
      }
    }
  }

  lemma InitialHolds(cfg: Config, tests: seq<Test>, requested: nat)
    ensures Inv(cfg, tests, Initial(cfg, tests, requested), {})
  {
    InitialOrder(cfg, tests, requested);
    InitialConserved(cfg, tests, requested);
    InitialHeldBack(cfg, tests, requested);
    WorkerIdsFrom1(WorkerCount(requested, |Select(cfg, tests, false)|));
    assert 1 in Initial(cfg, tests, requested).live;
  }

  lemma InitialHeldBack(cfg: Config, tests: seq<Test>, requested: nat)
    ensures WellFormed(Initial(cfg, tests, requested)) && AllHeldBack(cfg, Initial(cfg, tests, requested))
  {
    var st := Initial(cfg, tests, requested);
    SelectSplits(cfg, tests);
    ReversePermutes(Select(cfg, tests, false));
    InitialConserved(cfg, tests, requested);
    forall t | t in multiset(st.pending) ensures !IsSequential(cfg, t) {
      assert t in multiset(Select(cfg, tests, false));
    }
  }

  lemma InitialConserved(cfg: Config, tests: seq<Test>, requested: nat)
    ensures WellFormed(Initial(cfg, tests, requested)) && Conserved(tests, Initial(cfg, tests, requested))
    ensures Elements(Initial(cfg, tests, requested).waiting) == multiset{}
    ensures Elements(Initial(cfg, tests, requested).running) == multiset{}
  {
    SelectSplits(cfg, tests);
    ReversePermutes(Select(cfg, tests, false));
  }

  lemma InitialOrder(cfg: Config, tests: seq<Test>, requested: nat)
    ensures InOrder(cfg, tests, Initial(cfg, tests, requested))
  {
    ReverseTwice(Select(cfg, tests, false));
    forall k | k != ALL ensures OrderKept(cfg, tests, k, Initial(cfg, tests, requested)) {
      SelectKeepsOrder(cfg, k, tests);
    }
  }

  // ---------- What the invariant means ----------

  /** Two workers never hold tests that share a conflict key. */
  ghost predicate NoSharedKeys(cfg: Config, running: map<Worker, seq<Test>>) {
    forall v, w, k :: v in running && w in running && Uses(cfg, running[v], k) && Uses(cfg, running[w], k) ==> v == w
  }

  /** A worker that runs a test conflicting with "all" is the only live one. */
  ghost predicate AllRunsAlone(cfg: Config, st: State) {
    forall w, t :: w in st.running.at && t in st.running.at[w] && IsSequential(cfg, t) ==> st.live == {w}
  }

  lemma KeysAreExclusive(cfg: Config, active: map<Key, Worker>, running: map<Worker, seq<Test>>)
    requires KeysHeld(cfg, active, running)
    ensures NoSharedKeys(cfg, running)
  {
    forall v, w, k | v in running && w in running && Uses(cfg, running[v], k) && Uses(cfg, running[w], k)
      ensures v == w
    {
      assert active[k] == v;
      assert active[k] == w;
    }
  }

  lemma SequentialRunsAlone(cfg: Config, st: State)
    requires WellFormed(st) && WorkersAccounted(st, {}) && AllHeldBack(cfg, st)
    ensures AllRunsAlone(cfg, st)
  {
    forall w, t | w in st.running.at && t in st.running.at[w] && IsSequential(cfg, t) ensures st.live == {w} {
      ElementsAreMembers(st.running, t);
      assert w in st.live && |st.live| <= 1;
      OnlyElement(st.live, w);
    }
  }

  lemma MutualExclusion(cfg: Config, tests: seq<Test>, st: State)
    requires Inv(cfg, tests, st, {})
    ensures NoSharedKeys(cfg, st.running.at)
    ensures AllRunsAlone(cfg, st)
  {
    KeysAreExclusive(cfg, st.active.at, st.running.at);
    SequentialRunsAlone(cfg, st);
  }

  /** `$activeConflicts` is exactly the union of the keys of the batches in
      flight. */
  lemma ActiveIsUnion(cfg: Config, tests: seq<Test>, st: State, k: Key)
    requires Inv(cfg, tests, st, {})
    ensures k in st.active.at <==> exists w :: w in st.running.at && Uses(cfg, st.running.at[w], k)
  {
    if k in st.active.at {
      assert Uses(cfg, st.running.at[st.active.at[k]], k);
    }
    if w :| w in st.running.at && Uses(cfg, st.running.at[w], k) {
      assert k in st.active.at;
    }
  }

  lemma OnlyElement<T>(s: set<T>, x: T)
    requires x in s && |s| <= 1
    ensures s == {x}
  {
    assert |s - {x}| == 0;
  }

  /** While the loop runs some live worker is busy or has yet to report. */
  lemma NeverStuck(cfg: Config, tests: seq<Test>, st: State)
    requires Inv(cfg, tests, st, {}) && Guard(st)
    ensures exists i :: i in st.live && Enabled(st, i)
  {
    assert |st.running.at| == |st.running.at.Keys|;
    assert st.live != {};
    var i :| i in st.live;
    assert Enabled(st, i);
  }

  /** When the loop ends every test was handed out, ran and finished, as often
      as it was given. */
  lemma NothingStranded(cfg: Config, tests: seq<Test>, st: State)
    requires Inv(cfg, tests, st, {}) && !Guard(st)
    ensures multiset(st.finished) == multiset(tests) && multiset(st.dispatched) == multiset(tests)
    ensures forall k :: k != ALL ==> Only(cfg, k, st.dispatched) == Only(cfg, k, tests)
  {
    assert |st.running.at| == 0 && st.running.at == map[];
    assert st.active.at == map[] && st.waiting.at == map[];
    EmptyTotal(st.waiting);
    EmptyTotal(st.running);
    forall k | k != ALL ensures Only(cfg, k, st.dispatched) == Only(cfg, k, tests) {
      assert OrderKept(cfg, tests, k, st);
      assert StillToCome(cfg, k, st.waiting, st.pending) == [];
    }
  }

  lemma EmptyTotal<K, T>(m: OrderedMap<K, seq<T>>)
    requires m.Ok() && m.at == map[]
    ensures Elements(m) == multiset{}
  {
    assert forall k :: k in m.keys ==> k in m.at;
  }

  // ---------- What one message does ----------

  /** A message either hands a batch of 1 to batchSize + 1 tests to its worker,
      or ends that worker, and then no test is pending. */
  ghost predicate StepEffect(cfg: Config, st: State, st': State, i: Worker) {
    || (&& i in st'.running.at && st'.running.at[i] != []
        && |st'.running.at[i]| <= BatchSize(cfg, st.live) + 1
        && st'.dispatched == st.dispatched + st'.running.at[i] && st'.live == st.live)
    || (&& st'.live == st.live - {i} && st'.dispatched == st.dispatched
        && st'.pending == [] && i !in st'.running.at)
  }

  lemma ScheduleEffect(cfg: Config, tests: seq<Test>, st: State, i: Worker)
    requires Inv(cfg, tests, st, {i}) && NamesTruthy(tests)
    ensures StepEffect(cfg, st, Schedule(cfg, st, i), i)
  {
    JoinKeeps(cfg, tests, st, i);
    FilledFacts(cfg, tests, JoinSequential(st), i);
  }

  lemma StepHandsOutOrEnds(cfg: Config, tests: seq<Test>, st: State, i: Worker)
    requires Inv(cfg, tests, st, {}) && NamesTruthy(tests) && Enabled(st, i)
    ensures StepEffect(cfg, st, Step(cfg, st, i), i)
  {
    if i in st.running.at {
      FinishKeeps(cfg, tests, st, i);
      ScheduleEffect(cfg, tests, Finish(st, i), i);
    } else {
      ReadyKeeps(cfg, tests, st, i);
      ScheduleEffect(cfg, tests, st.(unready := st.unready - {i}), i);
    }
  }

  /** Tests not handed out plus live workers. */
  ghost function Work(tests: seq<Test>, st: State): int {
    |tests| - |st.dispatched| + |st.live|
  }

  lemma DispatchedFits(tests: seq<Test>, st: State)
    requires WellFormed(st) && Conserved(tests, st)
    ensures |st.dispatched| <= |tests|
  {
    assert |multiset(st.dispatched)| <= |multiset(tests)|;
  }

  /** Every message uses up some work. */
  lemma StepProgresses(cfg: Config, tests: seq<Test>, st: State, i: Worker)
    requires Inv(cfg, tests, st, {}) && NamesTruthy(tests) && Enabled(st, i)
    ensures 0 <= Work(tests, Step(cfg, st, i)) < Work(tests, st)
  {
    StepHandsOutOrEnds(cfg, tests, st, i);
    StepKeeps(cfg, tests, st, i);
    DispatchedFits(tests, Step(cfg, st, i));
  }

  // ---------- Runs ----------

  /** The states of a run, and the workers whose messages take it from each to
      the next. */
  ghost predicate IsRun(cfg: Config, tests: seq<Test>, requested: nat, states: seq<State>, senders: seq<Worker>) {
    && |states| == |senders| + 1
    && states[0] == Initial(cfg, tests, requested)
    && forall n :: 0 <= n < |senders| ==>
         Enabled(states[n], senders[n]) && states[n + 1] == Step(cfg, states[n], senders[n])
  }

  lemma {:induction false} RunInvariant(cfg: Config, tests: seq<Test>, requested: nat, states: seq<State>,
                                        senders: seq<Worker>, n: nat)
    requires NamesTruthy(tests) && IsRun(cfg, tests, requested, states, senders) && n <= |senders|
    ensures Inv(cfg, tests, states[n], {})
    ensures n + Work(tests, states[n]) <= Work(tests, states[0])
  {
    if n == 0 {
      InitialHolds(cfg, tests, requested);
    } else {
      RunInvariant(cfg, tests, requested, states, senders, n - 1);
      StepKeeps(cfg, tests, states[n - 1], senders[n - 1]);
      StepProgresses(cfg, tests, states[n - 1], senders[n - 1]);
    }
  }

  /** Safety over every run, in whatever order the workers report: conflict keys
      are exclusive, tests conflicting with "all" run alone, tests on one key
      keep their order, and the run is never longer than the tests plus the
      workers. */
  lemma RunIsSafe(cfg: Config, tests: seq<Test>, requested: nat, states: seq<State>, senders: seq<Worker>, n: nat)
    requires NamesTruthy(tests) && IsRun(cfg, tests, requested, states, senders) && n <= |senders|
    ensures NoSharedKeys(cfg, states[n].running.at) && AllRunsAlone(cfg, states[n])
    ensures forall k :: k != ALL ==> Only(cfg, k, states[n].dispatched) <= Only(cfg, k, tests)
    ensures Guard(states[n]) ==> exists i :: i in states[n].live && Enabled(states[n], i)
    ensures !Guard(states[n]) ==> multiset(states[n].finished) == multiset(tests)
    ensures n <= |tests| + 1 || (n <= |tests| + requested && n <= 2 * |tests|)
  {
    RunInvariant(cfg, tests, requested, states, senders, n);
    MutualExclusion(cfg, tests, states[n]);
    forall k | k != ALL ensures Only(cfg, k, states[n].dispatched) <= Only(cfg, k, tests) {
      assert OrderKept(cfg, tests, k, states[n]);
    }
    if Guard(states[n]) {
      NeverStuck(cfg, tests, states[n]);
    } else {
      NothingStranded(cfg, tests, states[n]);
    }
    DispatchedFits(tests, states[n]);
    StaffIsEnough(requested, |Select(cfg, tests, false)|);
    SelectSplits(cfg, tests);
    assert |multiset(Select(cfg, tests, false))| <= |multiset(tests)|;
  }

  /** A run, while the loop guard holds, to the state `end`. */
  ghost predicate Reaches(cfg: Config, tests: seq<Test>, n: nat, states: seq<State>, senders: seq<Worker>, end: State) {
    && IsRun(cfg, tests, n, states, senders) && states[|senders|] == end
    && forall m :: 0 <= m < |senders| ==> Guard(states[m])
  }

  lemma RunStarts(cfg: Config, tests: seq<Test>, n: nat, start: State)
    requires start == Initial(cfg, tests, n)
    ensures Reaches(cfg, tests, n, [start], [], start)
  {}

  lemma RunGoesOn(cfg: Config, tests: seq<Test>, n: nat, states: seq<State>, senders: seq<Worker>, end: State,
                  w: Worker, next: State)
    requires Reaches(cfg, tests, n, states, senders, end) && Enabled(end, w) && Guard(end) && next == Step(cfg, end, w)
    ensures Reaches(cfg, tests, n, states + [next], senders + [w], next)
  {
    var states', senders' := states + [next], senders + [w];
    forall m | 0 <= m < |senders'|
      ensures Enabled(states'[m], senders'[m]) && states'[m + 1] == Step(cfg, states'[m], senders'[m]) &&
        Guard(states'[m])
    {
      if m < |senders| {
        assert states'[m] == states[m] && states'[m + 1] == states[m + 1] && senders'[m] == senders[m];
      } else {
        assert states'[m] == end && states'[m + 1] == next && senders'[m] == w;
      }
    }
  }

  // ---------- The program ----------

  /** The whole loop; the next message may come from any worker that has one. */
  method RunAllTestsParallel(tests: seq<Test>, conflicts: map<Test, seq<Key>>, requested: nat, valgrind: bool)
    returns (s: Scheduler)
    requires NamesTruthy(tests)
    ensures multiset(s.finished) == multiset(tests) && multiset(s.dispatched) == multiset(tests)
    ensures forall k :: k != ALL ==> Only(s.cfg, k, s.dispatched) == Only(s.cfg, k, tests)
    ensures s.cfg.conflicts == conflicts
  {
    s := new Scheduler(tests, conflicts, requested, valgrind);
    InitialHolds(s.cfg, tests, requested);
    DispatchedFits(tests, s.View());
    while s.testFiles != [] || s.sequentialTests != [] || s.testsInProgress > 0
      invariant Inv(s.cfg, tests, s.View(), {}) && Work(tests, s.View()) >= 0 && fresh(s)
      decreases Work(tests, s.View())
    {
      ghost var st := s.View();
      NeverStuck(s.cfg, tests, st);
      var i :| i in s.unready + s.running.at.Keys;
      StepKeeps(s.cfg, tests, st, i);
      StepProgresses(s.cfg, tests, st, i);
      s.HandleMessage(i, i in s.running.at);
    }
    NothingStranded(s.cfg, tests, s.View());
  }
}
