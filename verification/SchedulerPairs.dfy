/** Which two tests with a common conflict key the scheduler never hands out
    against their order: the exact condition on their key lists. */
module SchedulerPairs {
  import opened Sequences
  import opened OrderedMaps
  import opened Scheduling
  import opened SchedulerSafety
  import opened SchedulerRuns

  // ---------- Two tests ----------

  /** Where `a` and `b` occur in `s`, and in which order. */
  function Pair(a: Test, b: Test, s: seq<Test>): seq<Test> {
    if s == [] then []
    else if s[0] == a || s[0] == b then [s[0]] + Pair(a, b, s[1..])
    else Pair(a, b, s[1..])
  }

  lemma {:induction false} PairConcat(a: Test, b: Test, s: seq<Test>, t: seq<Test>)
    ensures Pair(a, b, s + t) == Pair(a, b, s) + Pair(a, b, t)
  {
    if s == [] {
      assert s + t == t;
    } else {
      assert (s + t)[1..] == s[1..] + t;
      PairConcat(a, b, s[1..], t);
    }
  }

  lemma {:induction false} PairNone(a: Test, b: Test, s: seq<Test>)
    ensures Pair(a, b, s) == [] <==> a !in s && b !in s
  {
    if s != [] {
      PairNone(a, b, s[1..]);
    }
  }

  /** `a` was handed out, and `b` no earlier. */
  ghost predicate Begun(a: Test, b: Test, s: seq<Test>) {
    Pair(a, b, s) != [] && Pair(a, b, s)[0] == a
  }

  /** Both are still to come, `a` first: on the wait list of `k`, then on the stack. */
  ghost predicate InLine(a: Test, b: Test, k: Key, waiting: OrderedMap<Key, seq<Test>>, pending: seq<Test>) {
    && Pair(a, b, Under(waiting, k)) + Pair(a, b, Reverse(pending)) == [a, b]
    && forall j :: j in waiting.at && j != k ==> Pair(a, b, waiting.at[j]) == []
  }

  ghost predicate Ahead(a: Test, b: Test, k: Key, st: State) {
    || Begun(a, b, st.dispatched)
    || (Pair(a, b, st.dispatched) == [] && Pair(a, b, st.sequential) == [] && InLine(a, b, k, st.waiting, st.pending))
  }

  // ---------- The order is kept ----------

  /** All keys of the first test are the first key of the second. */
  ghost predicate KeepsOrder(ka: seq<Key>, kb: seq<Key>) {
    kb != [] && forall x :: x in ka ==> x == kb[0]
  }

  /** A wait list put back on the stack is in front again. */
  lemma BackInLine(a: Test, b: Test, list: seq<Test>, pending: seq<Test>)
    ensures Pair(a, b, Reverse(pending + Reverse(list))) == Pair(a, b, list) + Pair(a, b, Reverse(pending))
  {
    ReverseConcat(pending, Reverse(list));
    ReverseTwice(list);
    PairConcat(a, b, list, Reverse(pending));
  }

  lemma FreeKeyInLine(a: Test, b: Test, k: Key, j: Key, q: Queues)
    requires QueuesOk(q) && InLine(a, b, k, q.waiting, q.pending)
    ensures InLine(a, b, k, FreeKey(j, q).waiting, FreeKey(j, q).pending)
  {
    FreeKeyQueues(j, q);
    BackInLine(a, b, Under(q.waiting, j), q.pending);
    if j == k {
      assert Under(FreeKey(j, q).waiting, k) == [];
    } else {
      assert Under(FreeKey(j, q).waiting, k) == Under(q.waiting, k);
    }
  }

  lemma {:induction false} FreeKeysInLine(a: Test, b: Test, k: Key, keys: seq<Key>, snapshot: map<Key, Worker>,
                                          i: Worker, q: Queues)
    requires QueuesOk(q) && InLine(a, b, k, q.waiting, q.pending)
    ensures var q' := FreeKeys(keys, snapshot, i, q); InLine(a, b, k, q'.waiting, q'.pending)
  {
    if keys != [] {
      if keys[0] in snapshot && snapshot[keys[0]] == i {
        FreeKeyConserves(keys[0], q);
        FreeKeyInLine(a, b, k, keys[0], q);
        FreeKeysInLine(a, b, k, keys[1..], snapshot, i, FreeKey(keys[0], q));
      } else {
        FreeKeysInLine(a, b, k, keys[1..], snapshot, i, q);
      }
    }
  }

  ghost predicate FillingAhead(a: Test, b: Test, k: Key, f: Filling) {
    Begun(a, b, f.files) || (Pair(a, b, f.files) == [] && InLine(a, b, k, f.waiting, f.pending))
  }

  lemma PairOfTop(a: Test, b: Test, pending: seq<Test>)
    requires pending != []
    ensures var top, rest := pending[|pending| - 1], pending[..|pending| - 1];
      Pair(a, b, Reverse(pending)) == Pair(a, b, [top]) + Pair(a, b, Reverse(rest))
  {
    ReverseLast(pending);
    PairConcat(a, b, [pending[|pending| - 1]], Reverse(pending[..|pending| - 1]));
  }

  lemma PairOfOne(a: Test, b: Test, t: Test)
    ensures Pair(a, b, [t]) == if t == a || t == b then [t] else []
  {
    assert [t][1..] == [];
  }

  /** The list of one key grows by one test. */
  lemma OneMoreWaits(a: Test, b: Test, k: Key, waiting: OrderedMap<Key, seq<Test>>, key: Key, top: Test)
    ensures var waiting' := waiting.Put(key, Under(waiting, key) + [top]);
      && Pair(a, b, Under(waiting', k))
         == (if key == k then Pair(a, b, Under(waiting, k)) + Pair(a, b, [top]) else Pair(a, b, Under(waiting, k)))
      && (Pair(a, b, [top]) == [] && (forall j :: j in waiting.at && j != k ==> Pair(a, b, waiting.at[j]) == []) ==>
          forall j :: j in waiting'.at && j != k ==> Pair(a, b, waiting'.at[j]) == [])
  {
    PairConcat(a, b, Under(waiting, key), [top]);
  }

  /** The keys of two tests whose order is kept: only `k`, and `k` first. */
  ghost predicate Ordered(cfg: Config, a: Test, b: Test, k: Key) {
    && a != b && ConflictsOf(cfg, b) != [] && ConflictsOf(cfg, b)[0] == k
    && ConflictsOf(cfg, a) != [] && forall n :: 0 <= n < |ConflictsOf(cfg, a)| ==> ConflictsOf(cfg, a)[n] == k
  }

  /** The head of the stack is `a` with no one waiting, or `b` with `a` waiting. */
  lemma HeadOfLine(a: Test, b: Test, waiting: seq<Test>, top: Test, rest: seq<Test>)
    requires a != b && waiting + ([top] + rest) == [a, b]
    ensures top == a ==> waiting == [] && rest == [b]
    ensures top == b ==> waiting == [a] && rest == []
  {
    var line := waiting + ([top] + rest);
    assert line[|waiting|] == top;
    assert waiting == line[..|waiting|] && rest == line[|waiting| + 1..];
  }

  /** A test of neither name is placed. */
  lemma PlaceOther(cfg: Config, active: map<Key, Worker>, a: Test, b: Test, k: Key, f: Filling)
    requires f.pending != [] && Pair(a, b, f.files) == [] && InLine(a, b, k, f.waiting, f.pending)
    requires f.pending[|f.pending| - 1] != a && f.pending[|f.pending| - 1] != b
    ensures FillingAhead(a, b, k, Place(cfg, active, f))
  {
    var top := f.pending[|f.pending| - 1];
    PairOfTop(a, b, f.pending);
    PairOfOne(a, b, top);
    assert [] + Pair(a, b, Reverse(f.pending[..|f.pending| - 1])) == Pair(a, b, Reverse(f.pending));
    match Blocker(ConflictsOf(cfg, top), active)
    case Some(key) => OneMoreWaits(a, b, k, f.waiting, key, top);
    case None => PairConcat(a, b, f.files, [top]);
  }

  lemma PlaceFirst(cfg: Config, active: map<Key, Worker>, a: Test, b: Test, k: Key, f: Filling)
    requires f.pending != [] && FillingAhead(a, b, k, f) && Ordered(cfg, a, b, k) && Pair(a, b, f.files) == []
    requires f.pending[|f.pending| - 1] == a
    ensures FillingAhead(a, b, k, Place(cfg, active, f))
  {
    PairOfTop(a, b, f.pending);
    PairOfOne(a, b, a);
    HeadOfLine(a, b, Pair(a, b, Under(f.waiting, k)), a, Pair(a, b, Reverse(f.pending[..|f.pending| - 1])));
    OnlyOnFirst(cfg, k, ConflictsOf(cfg, a), active);
    PairConcat(a, b, f.files, [a]);
    PairConcat(a, b, Under(f.waiting, k), [a]);
  }

  lemma PlaceSecond(cfg: Config, active: map<Key, Worker>, a: Test, b: Test, k: Key, f: Filling)
    requires f.pending != [] && FillingAhead(a, b, k, f) && Ordered(cfg, a, b, k) && Pair(a, b, f.files) == []
    requires f.pending[|f.pending| - 1] == b && WaitsOnHeld(cfg, active, f.waiting.at)
    ensures FillingAhead(a, b, k, Place(cfg, active, f))
  {
    PairOfTop(a, b, f.pending);
    PairOfOne(a, b, b);
    HeadOfLine(a, b, Pair(a, b, Under(f.waiting, k)), b, Pair(a, b, Reverse(f.pending[..|f.pending| - 1])));
    assert k in f.waiting.at && Blocker(ConflictsOf(cfg, b), active) == Some(k);
    PairConcat(a, b, Under(f.waiting, k), [b]);
  }

  /** The top test waits or joins the batch: `b` only behind `a`. */
  lemma PlaceAhead(cfg: Config, active: map<Key, Worker>, a: Test, b: Test, k: Key, f: Filling)
    requires f.pending != [] && FillingAhead(a, b, k, f) && WaitsOnHeld(cfg, active, f.waiting.at) &&
      Ordered(cfg, a, b, k)
    ensures FillingAhead(a, b, k, Place(cfg, active, f))
  {
    var top := f.pending[|f.pending| - 1];
    if Begun(a, b, f.files) {
      PairConcat(a, b, f.files, [top]);
    } else if top == a {
      PlaceFirst(cfg, active, a, b, k, f);
    } else if top == b {
      PlaceSecond(cfg, active, a, b, k, f);
    } else {
      PlaceOther(cfg, active, a, b, k, f);
    }
  }

  lemma {:induction false} FillAhead(cfg: Config, active: map<Key, Worker>, batchSize: nat, a: Test, b: Test, k: Key,
                                     f: Filling)
    requires FillingOk(cfg, active, f) && NamesTruthy(f.pending) && FillingAhead(a, b, k, f) && Ordered(cfg, a, b, k)
    ensures FillingAhead(a, b, k, Fill(cfg, active, batchSize, f))
    decreases |f.pending|
  {
    if |f.files| <= batchSize && f.pending != [] {
      PlaceKeeps(cfg, active, f);
      PlaceAhead(cfg, active, a, b, k, f);
      FillAhead(cfg, active, batchSize, a, b, k, Place(cfg, active, f));
    }
  }

  lemma JoinAhead(a: Test, b: Test, k: Key, st: State)
    requires Ahead(a, b, k, st)
    ensures Ahead(a, b, k, JoinSequential(st))
  {
    ReverseConcat(st.pending, st.sequential);
    PairConcat(a, b, Reverse(st.sequential), Reverse(st.pending));
    ReverseMembers(st.sequential);
    PairNone(a, b, st.sequential);
    PairNone(a, b, Reverse(st.sequential));
  }

  lemma ScheduleAhead(cfg: Config, tests: seq<Test>, a: Test, b: Test, k: Key, st: State, i: Worker)
    requires Inv(cfg, tests, st, {i}) && NamesTruthy(tests) && Ahead(a, b, k, st) && Ordered(cfg, a, b, k)
    ensures Ahead(a, b, k, Schedule(cfg, st, i))
  {
    JoinAhead(a, b, k, st);
    JoinKeeps(cfg, tests, st, i);
    var s := JoinSequential(st);
    WaitListsTruthy(tests, s);
    var f := Filling(s.pending, s.waiting, []);
    PairConcat(a, b, s.dispatched, Filled(cfg, s).files);
    if !Begun(a, b, s.dispatched) {
      FillAhead(cfg, s.active.at, BatchSize(cfg, s.live), a, b, k, f);
    }
  }

  lemma StepAhead(cfg: Config, tests: seq<Test>, a: Test, b: Test, k: Key, st: State, i: Worker)
    requires Inv(cfg, tests, st, {}) && NamesTruthy(tests) && Ahead(a, b, k, st) && Ordered(cfg, a, b, k) &&
      Enabled(st, i)
    ensures Ahead(a, b, k, Step(cfg, st, i))
  {
    if i in st.running.at {
      WaitListsTruthy(tests, st);
      FinishKeeps(cfg, tests, st, i);
      if !Begun(a, b, st.dispatched) {
        FreeKeysInLine(a, b, k, st.active.keys, st.active.at, i, ActiveQueues(st));
      }
      ScheduleAhead(cfg, tests, a, b, k, Finish(st, i), i);
    } else {
      ReadyKeeps(cfg, tests, st, i);
      ScheduleAhead(cfg, tests, a, b, k, st.(unready := st.unready - {i}), i);
    }
  }

  // ---------- At the start ----------

  ghost predicate GivenBefore(s: seq<Test>, a: Test, b: Test) {
    exists i, j :: 0 <= i < j < |s| && s[i] == a && s[j] == b
  }

  lemma {:induction false} PairOfSecond(s: seq<Test>, a: Test, b: Test)
    requires Distinct(s) && a !in s && b in s
    ensures Pair(a, b, s) == [b]
  {
    if s[0] == b {
      PairNone(a, b, s[1..]);
    } else {
      PairOfSecond(s[1..], a, b);
    }
  }

  lemma {:induction false} PairOfGiven(s: seq<Test>, a: Test, b: Test, i: nat, j: nat)
    requires Distinct(s) && i < j < |s| && s[i] == a && s[j] == b
    ensures Pair(a, b, s) == [a, b]
  {
    if i == 0 {
      assert b == s[1..][j - 1];
      PairOfSecond(s[1..], a, b);
    } else {
      PairOfGiven(s[1..], a, b, i - 1, j - 1);
    }
  }

  lemma {:induction false} PairOfSelect(cfg: Config, tests: seq<Test>, a: Test, b: Test)
    requires !IsSequential(cfg, a) && !IsSequential(cfg, b)
    ensures Pair(a, b, Select(cfg, tests, false)) == Pair(a, b, tests)
    ensures Pair(a, b, Select(cfg, tests, true)) == []
  {
    if tests != [] {
      var front, last := tests[..|tests| - 1], tests[|tests| - 1];
      assert tests == front + [last];
      PairOfSelect(cfg, front, a, b);
      PairConcat(a, b, front, [last]);
      PairConcat(a, b, Select(cfg, front, false), [last]);
      PairConcat(a, b, Select(cfg, front, true), [last]);
      PairOfOne(a, b, last);
    }
  }

  lemma StartInLine(cfg: Config, tests: seq<Test>, requested: nat, a: Test, b: Test, k: Key)
    requires var parallel := Select(cfg, tests, false);
      Reverse(Reverse(parallel)) == parallel && Pair(a, b, parallel) == [a, b]
    ensures var start := Initial(cfg, tests, requested); InLine(a, b, k, start.waiting, start.pending)
  {
    assert Under(Empty<Key, seq<Test>>(), k) == [];
  }

  lemma InitialAhead(cfg: Config, tests: seq<Test>, requested: nat, a: Test, b: Test, k: Key)
    requires Distinct(tests) && GivenBefore(tests, a, b) && !IsSequential(cfg, a) && !IsSequential(cfg, b)
    ensures Ahead(a, b, k, Initial(cfg, tests, requested))
  {
    var i, j :| 0 <= i < j < |tests| && tests[i] == a && tests[j] == b;
    PairOfGiven(tests, a, b, i, j);
    PairOfSelect(cfg, tests, a, b);
    ReverseTwice(Select(cfg, tests, false));
    StartInLine(cfg, tests, requested, a, b, k);
  }

  lemma {:induction false} RunAhead(cfg: Config, tests: seq<Test>, requested: nat, states: seq<State>,
                                    senders: seq<Worker>, n: nat, a: Test, b: Test, k: Key)
    requires NamesTruthy(tests) && Distinct(tests) && GivenBefore(tests, a, b) && Ordered(cfg, a, b, k) && k != ALL
    requires !IsSequential(cfg, b)
    requires IsRun(cfg, tests, requested, states, senders) && n <= |senders|
    ensures Ahead(a, b, k, states[n])
  {
    if n == 0 {
      InitialAhead(cfg, tests, requested, a, b, k);
    } else {
      RunAhead(cfg, tests, requested, states, senders, n - 1, a, b, k);
      RunInvariant(cfg, tests, requested, states, senders, n - 1);
      StepAhead(cfg, tests, a, b, k, states[n - 1], senders[n - 1]);
    }
  }

  /** `b` is handed out, and `a` not before it. */
  ghost predicate Overtaken(d: seq<Test>, a: Test, b: Test) {
    exists q :: 0 <= q < |d| && d[q] == b && a !in d[..q]
  }

  lemma AheadMeansNotOvertaken(a: Test, b: Test, k: Key, st: State)
    requires a != b && Ahead(a, b, k, st)
    ensures !Overtaken(st.dispatched, a, b)
  {
    var d := st.dispatched;
    forall q | 0 <= q < |d| && d[q] == b ensures a in d[..q] {
      assert d == d[..q] + ([b] + d[q + 1..]);
      PairConcat(a, b, d[..q], [b] + d[q + 1..]);
      PairConcat(a, b, [b], d[q + 1..]);
      PairOfOne(a, b, b);
      PairNone(a, b, d[..q]);
      FirstOfPair(a, b, d[..q]);
    }
  }

  lemma {:induction false} FirstOfPair(a: Test, b: Test, s: seq<Test>)
    ensures Pair(a, b, s) != [] ==> Pair(a, b, s)[0] in s
  {
    if s != [] {
      FirstOfPair(a, b, s[1..]);
    }
  }
}
