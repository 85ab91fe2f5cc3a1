/** Runs of the scheduler in which a test is handed out before one it shares a key
    with and that was given before it, for every pair of key lists that allows one. */
module SchedulerOvertaking {
  import opened Sequences
  import opened OrderedMaps
  import opened Scheduling
  import opened SchedulerSafety
  import opened SchedulerRuns
  import opened SchedulerPairs

  // ---------- One test at a time ----------

  lemma FillBlocked(cfg: Config, active: map<Key, Worker>, size: nat, f: Filling, rest: seq<Test>, t: Test, k: Key)
    requires f.pending == rest + [t] && |f.files| <= size && Truthy(t) &&
      Blocker(ConflictsOf(cfg, t), active) == Some(k)
    ensures Fill(cfg, active, size, f)
         == Fill(cfg, active, size, Filling(rest, f.waiting.Put(k, Under(f.waiting, k) + [t]), f.files))
  {
    assert f.pending[..|f.pending| - 1] == rest;
  }

  lemma FillJoins(cfg: Config, active: map<Key, Worker>, size: nat, f: Filling, rest: seq<Test>, t: Test)
    requires f.pending == rest + [t] && |f.files| <= size && Truthy(t) && Blocker(ConflictsOf(cfg, t), active) == None
    ensures Fill(cfg, active, size, f) == Fill(cfg, active, size, Filling(rest, f.waiting, f.files + [t]))
  {
    assert f.pending[..|f.pending| - 1] == rest;
  }

  /** Two free tests make a batch of size 1, and one of any size if they are the last. */
  lemma FillTwo(cfg: Config, active: map<Key, Worker>, size: nat, waiting: OrderedMap<Key, seq<Test>>, rest: seq<Test>,
                s: Test, t: Test)
    requires Truthy(s) && Truthy(t) && (size == 1 || (size > 1 && rest == []))
    requires Blocker(ConflictsOf(cfg, s), active) == None && Blocker(ConflictsOf(cfg, t), active) == None
    ensures Fill(cfg, active, size, Filling(rest + [t, s], waiting, [])) == Filling(rest, waiting, [s, t])
  {
    assert rest + [t, s] == (rest + [t]) + [s];
    FillJoins(cfg, active, size, Filling(rest + [t, s], waiting, []), rest + [t], s);
    FillJoins(cfg, active, size, Filling(rest + [t], waiting, [] + [s]), rest, t);
    assert [] + [s] + [t] == [s, t];
  }

  /** The worker is handed `files`. */
  ghost function Given(cfg: Config, st: State, i: Worker, f: Filling): State {
    st.(pending := f.pending, waiting := f.waiting,
        active := HoldAll(cfg, f.files, i, st.active),
        inProgress := st.inProgress + 1,
        running := st.running.Put(i, f.files),
        dispatched := st.dispatched + f.files)
  }

  lemma ScheduleGives(cfg: Config, st: State, i: Worker, f: Filling)
    requires st.sequential == []
    requires f == Fill(cfg, st.active.at, BatchSize(cfg, st.live), Filling(st.pending, st.waiting, []))
    ensures Schedule(cfg, st, i)
         == if f.files != [] then Given(cfg, st, i, f)
            else st.(pending := f.pending, waiting := f.waiting, live := st.live - {i})
  {}

  lemma {:induction false} BlockerIs(keys: seq<Key>, active: map<Key, Worker>, k: Key)
    requires k in keys && active.Keys == {k}
    ensures Blocker(keys, active) == Some(k)
  {
    if keys[0] != k {
      BlockerIs(keys[1..], active, k);
    }
  }

  lemma {:induction false} NoneHeld(keys: seq<Key>, active: map<Key, Worker>)
    requires forall k :: k in keys ==> k !in active
    ensures Blocker(keys, active) == None
  {
    if keys != [] {
      NoneHeld(keys[1..], active);
    }
  }

  // ---------- The start ----------

  lemma {:induction false} NoneSequential(cfg: Config, tests: seq<Test>)
    requires forall t :: t in tests ==> !IsSequential(cfg, t)
    ensures Select(cfg, tests, false) == tests && Select(cfg, tests, true) == []
  {
    if tests != [] {
      NoneSequential(cfg, tests[..|tests| - 1]);
    }
  }

  /** The tests are given as they are, to as many workers: while all of these are there
      the batch size is 1, whatever the limit. */
  ghost predicate Plain(cfg: Config, tests: seq<Test>, n: nat) {
    && cfg.total == |tests| == n && (n == 4 || n == 6) && cfg.maxBatch >= 1
    && NamesTruthy(tests) && Distinct(tests) && forall t :: t in tests ==> !IsSequential(cfg, t)
  }

  lemma Starts(cfg: Config, tests: seq<Test>, n: nat)
    requires Plain(cfg, tests, n)
    ensures Initial(cfg, tests, n)
         == State(Reverse(tests), [], Empty(), Empty(), WorkerIds(n), 0, WorkerIds(n), Empty(), [], [])
  {
    NoneSequential(cfg, tests);
  }

  lemma SizeOne(cfg: Config, n: nat)
    requires cfg.maxBatch >= 1 && cfg.total == n && (n == 4 || n == 6)
    ensures BatchSize(cfg, WorkerIds(n)) == 1
  {
    WorkerIdsFrom1(n);
  }

  /** A worker reports for the first time. */
  lemma Reports(cfg: Config, tests: seq<Test>, n: nat, states: seq<State>, senders: seq<Worker>, end: State, w: Worker,
                next: State)
    requires Reaches(cfg, tests, n, states, senders, end) && Guard(end) && w in end.unready && w !in end.running.at
    requires next == Schedule(cfg, end.(unready := end.unready - {w}), w)
    ensures Reaches(cfg, tests, n, states + [next], senders + [w], next)
  {
    RunGoesOn(cfg, tests, n, states, senders, end, w, next);
  }

  /** A worker ends its batch. */
  lemma Ends(cfg: Config, tests: seq<Test>, n: nat, states: seq<State>, senders: seq<Worker>, end: State, w: Worker,
             next: State)
    requires Reaches(cfg, tests, n, states, senders, end) && Guard(end) && w in end.running.at
    requires next == Schedule(cfg, Finish(end, w), w)
    ensures Reaches(cfg, tests, n, states + [next], senders + [w], next)
  {
    RunGoesOn(cfg, tests, n, states, senders, end, w, next);
  }

  /** The state after worker 1 has taken the first two tests, of which only the
      second has keys. */
  ghost function AfterFirst(cfg: Config, tests: seq<Test>, n: nat): State
    requires |tests| >= 2
  {
    State(Reverse(tests[2..]), [], HoldKeys(ConflictsOf(cfg, tests[1]), 1, Empty()), Empty(), WorkerIds(n), 1,
          WorkerIds(n) - {1}, Empty().Put(1, [tests[0], tests[1]]), [], [tests[0], tests[1]])
  }

  lemma FirstFill(cfg: Config, tests: seq<Test>)
    requires |tests| >= 2 && NamesTruthy(tests) && ConflictsOf(cfg, tests[0]) == []
    ensures Fill(cfg, map[], 1, Filling(Reverse(tests), Empty(), []))
         == Filling(Reverse(tests[2..]), Empty(), [tests[0], tests[1]])
  {
    var s, t := tests[0], tests[1];
    assert tests == [s, t] + tests[2..];
    ReverseConcat([s, t], tests[2..]);
    assert Reverse([s, t]) == [t, s];
    NoneHeld(ConflictsOf(cfg, t), map[]);
    FillTwo(cfg, map[], 1, Empty(), Reverse(tests[2..]), s, t);
  }

  lemma FirstSchedule(cfg: Config, tests: seq<Test>, n: nat)
    requires |tests| >= 2 && NamesTruthy(tests) && ConflictsOf(cfg, tests[0]) == []
    requires BatchSize(cfg, WorkerIds(n)) == 1
    ensures var rest := WorkerIds(n) - {1};
      var ready := State(Reverse(tests), [], Empty(), Empty(), WorkerIds(n), 0, rest, Empty(), [], []);
      Schedule(cfg, ready, 1) == AfterFirst(cfg, tests, n)
  {
    var ready := State(Reverse(tests), [], Empty(), Empty(), WorkerIds(n), 0, WorkerIds(n) - {1}, Empty(), [], []);
    FirstFill(cfg, tests);
    ScheduleGives(cfg, ready, 1, Filling(Reverse(tests[2..]), Empty(), [tests[0], tests[1]]));
    HoldTwo(cfg, tests[0], tests[1], 1);
    assert [] + [tests[0], tests[1]] == [tests[0], tests[1]];
  }

  lemma FirstBatch(cfg: Config, tests: seq<Test>, n: nat) returns (states: seq<State>)
    requires Plain(cfg, tests, n) && |tests| >= 2 && ConflictsOf(cfg, tests[0]) == []
    ensures Reaches(cfg, tests, n, states, [1], AfterFirst(cfg, tests, n))
  {
    var start, one := Initial(cfg, tests, n), AfterFirst(cfg, tests, n);
    Starts(cfg, tests, n);
    WorkerIdsFrom1(n);
    SizeOne(cfg, n);
    FirstSchedule(cfg, tests, n);
    RunStarts(cfg, tests, n, start);
    Reports(cfg, tests, n, [start], [], start, 1, one);
    states := [start] + [one];
    assert [] + [1] == [1];
  }

  lemma HoldTwo(cfg: Config, s: Test, t: Test, i: Worker)
    requires ConflictsOf(cfg, s) == []
    ensures HoldAll(cfg, [s, t], i, Empty()) == HoldKeys(ConflictsOf(cfg, t), i, Empty())
  {
    assert [s, t][1..] == [t] && [t][1..] == [];
    assert HoldAll(cfg, [t], i, Empty()) == HoldKeys(ConflictsOf(cfg, t), i, Empty());
  }

  // ---------- A key that only the first test has ----------

  /** Worker 1 holds `x`; worker 2 finds `a` held up and takes `b`. */
  lemma ApartStep(cfg: Config, one: State, a: Test, b: Test, x: Key)
    requires one.pending == [b, a] && one.sequential == [] && one.active.at.Keys == {x}
    requires Truthy(a) && Truthy(b) && x in ConflictsOf(cfg, a) && x !in ConflictsOf(cfg, b)
    ensures Schedule(cfg, one, 2).dispatched == one.dispatched + [b]
  {
    BlockerIs(ConflictsOf(cfg, a), one.active.at, x);
    NoneHeld(ConflictsOf(cfg, b), one.active.at);
    var f, size := Filling([b, a], one.waiting, []), BatchSize(cfg, one.live);
    assert [b, a] == [b] + [a] && [b] == [] + [b];
    FillBlocked(cfg, one.active.at, size, f, [b], a, x);
    var f' := Filling([b], one.waiting.Put(x, Under(one.waiting, x) + [a]), []);
    FillJoins(cfg, one.active.at, size, f', [], b);
    ScheduleGives(cfg, one, 2, Filling([], f'.waiting, [b]));
  }

  lemma HandedLate(d: seq<Test>, a: Test, b: Test)
    requires a !in d && a != b
    ensures Overtaken(d + [b], a, b) && Overtaken(d + [b, a], a, b)
  {
    assert (d + [b])[|d|] == b && (d + [b])[..|d|] == d;
    assert (d + [b, a])[|d|] == b && (d + [b, a])[..|d|] == d;
  }

  /** After the first batch worker 2 is ready, and the two other tests are pending. */
  lemma SecondIsReady(cfg: Config, tests: seq<Test>, n: nat)
    requires Plain(cfg, tests, n)
    ensures var one := AfterFirst(cfg, tests, n);
      && Guard(one) && 2 in one.unready && 2 !in one.running.at && one.sequential == [] && one.waiting == Empty()
      && one.pending == Reverse(tests[2..]) && one.dispatched == [tests[0], tests[1]] && one.inProgress == 1
      && one.active == HoldKeys(ConflictsOf(cfg, tests[1]), 1, Empty()) && one.live == WorkerIds(n) &&
         BatchSize(cfg, one.live) == 1
      && one.running.at.Keys == {1} && one.unready == WorkerIds(n) - {1}
  {
    WorkerIdsFrom1(n);
    SizeOne(cfg, n);
  }

  lemma Apart(cfg: Config, tests: seq<Test>, x: Key) returns (states: seq<State>, end: State)
    requires Plain(cfg, tests, 4)
    requires ConflictsOf(cfg, tests[0]) == [] && ConflictsOf(cfg, tests[1]) == [x]
    requires x in ConflictsOf(cfg, tests[2]) && x !in ConflictsOf(cfg, tests[3])
    ensures Reaches(cfg, tests, 4, states, [1, 2], end) && Overtaken(end.dispatched, tests[2], tests[3])
  {
    var before := FirstBatch(cfg, tests, 4);
    var one := AfterFirst(cfg, tests, 4);
    SecondIsReady(cfg, tests, 4);
    ReverseTwo(tests);
    HoldKeysHolds([x], 1, Empty());
    states, end := ApartSecond(cfg, tests, before, one, x);
    HandedLate([tests[0], tests[1]], tests[2], tests[3]);
  }

  lemma ReverseTwo(tests: seq<Test>)
    requires |tests| == 4
    ensures Reverse(tests[2..]) == [tests[3], tests[2]]
  {}

  lemma ApartSecond(cfg: Config, tests: seq<Test>, before: seq<State>, one: State, x: Key)
    returns (states: seq<State>, end: State)
    requires Plain(cfg, tests, 4) && Reaches(cfg, tests, 4, before, [1], one)
    requires 2 in one.unready && 2 !in one.running.at && one.pending == [tests[3], tests[2]] && one.sequential == []
    requires one.active.at.Keys == {x} && x in ConflictsOf(cfg, tests[2]) && x !in ConflictsOf(cfg, tests[3])
    ensures Reaches(cfg, tests, 4, states, [1, 2], end) && end.dispatched == one.dispatched + [tests[3]]
  {
    var ready := one.(unready := one.unready - {2});
    ApartStep(cfg, ready, tests[2], tests[3], x);
    end := Schedule(cfg, ready, 2);
    Reports(cfg, tests, 4, before, [1], one, 2, end);
    states := before + [end];
    assert [1] + [2] == [1, 2];
  }

  // ---------- Two keys that one worker frees in turn ----------

  lemma PopOne(t: Test)
    requires Truthy(t)
    ensures PopAll([t]) == [t]
  {
    assert [t][..0] == [];
  }

  lemma PutFirst<V>(k: Key, v: V)
    ensures Empty<Key, V>().Put(k, v) == OrderedMap([k], map[k := v])
  {
    assert [] + [k] == [k] && map[][k := v] == map[k := v];
  }

  lemma PutSecond<V>(k: Key, v: V, k': Key, v': V)
    requires k != k'
    ensures OrderedMap([k], map[k := v]).Put(k', v') == OrderedMap([k, k'], map[k := v, k' := v'])
  {
    assert [k] + [k'] == [k, k'] && map[k := v][k' := v'] == map[k := v, k' := v'];
  }

  lemma HoldBoth(c: Key, d: Key, i: Worker)
    requires c != d
    ensures HoldKeys([c, d], i, Empty()) == OrderedMap([c, d], map[c := i, d := i])
  {
    assert [c, d][1..] == [d] && [d][1..] == [];
    PutFirst(c, i);
    PutSecond(c, i, d, i);
    assert HoldKeys([d], i, OrderedMap([c], map[c := i])) == OrderedMap([c, d], map[c := i, d := i]);
  }

  lemma TogetherFill(cfg: Config, active: map<Key, Worker>, size: nat, a: Test, b: Test, c: Key, d: Key)
    requires c != d && Truthy(a) && Truthy(b)
    requires Blocker(ConflictsOf(cfg, a), active) == Some(c) && Blocker(ConflictsOf(cfg, b), active) == Some(d)
    ensures Fill(cfg, active, size, Filling([b, a], Empty(), []))
         == Filling([], OrderedMap([c, d], map[c := [a], d := [b]]), [])
  {
    var first := OrderedMap([c], map[c := [a]]);
    assert [b, a] == [b] + [a] && [b] == [] + [b];
    assert [] + [a] == [a] && [] + [b] == [b];
    FillBlocked(cfg, active, size, Filling([b, a], Empty(), []), [b], a, c);
    PutFirst(c, [a]);
    FillBlocked(cfg, active, size, Filling([b], first, []), [], b, d);
    PutSecond(c, [a], d, [b]);
  }

  /** Worker 1 holds `c` and `d`; worker 2 finds `a` held up by `c`, `b` by `d`, and ends. */
  lemma TogetherWaits(cfg: Config, one: State, a: Test, b: Test, c: Key, d: Key)
    requires one.pending == [b, a] && one.sequential == [] && one.waiting == Empty() && c != d
    requires Truthy(a) && Truthy(b)
    requires Blocker(ConflictsOf(cfg, a), one.active.at) == Some(c) &&
      Blocker(ConflictsOf(cfg, b), one.active.at) == Some(d)
    ensures Schedule(cfg, one, 2)
         == one.(pending := [], waiting := OrderedMap([c, d], map[c := [a], d := [b]]), live := one.live - {2})
  {
    TogetherFill(cfg, one.active.at, BatchSize(cfg, one.live), a, b, c, d);
    ScheduleGives(cfg, one, 2, Filling([], OrderedMap([c, d], map[c := [a], d := [b]]), []));
  }

  lemma RemoveFirst<V>(k: Key, v: V, k': Key, v': V)
    requires k != k'
    ensures OrderedMap([k, k'], map[k := v, k' := v']).Remove(k) == OrderedMap([k'], map[k' := v'])
  {
    assert [k, k'][..1] == [k] && [k][..0] == [];
    assert Without([k], k) == [];
    assert map[k := v, k' := v'] - {k} == map[k' := v'];
  }

  lemma FreeFirst(q: Queues, a: Test, b: Test, c: Key, d: Key, i: Worker)
    requires q.pending == [] && c != d && Truthy(a)
    requires q.active == OrderedMap([c, d], map[c := i, d := i])
    requires q.waiting == OrderedMap([c, d], map[c := [a], d := [b]])
    ensures FreeKey(c, q) == Queues(OrderedMap([d], map[d := i]), OrderedMap([d], map[d := [b]]), [a])
  {
    PopOne(a);
    RemoveFirst(c, i, d, i);
    RemoveFirst(c, [a], d, [b]);
    assert [] + [a] == [a];
  }

  lemma FreeOnly(list: seq<Test>, b: Test, d: Key, i: Worker)
    requires Truthy(b)
    ensures var q := FreeKey(d, Queues(OrderedMap([d], map[d := i]), OrderedMap([d], map[d := [b]]), list));
      q.pending == list + [b] && q.active.at == map[] && q.waiting.at == map[]
  {
    PopOne(b);
  }

  /** The keys are freed in turn, so `b` ends up on top of `a`. */
  lemma FreeBoth(q: Queues, a: Test, b: Test, c: Key, d: Key, i: Worker)
    requires q.pending == [] && c != d && Truthy(a) && Truthy(b)
    requires q.active == OrderedMap([c, d], map[c := i, d := i])
    requires q.waiting == OrderedMap([c, d], map[c := [a], d := [b]])
    ensures var q' := FreeKeys([c, d], map[c := i, d := i], i, q);
      q'.pending == [a, b] && q'.active.at == map[] && q'.waiting.at == map[]
  {
    FreeFirst(q, a, b, c, d, i);
    FreeOnly([a], b, d, i);
    assert [a] + [b] == [a, b] && [c, d][1..] == [d] && [d][1..] == [];
    assert FreeKeys([d], map[c := i, d := i], i, FreeKey(c, q)) == FreeKey(d, FreeKey(c, q));
  }

  lemma TakesBoth(cfg: Config, st: State, a: Test, b: Test, i: Worker)
    requires st.pending == [a, b] && st.sequential == [] && st.active.at == map[] && cfg.maxBatch >= 1
    requires Truthy(a) && Truthy(b)
    ensures Schedule(cfg, st, i).dispatched == st.dispatched + [b, a]
  {
    NoneHeld(ConflictsOf(cfg, a), map[]);
    NoneHeld(ConflictsOf(cfg, b), map[]);
    assert [a, b] == [] + [a, b];
    FillTwo(cfg, map[], BatchSize(cfg, st.live), st.waiting, [], b, a);
    ScheduleGives(cfg, st, i, Filling([], st.waiting, [b, a]));
  }

  lemma TogetherSecond(cfg: Config, tests: seq<Test>, before: seq<State>, one: State, c: Key, d: Key)
    returns (states: seq<State>, two: State)
    requires Plain(cfg, tests, 4) && c != d && Reaches(cfg, tests, 4, before, [1], one)
    requires 2 in one.unready && 2 !in one.running.at && one.pending == [tests[3], tests[2]] && one.sequential == []
    requires one.waiting == Empty() && one.active == OrderedMap([c, d], map[c := 1, d := 1])
    requires Blocker(ConflictsOf(cfg, tests[2]), map[c := 1, d := 1]) == Some(c)
    requires Blocker(ConflictsOf(cfg, tests[3]), map[c := 1, d := 1]) == Some(d)
    ensures Reaches(cfg, tests, 4, states, [1, 2], two)
    ensures two == one.(unready := one.unready - {2}, pending := [], live := one.live - {2},
                        waiting := OrderedMap([c, d], map[c := [tests[2]], d := [tests[3]]]))
  {
    var ready := one.(unready := one.unready - {2});
    TogetherWaits(cfg, ready, tests[2], tests[3], c, d);
    two := ready.(pending := [], waiting := OrderedMap([c, d], map[c := [tests[2]], d := [tests[3]]]),
                  live := ready.live - {2});
    Reports(cfg, tests, 4, before, [1], one, 2, two);
    states := before + [two];
    assert [1] + [2] == [1, 2];
  }

  lemma TogetherThird(cfg: Config, tests: seq<Test>, before: seq<State>, two: State, c: Key, d: Key)
    returns (states: seq<State>, end: State)
    requires Plain(cfg, tests, 4) && c != d && Reaches(cfg, tests, 4, before, [1, 2], two)
    requires two.pending == [] && two.sequential == [] && two.inProgress > 0 && 1 in two.running.at
    requires two.active == OrderedMap([c, d], map[c := 1, d := 1])
    requires two.waiting == OrderedMap([c, d], map[c := [tests[2]], d := [tests[3]]])
    ensures Reaches(cfg, tests, 4, states, [1, 2, 1], end) && end.dispatched == two.dispatched + [tests[3], tests[2]]
  {
    FreeBoth(ActiveQueues(two), tests[2], tests[3], c, d, 1);
    TakesBoth(cfg, Finish(two, 1), tests[2], tests[3], 1);
    end := Schedule(cfg, Finish(two, 1), 1);
    Ends(cfg, tests, 4, before, [1, 2], two, 1, end);
    states := before + [end];
    assert [1, 2] + [1] == [1, 2, 1];
  }

  lemma Together(cfg: Config, tests: seq<Test>, c: Key, d: Key) returns (states: seq<State>, end: State)
    requires Plain(cfg, tests, 4) && c != d
    requires ConflictsOf(cfg, tests[0]) == [] && ConflictsOf(cfg, tests[1]) == [c, d]
    requires Blocker(ConflictsOf(cfg, tests[2]), map[c := 1, d := 1]) == Some(c)
    requires Blocker(ConflictsOf(cfg, tests[3]), map[c := 1, d := 1]) == Some(d)
    ensures Reaches(cfg, tests, 4, states, [1, 2, 1], end) && Overtaken(end.dispatched, tests[2], tests[3])
  {
    var before := FirstBatch(cfg, tests, 4);
    var one := AfterFirst(cfg, tests, 4);
    SecondIsReady(cfg, tests, 4);
    ReverseTwo(tests);
    HoldBoth(c, d, 1);
    var middle, two := TogetherSecond(cfg, tests, before, one, c, d);
    states, end := TogetherThird(cfg, tests, middle, two, c, d);
    HandedLate([tests[0], tests[1]], tests[2], tests[3]);
  }

  // ---------- Two keys that two workers hold ----------

  lemma NextTwoFill(cfg: Config, active: map<Key, Worker>, a: Test, s: Test, t: Test, b: Test, x: Key, y: Key)
    requires active.Keys == {y} && x != y && Truthy(a) && Truthy(s) && Truthy(t)
    requires y in ConflictsOf(cfg, a) && ConflictsOf(cfg, s) == [x] && ConflictsOf(cfg, t) == []
    ensures Fill(cfg, active, 1, Filling([b, t, s, a], Empty(), []))
         == Filling([b], OrderedMap([y], map[y := [a]]), [s, t])
  {
    BlockerIs(ConflictsOf(cfg, a), active, y);
    NoneHeld([x], active);
    NoneHeld([], active);
    assert [b, t, s, a] == [b, t, s] + [a] && [b, t, s] == [b] + [t, s] && [] + [a] == [a];
    FillBlocked(cfg, active, 1, Filling([b, t, s, a], Empty(), []), [b, t, s], a, y);
    PutFirst(y, [a]);
    FillTwo(cfg, active, 1, OrderedMap([y], map[y := [a]]), [b], s, t);
  }

  lemma HoldSecond(cfg: Config, s: Test, t: Test, x: Key, y: Key)
    requires x != y && ConflictsOf(cfg, s) == [x] && ConflictsOf(cfg, t) == []
    ensures HoldAll(cfg, [s, t], 2, OrderedMap([y], map[y := 1])) == OrderedMap([y, x], map[y := 1, x := 2])
  {
    var both := OrderedMap([y, x], map[y := 1, x := 2]);
    assert [s, t][1..] == [t] && [t][1..] == [] && [x][1..] == [];
    PutSecond(y, 1, x, 2);
    assert HoldKeys([x], 2, OrderedMap([y], map[y := 1])) == both;
    assert HoldAll(cfg, [t], 2, both) == both;
  }

  /** Worker 1 holds `y`; worker 2 finds `a` held up and takes the next two. */
  lemma TakesNextTwo(cfg: Config, one: State, a: Test, s: Test, t: Test, b: Test, x: Key, y: Key)
    requires one.pending == [b, t, s, a] && one.sequential == [] && one.waiting == Empty()
    requires BatchSize(cfg, one.live) == 1
    requires one.active == OrderedMap([y], map[y := 1]) && x != y && Truthy(a) && Truthy(s) && Truthy(t)
    requires y in ConflictsOf(cfg, a) && ConflictsOf(cfg, s) == [x] && ConflictsOf(cfg, t) == []
    ensures Schedule(cfg, one, 2)
         == one.(pending := [b], waiting := OrderedMap([y], map[y := [a]]),
                 active := OrderedMap([y, x], map[y := 1, x := 2]),
                 inProgress := one.inProgress + 1, running := one.running.Put(2, [s, t]),
                 dispatched := one.dispatched + [s, t])
  {
    NextTwoFill(cfg, one.active.at, a, s, t, b, x, y);
    HoldSecond(cfg, s, t, x, y);
    ScheduleGives(cfg, one, 2, Filling([b], OrderedMap([y], map[y := [a]]), [s, t]));
  }

  /** Worker 3 finds `b` held up by `x` and ends. */
  lemma FindsHeld(cfg: Config, two: State, b: Test, x: Key, y: Key, list: seq<Test>)
    requires two.pending == [b] && two.sequential == [] && two.waiting == OrderedMap([y], map[y := list])
    requires x != y && Truthy(b) && Blocker(ConflictsOf(cfg, b), two.active.at) == Some(x)
    ensures Schedule(cfg, two, 3)
         == two.(pending := [], waiting := OrderedMap([y, x], map[y := list, x := [b]]), live := two.live - {3})
  {
    assert [b] == [] + [b];
    FillBlocked(cfg, two.active.at, BatchSize(cfg, two.live), Filling([b], two.waiting, []), [], b, x);
    var both := OrderedMap([y, x], map[y := list, x := [b]]);
    assert [] + [b] == [b];
    PutSecond(y, list, x, [b]);
    ScheduleGives(cfg, two, 3, Filling([], both, []));
  }

  /** Worker 1 frees `y`, so `a` is on the stack; worker 2 still holds `x`. */
  lemma FreeOne(q: Queues, a: Test, b: Test, x: Key, y: Key)
    requires q.pending == [] && x != y && Truthy(a)
    requires q.active == OrderedMap([y, x], map[y := 1, x := 2])
    requires q.waiting == OrderedMap([y, x], map[y := [a], x := [b]])
    ensures FreeKeys([y, x], map[y := 1, x := 2], 1, q)
         == Queues(OrderedMap([x], map[x := 2]), OrderedMap([x], map[x := [b]]), [a])
  {
    PopOne(a);
    RemoveFirst(y, 1, x, 2);
    RemoveFirst(y, [a], x, [b]);
    var one := FreeKey(y, q);
    assert [] + [a] == [a] && [y, x][1..] == [x] && [x][1..] == [];
    assert one == Queues(OrderedMap([x], map[x := 2]), OrderedMap([x], map[x := [b]]), [a]);
    assert FreeKeys([x], map[y := 1, x := 2], 1, one) == one;
  }

  /** Worker 1 finds `a` held up again, now by `x` and behind `b`, and ends. */
  lemma QueuesBehind(cfg: Config, st: State, a: Test, b: Test, x: Key)
    requires st.pending == [a] && st.sequential == [] && st.waiting == OrderedMap([x], map[x := [b]])
    requires Truthy(a) && st.active.at == map[x := 2] && x in ConflictsOf(cfg, a)
    ensures Schedule(cfg, st, 1)
         == st.(pending := [], waiting := OrderedMap([x], map[x := [b, a]]), live := st.live - {1})
  {
    BlockerIs(ConflictsOf(cfg, a), st.active.at, x);
    assert [a] == [] + [a] && [b] + [a] == [b, a];
    FillBlocked(cfg, st.active.at, BatchSize(cfg, st.live), Filling([a], st.waiting, []), [], a, x);
    var behind := OrderedMap([x], map[x := [b, a]]);
    assert st.waiting.Put(x, [b, a]) == behind;
    ScheduleGives(cfg, st, 1, Filling([], behind, []));
  }

  /** Worker 2 frees `x`, so `b` ends up on top of `a`. */
  lemma FreeLast(q: Queues, a: Test, b: Test, x: Key)
    requires q.pending == [] && Truthy(a) && Truthy(b)
    requires q.active == OrderedMap([x], map[x := 2]) && q.waiting == OrderedMap([x], map[x := [b, a]])
    ensures var q' := FreeKeys([x], map[x := 2], 2, q); q'.pending == [a, b] && q'.active.at == map[]
  {
    PopOne(b);
    assert [b, a][..1] == [b];
    assert PopAll([b, a]) == [a] + [b];
    assert [a] + [b] == [a, b] && [] + [a, b] == [a, b] && [x][1..] == [];
    var one := FreeKey(x, q);
    assert one.pending == [a, b] && one.active.at == map[];
    assert FreeKeys([], map[x := 2], 2, one) == one;
  }

  /** The two key lists of the last case: `a` asks for `x` first, and of `x` and `y`
      so does `b`. */
  ghost predicate Switches(cfg: Config, tests: seq<Test>, x: Key, y: Key) {
    && Plain(cfg, tests, 6) && x != y
    && ConflictsOf(cfg, tests[0]) == [] && ConflictsOf(cfg, tests[1]) == [y]
    && ConflictsOf(cfg, tests[3]) == [x] && ConflictsOf(cfg, tests[4]) == []
    && x in ConflictsOf(cfg, tests[2]) && y in ConflictsOf(cfg, tests[2])
    && Blocker(ConflictsOf(cfg, tests[5]), map[y := 1, x := 2]) == Some(x)
  }

  lemma SwitchSecond(cfg: Config, tests: seq<Test>, before: seq<State>, one: State, x: Key, y: Key)
    returns (states: seq<State>, two: State)
    requires Switches(cfg, tests, x, y) && Reaches(cfg, tests, 6, before, [1], one)
    requires one.running.at.Keys == {1} && one.sequential == [] && one.waiting == Empty() && one.inProgress == 1
    requires one.pending == [tests[5], tests[4], tests[3], tests[2]] && one.active == OrderedMap([y], map[y := 1])
    requires BatchSize(cfg, one.live) == 1 && 2 in one.unready && 3 in one.unready
    ensures Reaches(cfg, tests, 6, states, [1, 2], two)
    ensures two.running.at.Keys == {1, 2} && two.sequential == [] && two.inProgress == 2
    ensures two.pending == [tests[5]] && two.waiting == OrderedMap([y], map[y := [tests[2]]]) && 3 in two.unready
    ensures two.active == OrderedMap([y, x], map[y := 1, x := 2])
    ensures two.dispatched == one.dispatched + [tests[3], tests[4]]
  {
    var ready := one.(unready := one.unready - {2});
    TakesNextTwo(cfg, ready, tests[2], tests[3], tests[4], tests[5], x, y);
    two := Schedule(cfg, ready, 2);
    Reports(cfg, tests, 6, before, [1], one, 2, two);
    states := before + [two];
    assert [1] + [2] == [1, 2];
  }

  lemma SwitchThird(cfg: Config, tests: seq<Test>, before: seq<State>, two: State, x: Key, y: Key)
    returns (states: seq<State>, three: State)
    requires Switches(cfg, tests, x, y) && Reaches(cfg, tests, 6, before, [1, 2], two)
    requires 3 in two.unready && 3 !in two.running.at && two.sequential == [] && two.pending == [tests[5]]
    requires two.waiting == OrderedMap([y], map[y := [tests[2]]]) &&
      two.active == OrderedMap([y, x], map[y := 1, x := 2])
    ensures Reaches(cfg, tests, 6, states, [1, 2, 3], three)
    ensures three == two.(unready := two.unready - {3}, pending := [],
                          waiting := OrderedMap([y, x], map[y := [tests[2]], x := [tests[5]]]), live := two.live - {3})
  {
    var ready := two.(unready := two.unready - {3});
    FindsHeld(cfg, ready, tests[5], x, y, [tests[2]]);
    three := Schedule(cfg, ready, 3);
    Reports(cfg, tests, 6, before, [1, 2], two, 3, three);
    states := before + [three];
    assert [1, 2] + [3] == [1, 2, 3];
  }

  lemma SwitchFourth(cfg: Config, tests: seq<Test>, before: seq<State>, three: State, x: Key, y: Key)
    returns (states: seq<State>, four: State)
    requires Switches(cfg, tests, x, y) && Reaches(cfg, tests, 6, before, [1, 2, 3], three)
    requires 1 in three.running.at && 2 in three.running.at && three.sequential == [] && three.pending == []
    requires three.inProgress == 2 && three.active == OrderedMap([y, x], map[y := 1, x := 2])
    requires three.waiting == OrderedMap([y, x], map[y := [tests[2]], x := [tests[5]]])
    ensures Reaches(cfg, tests, 6, states, [1, 2, 3, 1], four)
    ensures four.pending == [] && four.sequential == [] && four.inProgress == 1 && 2 in four.running.at
    ensures four.active == OrderedMap([x], map[x := 2]) &&
      four.waiting == OrderedMap([x], map[x := [tests[5], tests[2]]])
    ensures four.dispatched == three.dispatched
  {
    FreeOne(ActiveQueues(three), tests[2], tests[5], x, y);
    var idle := Finish(three, 1);
    QueuesBehind(cfg, idle, tests[2], tests[5], x);
    four := idle.(pending := [], waiting := OrderedMap([x], map[x := [tests[5], tests[2]]]), live := idle.live - {1});
    Ends(cfg, tests, 6, before, [1, 2, 3], three, 1, four);
    states := before + [four];
    assert [1, 2, 3] + [1] == [1, 2, 3, 1];
  }

  lemma SwitchFifth(cfg: Config, tests: seq<Test>, before: seq<State>, four: State, x: Key, y: Key)
    returns (states: seq<State>, end: State)
    requires Switches(cfg, tests, x, y) && Reaches(cfg, tests, 6, before, [1, 2, 3, 1], four)
    requires four.pending == [] && four.sequential == [] && four.inProgress == 1 && 2 in four.running.at
    requires four.active == OrderedMap([x], map[x := 2]) &&
      four.waiting == OrderedMap([x], map[x := [tests[5], tests[2]]])
    ensures Reaches(cfg, tests, 6, states, [1, 2, 3, 1, 2], end) &&
      end.dispatched == four.dispatched + [tests[5], tests[2]]
  {
    FreeLast(ActiveQueues(four), tests[2], tests[5], x);
    TakesBoth(cfg, Finish(four, 2), tests[2], tests[5], 2);
    end := Schedule(cfg, Finish(four, 2), 2);
    Ends(cfg, tests, 6, before, [1, 2, 3, 1], four, 2, end);
    states := before + [end];
    assert [1, 2, 3, 1] + [2] == [1, 2, 3, 1, 2];
  }

  lemma ReverseFour(tests: seq<Test>)
    requires |tests| == 6
    ensures Reverse(tests[2..]) == [tests[5], tests[4], tests[3], tests[2]]
  {}

  lemma HoldOne(k: Key, i: Worker)
    ensures HoldKeys([k], i, Empty()) == OrderedMap([k], map[k := i])
  {
    assert [k][1..] == [];
    PutFirst(k, i);
  }

  lemma SwitchUntilSecond(cfg: Config, tests: seq<Test>, x: Key, y: Key) returns (states: seq<State>, two: State)
    requires Switches(cfg, tests, x, y)
    ensures Reaches(cfg, tests, 6, states, [1, 2], two)
    ensures two.running.at.Keys == {1, 2} && 3 in two.unready && two.sequential == [] && two.pending == [tests[5]]
    ensures two.inProgress == 2 && two.active == OrderedMap([y, x], map[y := 1, x := 2])
    ensures two.waiting == OrderedMap([y], map[y := [tests[2]]])
    ensures two.dispatched == [tests[0], tests[1]] + [tests[3], tests[4]]
  {
    var first := FirstBatch(cfg, tests, 6);
    var one := AfterFirst(cfg, tests, 6);
    SecondIsReady(cfg, tests, 6);
    WorkerIdsFrom1(6);
    ReverseFour(tests);
    HoldOne(y, 1);
    states, two := SwitchSecond(cfg, tests, first, one, x, y);
  }

  lemma SwitchUntilThird(cfg: Config, tests: seq<Test>, x: Key, y: Key) returns (states: seq<State>, three: State)
    requires Switches(cfg, tests, x, y)
    ensures Reaches(cfg, tests, 6, states, [1, 2, 3], three)
    ensures three.running.at.Keys == {1, 2} && three.sequential == [] && three.pending == []
    ensures three.inProgress == 2 && three.active == OrderedMap([y, x], map[y := 1, x := 2])
    ensures three.waiting == OrderedMap([y, x], map[y := [tests[2]], x := [tests[5]]])
    ensures three.dispatched == [tests[0], tests[1]] + [tests[3], tests[4]]
  {
    var second, two := SwitchUntilSecond(cfg, tests, x, y);
    states, three := SwitchThird(cfg, tests, second, two, x, y);
  }

  lemma Switch(cfg: Config, tests: seq<Test>, x: Key, y: Key) returns (states: seq<State>, end: State)
    requires Switches(cfg, tests, x, y)
    ensures Reaches(cfg, tests, 6, states, [1, 2, 3, 1, 2], end) && Overtaken(end.dispatched, tests[2], tests[5])
  {
    var third, three := SwitchUntilThird(cfg, tests, x, y);
    var fourth, four := SwitchFourth(cfg, tests, third, three, x, y);
    states, end := SwitchFifth(cfg, tests, fourth, four, x, y);
    HandedLate([tests[0], tests[1]] + [tests[3], tests[4]], tests[2], tests[5]);
  }

  // ---------- The exact condition ----------

  /** The settings of the program: the total it counts, and its batch limit, which is 1
      under valgrind and else 32. */
  ghost predicate Real(cfg: Config, tests: seq<Test>, limit: nat) {
    cfg.total == |Select(cfg, tests, false)| && cfg.maxBatch == limit
  }

  /** A run of the program in which `b`, with keys `kb`, is handed out before `a`, with
      keys `ka`, although it was given after it. */
  ghost predicate OvertakingRun(ka: seq<Key>, kb: seq<Key>, limit: nat, cfg: Config, tests: seq<Test>, n: nat,
                                states: seq<State>, senders: seq<Worker>, end: State, a: Test, b: Test) {
    && Real(cfg, tests, limit) && NamesTruthy(tests) && Distinct(tests)
    && GivenBefore(tests, a, b) && ConflictsOf(cfg, a) == ka && ConflictsOf(cfg, b) == kb
    && Reaches(cfg, tests, n, states, senders, end) && Overtaken(end.dispatched, a, b)
  }

  ghost predicate CanOvertake(ka: seq<Key>, kb: seq<Key>, limit: nat) {
    exists cfg, tests, n, states, senders, end, a, b ::
      OvertakingRun(ka, kb, limit, cfg, tests, n, states, senders, end, a, b)
  }

  lemma FourTests(ka: seq<Key>, kb: seq<Key>, limit: nat, held: seq<Key>) returns (cfg: Config, tests: seq<Test>)
    requires limit >= 1 && ALL !in ka && ALL !in kb && ALL !in held
    ensures Plain(cfg, tests, 4) && Real(cfg, tests, limit) && GivenBefore(tests, tests[2], tests[3])
    ensures ConflictsOf(cfg, tests[0]) == [] && ConflictsOf(cfg, tests[1]) == held
    ensures ConflictsOf(cfg, tests[2]) == ka && ConflictsOf(cfg, tests[3]) == kb
  {
    tests := ["f", "h", "a", "b"];
    cfg := Config(map["f" := [], "h" := held, "a" := ka, "b" := kb], 4, limit);
    NoneSequential(cfg, tests);
  }

  lemma SixTests(ka: seq<Key>, kb: seq<Key>, limit: nat, x: Key, y: Key) returns (cfg: Config, tests: seq<Test>)
    requires limit >= 1 && ALL !in ka && ALL !in kb && x in ka && y in ka && x != y &&
      Blocker(kb, map[y := 1, x := 2]) == Some(x)
    ensures Switches(cfg, tests, x, y) && Real(cfg, tests, limit) && GivenBefore(tests, tests[2], tests[5])
    ensures ConflictsOf(cfg, tests[2]) == ka && ConflictsOf(cfg, tests[5]) == kb
  {
    tests := ["f", "h", "a", "i", "g", "b"];
    cfg := Config(map["f" := [], "h" := [y], "a" := ka, "i" := [x], "g" := [], "b" := kb], 6, limit);
    NoneSequential(cfg, tests);
  }

  lemma ApartOvertakes(ka: seq<Key>, kb: seq<Key>, limit: nat, x: Key)
    requires limit >= 1 && ALL !in ka && ALL !in kb && x in ka && x !in kb
    ensures CanOvertake(ka, kb, limit)
  {
    var cfg, tests := FourTests(ka, kb, limit, [x]);
    var states, end := Apart(cfg, tests, x);
    assert OvertakingRun(ka, kb, limit, cfg, tests, 4, states, [1, 2], end, tests[2], tests[3]);
  }

  lemma TogetherOvertakes(ka: seq<Key>, kb: seq<Key>, limit: nat, c: Key, d: Key)
    requires limit >= 1 && ALL !in ka && ALL !in kb && c != d && c in ka && d in kb
    requires Blocker(ka, map[c := 1, d := 1]) == Some(c) && Blocker(kb, map[c := 1, d := 1]) == Some(d)
    ensures CanOvertake(ka, kb, limit)
  {
    var cfg, tests := FourTests(ka, kb, limit, [c, d]);
    var states, end := Together(cfg, tests, c, d);
    assert OvertakingRun(ka, kb, limit, cfg, tests, 4, states, [1, 2, 1], end, tests[2], tests[3]);
  }

  lemma SwitchOvertakes(ka: seq<Key>, kb: seq<Key>, limit: nat, x: Key, y: Key)
    requires limit >= 1 && ALL !in ka && ALL !in kb && x in ka && y in ka && x != y &&
      Blocker(kb, map[y := 1, x := 2]) == Some(x)
    ensures CanOvertake(ka, kb, limit)
  {
    var cfg, tests := SixTests(ka, kb, limit, x, y);
    var states, end := Switch(cfg, tests, x, y);
    assert OvertakingRun(ka, kb, limit, cfg, tests, 6, states, [1, 2, 3, 1, 2], end, tests[2], tests[5]);
  }

  lemma {:induction false} BlockerSameKeys(keys: seq<Key>, active: map<Key, Worker>, active': map<Key, Worker>)
    requires active.Keys == active'.Keys
    ensures Blocker(keys, active) == Blocker(keys, active')
  {
    if keys != [] {
      BlockerSameKeys(keys[1..], active, active');
    }
  }

  lemma {:induction false} BlockerOfTwo(keys: seq<Key>, active: map<Key, Worker>, x: Key, y: Key)
    requires x in keys && active.Keys == {x, y}
    ensures Blocker(keys, active) == Some(x) || Blocker(keys, active) == Some(y)
  {
    if keys[0] !in active {
      BlockerOfTwo(keys[1..], active, x, y);
    }
  }

  /** Any other pair of key lists with a common key can be overtaken. */
  lemma OthersOvertake(ka: seq<Key>, kb: seq<Key>, limit: nat, k: Key)
    requires limit >= 1 && k in ka && k in kb && ALL !in ka && ALL !in kb && !KeepsOrder(ka, kb)
    ensures CanOvertake(ka, kb, limit)
  {
    if x :| x in ka && x !in kb {
      ApartOvertakes(ka, kb, limit, x);
    } else if y :| y in ka && y != ka[0] {
      var x := ka[0];
      BlockerOfTwo(kb, map[x := 1, y := 1], x, y);
      if Blocker(kb, map[x := 1, y := 1]) == Some(y) {
        TogetherOvertakes(ka, kb, limit, x, y);
      } else {
        BlockerSameKeys(kb, map[x := 1, y := 1], map[y := 1, x := 2]);
        SwitchOvertakes(ka, kb, limit, x, y);
      }
    } else {
      TogetherOvertakes(ka, kb, limit, ka[0], kb[0]);
    }
  }

  lemma NoneOvertake(ka: seq<Key>, kb: seq<Key>, limit: nat, k: Key)
    requires k in ka && ALL !in ka && ALL !in kb && KeepsOrder(ka, kb)
    ensures !CanOvertake(ka, kb, limit)
  {
    forall cfg, tests, n, states, senders, end, a, b
      | OvertakingRun(ka, kb, limit, cfg, tests, n, states, senders, end, a, b)
      ensures false
    {
      NotThisRun(ka, kb, limit, cfg, tests, n, states, senders, end, a, b);
    }
  }

  lemma NotThisRun(ka: seq<Key>, kb: seq<Key>, limit: nat, cfg: Config, tests: seq<Test>, n: nat, states: seq<State>,
                   senders: seq<Worker>, end: State, a: Test, b: Test)
    requires ka != [] && ALL !in ka && ALL !in kb && KeepsOrder(ka, kb)
    ensures !OvertakingRun(ka, kb, limit, cfg, tests, n, states, senders, end, a, b)
  {
    if Distinct(tests) && NamesTruthy(tests) && GivenBefore(tests, a, b) && IsRun(cfg, tests, n, states, senders)
       && ConflictsOf(cfg, a) == ka && ConflictsOf(cfg, b) == kb
    {
      var i, j :| 0 <= i < j < |tests| && tests[i] == a && tests[j] == b;
      assert forall m :: 0 <= m < |ka| ==> ka[m] in ka;
      assert Ordered(cfg, a, b, kb[0]);
      RunAhead(cfg, tests, n, states, senders, |senders|, a, b, kb[0]);
      AheadMeansNotOvertaken(a, b, kb[0], states[|senders|]);
    }
  }

  /** Of two tests with a common key the one given first is always handed out first,
      whatever the other tests, the workers and their messages, if and only if it has
      no key but the first key of the other.  That is so for every batch limit. */
  lemma OrderIsKeptIff(ka: seq<Key>, kb: seq<Key>, limit: nat, k: Key)
    requires limit >= 1 && k in ka && k in kb && ALL !in ka && ALL !in kb
    ensures !CanOvertake(ka, kb, limit) <==> forall x :: x in ka ==> x == kb[0]
  {
    if KeepsOrder(ka, kb) {
      NoneOvertake(ka, kb, limit, k);
    } else {
      OthersOvertake(ka, kb, limit, k);
    }
  }
}
