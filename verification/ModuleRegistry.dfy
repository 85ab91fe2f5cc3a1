/** Ordering and starting the extension modules: `zend_sort_modules` and
    `zend_startup_modules` of Zend/zend_API.c. */
module ModuleRegistry {
  import opened Sequences

  datatype DepType = Required | Conflicts | Optional

  datatype Dep = Dep(name: string, kind: DepType)

  class Module {
    const name: string
    const deps: seq<Dep>
    var started: bool

    constructor (name: string, deps: seq<Dep>)
      ensures this.name == name && this.deps == deps && !started
    {
      this.name, this.deps, started := name, deps, false;
    }
  }

  /** ASCII lower case, as `zend_str_tolower` and `strcasecmp` fold it. */
  function Lower(c: char): char {
    if 'A' <= c <= 'Z' then c - 'A' + 'a' else c
  }

  function Fold(s: string): string {
    seq(|s|, k requires 0 <= k < |s| => Lower(s[k]))
  }

  /** The same character, or an ASCII letter and its other case. */
  predicate SameLetter(c: char, d: char) {
    var i, j := c as int, d as int;
    i == j || (65 <= i <= 90 && j == i + 32) || (65 <= j <= 90 && i == j + 32)
  }

  /** Names that differ in the case of ASCII letters at most. */
  predicate SameName(s: string, t: string) {
    |s| == |t| && forall k :: 0 <= k < |s| ==> SameLetter(s[k], t[k])
  }

  lemma FoldIff(s: string, t: string)
    ensures Fold(s) == Fold(t) <==> SameName(s, t)
  {
    if Fold(s) == Fold(t) {
      assert |Fold(s)| == |s| && |Fold(t)| == |t|;
      forall k | 0 <= k < |s| ensures SameLetter(s[k], t[k]) {
        assert Fold(s)[k] == Fold(t)[k];
      }
    }
    if SameName(s, t) {
      forall k | 0 <= k < |s| ensures Fold(s)[k] == Fold(t)[k] {
        assert SameLetter(s[k], t[k]);
      }
    }
  }

  predicate Named(m: Module, name: string) {
    Fold(m.name) == Fold(name)
  }

  /** The kinds of dependency that order modules. */
  predicate Orders(d: Dep) { d.kind == Required || d.kind == Optional }

  /** `m` is to come after `r`. */
  ghost predicate ComesAfter(m: Module, r: Module) {
    exists k :: 0 <= k < |m.deps| && Orders(m.deps[k]) && Named(r, m.deps[k].name)
  }

  /** `m` asks for a module of that name, or would come after one that is there. */
  ghost predicate AsksFor(m: Module, k: int, name: string) {
    0 <= k < |m.deps| && m.deps[k].kind != Conflicts && SameName(name, m.deps[k].name)
  }

  lemma ComesAfterIff(m: Module, r: Module)
    ensures ComesAfter(m, r) <==> exists k :: AsksFor(m, k, r.name)
  {
    forall k | 0 <= k < |m.deps| ensures Named(r, m.deps[k].name) <==> SameName(r.name, m.deps[k].name) {
      FoldIff(r.name, m.deps[k].name);
    }
    if k :| 0 <= k < |m.deps| && Orders(m.deps[k]) && Named(r, m.deps[k].name) {
      assert AsksFor(m, k, r.name);
    }
    if k :| AsksFor(m, k, r.name) {
      assert Orders(m.deps[k]) && Named(r, m.deps[k].name);
    }
  }

  /** Modules that had been started before. */
  ghost function Started(modules: seq<Module>): set<Module>
    reads modules
  {
    set m | m in modules && m.started
  }

  /** Dependencies of unstarted modules are acyclic: they lead to other modules of
      lower rank. */
  ghost predicate Ranked(modules: seq<Module>, started: set<Module>, rank: Module -> nat) {
    forall m, r :: m in modules && r in modules && m !in started && m != r && ComesAfter(m, r) ==> rank(r) < rank(m)
  }

  /** No unstarted module at a position below `n` precedes one it is to come
      after. */
  ghost predicate SortedUpTo(modules: seq<Module>, started: set<Module>, n: nat)
    requires n <= |modules|
  {
    forall i, j :: 0 <= i < n && i < j < |modules| && modules[i] !in started ==> !ComesAfter(modules[i], modules[j])
  }

  /** The registry is keyed by folded name: no module occurs twice, and a name
      identifies its module. */
  ghost predicate DistinctNames(modules: seq<Module>) {
    Distinct(modules) && NamesIdentify(modules)
  }

  ghost predicate NamesIdentify(modules: seq<Module>) {
    forall m, r :: m in modules && r in modules && Fold(m.name) == Fold(r.name) ==> m == r
  }

  ghost function Requires(m: Module): set<string> {
    set k | 0 <= k < |m.deps| && m.deps[k].kind == Required :: Fold(m.deps[k].name)
  }

  /** What startup asks for: nothing of a module that was started before. */
  ghost function Needs(begun: set<Module>, m: Module): set<string> {
    if m in begun then {} else Requires(m)
  }

  /** Every name that a member needs is the name of a member. */
  ghost predicate Closed(begun: set<Module>, s: set<Module>) {
    forall m, name :: m in s && name in Needs(begun, m) ==> exists r :: r in s && Fold(r.name) == name
  }

  /** The same, dependency by dependency and letter by letter: every unstarted member has a
      member of each name it requires. */
  ghost predicate Supplied(begun: set<Module>, s: set<Module>) {
    forall m, k :: m in s && m !in begun && 0 <= k < |m.deps| && m.deps[k].kind == Required ==>
      exists r :: r in s && SameName(r.name, m.deps[k].name)
  }

  lemma ClosedIffSupplied(begun: set<Module>, s: set<Module>)
    ensures Closed(begun, s) <==> Supplied(begun, s)
  {
    if Closed(begun, s) {
      forall m, k | m in s && m !in begun && 0 <= k < |m.deps| && m.deps[k].kind == Required
        ensures exists r :: r in s && SameName(r.name, m.deps[k].name)
      {
        assert Fold(m.deps[k].name) in Needs(begun, m);
        var r :| r in s && Fold(r.name) == Fold(m.deps[k].name);
        FoldIff(r.name, m.deps[k].name);
      }
    }
    if Supplied(begun, s) {
      forall m, name | m in s && name in Needs(begun, m) ensures exists r :: r in s && Fold(r.name) == name {
        var k :| 0 <= k < |m.deps| && m.deps[k].kind == Required && Fold(m.deps[k].name) == name;
        var r :| r in s && SameName(r.name, m.deps[k].name);
        FoldIff(r.name, m.deps[k].name);
      }
    }
  }

  ghost function Members(modules: seq<Module>): set<Module> {
    set m | m in modules
  }

  function Swapped<T>(s: seq<T>, i: nat, j: nat): seq<T>
    requires i < |s| && j < |s|
  {
    s[i := s[j]][j := s[i]]
  }

  lemma SwapPermutes<T>(s: seq<T>, i: nat, j: nat)
    requires i < j < |s|
    ensures multiset(Swapped(s, i, j)) == multiset(s)
    ensures forall x :: x in Swapped(s, i, j) <==> x in s
  {
    assert forall x :: x in Swapped(s, i, j) <==> x in multiset(Swapped(s, i, j));
    assert forall x :: x in s <==> x in multiset(s);
  }

  /** A swap behind position `n` leaves what precedes it sorted. */
  lemma SwapKeepsSorted(s: seq<Module>, started: set<Module>, n: nat, j: nat)
    requires n < j < |s| && SortedUpTo(s, started, n)
    ensures SortedUpTo(Swapped(s, n, j), started, n)
  {
    var t := Swapped(s, n, j);
    forall i, k | 0 <= i < n && i < k < |t| && t[i] !in started ensures !ComesAfter(t[i], t[k]) {
      var k' := if k == n then j else if k == j then n else k;
      assert t[k] == s[k'];
    }
  }

  ghost function IndexOf(t: seq<Module>, m: Module): (i: nat)
    ensures m in t ==> i < |t| && t[i] == m
  {
    if t == [] then 0 else if t[|t| - 1] == m then |t| - 1 else IndexOf(t[..|t| - 1], m)
  }

  /** A sorted order exists only if the dependencies are acyclic: with a cycle the
      sort, which leaves a sorted order, cannot end. */
  lemma SortedMeansAcyclic(s: seq<Module>, t: seq<Module>, started: set<Module>) returns (rank: Module -> nat)
    requires multiset(s) == multiset(t) && Distinct(t) && SortedUpTo(t, started, |t|)
    ensures Ranked(s, started, rank)
  {
    rank := m => IndexOf(t, m);
    SameMembers(s, t);
    forall m, r | m in s && r in s && m !in started && m != r && ComesAfter(m, r) ensures rank(r) < rank(m) {
      assert t[IndexOf(t, m)] == m && t[IndexOf(t, r)] == r;
      assert !(IndexOf(t, m) < IndexOf(t, r));
    }
  }

  lemma DistinctDespite(s: seq<Module>, t: seq<Module>)
    requires multiset(s) == multiset(t) && Distinct(s)
    ensures Distinct(t)
  {
    DistinctCounts(s);
    forall i, j | 0 <= i < j < |t| ensures t[i] != t[j] {
      CountsDistinct(t, i, j);
    }
  }

  /** A permutation of a registry is a registry. */
  lemma DistinctDespitePermutation(s: seq<Module>, t: seq<Module>)
    requires multiset(s) == multiset(t) && DistinctNames(s)
    ensures DistinctNames(t) && Members(t) == Members(s)
    ensures forall m :: m in s <==> m in t
  {
    DistinctDespite(s, t);
    SameMembers(s, t);
  }

  // ---------- The sort, step by step ----------

  /** The first module after position `b1` with that name, or the end. */
  function Later(s: seq<Module>, name: string, b: nat): (b2: nat)
    requires b <= |s|
    ensures b <= b2 <= |s| && (b2 < |s| ==> Named(s[b2], name))
    ensures forall j :: b <= j < b2 ==> !Named(s[j], name)
    decreases |s| - b
  {
    if b == |s| || Named(s[b], name) then b else Later(s, name, b + 1)
  }

  /** The first later module that a dependency from the `k`th on names, or the end. */
  function LaterDep(s: seq<Module>, b1: nat, k: nat): (b2: nat)
    requires b1 < |s| && k <= |s[b1].deps|
    ensures b1 < b2 <= |s| && (b2 < |s| ==> ComesAfter(s[b1], s[b2]))
    ensures b2 == |s| ==> forall l, j :: k <= l < |s[b1].deps| && b1 < j < |s| && Orders(s[b1].deps[l]) ==>
      !Named(s[j], s[b1].deps[l].name)
    decreases |s[b1].deps| - k
  {
    if k == |s[b1].deps| then |s|
    else if Orders(s[b1].deps[k]) && Later(s, s[b1].deps[k].name, b1 + 1) < |s| then
      Later(s, s[b1].deps[k].name, b1 + 1)
    else LaterDep(s, b1, k + 1)
  }

  /** `b2` is the first later module that the first dependency with one asks for, or the
      end if none has. */
  ghost predicate FirstLater(s: seq<Module>, b1: nat, b2: nat)
    requires b1 < |s|
  {
    if b2 < |s| then exists k :: AskedFirst(s, b1, b2, k)
    else b2 == |s| && forall k, j :: b1 < j < |s| ==> !AsksFor(s[b1], k, s[j].name)
  }

  ghost predicate AskedFirst(s: seq<Module>, b1: nat, b2: nat, k: int)
    requires b1 < |s| && b2 < |s|
  {
    && b1 < b2 && AsksFor(s[b1], k, s[b2].name)
    && (forall j :: b1 < j < b2 ==> !AsksFor(s[b1], k, s[j].name))
    && (forall l, j :: l < k && b1 < j < |s| ==> !AsksFor(s[b1], l, s[j].name))
  }

  lemma NamedIff(m: Module, name: string)
    ensures Named(m, name) <==> SameName(m.name, name)
  {
    FoldIff(m.name, name);
  }

  lemma {:induction false} LaterDepFrom(s: seq<Module>, b1: nat, k: nat)
    requires b1 < |s| && k <= |s[b1].deps|
    requires forall l, j :: l < k && b1 < j < |s| ==> !AsksFor(s[b1], l, s[j].name)
    ensures FirstLater(s, b1, LaterDep(s, b1, k))
    decreases |s[b1].deps| - k
  {
    if k < |s[b1].deps| {
      var d := s[b1].deps[k];
      var b2 := Later(s, d.name, b1 + 1);
      forall j | 0 <= j < |s| ensures Named(s[j], d.name) <==> SameName(s[j].name, d.name) {
        NamedIff(s[j], d.name);
      }
      if Orders(d) && b2 < |s| {
        assert AskedFirst(s, b1, b2, k);
      } else {
        LaterDepFrom(s, b1, k + 1);
      }
    }
  }

  lemma LaterDepIsFirst(s: seq<Module>, b1: nat)
    requires b1 < |s|
    ensures FirstLater(s, b1, LaterDep(s, b1, 0))
  {
    LaterDepFrom(s, b1, 0);
  }

  /** No unstarted module precedes one it asks for. */
  ghost predicate NoneTooEarly(modules: seq<Module>, started: set<Module>) {
    forall i, j, k :: 0 <= i < j < |modules| && modules[i] !in started ==> !AsksFor(modules[i], k, modules[j].name)
  }

  lemma SortedIsNoneTooEarly(modules: seq<Module>, started: set<Module>)
    ensures SortedUpTo(modules, started, |modules|) <==> NoneTooEarly(modules, started)
  {
    forall i, j | 0 <= i < |modules| && 0 <= j < |modules|
      ensures ComesAfter(modules[i], modules[j]) <==> exists k :: AsksFor(modules[i], k, modules[j].name)
    {
      ComesAfterIff(modules[i], modules[j]);
    }
  }

  lemma RemovalKeepsOrder(modules: seq<Module>, p: nat, started: set<Module>)
    requires p < |modules| && NoneTooEarly(modules, started)
    ensures NoneTooEarly(modules[..p] + modules[p + 1..], started)
  {
    var t := modules[..p] + modules[p + 1..];
    forall i, j, k | 0 <= i < j < |t| && t[i] !in started ensures !AsksFor(t[i], k, t[j].name) {
      assert t[i] == modules[if i < p then i else i + 1] && t[j] == modules[if j < p then j else j + 1];
    }
  }

  /** Where `b1` and the modules stand. */
  datatype Sort = Sort(modules: seq<Module>, b1: nat)

  /** One round: swap with a later dependency and try again, or go on. */
  ghost function Round(started: set<Module>, c: Sort): Sort
    requires c.b1 < |c.modules|
  {
    if c.modules[c.b1] in started || LaterDep(c.modules, c.b1, 0) == |c.modules| then Sort(c.modules, c.b1 + 1)
    else Sort(Swapped(c.modules, c.b1, LaterDep(c.modules, c.b1, 0)), c.b1)
  }

  /** The sort after `n` rounds, unless it has ended before. */
  ghost function Rounds(started: set<Module>, s: seq<Module>, n: nat): (c: Sort)
    ensures |c.modules| == |s| && c.b1 <= |s|
  {
    if n == 0 then Sort(s, 0)
    else
      var c := Rounds(started, s, n - 1);
      if c.b1 == |s| then c else Round(started, c)
  }

  /** The sort of these modules ends. */
  ghost predicate Ends(started: set<Module>, s: seq<Module>) {
    exists n: nat :: Rounds(started, s, n).b1 == |s|
  }

  /** Settled places stay settled, whether or not the dependencies have a cycle. */
  lemma RoundKeepsSorted(started: set<Module>, c: Sort)
    requires c.b1 < |c.modules| && SortedUpTo(c.modules, started, c.b1)
    ensures Round(started, c).b1 <= |c.modules| && SortedUpTo(Round(started, c).modules, started, Round(started, c).b1)
    ensures multiset(Round(started, c).modules) == multiset(c.modules)
  {
    var b2 := LaterDep(c.modules, c.b1, 0);
    if c.modules[c.b1] !in started && b2 < |c.modules| {
      SwapKeepsSorted(c.modules, started, c.b1, b2);
      SwapPermutes(c.modules, c.b1, b2);
    }
  }

  lemma {:induction false} RoundsKeepSorted(started: set<Module>, s: seq<Module>, n: nat)
    ensures var c := Rounds(started, s, n); SortedUpTo(c.modules, started, c.b1) && multiset(c.modules) == multiset(s)
  {
    if n > 0 {
      RoundsKeepSorted(started, s, n - 1);
      if Rounds(started, s, n - 1).b1 < |s| {
        RoundKeepsSorted(started, Rounds(started, s, n - 1));
      }
    }
  }

  /** With acyclic dependencies a round goes on or puts a module of lower rank at its
      place, so the sort ends. */
  lemma {:induction false} RankedEnds(started: set<Module>, s: seq<Module>, rank: Module -> nat, n: nat)
    requires Distinct(s) && Ranked(s, started, rank)
    ensures Ends(started, s)
    decreases |s| - Rounds(started, s, n).b1,
      if Rounds(started, s, n).b1 < |s| then rank(Rounds(started, s, n).modules[Rounds(started, s, n).b1]) else 0
  {
    var c := Rounds(started, s, n);
    if c.b1 < |s| {
      RoundsKeepSorted(started, s, n);
      RoundGoesDown(started, s, rank, c);
      RankedEnds(started, s, rank, n + 1);
    }
  }

  lemma RoundGoesDown(started: set<Module>, s: seq<Module>, rank: Module -> nat, c: Sort)
    requires Distinct(s) && Ranked(s, started, rank) && multiset(c.modules) == multiset(s) && c.b1 < |c.modules|
    ensures var d := Round(started, c);
      d.b1 > c.b1 || (d.b1 == c.b1 && rank(d.modules[c.b1]) < rank(c.modules[c.b1]))
  {
    var b2 := LaterDep(c.modules, c.b1, 0);
    SameMembers(c.modules, s);
    DistinctDespite(s, c.modules);
    if c.modules[c.b1] !in started && b2 < |c.modules| {
      assert c.modules[b2] != c.modules[c.b1];
    }
  }

  lemma NextRound(started: set<Module>, s: seq<Module>, rank: Module -> nat, n: nat, c: Sort)
    requires Distinct(s) && Ranked(s, started, rank) && c == Rounds(started, s, n) && c.b1 < |s|
    ensures var d := Round(started, c);
      && Rounds(started, s, n + 1) == d && |d.modules| == |s| && d.b1 <= |s| && c.modules[c.b1] in s
      && (d.b1 > c.b1 || (d.b1 == c.b1 && rank(d.modules[c.b1]) < rank(c.modules[c.b1])))
  {
    RoundsKeepSorted(started, s, n);
    RoundGoesDown(started, s, rank, c);
    SameMembers(c.modules, s);
  }

  /** The sort ends if and only if the dependencies of the unstarted modules have no
      cycle. */
  lemma SortEndsIffAcyclic(started: set<Module>, s: seq<Module>)
    requires Distinct(s)
    ensures Ends(started, s) <==> exists rank: Module -> nat :: Ranked(s, started, rank)
  {
    if Ends(started, s) {
      var n: nat :| Rounds(started, s, n).b1 == |s|;
      RoundsKeepSorted(started, s, n);
      var t := Rounds(started, s, n).modules;
      DistinctDespite(s, t);
      var rank := SortedMeansAcyclic(s, t, started);
    }
    if rank: Module -> nat :| Ranked(s, started, rank) {
      RankedEnds(started, s, rank, 0);
    }
  }

  /** Two modules that require each other: the sort swaps them for ever. */
  lemma MutualDependencyNeverEnds(m: Module, r: Module)
    requires m.name == "a" && m.deps == [Dep("b", Required)]
    requires r.name == "b" && r.deps == [Dep("a", Required)]
    ensures !Ends({}, [m, r])
  {
    assert Fold("a") == "a" && Fold("b") == "b";
    assert Orders(m.deps[0]) && Named(r, m.deps[0].name) && Orders(r.deps[0]) && Named(m, r.deps[0].name);
    var s := [m, r];
    assert m == s[0] && r == s[1];
    forall rank: Module -> nat ensures !Ranked(s, {}, rank) {
      assert Ranked(s, {}, rank) ==> rank(r) < rank(m);
    }
    SortEndsIffAcyclic({}, s);
  }

  // ---------- Which modules survive ----------

  ghost predicate Startable(begun: set<Module>, sorted: seq<Module>) {
    DistinctNames(sorted) && SortedUpTo(sorted, begun, |sorted|)
  }

  /** The module at `k` needs a name that no survivor has, and neither it nor a
      later module has. */
  ghost predicate Refused(begun: set<Module>, sorted: seq<Module>, kept: seq<Module>, k: nat)
    requires k < |sorted|
  {
    exists name :: name in Needs(begun, sorted[k])
      && (forall r :: r in kept ==> Fold(r.name) != name)
      && (forall j :: k <= j < |sorted| ==> Fold(sorted[j].name) != name)
  }

  /** Every module of the first `n` survives or is refused. */
  ghost predicate Sifted(begun: set<Module>, sorted: seq<Module>, kept: seq<Module>, n: nat)
    requires n <= |sorted|
  {
    forall k :: 0 <= k < n && sorted[k] !in kept ==> Refused(begun, sorted, kept, k)
  }

  ghost predicate HasName(modules: seq<Module>, name: string) {
    exists i :: 0 <= i < |modules| && Fold(modules[i].name) == name
  }

  /** Each module comes after all the others it requires. */
  ghost predicate RequiredFirst(begun: set<Module>, kept: seq<Module>) {
    forall j, name :: 0 <= j < |kept| && name in Needs(begun, kept[j]) ==>
      HasName(kept[..j], name) || Fold(kept[j].name) == name
  }

  /** One more survivor is nobody's missing requirement. */
  lemma KeepOne(begun: set<Module>, sorted: seq<Module>, kept: seq<Module>, n: nat)
    requires n < |sorted| && Sifted(begun, sorted, kept, n)
    ensures Sifted(begun, sorted, kept + [sorted[n]], n + 1)
  {
    forall k | 0 <= k < n + 1 && sorted[k] !in kept + [sorted[n]]
      ensures Refused(begun, sorted, kept + [sorted[n]], k) {
      assert k != n && sorted[k] !in kept;
      var name := RefusalName(begun, sorted, kept, k);
      assert Fold(sorted[n].name) != name;
    }
  }

  /** No later module has a name that this one needs. */
  lemma NoneLater(begun: set<Module>, sorted: seq<Module>, n: nat, name: string)
    requires n < |sorted| && SortedUpTo(sorted, begun, |sorted|) && name in Needs(begun, sorted[n])
    ensures forall j :: n < j < |sorted| ==> Fold(sorted[j].name) != name
  {
    forall j | n < j < |sorted| ensures Fold(sorted[j].name) != name {
      assert !ComesAfter(sorted[n], sorted[j]);
    }
  }

  /** A module is refused over a name that no earlier survivor has and that is
      not its own. */
  lemma RefuseOne(begun: set<Module>, sorted: seq<Module>, kept: seq<Module>, n: nat, name: string)
    requires n < |sorted| && Sifted(begun, sorted, kept, n) && SortedUpTo(sorted, begun, |sorted|)
    requires name in Needs(begun, sorted[n]) && forall r :: r in kept ==> Fold(r.name) != name
    requires Fold(sorted[n].name) != name
    ensures Sifted(begun, sorted, kept, n + 1)
  {
    NoneLater(begun, sorted, n, name);
    assert Refused(begun, sorted, kept, n);
  }

  /** One more survivor whose requirements all survive. */
  lemma RequiredFirstOneMore(begun: set<Module>, kept: seq<Module>, m: Module)
    requires RequiredFirst(begun, kept)
    requires forall name :: name in Needs(begun, m) ==> HasName(kept, name) || Fold(m.name) == name
    ensures RequiredFirst(begun, kept + [m])
  {
    var t := kept + [m];
    forall j, name | 0 <= j < |t| && name in Needs(begun, t[j])
      ensures HasName(t[..j], name) || Fold(t[j].name) == name {
      if j < |kept| {
        assert t[..j] == kept[..j];
      } else {
        assert t[..j] == kept;
      }
    }
  }

  /** What is left of a registry while it is started. */
  lemma UnseenModule(sorted: seq<Module>, kept: seq<Module>, q: nat)
    requires q < |sorted| && DistinctNames(sorted)
    requires forall m :: m in kept ==> m in sorted[..q]
    ensures sorted[q] !in kept
    ensures sorted[..q + 1] == sorted[..q] + [sorted[q]] && sorted[q..] == [sorted[q]] + sorted[q + 1..]
  {}

  /** The first `q` modules of `sorted` have been tried, `kept` of them started,
      and the registry holds these and the untried ones. */
  ghost predicate Tried(begun: set<Module>, modules: seq<Module>, sorted: seq<Module>, kept: seq<Module>, q: nat) {
    && |kept| <= q <= |sorted| && modules == kept + sorted[q..]
    && (forall m :: m in kept ==> m in sorted[..q])
    && Sifted(begun, sorted, kept, q) && RequiredFirst(begun, kept)
  }

  lemma TriedAtStart(begun: set<Module>, sorted: seq<Module>)
    ensures Tried(begun, sorted, sorted, [], 0)
  {
    assert [] + sorted[0..] == sorted;
  }

  lemma TriedAtEnd(begun: set<Module>, modules: seq<Module>, sorted: seq<Module>, kept: seq<Module>, q: nat)
    requires Tried(begun, modules, sorted, kept, q)
    ensures |kept| < |modules| ==> q < |sorted| && modules[|kept|] == sorted[q]
    ensures |kept| >= |modules| ==> q == |sorted| && modules == kept
  {}

  lemma TriedMembers(begun: set<Module>, modules: seq<Module>, sorted: seq<Module>, kept: seq<Module>, q: nat)
    requires q < |sorted| && Tried(begun, modules, sorted, kept, q) && DistinctNames(sorted)
    ensures |kept| < |modules| && modules[|kept|] == sorted[q]
    ensures forall m :: m in modules ==> m in sorted
    ensures NamesIdentify(modules)
  {}

  lemma TriedAndKept(begun: set<Module>, modules: seq<Module>, sorted: seq<Module>, kept: seq<Module>, q: nat)
    requires q < |sorted| && Tried(begun, modules, sorted, kept, q)
    requires forall name :: name in Needs(begun, sorted[q]) ==> HasName(kept, name) || Fold(sorted[q].name) == name
    ensures Tried(begun, modules, sorted, kept + [sorted[q]], q + 1)
  {
    RequiredFirstOneMore(begun, kept, sorted[q]);
    KeepOne(begun, sorted, kept, q);
    assert sorted[q..] == [sorted[q]] + sorted[q + 1..];
    assert sorted[..q + 1] == sorted[..q] + [sorted[q]];
  }

  lemma TriedAndRefused(begun: set<Module>, modules: seq<Module>, sorted: seq<Module>, kept: seq<Module>, q: nat,
                        name: string)
    requires q < |sorted| && Tried(begun, modules, sorted, kept, q) && SortedUpTo(sorted, begun, |sorted|)
    requires name in Needs(begun, sorted[q]) && forall r :: r in kept ==> Fold(r.name) != name
    requires Fold(sorted[q].name) != name
    ensures |kept| < |modules|
    ensures Tried(begun, modules[..|kept|] + modules[|kept| + 1..], sorted, kept, q + 1)
  {
    RefuseOne(begun, sorted, kept, q, name);
    assert sorted[q..] == [sorted[q]] + sorted[q + 1..];
    assert sorted[..q + 1] == sorted[..q] + [sorted[q]];
  }

  /** A closed set of modules survives whole. */
  lemma {:induction false} ClosedSurvives(begun: set<Module>, sorted: seq<Module>, kept: seq<Module>, s: set<Module>,
                                          k: nat)
    requires Sifted(begun, sorted, kept, |sorted|) && Closed(begun, s) && s <= Members(sorted)
    requires k < |sorted| && sorted[k] in s
    ensures sorted[k] in kept
    decreases k
  {
    if sorted[k] !in kept {
      var name := RefusalName(begun, sorted, kept, k);
      var i := ClosedHas(begun, sorted, s, sorted[k], name);
      ClosedSurvives(begun, sorted, kept, s, i);
    }
  }

  ghost function RefusalName(begun: set<Module>, sorted: seq<Module>, kept: seq<Module>, k: nat): (name: string)
    requires k < |sorted| && Refused(begun, sorted, kept, k)
    ensures name in Needs(begun, sorted[k])
    ensures forall r :: r in kept ==> Fold(r.name) != name
    ensures forall j :: k <= j < |sorted| ==> Fold(sorted[j].name) != name
  {
    var name :| name in Needs(begun, sorted[k])
      && (forall r :: r in kept ==> Fold(r.name) != name)
      && (forall j :: k <= j < |sorted| ==> Fold(sorted[j].name) != name);
    name
  }

  lemma ClosedHas(begun: set<Module>, sorted: seq<Module>, s: set<Module>, m: Module, name: string) returns (i: nat)
    requires Closed(begun, s) && s <= Members(sorted) && m in s && name in Needs(begun, m)
    ensures i < |sorted| && sorted[i] in s && Fold(sorted[i].name) == name
  {
    var r :| r in s && Fold(r.name) == name;
    assert r in Members(sorted);
    i :| 0 <= i < |sorted| && sorted[i] == r;
  }

  /** The survivors are the largest set closed under required dependencies. */
  lemma SurvivorsAreLargestClosed(begun: set<Module>, sorted: seq<Module>, kept: seq<Module>)
    requires Sifted(begun, sorted, kept, |sorted|) && RequiredFirst(begun, kept)
    ensures Closed(begun, Members(kept))
    ensures forall s :: Closed(begun, s) && s <= Members(sorted) ==> s <= Members(kept)
  {
    forall m, name | m in Members(kept) && name in Needs(begun, m)
      ensures exists r :: r in Members(kept) && Fold(r.name) == name {
      var j :| 0 <= j < |kept| && kept[j] == m;
      if Fold(m.name) != name {
        assert HasName(kept[..j], name);
        var i :| 0 <= i < j && Fold(kept[i].name) == name;
        assert kept[i] in Members(kept);
      }
    }
    forall s, m | Closed(begun, s) && s <= Members(sorted) && m in s ensures m in Members(kept) {
      assert m in Members(sorted);
      var k :| 0 <= k < |sorted| && sorted[k] == m;
      ClosedSurvives(begun, sorted, kept, s, k);
    }
  }

  /** The modules that are not in `begun`, in order. */
  ghost function Except(s: seq<Module>, begun: set<Module>): seq<Module> {
    if s == [] then []
    else if s[|s| - 1] in begun then Except(s[..|s| - 1], begun)
    else Except(s[..|s| - 1], begun) + [s[|s| - 1]]
  }

  lemma ExceptOneMore(s: seq<Module>, m: Module, begun: set<Module>)
    ensures Except(s + [m], begun) == if m in begun then Except(s, begun) else Except(s, begun) + [m]
  {
    assert (s + [m])[..|s|] == s;
  }

  /** What was started before is not removed. */
  lemma BegunSurvive(begun: set<Module>, sorted: seq<Module>, kept: seq<Module>)
    requires Sifted(begun, sorted, kept, |sorted|)
    ensures forall m :: m in sorted && m in begun ==> m in kept
  {
    forall k | 0 <= k < |sorted| && sorted[k] in begun ensures sorted[k] in kept {
      assert Needs(begun, sorted[k]) == {};
    }
  }

  // ---------- The program ----------

  class Registry {
    /** The buckets of `module_registry`, in order. */
    var modules: seq<Module>
    /** The modules whose startup went through, in order. */
    ghost var log: seq<Module>

    constructor (modules: seq<Module>)
      ensures this.modules == modules && log == []
    {
      this.modules, log := modules, [];
    }

    /** The first later module that a dependency of the unstarted one at `b1`
        names. */
    method FindLater(b1: nat) returns (b2: nat)
      requires b1 < |modules|
      ensures b1 < b2 <= |modules|
      ensures b2 == if modules[b1].started then |modules| else LaterDep(modules, b1, 0)
      ensures if modules[b1].started then b2 == |modules| else FirstLater(modules, b1, b2)
    {
      LaterDepIsFirst(modules, b1);
      var m := modules[b1];
      if m.started {
        return |modules|;
      }
      for k := 0 to |m.deps|
        invariant LaterDep(modules, b1, 0) == LaterDep(modules, b1, k)
      {
        if Orders(m.deps[k]) {
          b2 := b1 + 1;
          while b2 < |modules|
            invariant b1 < b2 <= |modules|
            invariant Later(modules, m.deps[k].name, b1 + 1) == Later(modules, m.deps[k].name, b2)
          {
            if Named(modules[b2], m.deps[k].name) {
              return;
            }
            b2 := b2 + 1;
          }
        }
      }
      b2 := |modules|;
    }

    /** One round of the sort, the `n`th after it began. */
    method SortRound(b1: nat, ghost started: set<Module>, ghost begin: seq<Module>, ghost rank: Module -> nat,
                     ghost n: nat) returns (b1': nat)
      requires Distinct(begin) && Ranked(begin, started, rank)
      requires forall m :: m in begin ==> (m.started <==> m in started)
      requires b1 < |begin| && Rounds(started, begin, n) == Sort(modules, b1)
      modifies this`modules
      ensures Rounds(started, begin, n + 1) == Sort(modules, b1')
      ensures b1' > b1 || (b1' == b1 && rank(modules[b1]) < rank(old(modules[b1])))
    {
      NextRound(started, begin, rank, n, Sort(modules, b1));
      var b2 := FindLater(b1);
      if b2 < |modules| {
        modules := Swapped(modules, b1, b2);
        b1' := b1;
      } else {
        b1' := b1 + 1;
      }
    }

    /** The loop of the sort. */
    method RunRounds(ghost started: set<Module>, ghost begin: seq<Module>, ghost rank: Module -> nat)
      returns (ghost n: nat)
      requires modules == begin && Distinct(begin) && Ranked(begin, started, rank)
      requires forall m :: m in begin ==> (m.started <==> m in started)
      modifies this`modules
      ensures Rounds(started, begin, n) == Sort(modules, |modules|)
    {
      n := 0;
      var b1 := 0;
      while b1 < |modules|
        invariant Rounds(started, begin, n) == Sort(modules, b1)
        decreases |begin| - b1, if b1 < |modules| then rank(modules[b1]) else 0
      {
        b1 := SortRound(b1, started, begin, rank, n);
        n := n + 1;
      }
    }

    /** The swap-and-retry sort: it makes the rounds above, and ends. */
    method SortModules(ghost rank: Module -> nat)
      requires Ranked(modules, Started(modules), rank) && Distinct(modules)
      modifies this`modules
      ensures multiset(modules) == multiset(old(modules))
      ensures SortedUpTo(modules, old(Started(modules)), |modules|)
      ensures NoneTooEarly(modules, old(Started(modules)))
      ensures exists n: nat :: Rounds(old(Started(modules)), old(modules), n) == Sort(modules, |modules|)
    {
      ghost var started, begin := Started(modules), modules;
      ghost var n := RunRounds(started, begin, rank);
      RoundsKeepSorted(started, begin, n);
      SortedIsNoneTooEarly(modules, started);
    }

    /** `zend_hash_find_ptr` by lower-cased name. */
    method Find(name: string) returns (found: Module?)
      ensures found != null ==> found in modules && Named(found, name)
      ensures found == null ==> forall m :: m in modules ==> !Named(m, name)
      ensures found != null ==> SameName(found.name, name)
      ensures forall m :: m in modules && SameName(m.name, name) ==>
        found != null && (NamesIdentify(modules) ==> found == m)
    {
      forall m | m in modules ensures Named(m, name) <==> SameName(m.name, name) {
        NamedIff(m, name);
      }
      for i := 0 to |modules|
        invariant forall j :: 0 <= j < i ==> !Named(modules[j], name)
      {
        if Named(modules[i], name) {
          return modules[i];
        }
      }
      return null;
    }

    /** Some required module is missing or not started, and not `m` itself. */
    ghost predicate Lacks(m: Module)
      reads this, modules
    {
      exists name :: name in Requires(m) && !exists r :: r in modules && Fold(r.name) == name && (r.started || r == m)
    }

    ghost function MissingName(m: Module): (name: string)
      requires Lacks(m)
      reads this, modules
      ensures name in Requires(m)
      ensures forall r :: r in modules && Fold(r.name) == name ==> !r.started && r != m
    {
      var name :| name in Requires(m) && !exists r :: r in modules && Fold(r.name) == name && (r.started || r == m);
      name
    }

    /** Starts one module unless a required one is missing.  Initialising its
        globals and its startup function are taken to succeed: their failure
        ends the process. */
    method StartupModuleEx(m: Module) returns (ok: bool)
      requires m in modules && NamesIdentify(modules)
      modifies m, this`log
      ensures old(m.started) ==> ok && m.started && log == old(log)
      ensures !old(m.started) ==> ok == !old(Lacks(m)) && m.started == ok
      ensures !old(m.started) ==> log == if ok then old(log) + [m] else old(log)
    {
      if m.started {
        return true;
      }
      ghost var lacking := Lacks(m);
      m.started := true;
      for k := 0 to |m.deps|
        invariant m.started && log == old(log)
        invariant forall l :: 0 <= l < k && m.deps[l].kind == Required ==>
          exists r :: r in modules && Fold(r.name) == Fold(m.deps[l].name) && (old(r.started) || r == m)
      {
        if m.deps[k].kind == Required {
          var req := Find(m.deps[k].name);
          if req == null || !req.started {
            m.started := false;
            assert Fold(m.deps[k].name) in Requires(m);
            assert forall r :: r in modules && Fold(r.name) == Fold(m.deps[k].name) ==> r == req;
            assert lacking;
            return false;
          }
        }
      }
      log := log + [m];
      return true;
    }

    /** Among `sorted`, those in `kept` have started, and those begun before. */
    ghost predicate Running(begun: set<Module>, sorted: seq<Module>, kept: seq<Module>)
      reads sorted
    {
      forall m :: m in sorted ==> (m.started <==> m in kept || m in begun)
    }

    /** A module that lacks nothing has all it requires among the survivors. */
    lemma EnoughKept(begun: set<Module>, sorted: seq<Module>, kept: seq<Module>, q: nat)
      requires q < |sorted| && Tried(begun, modules, sorted, kept, q) && Running(begun, sorted, kept)
      requires !Lacks(sorted[q]) && SortedUpTo(sorted, begun, |sorted|)
      ensures forall name :: name in Needs(begun, sorted[q]) ==> HasName(kept, name) || Fold(sorted[q].name) == name
    {
      var m := sorted[q];
      forall name | name in Needs(begun, m) && Fold(m.name) != name ensures HasName(kept, name) {
        var r :| r in modules && Fold(r.name) == name && (r.started || r == m);
        NoneLater(begun, sorted, q, name);
        var i :| 0 <= i < |kept| && kept[i] == r;
      }
    }

    /** The walk has tried the first `q` modules of `sorted` and is at `p`. */
    ghost predicate Applying(begun: set<Module>, sorted: seq<Module>, before: seq<Module>, kept: seq<Module>, q: nat,
                             p: nat)
      reads this, sorted
    {
      && p == |kept| && Tried(begun, modules, sorted, kept, q) && Running(begun, sorted, kept)
      && log == before + Except(kept, begun) && NoneTooEarly(modules, begun)
    }

    /** `zend_startup_module_zval` on the module at `p`: keep it or remove it. */
    method StartupNext(p: nat, ghost begun: set<Module>, ghost sorted: seq<Module>, ghost before: seq<Module>,
                       ghost kept: seq<Module>, ghost q: nat)
      returns (p': nat, ghost kept': seq<Module>)
      requires q < |sorted| && Applying(begun, sorted, before, kept, q, p) && Startable(begun, sorted)
      modifies this, sorted
      ensures Applying(begun, sorted, before, kept', q + 1, p')
    {
      TriedMembers(begun, modules, sorted, kept, q);
      var m := modules[p];
      UnseenModule(sorted, kept, q);
      ghost var lacking := Lacks(m);
      ghost var missing := if lacking then MissingName(m) else "";
      if !lacking {
        EnoughKept(begun, sorted, kept, q);
      }
      var ok := StartupModuleEx(m);
      if ok {
        TriedAndKept(begun, modules, sorted, kept, q);
        ExceptOneMore(kept, m, begun);
        p', kept' := p + 1, kept + [m];
      } else {
        TriedAndRefused(begun, modules, sorted, kept, q, missing);
        RemovalKeepsOrder(modules, p, begun);
        modules := modules[..p] + modules[p + 1..];
        p', kept' := p, kept;
      }
    }

    lemma AppliedAll(begun: set<Module>, sorted: seq<Module>, before: seq<Module>, kept: seq<Module>, q: nat, p: nat)
      requires Applying(begun, sorted, before, kept, q, p)
      ensures if p < |modules| then q < |sorted| else q == |sorted| && modules == kept
    {
      TriedAtEnd(begun, modules, sorted, kept, q);
    }

    /** `zend_hash_apply` of the above. */
    method ApplyStartup(ghost begun: set<Module>, ghost sorted: seq<Module>) returns (ghost kept: seq<Module>)
      requires modules == sorted && forall m :: m in sorted ==> (m.started <==> m in begun)
      requires Startable(begun, sorted)
      modifies this, sorted
      ensures modules == kept && Applying(begun, sorted, old(log), kept, |sorted|, |kept|)
    {
      ghost var q: nat := 0;
      var p: nat := 0;
      kept := [];
      TriedAtStart(begun, sorted);
      SortedIsNoneTooEarly(sorted, begun);
      while p < |modules|
        invariant q <= |sorted| && Applying(begun, sorted, old(log), kept, q, p)
        decreases |sorted| - q
      {
        AppliedAll(begun, sorted, old(log), kept, q, p);
        p, kept := StartupNext(p, begun, sorted, old(log), kept, q);
        q := q + 1;
      }
      AppliedAll(begun, sorted, old(log), kept, q, p);
    }

    /** Sort, then start in order, dropping the modules that lack a required
        one.  The largest set closed under what startup asks for survives, and each
        module started now starts after all the others it requires.  Those started
        before stay as they are. */
    method StartupModules(ghost rank: Module -> nat)
      requires Ranked(modules, Started(modules), rank) && DistinctNames(modules)
      modifies this, modules
      ensures Members(modules) <= Members(old(modules))
      ensures Closed(old(Started(modules)), Members(modules))
      ensures forall s :: Closed(old(Started(modules)), s) && s <= Members(old(modules)) ==> s <= Members(modules)
      ensures forall m :: m in old(modules) ==> (m.started <==> m in modules)
      ensures log == old(log) + Except(modules, old(Started(modules)))
      ensures RequiredFirst(old(Started(modules)), modules)
      ensures NoneTooEarly(modules, old(Started(modules)))
      ensures Supplied(old(Started(modules)), Members(modules))
      ensures forall s :: Supplied(old(Started(modules)), s) && s <= Members(old(modules)) ==> s <= Members(modules)
    {
      ghost var begun := Started(modules);
      SortModules(rank);
      ghost var sorted := modules;
      DistinctDespitePermutation(old(modules), sorted);
      assert forall i :: 0 <= i < |modules| ==> modules[i] in old(modules);
      ghost var kept := ApplyStartup(begun, sorted);
      SurvivorsAreLargestClosed(begun, sorted, kept);
      BegunSurvive(begun, sorted, kept);
      forall s ensures Closed(begun, s) <==> Supplied(begun, s) {
        ClosedIffSupplied(begun, s);
      }
    }
  }
}
