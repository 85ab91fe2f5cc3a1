/** When the printers of Zend/zend.c announce a recursion: exactly when a cycle can
    be reached from the value they print. */
module PrinterCycles {
  import opened Printer

  // ---------- How often a recursion is announced ----------

  /** The nodes that carry a recursion mark: objects and arrays that can change. */
  predicate Guarded(g: Graph, v: Value) {
    v.Object? || (v.Array? && v.id in g && g[v.id].ArrayNode? && !g[v.id].immutable)
  }

  /** How many times printing `v` comes to a node that is being printed. */
  ghost function Notices(g: Graph, rank: Id -> nat, marks: set<Id>, v: Value): nat
    requires GraphOk(g, rank) && ValueOk(g, v)
    decreases Unmarked(g, marks), Weight(g, rank, v), 1, 0
  {
    match v
    case Scalar(_) => 0
    case Reference(id) => Notices(g, rank, marks, g[id].value)
    case Array(id) =>
      var s := g[id].elements;
      assert EntriesOf(g[id]) == s;
      if g[id].immutable then
        ImmutableHeft(g, rank, id);
        EntryNotices(g, rank, marks, s)
      else if id in marks then 1
      else
        MarkingShrinks(g, marks, id);
        EntryNotices(g, rank, marks + {id}, s)
    case Object(id) =>
      if id in marks then 1
      else if g[id].properties == NoTable then 0
      else
        MarkingShrinks(g, marks, id);
        EntryNotices(g, rank, marks + {id}, EntriesOf(g[id]))
  }

  ghost function EntryNotices(g: Graph, rank: Id -> nat, marks: set<Id>, s: Entries): nat
    requires GraphOk(g, rank) && EntriesOk(g, s)
    decreases Unmarked(g, marks), Heft(g, rank, s), 0, |s|
  {
    if s == [] then 0
    else EntryNotices(g, rank, marks, s[..|s| - 1]) + Notices(g, rank, marks, s[|s| - 1].1)
  }

  // ---------- What a notice adds to the text ----------

  /** `with` is `without` and, when `n` is not 0, at least one notice more. */
  ghost predicate Longer(with: string, without: string, notice: string, n: nat) {
    if n == 0 then with == without else |with| >= |without| + |notice|
  }

  lemma {:induction false} NoticesShow(notice: string, g: Graph, rank: Id -> nat, marks: set<Id>, v: Value, indent: nat)
    requires GraphOk(g, rank) && ValueOk(g, v)
    ensures Longer(Text(notice, g, rank, marks, v, indent), Text("", g, rank, marks, v, indent), notice,
                   Notices(g, rank, marks, v))
    decreases Unmarked(g, marks), Weight(g, rank, v), 1, 0
  {
    match v
    case Scalar(_) =>
    case Reference(id) => NoticesShow(notice, g, rank, marks, g[id].value, indent);
    case Array(id) =>
      var s := g[id].elements;
      assert EntriesOf(g[id]) == s;
      if g[id].immutable {
        ImmutableHeft(g, rank, id);
        HashNoticesShow(notice, g, rank, marks, s, indent, false);
      } else if id !in marks {
        MarkingShrinks(g, marks, id);
        HashNoticesShow(notice, g, rank, marks + {id}, s, indent, false);
      }
    case Object(id) =>
      if id !in marks && g[id].properties != NoTable {
        MarkingShrinks(g, marks, id);
        HashNoticesShow(notice, g, rank, marks + {id}, EntriesOf(g[id]), indent, true);
      } else if id !in marks {
        HashNoticesShow(notice, g, rank, marks, [], indent, true);
      }
  }

  lemma {:induction false} HashNoticesShow(notice: string, g: Graph, rank: Id -> nat, marks: set<Id>, s: Entries,
                                           indent: nat, isObject: bool)
    requires GraphOk(g, rank) && EntriesOk(g, s)
    ensures Longer(HashText(notice, g, rank, marks, s, indent, isObject),
                   HashText("", g, rank, marks, s, indent, isObject), notice, EntryNotices(g, rank, marks, s))
    decreases Unmarked(g, marks), Heft(g, rank, s), 0, |s| + 1
  {
    EntryNoticesShow(notice, g, rank, marks, s, indent + INDENT, isObject);
  }

  lemma {:induction false} EntryNoticesShow(notice: string, g: Graph, rank: Id -> nat, marks: set<Id>, s: Entries,
                                            indent: nat, isObject: bool)
    requires GraphOk(g, rank) && EntriesOk(g, s)
    ensures Longer(EntriesText(notice, g, rank, marks, s, indent, isObject),
                   EntriesText("", g, rank, marks, s, indent, isObject), notice, EntryNotices(g, rank, marks, s))
    decreases Unmarked(g, marks), Heft(g, rank, s), 0, |s|
  {
    if s != [] {
      EntryNoticesShow(notice, g, rank, marks, s[..|s| - 1], indent, isObject);
      NoticesShow(notice, g, rank, marks, s[|s| - 1].1, indent + INDENT);
    }
  }

  lemma {:induction false} FlatNoticesShow(notice: string, g: Graph, rank: Id -> nat, marks: set<Id>, v: Value)
    requires GraphOk(g, rank) && ValueOk(g, v)
    ensures Longer(FlatText(notice, g, rank, marks, v), FlatText("", g, rank, marks, v), notice,
                   Notices(g, rank, marks, v))
    decreases Unmarked(g, marks), Weight(g, rank, v), 1, 0
  {
    match v
    case Scalar(_) =>
    case Reference(id) => FlatNoticesShow(notice, g, rank, marks, g[id].value);
    case Array(id) =>
      var s := g[id].elements;
      assert EntriesOf(g[id]) == s;
      if g[id].immutable {
        ImmutableHeft(g, rank, id);
        FlatEntryNoticesShow(notice, g, rank, marks, s);
      } else if id !in marks {
        MarkingShrinks(g, marks, id);
        FlatEntryNoticesShow(notice, g, rank, marks + {id}, s);
      }
    case Object(id) =>
      if id !in marks && g[id].properties != NoTable {
        MarkingShrinks(g, marks, id);
        FlatEntryNoticesShow(notice, g, rank, marks + {id}, EntriesOf(g[id]));
      }
  }

  lemma {:induction false} FlatEntryNoticesShow(notice: string, g: Graph, rank: Id -> nat, marks: set<Id>, s: Entries)
    requires GraphOk(g, rank) && EntriesOk(g, s)
    ensures Longer(FlatEntries(notice, g, rank, marks, s), FlatEntries("", g, rank, marks, s), notice,
                   EntryNotices(g, rank, marks, s))
    decreases Unmarked(g, marks), Heft(g, rank, s), 0, |s|
  {
    if s != [] {
      FlatEntryNoticesShow(notice, g, rank, marks, s[..|s| - 1]);
      FlatNoticesShow(notice, g, rank, marks, s[|s| - 1].1);
    }
  }

  // ---------- Walks ----------

  ghost predicate LeadsTo(g: Graph, v: Value, w: Value) {
    match v
    case Scalar(_) => false
    case Reference(id) => id in g && g[id].ReferenceNode? && w == g[id].value
    case Array(id) => id in g && exists k :: 0 <= k < |EntriesOf(g[id])| && EntriesOf(g[id])[k].1 == w
    case Object(id) => id in g && exists k :: 0 <= k < |EntriesOf(g[id])| && EntriesOf(g[id])[k].1 == w
  }

  ghost predicate Walk(g: Graph, p: seq<Value>) {
    p != [] && forall k :: 0 <= k < |p| - 1 ==> LeadsTo(g, p[k], p[k + 1])
  }

  /** The walk ends at a node that carries a mark: one of `marks`, or its own from
      having come through it. */
  ghost predicate Hits(g: Graph, marks: set<Id>, p: seq<Value>) {
    && Walk(g, p) && Guarded(g, p[|p| - 1])
    && (p[|p| - 1].id in marks || exists k :: 0 <= k < |p| - 1 && Guarded(g, p[k]) && p[k].id == p[|p| - 1].id)
  }

  /** A cycle can be reached from `v`. */
  ghost predicate ReachesCycle(g: Graph, v: Value) {
    exists p, i, j :: ComesBack(g, v, p, i, j)
  }

  ghost predicate ComesBack(g: Graph, v: Value, p: seq<Value>, i: nat, j: nat) {
    Walk(g, p) && p[0] == v && i < j < |p| && p[i] == p[j]
  }

  /** One step before a walk, from a value whose mark, if it has one, is set. */
  lemma StepBefore(g: Graph, marks: set<Id>, v: Value, p: seq<Value>)
    requires p != [] && LeadsTo(g, v, p[0]) && Hits(g, if Guarded(g, v) then marks + {v.id} else marks, p)
    ensures Hits(g, marks, [v] + p)
  {
    var q := [v] + p;
    forall k | 0 <= k < |q| - 1 ensures LeadsTo(g, q[k], q[k + 1]) {
      if k > 0 {
        assert LeadsTo(g, p[k - 1], p[k - 1 + 1]);
      }
    }
    var last := p[|p| - 1];
    assert q[|q| - 1] == last && q[0] == v;
    if k :| 0 <= k < |p| - 1 && Guarded(g, p[k]) && p[k].id == last.id {
      assert q[k + 1] == p[k];
    }
  }

  /** Where a recursion is announced a walk leads to. */
  lemma {:induction false} NoticeHasWalk(g: Graph, rank: Id -> nat, marks: set<Id>, v: Value) returns (p: seq<Value>)
    requires GraphOk(g, rank) && ValueOk(g, v) && Notices(g, rank, marks, v) > 0
    ensures Hits(g, marks, p) && p[0] == v
    decreases Unmarked(g, marks), Weight(g, rank, v), 1, 0
  {
    match v
    case Reference(id) =>
      p := NoticeHasWalk(g, rank, marks, g[id].value);
      StepBefore(g, marks, v, p);
      p := [v] + p;
    case Array(id) =>
      var s := g[id].elements;
      assert EntriesOf(g[id]) == s;
      if g[id].immutable {
        ImmutableHeft(g, rank, id);
        var k;
        k, p := EntryHasWalk(g, rank, marks, s);
        StepBefore(g, marks, v, p);
        p := [v] + p;
      } else if id in marks {
        p := [v];
      } else {
        MarkingShrinks(g, marks, id);
        var k;
        k, p := EntryHasWalk(g, rank, marks + {id}, s);
        StepBefore(g, marks, v, p);
        p := [v] + p;
      }
    case Object(id) =>
      if id in marks {
        p := [v];
      } else {
        MarkingShrinks(g, marks, id);
        var k;
        k, p := EntryHasWalk(g, rank, marks + {id}, EntriesOf(g[id]));
        StepBefore(g, marks, v, p);
        p := [v] + p;
      }
  }

  lemma {:induction false} EntryHasWalk(g: Graph, rank: Id -> nat, marks: set<Id>, s: Entries)
    returns (k: nat, p: seq<Value>)
    requires GraphOk(g, rank) && EntriesOk(g, s) && EntryNotices(g, rank, marks, s) > 0
    ensures k < |s| && Hits(g, marks, p) && p[0] == s[k].1
    decreases Unmarked(g, marks), Heft(g, rank, s), 0, |s|
  {
    if Notices(g, rank, marks, s[|s| - 1].1) > 0 {
      k := |s| - 1;
      p := NoticeHasWalk(g, rank, marks, s[k].1);
    } else {
      k, p := EntryHasWalk(g, rank, marks, s[..|s| - 1]);
    }
  }

  lemma {:induction false} EntryHasNotice(g: Graph, rank: Id -> nat, marks: set<Id>, s: Entries, k: nat)
    requires GraphOk(g, rank) && EntriesOk(g, s) && k < |s| && Notices(g, rank, marks, s[k].1) > 0
    ensures EntryNotices(g, rank, marks, s) > 0
    decreases |s|
  {
    if k < |s| - 1 {
      EntryHasNotice(g, rank, marks, s[..|s| - 1], k);
    }
  }

  lemma StepOk(g: Graph, rank: Id -> nat, v: Value, w: Value)
    requires GraphOk(g, rank) && ValueOk(g, v) && LeadsTo(g, v, w)
    ensures ValueOk(g, w)
  {
    if !v.Reference? {
      assert EntriesOk(g, EntriesOf(g[v.id]));
    }
  }

  /** The rest of a walk, once the mark of its first value is set. */
  lemma StepAfter(g: Graph, marks: set<Id>, p: seq<Value>)
    requires |p| > 1 && Hits(g, marks, p)
    ensures Hits(g, if Guarded(g, p[0]) then marks + {p[0].id} else marks, p[1..])
  {
    var q := p[1..];
    forall k | 0 <= k < |q| - 1 ensures LeadsTo(g, q[k], q[k + 1]) {
      assert LeadsTo(g, p[k + 1], p[k + 1 + 1]);
    }
    if k :| 0 < k < |p| - 1 && Guarded(g, p[k]) && p[k].id == p[|p| - 1].id {
      assert q[k - 1] == p[k];
    }
  }

  /** A walk to a marked node makes the printer announce a recursion. */
  lemma {:induction false} WalkHasNotice(g: Graph, rank: Id -> nat, marks: set<Id>, p: seq<Value>)
    requires GraphOk(g, rank) && p != [] && ValueOk(g, p[0]) && Hits(g, marks, p)
    ensures Notices(g, rank, marks, p[0]) > 0
    decreases |p|
  {
    var v := p[0];
    if !(Guarded(g, v) && v.id in marks) {
      assert LeadsTo(g, p[0], p[0 + 1]);
      StepOk(g, rank, v, p[1]);
      StepAfter(g, marks, p);
      var marks' := if Guarded(g, v) then marks + {v.id} else marks;
      WalkHasNotice(g, rank, marks', p[1..]);
      if !v.Reference? {
        var s := EntriesOf(g[v.id]);
        var k :| 0 <= k < |s| && s[k].1 == p[1];
        EntryHasNotice(g, rank, marks', s, k);
      }
    }
  }

  // ---------- Cycles ----------

  lemma {:induction false} WalkOk(g: Graph, rank: Id -> nat, p: seq<Value>, k: nat)
    requires GraphOk(g, rank) && Walk(g, p) && ValueOk(g, p[0]) && k < |p|
    ensures ValueOk(g, p[k])
  {
    if k > 0 {
      WalkOk(g, rank, p, k - 1);
      assert LeadsTo(g, p[k - 1], p[k - 1 + 1]);
      StepOk(g, rank, p[k - 1], p[k]);
    }
  }

  /** A value that carries no mark and is not a scalar: a reference, which leads to no
      reference, or an immutable array, which leads down. */
  lemma {:induction false} UnguardedLeadsDown(g: Graph, rank: Id -> nat, p: seq<Value>, i: nat, j: nat)
    requires GraphOk(g, rank) && Walk(g, p) && ValueOk(g, p[0]) && i < j < |p|
    requires forall k :: i <= k <= j ==> !Guarded(g, p[k])
    ensures p[j].Scalar? || (p[j].Array? && (p[i].Array? ==> rank(p[j].id) < rank(p[i].id)))
  {
    WalkOk(g, rank, p, j - 1);
    assert LeadsTo(g, p[j - 1], p[j - 1 + 1]);
    if j - 1 > i {
      UnguardedLeadsDown(g, rank, p, i, j - 1);
    }
    if p[j - 1].Array? {
      var id := p[j - 1].id;
      assert EntriesOf(g[id]) == g[id].elements;
    }
  }

  /** Every cycle comes through a node that carries a mark. */
  lemma CycleIsGuarded(g: Graph, rank: Id -> nat, v: Value, p: seq<Value>, i: nat, j: nat) returns (k: nat)
    requires GraphOk(g, rank) && ValueOk(g, v) && ComesBack(g, v, p, i, j)
    ensures i <= k < j && Guarded(g, p[k])
  {
    if forall m :: i <= m < j ==> !Guarded(g, p[m]) {
      WalkOk(g, rank, p, i);
      assert LeadsTo(g, p[i], p[i + 1]);
      UnguardedLeadsDown(g, rank, p, i, j);
      assert false;
    }
    k :| i <= k < j && Guarded(g, p[k]);
  }

  /** Once round the cycle, and on to the marked node again. */
  lemma CycleHits(g: Graph, rank: Id -> nat, v: Value, p: seq<Value>, i: nat, j: nat) returns (q: seq<Value>)
    requires GraphOk(g, rank) && ValueOk(g, v) && ComesBack(g, v, p, i, j)
    ensures Hits(g, {}, q) && q[0] == v
  {
    var k := CycleIsGuarded(g, rank, v, p, i, j);
    q := p[..j + 1] + p[i + 1..k + 1];
    forall m | 0 <= m < |q| - 1 ensures LeadsTo(g, q[m], q[m + 1]) {
      if m < j {
        assert LeadsTo(g, p[m], p[m + 1]);
      } else {
        var n := m - j + i;
        assert q[m] == p[n] && q[m + 1] == p[n + 1];
        assert LeadsTo(g, p[n], p[n + 1]);
      }
    }
    assert q[|q| - 1] == p[k] && q[k] == p[k];
  }

  lemma HitsIsCycle(g: Graph, rank: Id -> nat, v: Value, p: seq<Value>)
    requires GraphOk(g, rank) && ValueOk(g, v) && Hits(g, {}, p) && p[0] == v
    ensures ReachesCycle(g, v)
  {
    var k :| 0 <= k < |p| - 1 && Guarded(g, p[k]) && p[k].id == p[|p| - 1].id;
    WalkOk(g, rank, p, k);
    WalkOk(g, rank, p, |p| - 1);
    assert p[k] == p[|p| - 1];
    assert ComesBack(g, v, p, k, |p| - 1);
  }

  lemma NoticesIffCycle(g: Graph, rank: Id -> nat, v: Value)
    requires GraphOk(g, rank) && ValueOk(g, v)
    ensures Notices(g, rank, {}, v) > 0 <==> ReachesCycle(g, v)
  {
    if Notices(g, rank, {}, v) > 0 {
      var p := NoticeHasWalk(g, rank, {}, v);
      HitsIsCycle(g, rank, v, p);
    }
    if ReachesCycle(g, v) {
      var p, i, j :| ComesBack(g, v, p, i, j);
      var q := CycleHits(g, rank, v, p, i, j);
      WalkHasNotice(g, rank, {}, q);
    }
  }

  /** A recursion is announced, by either printer, if and only if a cycle can be
      reached from the value: without one the notice can be anything, with one it
      shows. */
  lemma RecursionIsAnnouncedIffCycle(g: Graph, rank: Id -> nat, v: Value, indent: nat)
    requires GraphOk(g, rank) && ValueOk(g, v)
    ensures Text(RECURSION, g, rank, {}, v, indent) != Text("", g, rank, {}, v, indent) <==> ReachesCycle(g, v)
    ensures FlatText(RECURSION, g, rank, {}, v) != FlatText("", g, rank, {}, v) <==> ReachesCycle(g, v)
  {
    NoticesIffCycle(g, rank, v);
    NoticesShow(RECURSION, g, rank, {}, v, indent);
    FlatNoticesShow(RECURSION, g, rank, {}, v);
  }
}
