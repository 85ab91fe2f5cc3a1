/** The line differ of run-tests.php: a linear-space longest common subsequence
    (Hirschberg's divide and conquer) replayed into a numbered edit script. */
module Differ {
  import opened Sequences
  import opened Lcs

  // ---------- The LCS tables ----------

  /** One step of the dynamic programme, on prefixes. */
  lemma LengthOfPrefixes<T>(eq: (T, T) -> bool, a: seq<T>, b: seq<T>, i: nat, j: nat)
    requires i < |a| && j < |b|
    ensures Length(eq, a[..i + 1], b[..j + 1]) ==
      if eq(a[i], b[j]) then Length(eq, a[..i], b[..j]) + 1
      else Max(Length(eq, a[..i + 1], b[..j]), Length(eq, a[..i], b[..j + 1]))
  {
    assert a[..i + 1][..i] == a[..i] && b[..j + 1][..j] == b[..j];
  }

  /** The LCS lengths of `from` against every prefix of `to`, with one row of
      memory. */
  method CommonSubsequenceLength<T>(eq: (T, T) -> bool, from: seq<T>, to: seq<T>) returns (row: seq<nat>)
    ensures |row| == |to| + 1
    ensures forall j :: 0 <= j <= |to| ==> row[j] == Length(eq, from, to[..j])
  {
    var current := new nat[|to| + 1](_ => 0);
    for i := 0 to |from|
      invariant forall j :: 0 <= j <= |to| ==> current[j] == Length(eq, from[..i], to[..j])
    {
      var prev := current[..];
      for j := 0 to |to|
        invariant forall k :: 0 <= k <= j ==> current[k] == Length(eq, from[..i + 1], to[..k])
        invariant forall k :: j < k <= |to| ==> current[k] == Length(eq, from[..i], to[..k])
      {
        LengthOfPrefixes(eq, from, to, i, j);
        if eq(from[i], to[j]) {
          current[j + 1] := prev[j] + 1;
        } else {
          current[j + 1] := Max(current[j], prev[j + 1]);
        }
      }
    }
    assert from[..|from|] == from;
    row := current[..];
  }

  /** What cutting `to` at `j` is worth when `from` is cut into `fs` and `fe`. */
  ghost function SplitScore<T>(eq: (T, T) -> bool, fs: seq<T>, fe: seq<T>, to: seq<T>, j: nat): nat
    requires j <= |to|
  {
    Length(eq, fs, to[..j]) + Length(eq, fe, to[j..])
  }

  /** The last of the best cuts among 0..n. */
  ghost function BestSplit<T>(eq: (T, T) -> bool, fs: seq<T>, fe: seq<T>, to: seq<T>, n: nat): (j: nat)
    requires n <= |to|
    ensures j <= n
    ensures forall k :: 0 <= k <= n ==> SplitScore(eq, fs, fe, to, k) <= SplitScore(eq, fs, fe, to, j)
    ensures forall k :: j < k <= n ==> SplitScore(eq, fs, fe, to, k) < SplitScore(eq, fs, fe, to, j)
  {
    if n == 0 then 0
    else
      var j := BestSplit(eq, fs, fe, to, n - 1);
      if SplitScore(eq, fs, fe, to, n) >= SplitScore(eq, fs, fe, to, j) then n else j
  }

  ghost function FirstMatch<T>(eq: (T, T) -> bool, x: T, to: seq<T>): seq<T> {
    if to == [] then [] else if eq(x, to[0]) then [to[0]] else FirstMatch(eq, x, to[1..])
  }

  /** The divide and conquer, with the tables replaced by `Length`. */
  ghost function CommonSubsequence<T>(eq: (T, T) -> bool, from: seq<T>, to: seq<T>): seq<T>
    decreases |from|
  {
    if |from| == 0 then []
    else if |from| == 1 then FirstMatch(eq, from[0], to)
    else
      var i := |from| / 2;
      var j := BestSplit(eq, from[..i], from[i..], to, |to|);
      CommonSubsequence(eq, from[..i], to[..j]) + CommonSubsequence(eq, from[i..], to[j..])
  }

  /** A single token is matched with the first that equals it. */
  lemma {:induction false} SingleTakesFirst<T>(eq: (T, T) -> bool, x: T, to: seq<T>, k: nat)
    requires k <= |to| && (forall j :: 0 <= j < k ==> !eq(x, to[j])) && (k < |to| ==> eq(x, to[k]))
    ensures CommonSubsequence(eq, [x], to) == if k < |to| then [to[k]] else []
  {
    if k > 0 {
      SingleTakesFirst(eq, x, to[1..], k - 1);
    }
  }

  /** Longer lists are cut in the middle, and the other list at the last of its best cuts. */
  lemma HalvesAreJoined<T>(eq: (T, T) -> bool, from: seq<T>, to: seq<T>, i: nat, j: nat)
    requires |from| >= 2 && (|from| == 2 * i || |from| == 2 * i + 1) && j <= |to|
    requires forall k :: 0 <= k <= |to| ==>
      SplitScore(eq, from[..i], from[i..], to, k) <= SplitScore(eq, from[..i], from[i..], to, j)
    requires forall k :: j < k <= |to| ==>
      SplitScore(eq, from[..i], from[i..], to, k) < SplitScore(eq, from[..i], from[i..], to, j)
    ensures CommonSubsequence(eq, from, to)
         == CommonSubsequence(eq, from[..i], to[..j]) + CommonSubsequence(eq, from[i..], to[j..])
  {
    assert i == |from| / 2;
    var l := BestSplit(eq, from[..i], from[i..], to, |to|);
    assert l == j;
  }

  method ScanForFirstMatch<T>(eq: (T, T) -> bool, x: T, to: seq<T>) returns (common: seq<T>)
    ensures common == FirstMatch(eq, x, to)
  {
    for k := 0 to |to|
      invariant FirstMatch(eq, x, to) == FirstMatch(eq, x, to[k..])
    {
      if eq(x, to[k]) {
        return [to[k]];
      }
    }
    return [];
  }

  /** A prefix of the reversed `to`, measured against the reversed half, is a
      suffix of `to` measured against the half. */
  lemma LengthOfReversedSuffix<T>(eq: (T, T) -> bool, fe: seq<T>, to: seq<T>, j: nat)
    requires j <= |to|
    ensures Length(eq, Reverse(fe), Reverse(to)[..|to| - j]) == Length(eq, fe, to[j..])
  {
    assert Reverse(to)[..|to| - j] == Reverse(to[j..]);
    LengthOfReverse(eq, fe, to[j..]);
  }

  /** The maximising loop over the two tables. */
  method FindBestSplit<T>(eq: (T, T) -> bool, fromStart: seq<T>, fromEnd: seq<T>, to: seq<T>) returns (jMax: nat)
    ensures jMax == BestSplit(eq, fromStart, fromEnd, to, |to|)
  {
    var llB := CommonSubsequenceLength(eq, fromStart, to);
    var llE := CommonSubsequenceLength(eq, Reverse(fromEnd), Reverse(to));
    var max := 0;
    jMax := 0;
    for j := 0 to |to| + 1
      invariant j == 0 ==> jMax == 0 && max == 0
      invariant 0 < j ==> jMax == BestSplit(eq, fromStart, fromEnd, to, j - 1)
      invariant 0 < j ==> max == SplitScore(eq, fromStart, fromEnd, to, jMax)
    {
      LengthOfReversedSuffix(eq, fromEnd, to, j);
      var m := llB[j] + llE[|to| - j];
      assert m == SplitScore(eq, fromStart, fromEnd, to, j);
      if m >= max {
        max, jMax := m, j;
      }
    }
  }

  method CalculateCommonSubsequence<T>(eq: (T, T) -> bool, from: seq<T>, to: seq<T>) returns (common: seq<T>)
    ensures common == CommonSubsequence(eq, from, to)
    decreases |from|
  {
    if |from| == 0 {
      return [];
    }
    if |from| == 1 {
      common := ScanForFirstMatch(eq, from[0], to);
      return;
    }
    var i := |from| / 2;
    var fromStart, fromEnd := from[..i], from[i..];
    var jMax := FindBestSplit(eq, fromStart, fromEnd, to);
    var first := CalculateCommonSubsequence(eq, fromStart, to[..jMax]);
    var second := CalculateCommonSubsequence(eq, fromEnd, to[jMax..]);
    common := first + second;
  }

  /** The tokens of `to` that a matching selects. */
  ghost function Selected<T>(to: seq<T>, m: seq<Pair>): (s: seq<T>)
    requires forall k :: 0 <= k < |m| ==> m[k].1 < |to|
    ensures |s| == |m| && forall k :: 0 <= k < |m| ==> s[k] == to[m[k].1]
  {
    seq(|m|, k requires 0 <= k < |m| => to[m[k].1])
  }

  lemma {:induction false} MatchingFitsRows<T>(eq: (T, T) -> bool, a: seq<T>, b: seq<T>, m: seq<Pair>)
    requires IsMatching(eq, a, b, m)
    ensures |m| <= |a|
  {
    if m != [] {
      var last := m[|m| - 1];
      MatchingFitsRows(eq, a[..last.0], b, m[..|m| - 1]);
    }
  }

  lemma {:induction false} FirstMatchIsOptimal<T>(eq: (T, T) -> bool, x: T, to: seq<T>) returns (m: seq<Pair>)
    ensures IsMatching(eq, [x], to, m) && |m| == Length(eq, [x], to)
    ensures FirstMatch(eq, x, to) == Selected(to, m)
  {
    var best := LengthIsAttained(eq, [x], to);
    MatchingFitsRows(eq, [x], to, best);
    if to == [] {
      m := [];
    } else if eq(x, to[0]) {
      m := [(0, 0)];
      LengthIsUpperBound(eq, [x], to, m);
    } else {
      var rest := FirstMatchIsOptimal(eq, x, to[1..]);
      m := Shift(rest, 0, 1);
      LengthIsUpperBound(eq, [x], to, m);
      if |best| == 1 {
        assert best[0].1 > 0;
        assert IsMatching(eq, [x], to[1..], [(0, best[0].1 - 1)]);
        LengthIsUpperBound(eq, [x], to[1..], [(0, best[0].1 - 1)]);
      }
    }
  }

  lemma SelectedJoin<T>(to: seq<T>, j: nat, m: seq<Pair>, n: seq<Pair>, i: nat)
    requires j <= |to|
    requires forall k :: 0 <= k < |m| ==> m[k].1 < j
    requires forall k :: 0 <= k < |n| ==> n[k].1 < |to| - j
    ensures Selected(to, m + Shift(n, i, j)) == Selected(to[..j], m) + Selected(to[j..], n)
  {}

  /** The chosen cut of the second input loses nothing. */
  lemma BestSplitIsOptimal<T>(eq: (T, T) -> bool, from: seq<T>, to: seq<T>, i: nat)
    requires i <= |from|
    ensures SplitScore(eq, from[..i], from[i..], to, BestSplit(eq, from[..i], from[i..], to, |to|))
         == Length(eq, from, to)
  {
    var j := BestSplit(eq, from[..i], from[i..], to, |to|);
    var best := SplitIsAttained(eq, from, to, i);
    SplitIsLowerBound(eq, from, to, i, j);
    assert SplitScore(eq, from[..i], from[i..], to, best) <= SplitScore(eq, from[..i], from[i..], to, j);
  }

  /** The divide and conquer returns a maximum non-crossing matching. */
  lemma {:induction false} CommonSubsequenceIsOptimal<T>(eq: (T, T) -> bool, from: seq<T>, to: seq<T>)
    returns (m: seq<Pair>)
    ensures IsMatching(eq, from, to, m) && |m| == Length(eq, from, to)
    ensures CommonSubsequence(eq, from, to) == Selected(to, m)
    decreases |from|
  {
    if |from| == 0 {
      m := [];
    } else if |from| == 1 {
      assert from == [from[0]];
      m := FirstMatchIsOptimal(eq, from[0], to);
    } else {
      var i := |from| / 2;
      var j := BestSplit(eq, from[..i], from[i..], to, |to|);
      var m1 := CommonSubsequenceIsOptimal(eq, from[..i], to[..j]);
      var m2 := CommonSubsequenceIsOptimal(eq, from[i..], to[j..]);
      m := m1 + Shift(m2, i, j);
      JoinMatchings(eq, from, to, i, j, m1, m2);
      BestSplitIsOptimal(eq, from, to, i);
      SelectedJoin(to, j, m1, m2, i);
    }
  }

  // ---------- Edit scripts ----------

  datatype Entry<T> = Old(token: T) | Added(token: T, line: nat) | Removed(token: T, line: nat)

  /** The tokens a script takes from the first input. */
  ghost function FromSide<T>(d: seq<Entry<T>>): seq<T> {
    if d == [] then []
    else FromSide(d[..|d| - 1]) + if d[|d| - 1].Added? then [] else [d[|d| - 1].token]
  }

  /** The tokens a script takes from the second input. */
  ghost function ToSide<T>(d: seq<Entry<T>>): seq<T> {
    if d == [] then []
    else ToSide(d[..|d| - 1]) + if d[|d| - 1].Removed? then [] else [d[|d| - 1].token]
  }

  ghost function OldCount<T>(d: seq<Entry<T>>): nat {
    if d == [] then 0 else OldCount(d[..|d| - 1]) + if d[|d| - 1].Old? then 1 else 0
  }

  ghost function ChangeCount<T>(d: seq<Entry<T>>): nat {
    if d == [] then 0 else ChangeCount(d[..|d| - 1]) + if d[|d| - 1].Old? then 0 else 1
  }

  /** `d` rewrites `from` into `to`. */
  ghost predicate IsScript<T>(d: seq<Entry<T>>, from: seq<T>, to: seq<T>) {
    FromSide(d) == from && ToSide(d) == to
  }

  /** Every change carries the 1-based index of its token in its own input. */
  ghost predicate IsNumbered<T>(d: seq<Entry<T>>) {
    && (forall p :: 0 <= p < |d| && d[p].Removed? ==> d[p].line == |FromSide(d[..p])| + 1)
    && (forall p :: 0 <= p < |d| && d[p].Added? ==> d[p].line == |ToSide(d[..p])| + 1)
  }

  /** Within a gap the removals come before the additions. */
  ghost predicate RemovesFirst<T>(d: seq<Entry<T>>) {
    forall p :: 0 < p < |d| && d[p].Removed? ==> !d[p - 1].Added?
  }

  /** The kept tokens, in order. */
  ghost function KeptOf<T>(d: seq<Entry<T>>): (s: seq<T>)
    ensures |s| == OldCount(d)
  {
    if d == [] then []
    else if d[|d| - 1].Old? then KeptOf(d[..|d| - 1]) + [d[|d| - 1].token]
    else KeptOf(d[..|d| - 1])
  }

  /** No change behind the last kept token has the token `t`. */
  ghost predicate GapAvoids<T>(d: seq<Entry<T>>, t: T) {
    forall q :: 0 <= q < |d| && d[q].token == t ==> HasOld(d[q..])
  }

  ghost predicate HasOld<T>(d: seq<Entry<T>>) { exists r :: 0 <= r < |d| && d[r].Old? }

  /** Every kept token is the first of its kind since the one kept before. */
  ghost predicate GapsAvoid<T>(d: seq<Entry<T>>) {
    forall p :: 0 <= p < |d| && d[p].Old? ==> GapAvoids(d[..p], d[p].token)
  }

  /** The script ends in a kept token, if at all. */
  ghost predicate Settled<T>(d: seq<Entry<T>>) { d == [] || d[|d| - 1].Old? }

  lemma GapAvoidsOn<T>(d: seq<Entry<T>>, e: Entry<T>, t: T)
    requires GapAvoids(d, t) && e.token != t
    ensures GapAvoids(d + [e], t)
  {
    var d' := d + [e];
    forall q | 0 <= q < |d'| && d'[q].token == t ensures HasOld(d'[q..]) {
      var r :| 0 <= r < |d[q..]| && d[q..][r].Old?;
      assert d'[q..][r] == d[q..][r];
    }
  }

  lemma SettledAvoids<T>(d: seq<Entry<T>>, t: T)
    requires Settled(d)
    ensures GapAvoids(d, t)
  {
    forall q | 0 <= q < |d| ensures HasOld(d[q..]) {
      assert d[q..][|d| - 1 - q].Old?;
    }
  }

  lemma GapsAvoidOn<T>(d: seq<Entry<T>>, e: Entry<T>)
    requires GapsAvoid(d) && (e.Old? ==> GapAvoids(d, e.token))
    ensures GapsAvoid(d + [e])
  {
    var d' := d + [e];
    forall p | 0 <= p < |d'| && d'[p].Old? ensures GapAvoids(d'[..p], d'[p].token) {
      assert d'[..p] == if p < |d| then d[..p] else d;
    }
  }

  function Same<T(==)>(): (T, T) -> bool { (x: T, y: T) => x == y }

  /** Appending one entry. */
  lemma Append<T>(d: seq<Entry<T>>, e: Entry<T>)
    ensures FromSide(d + [e]) == FromSide(d) + if e.Added? then [] else [e.token]
    ensures ToSide(d + [e]) == ToSide(d) + if e.Removed? then [] else [e.token]
    ensures OldCount(d + [e]) == OldCount(d) + if e.Old? then 1 else 0
    ensures KeptOf(d + [e]) == if e.Old? then KeptOf(d) + [e.token] else KeptOf(d)
    ensures ChangeCount(d + [e]) == ChangeCount(d) + if e.Old? then 0 else 1
  {
    assert (d + [e])[..|d|] == d;
  }

  lemma AppendNumbered<T>(d: seq<Entry<T>>, e: Entry<T>)
    requires IsNumbered(d)
    requires e.Removed? ==> e.line == |FromSide(d)| + 1
    requires e.Added? ==> e.line == |ToSide(d)| + 1
    ensures IsNumbered(d + [e])
  {
    var d' := d + [e];
    assert d'[..|d|] == d;
    forall p | 0 <= p < |d'|
      ensures d'[p].Removed? ==> d'[p].line == |FromSide(d'[..p])| + 1
      ensures d'[p].Added? ==> d'[p].line == |ToSide(d'[..p])| + 1
    {
      if p < |d| {
        assert d'[..p] == d[..p];
      }
    }
  }

  /** A script is a matching: its kept tokens are a common subsequence. */
  lemma {:induction false} ScriptToMatching<T>(d: seq<Entry<T>>) returns (m: seq<Pair>)
    ensures IsMatching(Same(), FromSide(d), ToSide(d), m) && |m| == OldCount(d)
    ensures |FromSide(d)| + |ToSide(d)| == 2 * OldCount(d) + ChangeCount(d)
  {
    if d == [] {
      m := [];
    } else {
      var d', e := d[..|d| - 1], d[|d| - 1];
      m := ScriptToMatching(d');
      if e.Old? {
        m := m + [(|FromSide(d')|, |ToSide(d')|)];
      }
    }
  }

  /** No script keeps more tokens than the LCS length, so one that keeps that
      many has the fewest changes. */
  lemma ScriptsAreBounded<T>(d: seq<Entry<T>>, from: seq<T>, to: seq<T>)
    requires IsScript(d, from, to)
    ensures OldCount(d) <= Length(Same(), from, to)
    ensures ChangeCount(d) == |from| + |to| - 2 * OldCount(d)
  {
    var m := ScriptToMatching(d);
    LengthIsUpperBound(Same(), from, to, m);
  }

  lemma HasFewestChanges<T>(diff: seq<Entry<T>>, from: seq<T>, to: seq<T>)
    requires IsScript(diff, from, to) && OldCount(diff) == Length(Same(), from, to)
    ensures forall d: seq<Entry<T>> :: IsScript(d, from, to) ==> ChangeCount(diff) <= ChangeCount(d)
  {
    ScriptsAreBounded(diff, from, to);
    forall d: seq<Entry<T>> | IsScript(d, from, to) ensures ChangeCount(diff) <= ChangeCount(d) {
      ScriptsAreBounded(d, from, to);
    }
  }

  /** The number on a change points at its token in the input it came from. */
  lemma {:induction false} NumbersPointAtTokens<T>(d: seq<Entry<T>>, p: nat)
    requires IsNumbered(d) && p < |d|
    ensures d[p].Removed? ==> 1 <= d[p].line <= |FromSide(d)| && FromSide(d)[d[p].line - 1] == d[p].token
    ensures d[p].Added? ==> 1 <= d[p].line <= |ToSide(d)| && ToSide(d)[d[p].line - 1] == d[p].token
  {
    var d' := d[..|d| - 1];
    assert d[..|d| - 1] + [d[|d| - 1]] == d;
    if p < |d| - 1 {
      assert forall q :: 0 <= q <= |d'| ==> d'[..q] == d[..q];
      NumbersPointAtTokens(d', p);
    }
  }

  // ---------- Replaying the common subsequence ----------

  ghost predicate IsSubsequence<T>(s: seq<T>, a: seq<T>) {
    s == [] || (a != [] && ((s[0] == a[0] && IsSubsequence(s[1..], a[1..])) || IsSubsequence(s, a[1..])))
  }

  lemma {:induction false} TailIsSubsequence<T>(s: seq<T>, a: seq<T>)
    requires s != [] && IsSubsequence(s, a)
    ensures IsSubsequence(s[1..], a)
    decreases |a|
  {
    if s[0] == a[0] && IsSubsequence(s[1..], a[1..]) {
      Widen(s[1..], a);
    } else {
      TailIsSubsequence(s, a[1..]);
      Widen(s[1..], a);
    }
  }

  lemma Widen<T>(s: seq<T>, a: seq<T>)
    requires a != [] && IsSubsequence(s, a[1..])
    ensures IsSubsequence(s, a)
  {}

  /** Matching the head greedily never loses the rest: the scan stops at a
      token, and the shift after it runs on a non-empty list. */
  lemma GreedyStep<T>(s: seq<T>, a: seq<T>)
    requires s != [] && IsSubsequence(s, a)
    ensures a != []
    ensures a[0] == s[0] ==> IsSubsequence(s[1..], a[1..])
    ensures a[0] != s[0] ==> IsSubsequence(s, a[1..])
  {
    if a[0] == s[0] && !IsSubsequence(s[1..], a[1..]) {
      TailIsSubsequence(s, a[1..]);
    }
  }

  /** Positions that increase select a subsequence. */
  lemma {:induction false} SelectionIsSubsequence<T>(s: seq<T>, a: seq<T>, at: seq<nat>)
    requires |at| == |s|
    requires forall k :: 0 <= k < |s| ==> at[k] < |a| && a[at[k]] == s[k]
    requires forall k, l :: 0 <= k < l < |s| ==> at[k] < at[l]
    ensures IsSubsequence(s, a)
    decreases |a|
  {
    if s != [] {
      if at[0] == 0 {
        var at' := seq(|s| - 1, k requires 0 <= k < |s| - 1 => if at[k + 1] > 0 then at[k + 1] - 1 else 0);
        SelectionIsSubsequence(s[1..], a[1..], at');
      } else {
        var at' := seq(|s|, k requires 0 <= k < |s| => if at[k] > 0 then at[k] - 1 else 0);
        SelectionIsSubsequence(s, a[1..], at');
      }
    }
  }

  ghost function Rows(m: seq<Pair>): (r: seq<nat>)
    ensures |r| == |m| && forall k :: 0 <= k < |m| ==> r[k] == m[k].0
  {
    seq(|m|, k requires 0 <= k < |m| => m[k].0)
  }

  ghost function Columns(m: seq<Pair>): (r: seq<nat>)
    ensures |r| == |m| && forall k :: 0 <= k < |m| ==> r[k] == m[k].1
  {
    seq(|m|, k requires 0 <= k < |m| => m[k].1)
  }

  lemma MatchingSelectsSubsequence<T>(from: seq<T>, to: seq<T>, m: seq<Pair>)
    requires IsMatching(Same(), from, to, m)
    ensures IsSubsequence(Selected(to, m), from) && IsSubsequence(Selected(to, m), to)
  {
    var s := Selected(to, m);
    forall k | 0 <= k < |m| ensures from[m[k].0] == s[k] {
      assert Same()(from[m[k].0], to[m[k].1]);
    }
    SelectionIsSubsequence(s, from, Rows(m));
    SelectionIsSubsequence(s, to, Columns(m));
  }

  lemma CommonIsSubsequenceOfBoth<T>(from: seq<T>, to: seq<T>)
    ensures |CommonSubsequence(Same(), from, to)| == Length(Same(), from, to)
    ensures IsSubsequence(CommonSubsequence(Same(), from, to), from)
    ensures IsSubsequence(CommonSubsequence(Same(), from, to), to)
  {
    var m := CommonSubsequenceIsOptimal(Same(), from, to);
    MatchingSelectsSubsequence(from, to, m);
  }

  /** The first `s` tokens are the longest common prefix. */
  ghost predicate LongestPrefix<T>(from: seq<T>, to: seq<T>, s: nat) {
    && s <= |from| && s <= |to| && from[..s] == to[..s]
    && (s < |from| && s < |to| ==> from[s] != to[s])
  }

  lemma NoLongerPrefix<T>(from: seq<T>, to: seq<T>, s: nat, n: nat)
    requires LongestPrefix(from, to, s) && n <= |from| && n <= |to|
    ensures from[..n] == to[..n] <==> n <= s
  {
    if n <= s {
      assert from[..n] == from[..s][..n] && to[..n] == to[..s][..n];
    } else {
      assert from[..n][s] == from[s] && to[..n][s] == to[s];
    }
  }

  method StripPrefix<T(==)>(from: seq<T>, to: seq<T>) returns (fromRest: seq<T>, toRest: seq<T>, start: seq<T>)
    ensures from == start + fromRest && to == start + toRest && LongestPrefix(from, to, |start|)
    ensures fromRest != [] && toRest != [] ==> fromRest[0] != toRest[0]
  {
    fromRest, toRest, start := from, to, [];
    while fromRest != [] && toRest != [] && fromRest[0] == toRest[0]
      invariant from == start + fromRest && to == start + toRest
      decreases |fromRest|
    {
      start := start + [fromRest[0]];
      fromRest, toRest := fromRest[1..], toRest[1..];
    }
  }

  /** Strips the common prefix, as long as can be, and then the common suffix.  The
      rests share neither their first nor their last token. */
  method GetArrayDiffParted<T(==)>(from: seq<T>, to: seq<T>)
    returns (fromRest: seq<T>, toRest: seq<T>, start: seq<T>, end: seq<T>)
    ensures from == start + fromRest + end && to == start + toRest + end
    ensures fromRest != [] && toRest != [] ==> fromRest[0] != toRest[0]
    ensures fromRest != [] && toRest != [] ==> fromRest[|fromRest| - 1] != toRest[|toRest| - 1]
    ensures LongestPrefix(from, to, |start|)
  {
    fromRest, toRest, start := StripPrefix(from, to);
    end := [];
    while fromRest != [] && toRest != [] && fromRest[|fromRest| - 1] == toRest[|toRest| - 1]
      invariant from == start + fromRest + end && to == start + toRest + end
      invariant fromRest != [] && toRest != [] ==> fromRest[0] != toRest[0]
      decreases |fromRest|
    {
      end := [fromRest[|fromRest| - 1]] + end;
      fromRest, toRest := fromRest[..|fromRest| - 1], toRest[..|toRest| - 1];
    }
  }

  /** What holds of an unfinished script: its line counters are the next line
      numbers. */
  ghost predicate Replaying<T>(diff: seq<Entry<T>>, fromLine: nat, toLine: nat) {
    && fromLine == |FromSide(diff)| + 1
    && toLine == |ToSide(diff)| + 1
    && IsNumbered(diff)
    && RemovesFirst(diff)
    && GapsAvoid(diff)
  }

  /** Together with the tokens `fs` and `ts` still to come, the script covers
      both inputs; it has kept the tokens `kept`. */
  ghost predicate Covers<T>(diff: seq<Entry<T>>, fs: seq<T>, ts: seq<T>, from: seq<T>, to: seq<T>, kept: seq<T>) {
    FromSide(diff) + fs == from && ToSide(diff) + ts == to && KeptOf(diff) == kept
  }

  ghost predicate EndsInAdded<T>(d: seq<Entry<T>>) {
    d != [] && d[|d| - 1].Added?
  }

  lemma ReplayOne<T>(d: seq<Entry<T>>, fromLine: nat, toLine: nat, e: Entry<T>)
    requires Replaying(d, fromLine, toLine)
    requires e.Removed? ==> e.line == fromLine && !EndsInAdded(d)
    requires e.Added? ==> e.line == toLine
    requires e.Old? ==> GapAvoids(d, e.token)
    ensures Replaying(d + [e], if e.Added? then fromLine else fromLine + 1, if e.Removed? then toLine else toLine + 1)
    ensures EndsInAdded(d + [e]) == e.Added?
  {
    Append(d, e);
    AppendNumbered(d, e);
    GapsAvoidOn(d, e);
  }

  lemma HeadRemoved<T>(d: seq<Entry<T>>, fs: seq<T>, ts: seq<T>, from: seq<T>, to: seq<T>, kept: seq<T>, line: nat)
    requires fs != [] && Covers(d, fs, ts, from, to, kept)
    ensures Covers(d + [Removed(fs[0], line)], fs[1..], ts, from, to, kept)
  {
    Append(d, Removed(fs[0], line));
    assert FromSide(d) + [fs[0]] + fs[1..] == FromSide(d) + fs;
  }

  lemma HeadAdded<T>(d: seq<Entry<T>>, fs: seq<T>, ts: seq<T>, from: seq<T>, to: seq<T>, kept: seq<T>, line: nat)
    requires ts != [] && Covers(d, fs, ts, from, to, kept)
    ensures Covers(d + [Added(ts[0], line)], fs, ts[1..], from, to, kept)
  {
    Append(d, Added(ts[0], line));
    assert ToSide(d) + [ts[0]] + ts[1..] == ToSide(d) + ts;
  }

  lemma HeadKept<T>(d: seq<Entry<T>>, fs: seq<T>, ts: seq<T>, from: seq<T>, to: seq<T>, kept: seq<T>)
    requires fs != [] && ts != [] && fs[0] == ts[0] && Covers(d, fs, ts, from, to, kept)
    ensures Covers(d + [Old(fs[0])], fs[1..], ts[1..], from, to, kept + [fs[0]])
  {
    Append(d, Old(fs[0]));
    assert FromSide(d) + [fs[0]] + fs[1..] == FromSide(d) + fs;
    assert ToSide(d) + [ts[0]] + ts[1..] == ToSide(d) + ts;
  }

  /** `array_shift` of the first input onto the script. */
  method RemoveHead<T>(d: seq<Entry<T>>, fs: seq<T>, fromLine: nat, ghost toLine: nat,
                       ghost ts: seq<T>, ghost from: seq<T>, ghost to: seq<T>, ghost kept: seq<T>)
    returns (d': seq<Entry<T>>, fs': seq<T>, fromLine': nat)
    requires fs != [] && Replaying(d, fromLine, toLine) && !EndsInAdded(d)
    requires Covers(d, fs, ts, from, to, kept)
    ensures d' == d + [Removed(fs[0], fromLine)] && fs' == fs[1..] && fromLine' == fromLine + 1
    ensures Replaying(d', fromLine', toLine) && !EndsInAdded(d')
    ensures Covers(d', fs', ts, from, to, kept)
  {
    HeadRemoved(d, fs, ts, from, to, kept, fromLine);
    ReplayOne(d, fromLine, toLine, Removed(fs[0], fromLine));
    d', fs', fromLine' := d + [Removed(fs[0], fromLine)], fs[1..], fromLine + 1;
  }

  /** `array_shift` of the second input onto the script. */
  method AddHead<T>(d: seq<Entry<T>>, ts: seq<T>, ghost fromLine: nat, toLine: nat,
                    ghost fs: seq<T>, ghost from: seq<T>, ghost to: seq<T>, ghost kept: seq<T>)
    returns (d': seq<Entry<T>>, ts': seq<T>, toLine': nat)
    requires ts != [] && Replaying(d, fromLine, toLine)
    requires Covers(d, fs, ts, from, to, kept)
    ensures d' == d + [Added(ts[0], toLine)] && ts' == ts[1..] && toLine' == toLine + 1
    ensures Replaying(d', fromLine, toLine')
    ensures Covers(d', fs, ts', from, to, kept)
  {
    HeadAdded(d, fs, ts, from, to, kept, toLine);
    ReplayOne(d, fromLine, toLine, Added(ts[0], toLine));
    d', ts', toLine' := d + [Added(ts[0], toLine)], ts[1..], toLine + 1;
  }

  lemma KeepToken<T>(d: seq<Entry<T>>, fromLine: nat, toLine: nat, fs: seq<T>, ts: seq<T>,
                     from: seq<T>, to: seq<T>, kept: seq<T>)
    requires fs != [] && ts != [] && fs[0] == ts[0]
    requires Replaying(d, fromLine, toLine) && Covers(d, fs, ts, from, to, kept) && GapAvoids(d, fs[0])
    ensures Replaying(d + [Old(fs[0])], fromLine + 1, toLine + 1) && Settled(d + [Old(fs[0])])
    ensures Covers(d + [Old(fs[0])], fs[1..], ts[1..], from, to, kept + [fs[0]])
  {
    HeadKept(d, fs, ts, from, to, kept);
    ReplayOne(d, fromLine, toLine, Old(fs[0]));
  }

  /** Emits the gap before the next common token: the removals, then the
      additions. */
  method ReplayGap<T(==)>(d: seq<Entry<T>>, from: seq<T>, to: seq<T>, fromLine: nat, toLine: nat, ghost common: seq<T>,
                          token: T, ghost a: seq<T>, ghost b: seq<T>, ghost kept: seq<T>)
    returns (diff: seq<Entry<T>>, fs: seq<T>, ts: seq<T>, fl: nat, tl: nat)
    requires Replaying(d, fromLine, toLine) && Settled(d) && Covers(d, from, to, a, b, kept)
    requires common != [] && common[0] == token && IsSubsequence(common, from) && IsSubsequence(common, to)
    ensures Replaying(diff, fl, tl) && Covers(diff, fs, ts, a, b, kept) && GapAvoids(diff, token)
    ensures fs != [] && ts != [] && fs[0] == ts[0] == token
    ensures IsSubsequence(common[1..], fs[1..]) && IsSubsequence(common[1..], ts[1..])
  {
    diff, fs, ts, fl, tl := d, from, to, fromLine, toLine;
    SettledAvoids(diff, token);
    GreedyStep(common, fs);
    while fs != [] && fs[0] != token
      invariant Replaying(diff, fl, tl) && !EndsInAdded(diff) && Covers(diff, fs, ts, a, b, kept)
      invariant IsSubsequence(common, fs) && fs != [] && GapAvoids(diff, token)
      decreases |fs|
    {
      GreedyStep(common, fs);
      GapAvoidsOn(diff, Removed(fs[0], fl), token);
      diff, fs, fl := RemoveHead(diff, fs, fl, tl, ts, a, b, kept);
      GreedyStep(common, fs);
    }
    GreedyStep(common, fs);
    GreedyStep(common, ts);
    while ts != [] && token != ts[0]
      invariant Replaying(diff, fl, tl) && Covers(diff, fs, ts, a, b, kept)
      invariant IsSubsequence(common, ts) && ts != [] && GapAvoids(diff, token)
      decreases |ts|
    {
      GreedyStep(common, ts);
      GapAvoidsOn(diff, Added(ts[0], tl), token);
      diff, ts, tl := AddHead(diff, ts, fl, tl, fs, a, b, kept);
      GreedyStep(common, ts);
    }
    GreedyStep(common, ts);
  }

  /** The first `k` tokens of the common prefix are kept. */
  ghost predicate Prefixed<T>(d: seq<Entry<T>>, line: nat, start: seq<T>, k: nat, fs: seq<T>, ts: seq<T>) {
    && k <= |start| && Replaying(d, line, line) && Settled(d)
    && Covers(d, start[k..] + fs, start[k..] + ts, start + fs, start + ts, start[..k])
  }

  lemma PrefixStarts<T>(start: seq<T>, fs: seq<T>, ts: seq<T>)
    ensures Prefixed([], 1, start, 0, fs, ts)
  {
    assert start[0..] == start;
  }

  lemma PrefixEnds<T>(d: seq<Entry<T>>, line: nat, start: seq<T>, fs: seq<T>, ts: seq<T>)
    requires Prefixed(d, line, start, |start|, fs, ts)
    ensures Covers(d, fs, ts, start + fs, start + ts, start)
  {
    assert start[|start|..] + fs == fs && start[|start|..] + ts == ts && start[..|start|] == start;
  }

  lemma KeepFromPrefix<T>(d: seq<Entry<T>>, line: nat, start: seq<T>, k: nat, fs: seq<T>, ts: seq<T>)
    requires k < |start| && Prefixed(d, line, start, k, fs, ts)
    ensures Prefixed(d + [Old(start[k])], line + 1, start, k + 1, fs, ts)
  {
    var a, b := start[k..] + fs, start[k..] + ts;
    assert a[1..] == start[k + 1..] + fs && b[1..] == start[k + 1..] + ts;
    SettledAvoids(d, start[k]);
    KeepToken(d, line, line, a, b, start + fs, start + ts, start[..k]);
    assert start[..k] + [start[k]] == start[..k + 1];
  }

  method KeepPrefix<T(==)>(start: seq<T>, ghost fs: seq<T>, ghost ts: seq<T>) returns (diff: seq<Entry<T>>, line: nat)
    ensures Replaying(diff, line, line) && Settled(diff)
    ensures Covers(diff, fs, ts, start + fs, start + ts, start)
  {
    diff, line := [], 1;
    PrefixStarts(start, fs, ts);
    for k := 0 to |start|
      invariant Prefixed(diff, line, start, k, fs, ts)
    {
      KeepFromPrefix(diff, line, start, k, fs, ts);
      diff, line := diff + [Old(start[k])], line + 1;
    }
    PrefixEnds(diff, line, start, fs, ts);
  }

  /** What is left of both inputs behind the last common token: the removals, then the
      additions. */
  method ReplayRest<T(==)>(d: seq<Entry<T>>, from: seq<T>, to: seq<T>, fromLine: nat, toLine: nat, ghost a: seq<T>,
                           ghost b: seq<T>, ghost kept: seq<T>)
    returns (diff: seq<Entry<T>>)
    requires Replaying(d, fromLine, toLine) && Settled(d) && Covers(d, from, to, a, b, kept)
    ensures IsNumbered(diff) && RemovesFirst(diff) && GapsAvoid(diff)
    ensures Covers(diff, [], [], a, b, kept)
  {
    var fs, ts, fl, tl := from, to, fromLine, toLine;
    diff := d;
    while fs != []
      invariant Replaying(diff, fl, tl) && !EndsInAdded(diff)
      invariant Covers(diff, fs, ts, a, b, kept)
      decreases |fs|
    {
      diff, fs, fl := RemoveHead(diff, fs, fl, tl, ts, a, b, kept);
    }
    while ts != []
      invariant Replaying(diff, fl, tl)
      invariant Covers(diff, fs, ts, a, b, kept)
      decreases |ts|
    {
      diff, ts, tl := AddHead(diff, ts, fl, tl, fs, a, b, kept);
    }
  }

  /** One common token: its gap, then the token itself. */
  method ReplayToken<T(==)>(d: seq<Entry<T>>, from: seq<T>, to: seq<T>, fromLine: nat, toLine: nat,
                            ghost common: seq<T>, token: T, ghost a: seq<T>, ghost b: seq<T>, ghost kept: seq<T>)
    returns (diff: seq<Entry<T>>, fs: seq<T>, ts: seq<T>, fl: nat, tl: nat)
    requires Replaying(d, fromLine, toLine) && Settled(d) && Covers(d, from, to, a, b, kept)
    requires common != [] && common[0] == token && IsSubsequence(common, from) && IsSubsequence(common, to)
    ensures Replaying(diff, fl, tl) && Settled(diff) && Covers(diff, fs, ts, a, b, kept + [token])
    ensures IsSubsequence(common[1..], fs) && IsSubsequence(common[1..], ts)
  {
    diff, fs, ts, fl, tl := ReplayGap(d, from, to, fromLine, toLine, common, token, a, b, kept);
    KeepToken(diff, fl, tl, fs, ts, a, b, kept);
    diff := diff + [Old(token)];
    fl, tl := fl + 1, tl + 1;
    fs, ts := fs[1..], ts[1..];
  }

  /** The replay of the common tokens and of what follows the last one. */
  method ReplayMiddle<T(==)>(d: seq<Entry<T>>, line: nat, from: seq<T>, to: seq<T>, common: seq<T>,
                             ghost a: seq<T>, ghost b: seq<T>, ghost kept: seq<T>)
    returns (diff: seq<Entry<T>>)
    requires Replaying(d, line, line) && Settled(d) && Covers(d, from, to, a, b, kept)
    requires IsSubsequence(common, from) && IsSubsequence(common, to)
    ensures IsNumbered(diff) && RemovesFirst(diff) && GapsAvoid(diff)
    ensures Covers(diff, [], [], a, b, kept + common)
  {
    var fs, ts, fromLine, toLine := from, to, line, line;
    diff := d;
    assert kept + common[..0] == kept;
    for k := 0 to |common|
      invariant Replaying(diff, fromLine, toLine) && Settled(diff)
      invariant Covers(diff, fs, ts, a, b, kept + common[..k])
      invariant IsSubsequence(common[k..], fs) && IsSubsequence(common[k..], ts)
    {
      diff, fs, ts, fromLine, toLine :=
        ReplayToken(diff, fs, ts, fromLine, toLine, common[k..], common[k], a, b, kept + common[..k]);
      assert common[k..][1..] == common[k + 1..];
      assert kept + common[..k] + [common[k]] == kept + common[..k + 1];
    }
    assert common[..|common|] == common;
    diff := ReplayRest(diff, fs, ts, fromLine, toLine, a, b, kept + common);
  }

  /** `diff` is the script `d` followed by the kept tokens `end`. */
  ghost predicate Extends<T>(diff: seq<Entry<T>>, d: seq<Entry<T>>, end: seq<T>) {
    && IsNumbered(diff) && RemovesFirst(diff)
    && FromSide(diff) == FromSide(d) + end && ToSide(diff) == ToSide(d) + end && KeptOf(diff) == KeptOf(d) + end
    && |diff| == |d| + |end| && d <= diff
    && forall p :: |d| <= p < |diff| ==> diff[p].Old?
  }

  lemma ExtendOne<T>(diff: seq<Entry<T>>, d: seq<Entry<T>>, end: seq<T>, t: T)
    requires Extends(diff, d, end)
    ensures Extends(diff + [Old(t)], d, end + [t])
  {
    Append(diff, Old(t));
    AppendNumbered(diff, Old(t));
  }

  method KeepSuffix<T(==)>(d: seq<Entry<T>>, end: seq<T>) returns (diff: seq<Entry<T>>)
    requires IsNumbered(d) && RemovesFirst(d)
    ensures Extends(diff, d, end)
  {
    diff := d;
    for k := 0 to |end|
      invariant Extends(diff, d, end[..k])
    {
      ExtendOne(diff, d, end[..k], end[k]);
      assert end[..k] + [end[k]] == end[..k + 1];
      diff := diff + [Old(end[k])];
    }
    assert end[..|end|] == end;
  }

  /** The script keeps the longest common prefix, then the longest common suffix of what
      is left, then the common tokens found by the divide and conquer, each where it
      first comes up. */
  ghost predicate IsReplay<T>(diff: seq<Entry<T>>, from: seq<T>, to: seq<T>) {
    exists s: nat, e: nat :: ReplaysParts(diff, from, to, s, e)
  }

  /** `s` tokens are the common prefix and `e` the common suffix of what is left. */
  ghost predicate ReplaysParts<T>(diff: seq<Entry<T>>, from: seq<T>, to: seq<T>, s: nat, e: nat) {
    && s + e <= |from| && s + e <= |to| && e <= |diff|
    && LongestPrefix(from, to, s) && from[|from| - e..] == to[|to| - e..]
    && (s + e < |from| && s + e < |to| ==> from[|from| - e - 1] != to[|to| - e - 1])
    && KeptOf(diff)
      == from[..s] + CommonSubsequence(Same(), from[s..|from| - e], to[s..|to| - e]) + from[|from| - e..]
    && GapsAvoid(diff[..|diff| - e]) && forall p :: |diff| - e <= p < |diff| ==> diff[p].Old?
  }

  lemma PartsOf<T>(from: seq<T>, start: seq<T>, fs: seq<T>, end: seq<T>)
    requires from == start + fs + end
    ensures var s, e := |start|, |end|;
      from[..s] == start && from[s..|from| - e] == fs && from[|from| - e..] == end
  {}

  /** The script of the parts put together. */
  ghost predicate Assembled<T>(diff: seq<Entry<T>>, head: seq<Entry<T>>, start: seq<T>, fs: seq<T>, ts: seq<T>,
                               end: seq<T>) {
    && GapsAvoid(head) && KeptOf(head) == start + CommonSubsequence(Same(), fs, ts)
    && FromSide(head) == start + fs && ToSide(head) == start + ts && Extends(diff, head, end)
  }

  method Assemble<T(==)>(start: seq<T>, fs: seq<T>, ts: seq<T>, end: seq<T>)
    returns (diff: seq<Entry<T>>, ghost head: seq<Entry<T>>)
    ensures Assembled(diff, head, start, fs, ts, end)
  {
    var common := CalculateCommonSubsequence(Same(), fs, ts);
    CommonIsSubsequenceOfBoth(fs, ts);
    var line;
    diff, line := KeepPrefix(start, fs, ts);
    diff := ReplayMiddle(diff, line, fs, ts, common, start + fs, start + ts, start);
    head := diff;
    diff := KeepSuffix(diff, end);
  }

  lemma WholeReplay<T>(diff: seq<Entry<T>>, head: seq<Entry<T>>, from: seq<T>, to: seq<T>, start: seq<T>, fs: seq<T>,
                       ts: seq<T>, end: seq<T>)
    requires from == start + fs + end && to == start + ts + end
    requires fs != [] && ts != [] ==> fs[|fs| - 1] != ts[|ts| - 1]
    requires LongestPrefix(from, to, |start|) && Assembled(diff, head, start, fs, ts, end)
    ensures IsReplay(diff, from, to)
  {
    assert KeptOf(diff) == start + CommonSubsequence(Same(), fs, ts) + end;
    assert diff[..|diff| - |end|] == head;
    PartsOf(from, start, fs, end);
    PartsOf(to, start, ts, end);
    assert ReplaysParts(diff, from, to, |start|, |end|);
  }

  lemma WholeIsOptimal<T>(diff: seq<Entry<T>>, head: seq<Entry<T>>, from: seq<T>, to: seq<T>, start: seq<T>, fs: seq<T>,
                          ts: seq<T>, end: seq<T>)
    requires from == start + fs + end && to == start + ts + end && Assembled(diff, head, start, fs, ts, end)
    ensures IsScript(diff, from, to) && OldCount(diff) == Length(Same(), from, to)
  {
    CommonIsSubsequenceOfBoth(fs, ts);
    LengthOfParted(Same(), start, fs, ts, end);
    assert |KeptOf(diff)| == OldCount(diff);
  }

  /** The edit script.  It rewrites the first input into the second, numbers its
      changes, and no script has fewer changes. */
  method DiffToArray<T(==)>(from: seq<T>, to: seq<T>) returns (diff: seq<Entry<T>>)
    ensures IsScript(diff, from, to)
    ensures IsNumbered(diff)
    ensures RemovesFirst(diff)
    ensures OldCount(diff) == Length(Same(), from, to)
    ensures forall d: seq<Entry<T>> :: IsScript(d, from, to) ==> ChangeCount(diff) <= ChangeCount(d)
    ensures IsReplay(diff, from, to)
  {
    var fs, ts, start, end := GetArrayDiffParted(from, to);
    ghost var head;
    diff, head := Assemble(start, fs, ts, end);
    WholeIsOptimal(diff, head, from, to, start, fs, ts, end);
    WholeReplay(diff, head, from, to, start, fs, ts, end);
    HasFewestChanges(diff, from, to);
  }
}
