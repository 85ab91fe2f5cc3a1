/** Longest common subsequences over an arbitrary relation, read as maximum
    non-crossing matchings.  `Length` is the value the dynamic programme of the
    differ tabulates; `IsMatching` is the independent notion it is measured
    against. */
module Lcs {
  import opened Sequences

  type Pair = (nat, nat)

  /** `m` pairs positions of `a` with related positions of `b`, and no two
      pairs cross. */
  ghost predicate IsMatching<T>(eq: (T, T) -> bool, a: seq<T>, b: seq<T>, m: seq<Pair>) {
    && (forall k :: 0 <= k < |m| ==> m[k].0 < |a| && m[k].1 < |b| && eq(a[m[k].0], b[m[k].1]))
    && (forall k, l :: 0 <= k < l < |m| ==> m[k].0 < m[l].0 && m[k].1 < m[l].1)
  }

  /** The DP value: compare the last elements, drop one or both. */
  ghost function Length<T>(eq: (T, T) -> bool, a: seq<T>, b: seq<T>): nat
    decreases |a| + |b|
  {
    if |a| == 0 || |b| == 0 then 0
    else if eq(a[|a| - 1], b[|b| - 1]) then Length(eq, a[..|a| - 1], b[..|b| - 1]) + 1
    else Max(Length(eq, a, b[..|b| - 1]), Length(eq, a[..|a| - 1], b))
  }

  /** No matching is larger than `Length`. */
  lemma {:induction false} LengthIsUpperBound<T>(eq: (T, T) -> bool, a: seq<T>, b: seq<T>, m: seq<Pair>)
    requires IsMatching(eq, a, b, m)
    ensures |m| <= Length(eq, a, b)
    decreases |a| + |b|
  {
    if |m| > 0 {
      var front, last := m[..|m| - 1], m[|m| - 1];
      assert |a| > 0 && |b| > 0;
      var a', b' := a[..|a| - 1], b[..|b| - 1];
      if eq(a[|a| - 1], b[|b| - 1]) {
        assert IsMatching(eq, a', b', front);
        LengthIsUpperBound(eq, a', b', front);
      } else if last.0 == |a| - 1 {
        assert IsMatching(eq, a, b', m);
        LengthIsUpperBound(eq, a, b', m);
      } else {
        assert IsMatching(eq, a', b, m);
        LengthIsUpperBound(eq, a', b, m);
      }
    }
  }

  /** Some matching attains `Length`. */
  lemma {:induction false} LengthIsAttained<T>(eq: (T, T) -> bool, a: seq<T>, b: seq<T>) returns (m: seq<Pair>)
    ensures IsMatching(eq, a, b, m) && |m| == Length(eq, a, b)
    decreases |a| + |b|
  {
    if |a| == 0 || |b| == 0 {
      m := [];
    } else {
      var a', b' := a[..|a| - 1], b[..|b| - 1];
      if eq(a[|a| - 1], b[|b| - 1]) {
        m := LengthIsAttained(eq, a', b');
        m := m + [(|a| - 1, |b| - 1)];
      } else if Length(eq, a', b) < Length(eq, a, b') {
        m := LengthIsAttained(eq, a, b');
      } else {
        m := LengthIsAttained(eq, a', b);
      }
    }
  }

  /** A matching read from the far ends of inputs of lengths `n` and `n'`. */
  ghost function Mirror(m: seq<Pair>, n: nat, n': nat): (r: seq<Pair>)
    requires forall k :: 0 <= k < |m| ==> m[k].0 < n && m[k].1 < n'
    ensures |r| == |m|
    ensures forall k :: 0 <= k < |m| ==>
      r[k] == (n - 1 - m[|m| - 1 - k].0, n' - 1 - m[|m| - 1 - k].1)
  {
    if m == [] then []
    else Mirror(m[1..], n, n') + [(n - 1 - m[0].0, n' - 1 - m[0].1)]
  }

  lemma MirroredPair<T>(eq: (T, T) -> bool, a: seq<T>, b: seq<T>, p: Pair)
    requires p.0 < |a| && p.1 < |b| && eq(a[p.0], b[p.1])
    ensures eq(Reverse(a)[|a| - 1 - p.0], Reverse(b)[|b| - 1 - p.1])
  {}

  lemma MirroredPairs<T>(eq: (T, T) -> bool, a: seq<T>, b: seq<T>, m: seq<Pair>)
    requires IsMatching(eq, a, b, m)
    ensures var r, ra, rb := Mirror(m, |a|, |b|), Reverse(a), Reverse(b);
      forall k :: 0 <= k < |r| ==> r[k].0 < |ra| && r[k].1 < |rb| && eq(ra[r[k].0], rb[r[k].1])
  {
    var r := Mirror(m, |a|, |b|);
    forall k | 0 <= k < |r|
      ensures r[k].0 < |a| && r[k].1 < |b| && eq(Reverse(a)[r[k].0], Reverse(b)[r[k].1])
    {
      var l := |m| - 1 - k;
      MirroredPair(eq, a, b, m[l]);
    }
  }

  lemma MirroredOrder(m: seq<Pair>, n: nat, n': nat)
    requires forall k :: 0 <= k < |m| ==> m[k].0 < n && m[k].1 < n'
    requires forall k, l :: 0 <= k < l < |m| ==> m[k].0 < m[l].0 && m[k].1 < m[l].1
    ensures var r := Mirror(m, n, n');
      forall k, l :: 0 <= k < l < |r| ==> r[k].0 < r[l].0 && r[k].1 < r[l].1
  {
    var r := Mirror(m, n, n');
    forall k, l | 0 <= k < l < |r| ensures r[k].0 < r[l].0 && r[k].1 < r[l].1 {
      var p, q := m[|m| - 1 - l], m[|m| - 1 - k];
      assert p.0 < q.0 && p.1 < q.1;
    }
  }

  lemma MirroredMatching<T>(eq: (T, T) -> bool, a: seq<T>, b: seq<T>, m: seq<Pair>)
    requires IsMatching(eq, a, b, m)
    ensures IsMatching(eq, Reverse(a), Reverse(b), Mirror(m, |a|, |b|))
  {
    MirroredPairs(eq, a, b, m);
    MirroredOrder(m, |a|, |b|);
  }

  /** Reversing both inputs keeps the length: the second DP of the split, which
      runs over reversed halves, measures the halves themselves. */
  lemma LengthOfReverse<T>(eq: (T, T) -> bool, a: seq<T>, b: seq<T>)
    ensures Length(eq, Reverse(a), Reverse(b)) == Length(eq, a, b)
  {
    var m := LengthIsAttained(eq, a, b);
    MirroredMatching(eq, a, b, m);
    LengthIsUpperBound(eq, Reverse(a), Reverse(b), Mirror(m, |a|, |b|));
    var m' := LengthIsAttained(eq, Reverse(a), Reverse(b));
    MirroredMatching(eq, Reverse(a), Reverse(b), m');
    ReverseTwice(a);
    ReverseTwice(b);
    LengthIsUpperBound(eq, a, b, Mirror(m', |a|, |b|));
  }

  ghost function Shift(m: seq<Pair>, i: nat, j: nat): (r: seq<Pair>)
    ensures |r| == |m|
    ensures forall k :: 0 <= k < |m| ==> r[k] == (m[k].0 + i, m[k].1 + j)
  {
    seq(|m|, k requires 0 <= k < |m| => (m[k].0 + i, m[k].1 + j))
  }

  /** Matchings of the two sides of a cut join into one of the whole. */
  lemma JoinMatchings<T>(eq: (T, T) -> bool, a: seq<T>, b: seq<T>, i: nat, j: nat, m: seq<Pair>, n: seq<Pair>)
    requires i <= |a| && j <= |b|
    requires IsMatching(eq, a[..i], b[..j], m) && IsMatching(eq, a[i..], b[j..], n)
    ensures IsMatching(eq, a, b, m + Shift(n, i, j))
  {}

  /** No cut of the two inputs does better than the whole. */
  lemma SplitIsLowerBound<T>(eq: (T, T) -> bool, a: seq<T>, b: seq<T>, i: nat, j: nat)
    requires i <= |a| && j <= |b|
    ensures Length(eq, a[..i], b[..j]) + Length(eq, a[i..], b[j..]) <= Length(eq, a, b)
  {
    var m := LengthIsAttained(eq, a[..i], b[..j]);
    var n := LengthIsAttained(eq, a[i..], b[j..]);
    JoinMatchings(eq, a, b, i, j, m, n);
    LengthIsUpperBound(eq, a, b, m + Shift(n, i, j));
  }

  /** How many pairs of a matching lie above row `i`. */
  ghost function RowsAbove(m: seq<Pair>, i: nat): (c: nat)
    requires forall k, l :: 0 <= k < l < |m| ==> m[k].0 < m[l].0
    ensures c <= |m|
    ensures forall k :: 0 <= k < c ==> m[k].0 < i
    ensures forall k :: c <= k < |m| ==> i <= m[k].0
  {
    if m == [] || m[|m| - 1].0 < i then |m| else RowsAbove(m[..|m| - 1], i)
  }

  ghost function Unshift(m: seq<Pair>, i: nat, j: nat): (r: seq<Pair>)
    requires forall k :: 0 <= k < |m| ==> i <= m[k].0 && j <= m[k].1
    ensures |r| == |m|
    ensures forall k :: 0 <= k < |m| ==> r[k] == (m[k].0 - i, m[k].1 - j)
  {
    if m == [] then [] else Unshift(m[..|m| - 1], i, j) + [(m[|m| - 1].0 - i, m[|m| - 1].1 - j)]
  }

  /** For every cut of the first input some cut of the second loses nothing. */
  lemma SplitIsAttained<T>(eq: (T, T) -> bool, a: seq<T>, b: seq<T>, i: nat) returns (j: nat)
    requires i <= |a|
    ensures j <= |b|
    ensures Length(eq, a[..i], b[..j]) + Length(eq, a[i..], b[j..]) == Length(eq, a, b)
  {
    var m := LengthIsAttained(eq, a, b);
    var c := RowsAbove(m, i);
    j := if c == 0 then 0 else m[c - 1].1 + 1;
    MatchingAboveCut(eq, a, b, m, i, j, c);
    MatchingBelowCut(eq, a, b, m, i, j, c);
    SplitIsLowerBound(eq, a, b, i, j);
  }

  lemma MatchingAboveCut<T>(eq: (T, T) -> bool, a: seq<T>, b: seq<T>, m: seq<Pair>, i: nat, j: nat, c: nat)
    requires IsMatching(eq, a, b, m) && i <= |a| && j <= |b| && c <= |m|
    requires forall k :: 0 <= k < c ==> m[k].0 < i && m[k].1 < j
    ensures c <= Length(eq, a[..i], b[..j])
  {
    LengthIsUpperBound(eq, a[..i], b[..j], m[..c]);
  }

  lemma MatchingBelowCut<T>(eq: (T, T) -> bool, a: seq<T>, b: seq<T>, m: seq<Pair>, i: nat, j: nat, c: nat)
    requires IsMatching(eq, a, b, m) && i <= |a| && j <= |b| && c <= |m|
    requires forall k :: c <= k < |m| ==> i <= m[k].0 && j <= m[k].1
    ensures |m| - c <= Length(eq, a[i..], b[j..])
  {
    var rest := m[c..];
    assert forall k :: 0 <= k < |rest| ==> rest[k] == m[c + k];
    var n := Unshift(rest, i, j);
    forall k | 0 <= k < |n| ensures n[k].0 < |a[i..]| && n[k].1 < |b[j..]| && eq(a[i..][n[k].0], b[j..][n[k].1]) {
      var p := m[c + k];
      assert eq(a[p.0], b[p.1]);
    }
    LengthIsUpperBound(eq, a[i..], b[j..], n);
  }

  /** A common suffix is always worth matching against itself. */
  lemma {:induction false} LengthWithCommonSuffix<T>(eq: (T, T) -> bool, a: seq<T>, b: seq<T>, s: seq<T>)
    requires forall k :: 0 <= k < |s| ==> eq(s[k], s[k])
    ensures Length(eq, a + s, b + s) == Length(eq, a, b) + |s|
  {
    if s == [] {
      assert a + s == a && b + s == b;
    } else {
      var s' := s[..|s| - 1];
      LengthWithCommonSuffix(eq, a, b, s');
      assert (a + s)[..|a + s| - 1] == a + s' && (b + s)[..|b + s| - 1] == b + s';
    }
  }

  /** And so is a common prefix. */
  lemma LengthWithCommonPrefix<T>(eq: (T, T) -> bool, p: seq<T>, a: seq<T>, b: seq<T>)
    requires forall k :: 0 <= k < |p| ==> eq(p[k], p[k])
    ensures Length(eq, p + a, p + b) == |p| + Length(eq, a, b)
  {
    LengthOfReverse(eq, p + a, p + b);
    ReverseConcat(p, a);
    ReverseConcat(p, b);
    LengthWithCommonSuffix(eq, Reverse(a), Reverse(b), Reverse(p));
    LengthOfReverse(eq, a, b);
  }

  /** Stripping a common prefix and suffix keeps the optimum. */
  lemma LengthOfParted<T>(eq: (T, T) -> bool, p: seq<T>, a: seq<T>, b: seq<T>, s: seq<T>)
    requires forall x: T :: x in p || x in s ==> eq(x, x)
    ensures Length(eq, p + a + s, p + b + s) == |p| + Length(eq, a, b) + |s|
  {
    LengthWithCommonSuffix(eq, p + a, p + b, s);
    LengthWithCommonPrefix(eq, p, a, b);
  }
}
