/** What several of the models say about sequences and numbers. */
module Sequences {

  function Min(a: nat, b: nat): nat { if a < b then a else b }

  function Max(a: nat, b: nat): nat { if a < b then b else a }

  lemma LessTimes(a: nat, b: nat, size: nat)
    requires a < b
    ensures a * size + size <= b * size
  {
    assert b * size == (a + 1) * size + (b - a - 1) * size;
  }

  lemma DivIs(n: nat, size: nat, q: nat)
    requires size > 0 && q * size <= n < q * size + size
    ensures n / size == q
  {
    var d := n / size;
    assert n == d * size + n % size;
    if d < q {
      LessTimes(d, q, size);
    } else if q < d {
      LessTimes(q, d, size);
    }
  }

  lemma NextQuotient(n: nat, size: nat)
    requires size > 0
    ensures n < size ==> n / size == 0
    ensures (n + size) / size == n / size + 1
  {
    var d := n / size;
    assert n == d * size + n % size;
    assert (d + 1) * size == d * size + size;
    DivIs(n + size, size, d + 1);
    if n < size {
      DivIs(n, size, 0);
    }
  }

  lemma Associate<T>(a: seq<T>, b: seq<T>, c: seq<T>)
    ensures (a + b) + c == a + (b + c)
  {}

  ghost predicate Distinct<T>(s: seq<T>) {
    forall i, j :: 0 <= i < j < |s| ==> s[i] != s[j]
  }

  lemma {:induction false} DistinctCounts<T>(s: seq<T>)
    requires Distinct(s)
    ensures forall x :: multiset(s)[x] <= 1
  {
    if s != [] {
      var front, last := s[..|s| - 1], s[|s| - 1];
      assert s == front + [last];
      DistinctCounts(front);
      assert last !in front;
    }
  }

  lemma CountsDistinct<T>(s: seq<T>, i: nat, j: nat)
    requires i < j < |s| && forall x :: multiset(s)[x] <= 1
    ensures s[i] != s[j]
  {
    assert s == s[..j] + s[j..];
    assert multiset(s)[s[i]] == multiset(s[..j])[s[i]] + multiset(s[j..])[s[i]];
    assert s[i] in s[..j] && s[j] in s[j..];
  }

  /** Permutations have the same members. */
  lemma SameMembers<T>(s: seq<T>, t: seq<T>)
    requires multiset(s) == multiset(t)
    ensures forall x :: x in s <==> x in t
  {
    assert forall x :: x in s <==> x in multiset(s);
    assert forall x :: x in t <==> x in multiset(t);
  }

  /** `array_reverse` */
  function Reverse<T>(s: seq<T>): (r: seq<T>)
    ensures |r| == |s|
    ensures forall k :: 0 <= k < |s| ==> r[k] == s[|s| - 1 - k]
  {
    seq(|s|, k requires 0 <= k < |s| => s[|s| - 1 - k])
  }

  lemma ReverseConcat<T>(a: seq<T>, b: seq<T>)
    ensures Reverse(a + b) == Reverse(b) + Reverse(a)
  {}

  /** Read from the end: the last element, then the rest reversed. */
  lemma ReverseLast<T>(s: seq<T>)
    requires s != []
    ensures Reverse(s) == [s[|s| - 1]] + Reverse(s[..|s| - 1])
  {}

  lemma ReverseTwice<T>(s: seq<T>)
    ensures Reverse(Reverse(s)) == s
  {}

  lemma {:induction false} ReversePermutes<T>(s: seq<T>)
    ensures multiset(Reverse(s)) == multiset(s)
  {
    if s != [] {
      ReverseLast(s);
      ReversePermutes(s[..|s| - 1]);
      assert s == s[..|s| - 1] + [s[|s| - 1]];
    }
  }

  lemma ReverseMembers<T>(s: seq<T>)
    ensures forall x :: x in Reverse(s) <==> x in s
  {
    ReversePermutes(s);
    SameMembers(Reverse(s), s);
  }
}
