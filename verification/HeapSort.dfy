/** The 1-based heap sort of Zend/bench.php, which moves a hole instead of
    swapping.  Index 0 of the array is not used. */
module HeapSort {

  /** `x` is at least every child of node `p` among the first `hi`. */
  ghost predicate Covers(a: seq<real>, p: nat, hi: nat, x: real)
    requires hi < |a|
  {
    && (2 * p <= hi ==> x >= a[2 * p])
    && (2 * p + 1 <= hi ==> x >= a[2 * p + 1])
  }

  ghost predicate Dominates(a: seq<real>, p: nat, hi: nat)
    requires p <= hi < |a|
  {
    Covers(a, p, hi, a[p])
  }

  /** Every node in [lo, hi] dominates its children in that range. */
  ghost predicate HeapFrom(a: seq<real>, lo: nat, hi: nat)
    requires hi < |a|
  {
    forall p :: lo <= p <= hi ==> Dominates(a, p, hi)
  }

  /** The root of a heap is its maximum. */
  lemma {:induction false} RootIsMaximum(a: seq<real>, hi: nat, k: nat)
    requires hi < |a| && HeapFrom(a, 1, hi) && 1 <= k <= hi
    ensures a[k] <= a[1]
  {
    if k > 1 {
      RootIsMaximum(a, hi, k / 2);
      assert Dominates(a, k / 2, hi);
      assert k == 2 * (k / 2) || k == 2 * (k / 2) + 1;
    }
  }

  /** Everything in [1, ir] is below everything in (ir, n], which is sorted. */
  ghost predicate SortedAbove(a: seq<real>, ir: nat, n: nat)
    requires n < |a|
  {
    && (forall k, m :: ir < k <= m <= n ==> a[k] <= a[m])
    && (forall k, m :: 1 <= k <= ir < m <= n ==> a[k] <= a[m])
  }

  ghost predicate BelowRest(a: seq<real>, ir: nat, n: nat, x: real)
    requires n < |a|
  {
    forall m :: ir < m <= n ==> x <= a[m]
  }

  lemma OverwriteBelow(a: seq<real>, ir: nat, n: nat, i: nat, x: real)
    requires n < |a| && 1 <= i <= ir <= n
    requires SortedAbove(a, ir, n) && BelowRest(a, ir, n, x)
    ensures SortedAbove(a[i := x], ir, n)
  {}

  /** Filling hole `i` with the element at `j` moves the hole to `j`. */
  lemma MoveHole(s: seq<real>, i: nat, j: nat, x: real)
    requires i < |s| && j < |s| && i != j
    ensures multiset(s[i := s[j]][j := x]) == multiset(s[i := x])
  {
    var t := s[i := x];
    assert t[j := t[i]][i := t[j]] == s[i := s[j]][j := x];
    assert multiset(t[j := t[i]]) == multiset(t) - multiset{t[j]} + multiset{t[i]};
  }

  /** A heap from `l` on, but for hole `i` on the way down, where `rra` is to
      go.  The hole still shows the element it passed upwards. */
  ghost predicate Sifting(a: seq<real>, l: nat, i: nat, ir: nat, rra: real) {
    && 1 <= l <= i <= ir < |a|
    && HeapFrom(a, if i == l then l + 1 else l, ir)
    && (i > l ==> i / 2 >= l && a[i / 2] >= rra)
  }

  /** The larger child moves up and the hole moves down. */
  lemma SiftStep(a: seq<real>, l: nat, i: nat, ir: nat, rra: real, j: nat)
    requires Sifting(a, l, i, ir, rra)
    requires j <= ir && (j == 2 * i || j == 2 * i + 1) && Covers(a, i, ir, a[j]) && rra < a[j]
    ensures Sifting(a[i := a[j]], l, j, ir, rra)
  {
    var b := a[i := a[j]];
    forall p | l <= p <= ir ensures Dominates(b, p, ir) {
      if p != i {
        assert Dominates(a, p, ir);
        if i == 2 * p || i == 2 * p + 1 {
          assert p >= l && i > l;
          assert Dominates(a, i, ir);
        }
      }
    }
  }

  /** Where `rra` covers the children of the hole it completes the heap. */
  lemma SiftDone(a: seq<real>, l: nat, i: nat, ir: nat, rra: real)
    requires Sifting(a, l, i, ir, rra) && Covers(a, i, ir, rra)
    ensures HeapFrom(a[i := rra], l, ir)
  {
    var b := a[i := rra];
    forall p | l <= p <= ir ensures Dominates(b, p, ir) {
      if p != i {
        assert Dominates(a, p, ir);
        if i == 2 * p || i == 2 * p + 1 {
          assert p == i / 2;
        }
      }
    }
  }

  ghost predicate SameOutside(a: seq<real>, b: seq<real>, hi: nat) {
    |a| == |b| && forall k :: 0 <= k < |a| && !(1 <= k <= hi) ==> a[k] == b[k]
  }

  /** The loop state of the sift: the contents `a`, from `start` with `rra` taken
      out at `l`. */
  ghost predicate SiftState(a: seq<real>, start: seq<real>, l: nat, i: nat, ir: nat, n: nat, rra: real) {
    && Sifting(a, l, i, ir, rra)
    && ir <= n < |a| && l < |start|
    && SortedAbove(a, ir, n) && BelowRest(a, ir, n, rra)
    && multiset(a[i := rra]) == multiset(start[l := rra])
    && SameOutside(a, start, ir)
  }

  lemma SiftStateStep(a: seq<real>, start: seq<real>, l: nat, i: nat, ir: nat, n: nat, rra: real, j: nat)
    requires SiftState(a, start, l, i, ir, n, rra)
    requires j <= ir && (j == 2 * i || j == 2 * i + 1) && Covers(a, i, ir, a[j]) && rra < a[j]
    ensures SiftState(a[i := a[j]], start, l, j, ir, n, rra)
  {
    SiftStep(a, l, i, ir, rra, j);
    MoveHole(a, i, j, rra);
    OverwriteBelow(a, ir, n, i, a[j]);
  }

  lemma SiftStateDone(a: seq<real>, start: seq<real>, l: nat, i: nat, ir: nat, n: nat, rra: real)
    requires SiftState(a, start, l, i, ir, n, rra) && Covers(a, i, ir, rra)
    ensures HeapFrom(a[i := rra], l, ir) && SortedAbove(a[i := rra], ir, n)
    ensures SameOutside(a[i := rra], start, ir)
  {
    SiftDone(a, l, i, ir, rra);
    OverwriteBelow(a, ir, n, i, rra);
  }

  /** The larger of two children. */
  method LargerChild(a: array<real>, i: nat, ir: nat) returns (j: nat)
    requires 1 <= i && 2 * i <= ir < a.Length
    ensures j <= ir && (j == 2 * i || j == 2 * i + 1) && Covers(a[..], i, ir, a[j])
  {
    j := 2 * i;
    if j < ir && a[j] < a[j + 1] {
      j := j + 1;
    }
  }

  /** Sifts `rra` down from hole `l`. */
  method SiftDown(a: array<real>, l: nat, ir: nat, n: nat, rra: real)
    requires 1 <= l <= ir <= n < a.Length
    requires HeapFrom(a[..], l + 1, ir)
    requires SortedAbove(a[..], ir, n) && BelowRest(a[..], ir, n, rra)
    modifies a
    ensures HeapFrom(a[..], l, ir) && SortedAbove(a[..], ir, n)
    ensures multiset(a[..]) == multiset(old(a[..])[l := rra])
    ensures SameOutside(a[..], old(a[..]), ir)
  {
    ghost var start, s := a[..], a[..];
    var i, j := l, 2 * l;
    while j <= ir
      invariant a[..] == s && SiftState(s, start, l, i, ir, n, rra)
      invariant j == 2 * i || (j == ir + 1 && Covers(s, i, ir, rra))
      decreases ir + 1 - j
    {
      j := LargerChild(a, i, ir);
      if rra < a[j] {
        SiftStateStep(s, start, l, i, ir, n, rra, j);
        a[i] := a[j];
        s := s[i := s[j]];
        i := j;
        j := j + i;
      } else {
        j := ir + 1;
      }
    }
    SiftStateDone(s, start, l, i, ir, n, rra);
    a[i] := rra;
    assert a[..] == s[i := rra];
  }

  ghost predicate Sorted(a: seq<real>, n: nat)
    requires n < |a|
  {
    forall k, m :: 1 <= k <= m <= n ==> a[k] <= a[m]
  }

  /** A whole array keeping its elements, with the rest of it untouched, keeps
      them in between. */
  lemma RestrictPermutation(a: seq<real>, b: seq<real>, n: nat)
    requires n < |a| && multiset(a) == multiset(b) && SameOutside(a, b, n)
    ensures multiset(a[1..n + 1]) == multiset(b[1..n + 1])
  {
    var front, back := a[..1], a[n + 1..];
    assert a == front + a[1..n + 1] + back;
    assert b == front + b[1..n + 1] + back by {
      assert b[..1] == front && b[n + 1..] == back;
    }
    var outer := multiset(front) + multiset(back);
    assert multiset(a) - outer == multiset(a[1..n + 1]);
    assert multiset(b) - outer == multiset(b[1..n + 1]);
  }

  /** Taking the root of the heap to the end of it, and the last element out. */
  lemma TakeRoot(a: seq<real>, ir: nat, n: nat)
    requires 2 <= ir <= n < |a| && HeapFrom(a, 1, ir) && SortedAbove(a, ir, n)
    ensures var b := a[ir := a[1]];
      HeapFrom(b, 2, ir - 1) && SortedAbove(b, ir - 1, n) && BelowRest(b, ir - 1, n, a[ir])
  {
    var b := a[ir := a[1]];
    forall k: nat | 1 <= k <= ir ensures a[k] <= a[1] {
      RootIsMaximum(a, ir, k);
    }
    var hi := ir - 1;
    forall p | 2 <= p <= hi ensures Dominates(b, p, hi) {
      assert Dominates(a, p, ir);
    }
  }

  /** The loop state of the sort: the contents `a` of what began as `start`. */
  ghost predicate SortState(a: seq<real>, start: seq<real>, l: nat, ir: nat, n: nat) {
    && 1 <= l <= n / 2 + 1 && 2 <= ir <= n < |a|
    && (l > 1 ==> ir == n)
    && HeapFrom(a, l, ir) && SortedAbove(a, ir, n)
    && multiset(a) == multiset(start) && SameOutside(a, start, n)
  }

  /** `rra` has been taken out of `a` and is to be sifted in at `l`. */
  ghost predicate SiftReady(a: seq<real>, start: seq<real>, l: nat, ir: nat, n: nat, rra: real) {
    && 1 <= l <= n / 2 + 1 && l <= ir <= n < |a| && (l > 1 ==> ir == n)
    && HeapFrom(a, l + 1, ir) && SortedAbove(a, ir, n) && BelowRest(a, ir, n, rra)
    && multiset(a[l := rra]) == multiset(start) && SameOutside(a, start, n)
  }

  /** While the heap is built, the next node down is taken out. */
  lemma BuildReady(a: seq<real>, start: seq<real>, l: nat, ir: nat, n: nat)
    requires SortState(a, start, l, ir, n) && l > 1
    ensures SiftReady(a, start, l - 1, ir, n, a[l - 1])
  {
    assert a[l - 1 := a[l - 1]] == a;
  }

  /** Afterwards the last element is, and the root goes in its place. */
  lemma TakeReady(a: seq<real>, start: seq<real>, ir: nat, n: nat)
    requires SortState(a, start, 1, ir, n)
    ensures SiftReady(a[ir := a[1]], start, 1, ir - 1, n, a[ir])
  {
    TakeRoot(a, ir, n);
    MoveHole(a, ir, 1, a[ir]);
    assert a[ir := a[ir]] == a;
  }

  lemma SortStateAfterSift(b: seq<real>, c: seq<real>, start: seq<real>, l: nat, ir: nat, n: nat, rra: real)
    requires SiftReady(b, start, l, ir, n, rra) && 2 <= ir && |c| == |b|
    requires HeapFrom(c, l, ir) && SortedAbove(c, ir, n)
    requires multiset(c) == multiset(b[l := rra]) && SameOutside(c, b, ir)
    ensures SortState(c, start, l, ir, n)
  {}

  lemma SortedAtEnd(b: seq<real>, start: seq<real>, n: nat, rra: real)
    requires SiftReady(b, start, 1, 1, n, rra)
    ensures Sorted(b[1 := rra], n) && SameOutside(b[1 := rra], start, n)
    ensures multiset(b[1 := rra][1..n + 1]) == multiset(start[1..n + 1])
  {
    OverwriteBelow(b, 1, n, 1, rra);
    RestrictPermutation(b[1 := rra], start, n);
  }

  /** Positions 1..n end up sorted, with the elements they had. */
  method HeapSortR(n: nat, ra: array<real>)
    requires 2 <= n < ra.Length
    modifies ra
    ensures Sorted(ra[..], n)
    ensures multiset(ra[..][1..n + 1]) == multiset(old(ra[..])[1..n + 1])
    ensures SameOutside(ra[..], old(ra[..]), n)
  {
    ghost var start, s := ra[..], ra[..];
    var l: nat, ir: nat := n / 2 + 1, n;
    while true
      invariant ra[..] == s && SortState(s, start, l, ir, n)
      decreases l + ir
    {
      var rra;
      if l > 1 {
        BuildReady(s, start, l, ir, n);
        l := l - 1;
        rra := ra[l];
      } else {
        TakeReady(s, start, ir, n);
        rra := ra[ir];
        ra[ir] := ra[1];
        s := s[ir := s[1]];
        ir := ir - 1;
        if ir == 1 {
          SortedAtEnd(s, start, n, rra);
          ra[1] := rra;
          assert ra[..] == s[1 := rra];
          return;
        }
      }
      SiftDown(ra, l, ir, n, rra);
      SortStateAfterSift(s, ra[..], start, l, ir, n, rra);
      s := ra[..];
    }
  }
}
