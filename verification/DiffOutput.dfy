/** The hunk printer of run-tests.php.  Number padding and the trailing newline
    of each line are left to the reader of a `Line`. */
module DiffOutput {
  import opened Differ
  import Lcs

  datatype Line<T> = Separator | Context(token: T) | Plus(number: nat, text: T) | Minus(number: nat, text: T)

  function Print<T>(e: Entry<T>): Line<T> {
    match e
    case Old(t) => Context(t)
    case Added(t, n) => Plus(n, t)
    case Removed(t, n) => Minus(n, t)
  }

  /** Position `p` is at most `c` entries away from some change. */
  ghost predicate Near<T>(d: seq<Entry<T>>, c: nat, p: int) {
    exists q :: 0 <= q < |d| && !d[q].Old? && q - c <= p <= q + c
  }

  lemma NearChange<T>(d: seq<Entry<T>>, c: nat, q: nat, p: int)
    requires q < |d| && !d[q].Old? && q - c <= p <= q + c
    ensures Near(d, c, p)
  {}

  /** `Near`, tabulated. */
  ghost function Nearness<T>(d: seq<Entry<T>>, c: nat): (near: seq<bool>)
    ensures |near| == |d| && forall p :: 0 <= p < |d| ==> near[p] == Near(d, c, p)
  {
    seq(|d|, p requires 0 <= p < |d| => Near(d, c, p))
  }

  /** Position `p` opens a maximal run of omitted entries. */
  ghost predicate OpensRun(near: seq<bool>, p: nat)
    requires p < |near|
  {
    !near[p] && (p == 0 || near[p - 1])
  }

  /** What the first `n` entries print: an entry near a change prints itself,
      and the first entry of every other run prints one separator. */
  ghost function Render<T>(d: seq<Entry<T>>, near: seq<bool>, n: nat): seq<Line<T>>
    requires n <= |d| == |near|
  {
    if n == 0 then []
    else if near[n - 1] then Render(d, near, n - 1) + [Print(d[n - 1])]
    else if OpensRun(near, n - 1) then Render(d, near, n - 1) + [Separator]
    else Render(d, near, n - 1)
  }

  /** An omitted run prints nothing after its separator. */
  lemma {:induction false} RenderOmitted<T>(d: seq<Entry<T>>, near: seq<bool>, i: nat, n: nat)
    requires i < n <= |d| == |near|
    requires i == 0 || near[i - 1]
    requires forall p :: i <= p < n ==> !near[p]
    ensures Render(d, near, n) == Render(d, near, i) + [Separator]
    decreases n
  {
    if n - 1 > i {
      RenderOmitted(d, near, i, n - 1);
    }
  }

  /** Where a hunk may begin: no change printed so far calls for entry `i`. */
  ghost predicate HunkStart<T>(d: seq<Entry<T>>, c: nat, i: nat)
    requires i <= |d|
  {
    && (i == 0 || Near(d, c, i - 1))
    && (i == |d| || !d[i].Old? || forall q :: 0 <= q < i && !d[q].Old? ==> q + c < i)
  }

  method FindNext<T>(d: seq<Entry<T>>, i: nat) returns (next: nat)
    requires i <= |d|
    ensures i <= next <= |d|
    ensures forall p :: i <= p < next ==> d[p].Old?
    ensures next < |d| ==> !d[next].Old?
  {
    next := i;
    while next < |d|
      invariant i <= next <= |d|
      invariant forall p :: i <= p < next ==> d[p].Old?
    {
      if !d[next].Old? {
        break;
      }
      next := next + 1;
    }
  }

  /** From a hunk start to the next change at `next`: only the last `c` entries
      are near a change. */
  lemma NearBeforeChange<T>(d: seq<Entry<T>>, c: nat, i: nat, next: nat, p: nat)
    requires i <= next < |d| && HunkStart(d, c, i)
    requires !d[next].Old? && forall q :: i <= q < next ==> d[q].Old?
    requires i <= p < next
    ensures Near(d, c, p) <==> next - c <= p
  {}

  /** The separator, if entries are skipped, and the leading context of the
      change at `next`. */
  method PrintLeadIn<T>(d: seq<Entry<T>>, c: nat, start: nat, next: nat, buffer: seq<Line<T>>)
    returns (out: seq<Line<T>>)
    requires start <= next < |d| && HunkStart(d, c, start) && buffer == Render(d, Nearness(d, c), start)
    requires !d[next].Old? && forall q :: start <= q < next ==> d[q].Old?
    ensures out == Render(d, Nearness(d, c), next)
  {
    ghost var near := Nearness(d, c);
    forall p | start <= p < next ensures near[p] <==> next - c <= p {
      NearBeforeChange(d, c, start, next, p);
    }
    var i := start;
    out := buffer;
    if i < next - c {
      RenderOmitted(d, near, i, next - c);
      out := out + [Separator];
      i := next - c;
    }
    while i < next
      invariant start <= i <= next && next - c <= i && out == Render(d, near, i)
    {
      out := out + [Print(d[i])];
      i := i + 1;
    }
  }

  /** An entry within reach of a change prints itself. */
  lemma PrintsNext<T>(d: seq<Entry<T>>, c: nat, q: nat, i: nat)
    requires q < |d| && !d[q].Old? && q - c <= i <= q + c && i < |d|
    ensures Near(d, c, i) && Render(d, Nearness(d, c), i + 1) == Render(d, Nearness(d, c), i) + [Print(d[i])]
  {
    NearChange(d, c, q, i);
  }

  /** The next hunk may begin behind the context of the last change. */
  lemma ContextEnds<T>(d: seq<Entry<T>>, c: nat, last: nat, i: nat)
    requires last < i <= |d| && Near(d, c, i - 1) && forall q :: last < q < i ==> d[q].Old?
    requires i == |d| || !d[i].Old? || last + c < i
    ensures HunkStart(d, c, i)
  {}

  /** The printed differences. */
  method PrintChanges<T>(d: seq<Entry<T>>, c: nat, start: nat, buffer: seq<Line<T>>) returns (i: nat, out: seq<Line<T>>)
    requires start < |d| && !d[start].Old? && buffer == Render(d, Nearness(d, c), start)
    ensures start < i <= |d| && out == Render(d, Nearness(d, c), i) && !d[i - 1].Old? && (i < |d| ==> d[i].Old?)
  {
    i, out := start, buffer;
    while i < |d| && !d[i].Old?
      invariant start <= i <= |d| && out == Render(d, Nearness(d, c), i)
      invariant i == start || !d[i - 1].Old?
    {
      PrintsNext(d, c, i, i);
      out := out + [Print(d[i])];
      i := i + 1;
    }
  }

  /** The printed differences and their trailing context. */
  method PrintHunk<T>(d: seq<Entry<T>>, c: nat, start: nat, buffer: seq<Line<T>>) returns (i: nat, out: seq<Line<T>>)
    requires start < |d| && !d[start].Old? && buffer == Render(d, Nearness(d, c), start)
    ensures start < i <= |d| && out == Render(d, Nearness(d, c), i) && HunkStart(d, c, i)
  {
    i, out := PrintChanges(d, c, start, buffer);
    ghost var last := i - 1;
    NearChange(d, c, last, last);
    var afterContext := if i + c < |d| then i + c else |d|;
    while i < afterContext && d[i].Old?
      invariant last < i <= afterContext && out == Render(d, Nearness(d, c), i) && Near(d, c, i - 1)
      invariant forall q :: last < q < i ==> d[q].Old?
    {
      PrintsNext(d, c, last, i);
      out := out + [Print(d[i])];
      i := i + 1;
    }
    ContextEnds(d, c, last, i);
  }

  /** Past the last change everything is omitted. */
  lemma NothingLeft<T>(d: seq<Entry<T>>, c: nat, i: nat)
    requires i < |d| && HunkStart(d, c, i) && forall q :: i <= q < |d| ==> d[q].Old?
    ensures Render(d, Nearness(d, c), |d|) == Render(d, Nearness(d, c), i) + [Separator]
  {
    forall p | i <= p < |d| ensures !Near(d, c, p) {
    }
    RenderOmitted(d, Nearness(d, c), i, |d|);
  }

  /** The whole printer. */
  method GetDiff<T>(d: seq<Entry<T>>, contextLineCount: nat) returns (buffer: seq<Line<T>>)
    ensures buffer == Render(d, Nearness(d, contextLineCount), |d|)
    ensures MinusLines(buffer) == RemovedOf(d) && PlusLines(buffer) == AddedOf(d)
    ensures ContextLines(buffer) == NearKept(d, Nearness(d, contextLineCount), |d|)
  {
    var c := contextLineCount;
    RenderSigns(d, c);
    var i := 0;
    buffer := [];
    while i < |d|
      invariant 0 <= i <= |d| && buffer == Render(d, Nearness(d, c), i) && HunkStart(d, c, i)
      decreases |d| - i
    {
      var next := FindNext(d, i);
      if next == |d| {
        NothingLeft(d, c, i);
        buffer := buffer + [Separator];
        return;
      }
      buffer := PrintLeadIn(d, c, i, next, buffer);
      i, buffer := PrintHunk(d, c, next, buffer);
    }
  }

  // ---------- What the rendering is ----------

  ghost function WithoutSeparators<T>(s: seq<Line<T>>): seq<Line<T>> {
    if s == [] then []
    else if s[|s| - 1].Separator? then WithoutSeparators(s[..|s| - 1])
    else WithoutSeparators(s[..|s| - 1]) + [s[|s| - 1]]
  }

  ghost function Separators<T>(s: seq<Line<T>>): nat {
    if s == [] then 0
    else if s[|s| - 1].Separator? then Separators(s[..|s| - 1]) + 1
    else Separators(s[..|s| - 1])
  }

  ghost function ChangeLines<T>(s: seq<Line<T>>): seq<Line<T>> {
    if s == [] then []
    else if s[|s| - 1].Plus? || s[|s| - 1].Minus? then ChangeLines(s[..|s| - 1]) + [s[|s| - 1]]
    else ChangeLines(s[..|s| - 1])
  }

  lemma AppendLine<T>(s: seq<Line<T>>, one: Line<T>)
    ensures WithoutSeparators(s + [one])
         == if one.Separator? then WithoutSeparators(s) else WithoutSeparators(s) + [one]
    ensures Separators(s + [one]) == if one.Separator? then Separators(s) + 1 else Separators(s)
    ensures ChangeLines(s + [one]) == if one.Plus? || one.Minus? then ChangeLines(s) + [one] else ChangeLines(s)
  {
    assert (s + [one])[..|s|] == s;
  }

  /** The entries near a change, in order. */
  ghost function NearEntries<T>(d: seq<Entry<T>>, near: seq<bool>, n: nat): seq<Line<T>>
    requires n <= |d| == |near|
  {
    if n == 0 then []
    else if near[n - 1] then NearEntries(d, near, n - 1) + [Print(d[n - 1])]
    else NearEntries(d, near, n - 1)
  }

  /** The changes, in order. */
  ghost function ChangedEntries<T>(d: seq<Entry<T>>, n: nat): seq<Line<T>>
    requires n <= |d|
  {
    if n == 0 then []
    else if d[n - 1].Old? then ChangedEntries(d, n - 1)
    else ChangedEntries(d, n - 1) + [Print(d[n - 1])]
  }

  /** The starts of the maximal runs of omitted entries. */
  ghost function OmittedRuns(near: seq<bool>, n: nat): set<nat>
    requires n <= |near|
  {
    set p: nat | p < n && OpensRun(near, p)
  }

  /** The output shows exactly the entries near a change, once each and in
      order. */
  lemma {:induction false} RenderShowsNearEntries<T>(d: seq<Entry<T>>, near: seq<bool>, n: nat)
    requires n <= |d| == |near|
    ensures WithoutSeparators(Render(d, near, n)) == NearEntries(d, near, n)
  {
    if n > 0 {
      RenderShowsNearEntries(d, near, n - 1);
      var front := Render(d, near, n - 1);
      if near[n - 1] {
        AppendLine(front, Print(d[n - 1]));
        assert Render(d, near, n) == front + [Print(d[n - 1])];
      } else if OpensRun(near, n - 1) {
        AppendLine(front, Separator);
        assert Render(d, near, n) == front + [Separator];
      }
    }
  }

  lemma CountOmittedRun(near: seq<bool>, n: nat)
    requires 0 < n <= |near|
    ensures |OmittedRuns(near, n)| == |OmittedRuns(near, n - 1)| + if OpensRun(near, n - 1) then 1 else 0
  {
    assert OmittedRuns(near, n) == OmittedRuns(near, n - 1) + if OpensRun(near, n - 1) then {n - 1} else {};
  }

  /** It prints one separator per omitted run. */
  lemma {:induction false} RenderSeparatesOmittedRuns<T>(d: seq<Entry<T>>, near: seq<bool>, n: nat)
    requires n <= |d| == |near|
    ensures Separators(Render(d, near, n)) == |OmittedRuns(near, n)|
  {
    if n > 0 {
      RenderSeparatesOmittedRuns(d, near, n - 1);
      CountOmittedRun(near, n);
      var front := Render(d, near, n - 1);
      if near[n - 1] {
        AppendLine(front, Print(d[n - 1]));
        assert Render(d, near, n) == front + [Print(d[n - 1])];
      } else if OpensRun(near, n - 1) {
        AppendLine(front, Separator);
        assert Render(d, near, n) == front + [Separator];
      }
    }
  }

  lemma {:induction false} RenderShowsChanges<T>(d: seq<Entry<T>>, near: seq<bool>, n: nat)
    requires n <= |d| == |near|
    requires forall p :: 0 <= p < n && !d[p].Old? ==> near[p]
    ensures ChangeLines(Render(d, near, n)) == ChangedEntries(d, n)
  {
    if n > 0 {
      RenderShowsChanges(d, near, n - 1);
      var front := Render(d, near, n - 1);
      if near[n - 1] {
        AppendLine(front, Print(d[n - 1]));
        assert Render(d, near, n) == front + [Print(d[n - 1])];
      } else if OpensRun(near, n - 1) {
        AppendLine(front, Separator);
        assert Render(d, near, n) == front + [Separator];
      }
    }
  }

  /** No change is omitted, whatever the context. */
  lemma RenderShowsEveryChange<T>(d: seq<Entry<T>>, c: nat)
    ensures ChangeLines(Render(d, Nearness(d, c), |d|)) == ChangedEntries(d, |d|)
  {
    forall p | 0 <= p < |d| && !d[p].Old? ensures Near(d, c, p) {
    }
    RenderShowsChanges(d, Nearness(d, c), |d|);
  }

  // ---------- The signs ----------

  /** The lines with a "-": their numbers and texts, in order. */
  ghost function MinusLines<T>(s: seq<Line<T>>): seq<(nat, T)> {
    if s == [] then []
    else
      var l := s[|s| - 1];
      if l.Minus? then MinusLines(s[..|s| - 1]) + [(l.number, l.text)] else MinusLines(s[..|s| - 1])
  }

  ghost function PlusLines<T>(s: seq<Line<T>>): seq<(nat, T)> {
    if s == [] then []
    else
      var l := s[|s| - 1];
      if l.Plus? then PlusLines(s[..|s| - 1]) + [(l.number, l.text)] else PlusLines(s[..|s| - 1])
  }

  ghost function ContextLines<T>(s: seq<Line<T>>): seq<T> {
    if s == [] then []
    else
      var l := s[|s| - 1];
      if l.Context? then ContextLines(s[..|s| - 1]) + [l.token] else ContextLines(s[..|s| - 1])
  }

  /** The removed entries: their line numbers and tokens, in order. */
  ghost function RemovedOf<T>(d: seq<Entry<T>>): seq<(nat, T)> {
    if d == [] then []
    else
      var e := d[|d| - 1];
      if e.Removed? then RemovedOf(d[..|d| - 1]) + [(e.line, e.token)] else RemovedOf(d[..|d| - 1])
  }

  ghost function AddedOf<T>(d: seq<Entry<T>>): seq<(nat, T)> {
    if d == [] then []
    else
      var e := d[|d| - 1];
      if e.Added? then AddedOf(d[..|d| - 1]) + [(e.line, e.token)] else AddedOf(d[..|d| - 1])
  }

  /** The tokens of the kept entries among the first `n` that are near a change. */
  ghost function NearKept<T>(d: seq<Entry<T>>, near: seq<bool>, n: nat): seq<T>
    requires n <= |d| == |near|
  {
    if n == 0 then []
    else if d[n - 1].Old? && near[n - 1] then NearKept(d, near, n - 1) + [d[n - 1].token]
    else NearKept(d, near, n - 1)
  }

  lemma OneLineMore<T>(s: seq<Line<T>>, l: Line<T>)
    ensures MinusLines(s + [l]) == if l.Minus? then MinusLines(s) + [(l.number, l.text)] else MinusLines(s)
    ensures PlusLines(s + [l]) == if l.Plus? then PlusLines(s) + [(l.number, l.text)] else PlusLines(s)
    ensures ContextLines(s + [l]) == if l.Context? then ContextLines(s) + [l.token] else ContextLines(s)
  {
    assert (s + [l])[..|s|] == s;
  }

  lemma OneEntryMore<T>(d: seq<Entry<T>>, n: nat)
    requires n < |d|
    ensures RemovedOf(d[..n + 1])
         == if d[n].Removed? then RemovedOf(d[..n]) + [(d[n].line, d[n].token)] else RemovedOf(d[..n])
    ensures AddedOf(d[..n + 1]) == if d[n].Added? then AddedOf(d[..n]) + [(d[n].line, d[n].token)] else AddedOf(d[..n])
  {
    assert d[..n + 1][..n] == d[..n];
  }

  lemma {:induction false} RenderSignsUpTo<T>(d: seq<Entry<T>>, near: seq<bool>, n: nat)
    requires n <= |d| == |near|
    requires forall p :: 0 <= p < n && !d[p].Old? ==> near[p]
    ensures MinusLines(Render(d, near, n)) == RemovedOf(d[..n])
    ensures PlusLines(Render(d, near, n)) == AddedOf(d[..n])
    ensures ContextLines(Render(d, near, n)) == NearKept(d, near, n)
  {
    if n > 0 {
      RenderSignsUpTo(d, near, n - 1);
      OneEntryMore(d, n - 1);
      var front := Render(d, near, n - 1);
      if near[n - 1] {
        OneLineMore(front, Print(d[n - 1]));
        assert Render(d, near, n) == front + [Print(d[n - 1])];
      } else if OpensRun(near, n - 1) {
        OneLineMore(front, Separator);
        assert Render(d, near, n) == front + [Separator];
      }
    }
  }

  /** Removals print with "-" and additions with "+", each with its number and token;
      what is kept prints its token when it is near a change. */
  lemma RenderSigns<T>(d: seq<Entry<T>>, c: nat)
    ensures MinusLines(Render(d, Nearness(d, c), |d|)) == RemovedOf(d)
    ensures PlusLines(Render(d, Nearness(d, c), |d|)) == AddedOf(d)
    ensures ContextLines(Render(d, Nearness(d, c), |d|)) == NearKept(d, Nearness(d, c), |d|)
  {
    forall p | 0 <= p < |d| && !d[p].Old? ensures Near(d, c, p) {
    }
    assert d[..|d|] == d;
    RenderSignsUpTo(d, Nearness(d, c), |d|);
  }

  lemma {:induction false} CountOfSigns<T>(d: seq<Entry<T>>)
    ensures |RemovedOf(d)| == |FromSide(d)| - OldCount(d) && |AddedOf(d)| == |ToSide(d)| - OldCount(d)
  {
    if d != [] {
      CountOfSigns(d[..|d| - 1]);
    }
  }

  /** The numbers and tokens of a list point into an input, in ascending order. */
  ghost predicate PointInto<T>(lines: seq<(nat, T)>, input: seq<T>) {
    && (forall k :: 0 <= k < |lines| ==> 1 <= lines[k].0 <= |input| && input[lines[k].0 - 1] == lines[k].1)
    && (forall k, l :: 0 <= k < l < |lines| ==> lines[k].0 < lines[l].0)
  }

  /** One entry takes a token of an input, or not, and if it does may show it. */
  lemma PointsOn<T>(lines: seq<(nat, T)>, input: seq<T>, token: T, taken: bool, shown: bool, lines': seq<(nat, T)>,
                    input': seq<T>)
    requires PointInto(lines, input) && (shown ==> taken)
    requires input' == (if taken then input + [token] else input)
    requires lines' == (if shown then lines + [(|input| + 1, token)] else lines)
    ensures PointInto(lines', input')
  {}

  lemma NumberedFront<T>(d: seq<Entry<T>>)
    requires IsNumbered(d) && d != []
    ensures var front, e := d[..|d| - 1], d[|d| - 1];
      && d == front + [e] && IsNumbered(front)
      && (e.Removed? ==> e.line == |FromSide(front)| + 1) && (e.Added? ==> e.line == |ToSide(front)| + 1)
  {
    var front := d[..|d| - 1];
    forall p | 0 <= p < |front| ensures d[..p] == front[..p] {
    }
  }

  /** The changes of a numbered script point into its two sides. */
  lemma {:induction false} ChangesPoint<T>(d: seq<Entry<T>>)
    requires IsNumbered(d)
    ensures PointInto(RemovedOf(d), FromSide(d)) && PointInto(AddedOf(d), ToSide(d))
  {
    if d != [] {
      var front, e := d[..|d| - 1], d[|d| - 1];
      NumberedFront(d);
      ChangesPoint(front);
      Append(front, e);
      PointsOn(RemovedOf(front), FromSide(front), e.token, !e.Added?, e.Removed?, RemovedOf(d), FromSide(d));
      PointsOn(AddedOf(front), ToSide(front), e.token, !e.Removed?, e.Added?, AddedOf(d), ToSide(d));
    }
  }

  lemma {:induction false} MinusLineOf<T>(s: seq<Line<T>>, k: nat) returns (m: nat)
    requires k < |s| && s[k].Minus?
    ensures m < |MinusLines(s)| && MinusLines(s)[m] == (s[k].number, s[k].text)
  {
    if k < |s| - 1 {
      m := MinusLineOf(s[..|s| - 1], k);
    } else {
      m := |MinusLines(s)| - 1;
    }
  }

  lemma {:induction false} PlusLineOf<T>(s: seq<Line<T>>, k: nat) returns (m: nat)
    requires k < |s| && s[k].Plus?
    ensures m < |PlusLines(s)| && PlusLines(s)[m] == (s[k].number, s[k].text)
  {
    if k < |s| - 1 {
      m := PlusLineOf(s[..|s| - 1], k);
    } else {
      m := |PlusLines(s)| - 1;
    }
  }

  lemma PointsAt<T>(lines: seq<(nat, T)>, input: seq<T>, m: nat)
    requires PointInto(lines, input) && m < |lines|
    ensures 1 <= lines[m].0 <= |input| && input[lines[m].0 - 1] == lines[m].1
  {}

  lemma MinusQuotes<T>(s: seq<Line<T>>, input: seq<T>, k: nat)
    requires k < |s| && s[k].Minus? && PointInto(MinusLines(s), input)
    ensures 1 <= s[k].number <= |input| && input[s[k].number - 1] == s[k].text
  {
    var m := MinusLineOf(s, k);
    PointsAt(MinusLines(s), input, m);
  }

  lemma PlusQuotes<T>(s: seq<Line<T>>, input: seq<T>, k: nat)
    requires k < |s| && s[k].Plus? && PointInto(PlusLines(s), input)
    ensures 1 <= s[k].number <= |input| && input[s[k].number - 1] == s[k].text
  {
    var m := PlusLineOf(s, k);
    PointsAt(PlusLines(s), input, m);
  }

  /** Every "-" line quotes the line of the first input that it numbers, every "+" line
      that of the second, and they are as few as the longest common subsequence allows. */
  ghost predicate Quotes<T>(out: seq<Line<T>>, from: seq<T>, to: seq<T>) {
    && (forall k :: 0 <= k < |out| && out[k].Minus? ==>
          1 <= out[k].number <= |from| && from[out[k].number - 1] == out[k].text)
    && (forall k :: 0 <= k < |out| && out[k].Plus? ==>
          1 <= out[k].number <= |to| && to[out[k].number - 1] == out[k].text)
    && |MinusLines(out)| == |from| - Lcs.Length(Same(), from, to)
    && |PlusLines(out)| == |to| - Lcs.Length(Same(), from, to)
  }

  lemma LinesQuote<T>(out: seq<Line<T>>, from: seq<T>, to: seq<T>)
    requires PointInto(MinusLines(out), from) && PointInto(PlusLines(out), to)
    ensures forall k :: 0 <= k < |out| && out[k].Minus? ==>
      1 <= out[k].number <= |from| && from[out[k].number - 1] == out[k].text
    ensures forall k :: 0 <= k < |out| && out[k].Plus? ==>
      1 <= out[k].number <= |to| && to[out[k].number - 1] == out[k].text
  {
    forall k | 0 <= k < |out| && out[k].Minus?
      ensures 1 <= out[k].number <= |from| && from[out[k].number - 1] == out[k].text
    {
      MinusQuotes(out, from, k);
    }
    forall k | 0 <= k < |out| && out[k].Plus?
      ensures 1 <= out[k].number <= |to| && to[out[k].number - 1] == out[k].text
    {
      PlusQuotes(out, to, k);
    }
  }

  lemma RenderQuotes<T(!new)>(d: seq<Entry<T>>, from: seq<T>, to: seq<T>, c: nat)
    requires IsShortest(d, from, to)
    ensures Quotes(Render(d, Nearness(d, c), |d|), from, to)
  {
    RenderSigns(d, c);
    CountOfSigns(d);
    ChangesPoint(d);
    LinesQuote(Render(d, Nearness(d, c), |d|), from, to);
  }

  /** Separators never touch, and a separator ends the output exactly when the
      last entry is omitted. */
  lemma {:induction false} SeparatorsNeverTouch<T>(d: seq<Entry<T>>, near: seq<bool>, n: nat)
    requires n <= |d| == |near|
    ensures n > 0 ==> Render(d, near, n) != []
    ensures n > 0 ==> (Render(d, near, n)[|Render(d, near, n)| - 1].Separator? <==> !near[n - 1])
    ensures forall k :: 0 < k < |Render(d, near, n)| ==>
      !Render(d, near, n)[k - 1].Separator? || !Render(d, near, n)[k].Separator?
  {
    if n > 0 {
      SeparatorsNeverTouch(d, near, n - 1);
    }
  }

  /** Equal inputs print a lone separator, or nothing when they are empty. */
  lemma NothingChangedPrintsOneSeparator<T>(d: seq<Entry<T>>, c: nat)
    requires forall p :: 0 <= p < |d| ==> d[p].Old?
    ensures Render(d, Nearness(d, c), |d|) == if d == [] then [] else [Separator]
  {
    if d != [] {
      NothingLeft(d, c, 0);
    }
  }

  /** `d` is a numbered script between the inputs that keeps as much as any can. */
  ghost predicate IsShortest<T(!new)>(d: seq<Entry<T>>, from: seq<T>, to: seq<T>) {
    IsScript(d, from, to) && IsNumbered(d) && OldCount(d) == Lcs.Length(Same(), from, to)
  }

  /** `Differ::diff`: the rendering of a script with the fewest changes, in which
      every one of them shows. */
  method Diff<T(!new, ==)>(from: seq<T>, to: seq<T>, contextLineCount: nat) returns (out: seq<Line<T>>)
    ensures exists d: seq<Entry<T>> ::
      && IsShortest(d, from, to)
      && out == Render(d, Nearness(d, contextLineCount), |d|)
      && ChangeLines(out) == ChangedEntries(d, |d|)
    ensures Quotes(out, from, to)
  {
    var diff := DiffToArray(from, to);
    out := GetDiff(diff, contextLineCount);
    RenderShowsEveryChange(diff, contextLineCount);
    assert IsShortest(diff, from, to);
    RenderQuotes(diff, from, to, contextLineCount);
  }
}
