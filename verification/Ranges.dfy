/**
 Epoch lists and ranges: the in-place sort, deduplication and range collapse of the command
 line tool (sortUint64, dedupUint64, collapseRanges), and the gap ranges the database reports.
 */
module Ranges {
  import opened Lists

  ghost predicate Sorted(s: seq<nat>) { forall i, j :: 0 <= i < j < |s| ==> s[i] <= s[j] }

  lemma SwapKeeps(s: seq<nat>, j: nat)
    requires 0 < j < |s|
    ensures multiset(Swapped(s, j)) == multiset(s)
  {
    assert multiset(s[j := s[j - 1]]) == multiset(s) - multiset{s[j]} + multiset{s[j - 1]};
  }

  function Swapped(s: seq<nat>, j: nat): seq<nat>
    requires 0 < j < |s|
  {
    s[j := s[j - 1]][j - 1 := s[j]]
  }

  /** The first i + 1 elements are sorted but for the one at j, which is at most too small. */
  ghost predicate Sinking(s: seq<nat>, i: nat, j: nat)
    requires j <= i < |s|
  {
    forall p, q :: 0 <= p < q <= i && q != j ==> s[p] <= s[q]
  }

  lemma SinkStep(s: seq<nat>, i: nat, j: nat)
    requires 0 < j <= i < |s| && Sinking(s, i, j) && s[j] < s[j - 1]
    ensures Sinking(Swapped(s, j), i, j - 1)
  {
    var t := Swapped(s, j);
    forall p, q | 0 <= p < q <= i && q != j - 1
      ensures t[p] <= t[q]
    {
      assert p == j - 1 || p == j || t[p] == s[p];
      assert q == j || t[q] == s[q];
    }
  }

  /** The inner loop: element i sinks to its place among the sorted elements before it. */
  method Sink(a: array<nat>, i: nat)
    requires 0 < i < a.Length && Sorted(a[..i])
    modifies a
    ensures Sorted(a[..i + 1]) && multiset(a[..]) == multiset(old(a[..]))
  {
    var j := i;
    assert Sinking(a[..], i, j) by {
      assert forall p :: 0 <= p < i ==> a[..i][p] == a[..][p];
    }
    while j > 0 && a[j] < a[j - 1]
      invariant 0 <= j <= i
      invariant Sinking(a[..], i, j)
      invariant multiset(a[..]) == multiset(old(a[..]))
    {
      ghost var s := a[..];
      SwapKeeps(s, j);
      SinkStep(s, i, j);
      a[j], a[j - 1] := a[j - 1], a[j];
      assert a[..] == Swapped(s, j);
      j := j - 1;
    }
    SinkDone(a[..], i, j);
    assert a[..i + 1] == a[..][..i + 1];
  }

  lemma SinkDone(s: seq<nat>, i: nat, j: nat)
    requires j <= i < |s| && Sinking(s, i, j) && (j > 0 ==> s[j - 1] <= s[j])
    ensures Sorted(s[..i + 1])
  {
    forall p, q | 0 <= p < q <= i
      ensures s[p] <= s[q]
    {
      if q == j && p < j - 1 { assert s[p] <= s[j - 1]; }
    }
  }

  method SortUint64(a: array<nat>)
    modifies a
    ensures Sorted(a[..]) && multiset(a[..]) == multiset(old(a[..]))
  {
    if a.Length == 0 { return; }
    var i := 1;
    while i < a.Length
      invariant 1 <= i <= a.Length
      invariant Sorted(a[..i]) && multiset(a[..]) == multiset(old(a[..]))
    {
      Sink(a, i);
      i := i + 1;
    }
    assert a[..i] == a[..];
  }

  lemma SortedNoRepeats(s: seq<nat>, u: seq<nat>)
    requires Sorted(s) && multiset(s) == multiset(u) && NoRepeats(u)
    ensures AscendingNats(s) && forall x :: x in s <==> x in u
  {
    SameElements(s, u);
    NoRepeatsPermutes(s, u);
  }

  /** Each value once, ascending. */
  method DedupUint64(xs: seq<nat>) returns (out: seq<nat>)
    ensures AscendingNats(out) && forall x :: x in out <==> x in xs
  {
    if |xs| == 0 { return []; }
    var seen: set<nat> := {};
    var kept: seq<nat> := [];
    for i := 0 to |xs|
      invariant NoRepeats(kept)
      invariant forall x :: x in seen <==> x in xs[..i]
      invariant forall x :: x in kept <==> x in seen
    {
      var v := xs[i];
      assert xs[..i + 1] == xs[..i] + [v];
      if v !in seen {
        seen := seen + {v};
        kept := kept + [v];
      }
    }
    assert xs[..|xs|] == xs;
    var a := new nat[|kept|](i requires 0 <= i < |kept| => kept[i]);
    assert a[..] == kept;
    SortUint64(a);
    SortedNoRepeats(a[..], kept);
    out := a[..];
  }

  datatype Range = Range(start: nat, end: nat)

  predicate In(x: nat, r: Range) { r.start <= x <= r.end }

  /** Non-empty, ascending, and with at least one number between neighbours. */
  ghost predicate Separate(rs: seq<Range>) {
    && (forall i :: 0 <= i < |rs| ==> rs[i].start <= rs[i].end)
    && (forall i, j :: 0 <= i < j < |rs| ==> rs[i].end + 1 < rs[j].start)
  }

  ghost predicate Covers(rs: seq<Range>, x: nat) {
    exists i :: 0 <= i < |rs| && In(x, rs[i])
  }

  /** collapseRanges: for any list the unique sorted, maximal, non-adjacent ranges that cover
      exactly the numbers in it. */
  method CollapseRanges(xs: seq<nat>) returns (out: seq<Range>)
    ensures Separate(out)
    ensures forall x :: Covers(out, x) <==> x in xs
  {
    var es := DedupUint64(xs);
    if |es| == 0 {
      forall x ensures x !in xs { assert x in xs ==> x in es; }
      return [];
    }
    out := [];
    var start, end := es[0], es[0];
    var i := 1;
    while i < |es|
      invariant 1 <= i <= |es|
      invariant Pieces(es, i, out, start, end)
    {
      PiecesNext(es, i, out, start, end);
      if es[i] == end + 1 {
        end := es[i];
      } else {
        out := out + [Range(start, end)];
        start, end := es[i], es[i];
      }
      i := i + 1;
    }
    PiecesDone(es, out, start, end);
    out := out + [Range(start, end)];
  }

  /** The closed ranges and the open one [start, end] cover exactly the first i numbers. */
  ghost predicate Pieces(es: seq<nat>, i: nat, out: seq<Range>, start: nat, end: nat) {
    && 1 <= i <= |es|
    && end == es[i - 1] && start <= end
    && Separate(out + [Range(start, end)])
    && (forall x :: Covers(out + [Range(start, end)], x) <==> x in es[..i])
  }

  lemma CoversAppend(out: seq<Range>, r: Range, x: nat)
    ensures Covers(out + [r], x) <==> Covers(out, x) || In(x, r)
  {
    var t := out + [r];
    if Covers(out, x) {
      var k :| 0 <= k < |out| && In(x, out[k]);
      assert In(x, t[k]);
    }
    if In(x, r) { assert In(x, t[|out|]); }
  }

  lemma PiecesNext(es: seq<nat>, i: nat, out: seq<Range>, start: nat, end: nat)
    requires AscendingNats(es) && i < |es| && Pieces(es, i, out, start, end)
    ensures es[i] == end + 1 ==> Pieces(es, i + 1, out, start, es[i])
    ensures es[i] != end + 1 ==> Pieces(es, i + 1, out + [Range(start, end)], es[i], es[i])
  {
    assert es[..i + 1] == es[..i] + [es[i]];
    var cur := out + [Range(start, end)];
    assert cur[|out|] == Range(start, end);
    forall x
      ensures es[i] == end + 1 ==> (Covers(out + [Range(start, es[i])], x) <==> x in es[..i + 1])
      ensures es[i] != end + 1 ==> (Covers(cur + [Range(es[i], es[i])], x) <==> x in es[..i + 1])
    {
      CoversAppend(out, Range(start, end), x);
      CoversAppend(out, Range(start, es[i]), x);
      CoversAppend(cur, Range(es[i], es[i]), x);
    }
    assert forall k :: 0 <= k < |out| ==> cur[k] == out[k];
  }

  lemma PiecesDone(es: seq<nat>, out: seq<Range>, start: nat, end: nat)
    requires |es| > 0 && Pieces(es, |es|, out, start, end)
    ensures forall x :: Covers(out + [Range(start, end)], x) <==> x in es
  {
    assert es[..|es|] == es;
  }

  /** There is only one such list of ranges. */
  lemma {:induction false} CollapseUnique(a: seq<Range>, b: seq<Range>)
    requires Separate(a) && Separate(b) && forall x :: Covers(a, x) <==> Covers(b, x)
    ensures a == b
    decreases |a|
  {
    if a == [] {
      if b != [] {
        assert In(b[0].start, b[0]);
        assert Covers(b, b[0].start);
        assert false;
      }
    } else {
      FirstRange(a, b);
      FirstRange(b, a);
      forall x
        ensures Covers(a[1..], x) <==> Covers(b[1..], x)
      {
        TailCovers(a, x);
        TailCovers(b, x);
      }
      CollapseUnique(a[1..], b[1..]);
      assert a == [a[0]] + a[1..] && b == [b[0]] + b[1..];
    }
  }

  lemma FirstRange(a: seq<Range>, b: seq<Range>)
    requires Separate(a) && Separate(b) && a != [] && forall x :: Covers(a, x) <==> Covers(b, x)
    ensures b != [] && b[0].start <= a[0].start
    ensures b[0].start == a[0].start ==> a[0].end <= b[0].end
  {
    assert In(a[0].start, a[0]);
    assert Covers(a, a[0].start);
    var k :| 0 <= k < |b| && In(a[0].start, b[k]);
    assert !Covers(b, b[0].end + 1);
    assert b[0].start == a[0].start && b[0].end < a[0].end ==> In(b[0].end + 1, a[0]);
  }

  lemma TailCovers(a: seq<Range>, x: nat)
    requires Separate(a) && a != []
    ensures Covers(a[1..], x) <==> Covers(a, x) && !In(x, a[0])
  {
    if Covers(a[1..], x) {
      var k :| 0 <= k < |a[1..]| && In(x, a[1..][k]);
      assert In(x, a[k + 1]);
    }
    if Covers(a, x) && !In(x, a[0]) {
      var k :| 0 <= k < |a| && In(x, a[k]);
      assert a[1..][k - 1] == a[k];
    }
  }

  // ---------------------------------------------------------------------------------
  // Gaps
  // ---------------------------------------------------------------------------------

  /** The LEAD query: for each stored epoch whose successor is not the next number, the range
      in between. */
  function Gaps(es: seq<nat>): seq<Range>
    requires AscendingNats(es)
  {
    if |es| < 2 then []
    else
      var n := |es| - 1;
      Gaps(es[..n]) + (if es[n] > es[n - 1] + 1 then [Range(es[n - 1] + 1, es[n] - 1)] else [])
  }

  function Missing(rs: seq<Range>): int {
    if rs == [] then 0 else Missing(rs[..|rs| - 1]) + rs[|rs| - 1].end - rs[|rs| - 1].start + 1
  }

  ghost predicate Complement(es: seq<nat>, g: seq<Range>)
    requires es != []
  {
    && Separate(g)
    && (forall i :: 0 <= i < |g| ==> es[0] < g[i].start && g[i].end < es[|es| - 1])
    && (forall x: nat :: Covers(g, x) <==> es[0] <= x <= es[|es| - 1] && x !in es)
  }

  lemma ComplementNext(es: seq<nat>, g: seq<Range>)
    requires AscendingNats(es) && |es| > 1 && Complement(es[..|es| - 1], g)
    ensures var n := |es| - 1;
            Complement(es, g + (if es[n] > es[n - 1] + 1 then [Range(es[n - 1] + 1, es[n] - 1)] else []))
  {
    var n := |es| - 1;
    assert es == es[..n] + [es[n]];
    assert forall x :: x in es[..n] ==> x <= es[n - 1];
    if es[n] > es[n - 1] + 1 {
      var r := Range(es[n - 1] + 1, es[n] - 1);
      forall x: nat
        ensures Covers(g + [r], x) <==> es[0] <= x <= es[n] && x !in es
      {
        CoversAppend(g, r, x);
      }
    } else {
      assert g + [] == g;
    }
  }

  /** Gap ranges are maximal too, lie strictly inside, and cover exactly what is missing between
      the first and the last epoch ... */
  lemma {:induction false} GapsAreComplement(es: seq<nat>)
    requires AscendingNats(es) && es != []
    ensures Complement(es, Gaps(es))
    decreases |es|
  {
    if |es| > 1 {
      GapsAreComplement(es[..|es| - 1]);
      ComplementNext(es, Gaps(es[..|es| - 1]));
    }
  }

  /** ... and their sizes add up to the reported gap count, expected minus stored epochs. */
  lemma {:induction false} GapSizesAddUp(es: seq<nat>)
    requires AscendingNats(es) && es != []
    ensures Missing(Gaps(es)) == (es[|es| - 1] - es[0] + 1) - |es|
    decreases |es|
  {
    if |es| > 1 {
      var n := |es| - 1;
      GapSizesAddUp(es[..n]);
      var g := Gaps(es[..n]);
      if es[n] > es[n - 1] + 1 {
        MissingAppend(g, Range(es[n - 1] + 1, es[n] - 1));
      } else {
        assert g + [] == g;
      }
    }
  }

  lemma MissingAppend(g: seq<Range>, r: Range)
    ensures Missing(g + [r]) == Missing(g) + r.end - r.start + 1
  {
    assert (g + [r])[..|g|] == g;
  }

  /** For the epochs present in the store, the collapsed ranges and the gap ranges tile the
      interval from the first to the last: every number lies in exactly one of the two. */
  lemma RangesAndGapsTile(es: seq<nat>, rs: seq<Range>, x: nat)
    requires AscendingNats(es) && es != [] && forall y :: Covers(rs, y) <==> y in es
    ensures es[0] <= x <= es[|es| - 1] ==> (Covers(rs, x) <==> !Covers(Gaps(es), x))
    ensures !(es[0] <= x <= es[|es| - 1]) ==> !Covers(rs, x) && !Covers(Gaps(es), x)
  {
    GapsAreComplement(es);
    assert x in es ==> es[0] <= x <= es[|es| - 1];
  }
}
