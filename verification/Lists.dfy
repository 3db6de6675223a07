/**
 Lists: Go's sort.Slice - some sorted rearrangement of the slice, with no promise about ties,
 and when "some" is "the" - and what rearranging does to images, keys and sums.
 */
module Lists {

  /** Names the instance of transitivity a proof needs. */
  ghost predicate Chain<T>(a: T, b: T, c: T) { true }

  ghost predicate TotalPreorder<T(!new)>(leq: (T, T) -> bool) {
    && (forall a, b :: leq(a, b) || leq(b, a))
    && (forall a, b, c {:trigger Chain(a, b, c)} :: Chain(a, b, c) && leq(a, b) && leq(b, c) ==> leq(a, c))
  }

  ghost predicate SortedBy<T>(s: seq<T>, leq: (T, T) -> bool) {
    forall i, j :: 0 <= i < j < |s| ==> leq(s[i], s[j])
  }

  ghost predicate IsOrdering<T>(r: seq<T>, s: seq<T>, leq: (T, T) -> bool) {
    multiset(r) == multiset(s) && SortedBy(r, leq)
  }

  /** Elements that tie are equal. */
  ghost predicate TieFree<T>(s: seq<T>, leq: (T, T) -> bool) {
    forall a, b :: a in s && b in s && leq(a, b) && leq(b, a) ==> a == b
  }

  lemma SameElements<T>(r: seq<T>, s: seq<T>)
    requires multiset(r) == multiset(s)
    ensures |r| == |s| && forall x :: x in r <==> x in s
  {
    assert |multiset(r)| == |r|;
    forall x ensures x in r <==> x in s {
      assert x in multiset(r) <==> x in multiset(s);
    }
  }

  method SortSlice<T(==, !new)>(s: seq<T>, leq: (T, T) -> bool) returns (r: seq<T>)
    requires TotalPreorder(leq)
    ensures IsOrdering(r, s, leq)
  {
    r := [];
    for i := 0 to |s|
      invariant IsOrdering(r, s[..i], leq)
    {
      r := InsertInto(r, s[i], leq);
      assert s[..i + 1] == s[..i] + [s[i]];
    }
    assert s[..|s|] == s;
  }

  method InsertInto<T(==, !new)>(s: seq<T>, x: T, leq: (T, T) -> bool) returns (r: seq<T>)
    requires TotalPreorder(leq) && SortedBy(s, leq)
    ensures multiset(r) == multiset(s) + multiset{x} && SortedBy(r, leq)
  {
    var k := |s|;
    while 0 < k && !leq(s[k - 1], x)
      invariant 0 <= k <= |s|
      invariant forall j :: k <= j < |s| ==> leq(x, s[j])
    {
      assert forall j :: k <= j < |s| ==> leq(x, s[j]);
      assert leq(x, s[k - 1]);
      k := k - 1;
    }
    Before(s, k, x, leq);
    InsertedAt(s, k, x, leq);
    r := s[..k] + [x] + s[k..];
  }

  lemma Before<T(!new)>(s: seq<T>, k: nat, x: T, leq: (T, T) -> bool)
    requires TotalPreorder(leq) && SortedBy(s, leq) && k <= |s| && (0 < k ==> leq(s[k - 1], x))
    ensures forall j :: 0 <= j < k ==> leq(s[j], x)
  {
    forall j | 0 <= j < k
      ensures leq(s[j], x)
    {
      assert Chain(s[j], s[k - 1], x);
    }
  }

  lemma InsertedAt<T(!new)>(s: seq<T>, k: nat, x: T, leq: (T, T) -> bool)
    requires SortedBy(s, leq) && k <= |s|
    requires forall j :: 0 <= j < k ==> leq(s[j], x)
    requires forall j :: k <= j < |s| ==> leq(x, s[j])
    ensures SortedBy(s[..k] + [x] + s[k..], leq)
    ensures multiset(s[..k] + [x] + s[k..]) == multiset(s) + multiset{x}
  {
    assert s == s[..k] + s[k..];
    var t := s[..k] + [x] + s[k..];
    forall a, b | 0 <= a < b < |t|
      ensures leq(t[a], t[b])
    {
      assert t[a] == if a < k then s[a] else if a == k then x else s[a - 1];
      assert t[b] == if b < k then s[b] else if b == k then x else s[b - 1];
    }
  }

  lemma SameHead<T(!new)>(a: seq<T>, b: seq<T>, leq: (T, T) -> bool)
    requires SortedBy(a, leq) && SortedBy(b, leq) && a != [] && b != []
    requires (forall x :: leq(x, x)) && TieFree(a, leq) && forall x :: x in a <==> x in b
    ensures a[0] == b[0]
  {
    assert a[0] in b && b[0] in a;
    var i :| 0 <= i < |b| && b[i] == a[0];
    var j :| 0 <= j < |a| && a[j] == b[0];
    assert leq(a[0], a[j]) && leq(b[0], b[i]);
  }

  lemma TailOf<T>(s: seq<T>)
    requires s != []
    ensures s == [s[0]] + s[1..] && multiset(s[1..]) == multiset(s) - multiset{s[0]}
    ensures forall x :: x in s[1..] ==> x in s
  {
    assert s == [s[0]] + s[1..];
  }

  /** Two orderings of the same elements agree when ties are equal. */
  lemma {:induction false} OrderingUnique<T(!new)>(a: seq<T>, b: seq<T>, leq: (T, T) -> bool)
    requires (forall x :: leq(x, x)) && SortedBy(a, leq) && SortedBy(b, leq)
    requires multiset(a) == multiset(b) && TieFree(a, leq)
    ensures a == b
    decreases |a|
  {
    SameElements(a, b);
    if a != [] {
      SameHead(a, b, leq);
      TailOf(a);
      TailOf(b);
      OrderingUnique(a[1..], b[1..], leq);
    }
  }

  lemma SwapElements<T>(s: seq<T>, i: nat, j: nat)
    requires i < j < |s|
    ensures multiset(s[i := s[j]][j := s[i]]) == multiset(s)
  {
    assert multiset(s[i := s[j]]) == multiset(s) - multiset{s[i]} + multiset{s[j]};
  }

  /** Exchanging two elements that tie is another ordering. */
  lemma SwapTies<T(!new)>(s: seq<T>, i: nat, j: nat, leq: (T, T) -> bool)
    requires TotalPreorder(leq) && SortedBy(s, leq)
    requires i < j < |s| && leq(s[j], s[i])
    ensures IsOrdering(s[i := s[j]][j := s[i]], s, leq)
  {
    SwapElements(s, i, j);
    var t := s[i := s[j]][j := s[i]];
    forall a, b | 0 <= a < b < |t|
      ensures leq(t[a], t[b])
    {
      SwappedPair(s, i, j, leq, a, b);
    }
  }

  lemma SwappedPair<T(!new)>(s: seq<T>, i: nat, j: nat, leq: (T, T) -> bool, a: nat, b: nat)
    requires TotalPreorder(leq) && SortedBy(s, leq)
    requires i < j < |s| && leq(s[j], s[i]) && a < b < |s|
    ensures var t := s[i := s[j]][j := s[i]]; leq(t[a], t[b])
  {
    if a == i {
      assert Chain(s[j], s[i], s[b]);
    } else if a == j {
      assert Chain(s[i], s[j], s[b]);
    } else if b == i {
      assert Chain(s[a], s[i], s[j]);
    } else if b == j {
      assert Chain(s[a], s[j], s[i]);
    }
  }

  function Map<A, B>(s: seq<A>, f: A -> B): (r: seq<B>)
    ensures |r| == |s| && forall i :: 0 <= i < |s| ==> r[i] == f(s[i])
  {
    seq(|s|, i requires 0 <= i < |s| => f(s[i]))
  }

  lemma Without<T>(s: seq<T>, i: nat)
    requires i < |s|
    ensures multiset(s[..i] + s[i + 1..]) == multiset(s) - multiset{s[i]}
  {
    assert s == s[..i] + [s[i]] + s[i + 1..];
  }

  lemma MapWithout<A, B>(s: seq<A>, f: A -> B, i: nat)
    requires i < |s|
    ensures multiset(Map(s, f)) == multiset(Map(s[..i] + s[i + 1..], f)) + multiset{f(s[i])}
  {
    assert s == s[..i] + [s[i]] + s[i + 1..];
    var t := Map(s[..i] + s[i + 1..], f);
    assert Map(s, f) == t[..i] + [f(s[i])] + t[i..];
    assert t == t[..i] + t[i..];
  }

  lemma Removed<A, B>(s: seq<A>, f: A -> B, i: nat) returns (r: seq<A>)
    requires i < |s|
    ensures |r| == |s| - 1 && multiset(r) == multiset(s) - multiset{s[i]}
    ensures multiset(Map(s, f)) == multiset(Map(r, f)) + multiset{f(s[i])}
  {
    r := s[..i] + s[i + 1..];
    Without(s, i);
    MapWithout(s, f, i);
  }

  /** The image of a rearranged list is the image rearranged. */
  lemma {:induction false} MapPermutes<A, B>(s: seq<A>, t: seq<A>, f: A -> B)
    requires multiset(s) == multiset(t)
    ensures multiset(Map(s, f)) == multiset(Map(t, f))
    decreases |s|
  {
    SameElements(s, t);
    if s != [] {
      assert s[0] in t;
      var i :| 0 <= i < |t| && t[i] == s[0];
      var s' := Removed(s, f, 0);
      var t' := Removed(t, f, i);
      MapPermutes(s', t', f);
    }
  }

  // ---------------------------------------------------------------------------------
  // Lists without repeats
  // ---------------------------------------------------------------------------------

  /** A rearrangement of the images is the image of a rearrangement. */
  lemma {:induction false} Unmap<A, B>(p: seq<B>, q: seq<A>, f: A -> B) returns (r: seq<A>)
    requires multiset(p) == multiset(Map(q, f))
    ensures multiset(r) == multiset(q) && Map(r, f) == p
    decreases |p|
  {
    SameElements(p, Map(q, f));
    if p == [] {
      r := q;
    } else {
      assert p[0] in Map(q, f);
      var i :| 0 <= i < |q| && f(q[i]) == p[0];
      var q' := Removed(q, f, i);
      TailOf(p);
      var r' := Unmap(p[1..], q', f);
      r := [q[i]] + r';
      MapCons(q[i], r', f);
    }
  }

  lemma MapCons<A, B>(x: A, s: seq<A>, f: A -> B)
    ensures Map([x] + s, f) == [f(x)] + Map(s, f)
  {}

  ghost predicate NoRepeats<T>(s: seq<T>) { forall i, j :: 0 <= i < j < |s| ==> s[i] != s[j] }

  lemma {:induction false} CountOne<T>(s: seq<T>, x: T)
    requires NoRepeats(s)
    ensures multiset(s)[x] == if x in s then 1 else 0
    decreases |s|
  {
    if s != [] {
      var n := |s| - 1;
      assert s == s[..n] + [s[n]];
      CountOne(s[..n], x);
      assert s[n] !in s[..n];
    }
  }

  lemma Twice<T>(s: seq<T>, i: nat, j: nat)
    requires i < j < |s| && s[i] == s[j]
    ensures multiset(s)[s[i]] >= 2
  {
    assert s == s[..i] + [s[i]] + s[i + 1..j] + [s[j]] + s[j + 1..];
  }

  /** A rearrangement of a list without repeats has none either. */
  lemma NoRepeatsPermutes<T>(s: seq<T>, t: seq<T>)
    requires multiset(s) == multiset(t) && NoRepeats(t)
    ensures NoRepeats(s)
  {
    forall i, j | 0 <= i < j < |s|
      ensures s[i] != s[j]
    {
      CountOne(t, s[i]);
      if s[i] == s[j] { Twice(s, i, j); }
    }
  }

  /** The same for keys: rearranging records with distinct keys leaves the keys distinct. */
  lemma DistinctKeys<T, K>(s: seq<T>, t: seq<T>, key: T -> K)
    requires multiset(s) == multiset(t) && forall i, j :: 0 <= i < j < |t| ==> key(t[i]) != key(t[j])
    ensures forall i, j :: 0 <= i < j < |s| ==> key(s[i]) != key(s[j])
  {
    MapPermutes(s, t, key);
    NoRepeatsPermutes(Map(s, key), Map(t, key));
    forall i, j | 0 <= i < j < |s|
      ensures key(s[i]) != key(s[j])
    {
      assert Map(s, key)[i] != Map(s, key)[j];
    }
  }

  lemma SameMembers<T>(a: seq<T>, b: seq<T>)
    requires NoRepeats(a) && NoRepeats(b) && forall x :: x in a <==> x in b
    ensures multiset(a) == multiset(b)
  {
    forall x
      ensures multiset(a)[x] == multiset(b)[x]
    {
      CountOne(a, x);
      CountOne(b, x);
    }
  }

  /** A list has no more different members than positions, and as many only without repeats. */
  lemma {:induction false} Cardinality<T>(s: seq<T>)
    ensures var x := set c | c in s; |x| <= |s| && (|x| == |s| <==> NoRepeats(s))
    decreases |s|
  {
    var x := set c | c in s;
    if s == [] {
      assert x == {};
    } else {
      var n := |s| - 1;
      Cardinality(s[..n]);
      var y := set c | c in s[..n];
      assert s == s[..n] + [s[n]];
      assert x == y + {s[n]};
      if s[n] in y {
        assert x == y;
        var i :| 0 <= i < n && s[i] == s[n];
      }
    }
  }

  function Below(n: nat): (s: set<nat>)
    ensures |s| == n && forall x: nat :: x in s <==> x < n
  {
    if n == 0 then {} else Below(n - 1) + {n - 1}
  }

  lemma {:induction false} IntervalCount(s: set<nat>, lo: nat, hi: nat)
    requires lo <= hi && forall x :: x in s ==> lo <= x < hi
    ensures |s| <= hi - lo
    decreases hi - lo
  {
    if lo == hi {
      assert s == {};
    } else {
      IntervalCount(s - {hi - 1}, lo, hi - 1);
    }
  }

  ghost predicate StrictBy<T>(s: seq<T>, less: (T, T) -> bool) {
    forall i, j :: 0 <= i < j < |s| ==> less(s[i], s[j])
  }

  ghost predicate AscendingNats(s: seq<nat>) { forall i, j :: 0 <= i < j < |s| ==> s[i] < s[j] }

  /** Strictly sorted lists with the same members are the same list. */
  lemma {:induction false} StrictUnique<T(!new)>(a: seq<T>, b: seq<T>, less: (T, T) -> bool)
    requires forall x, y :: less(x, y) ==> !less(y, x)
    requires StrictBy(a, less) && StrictBy(b, less) && forall x :: x in a <==> x in b
    ensures a == b
    decreases |a|
  {
    assert b != [] ==> b[0] in b;
    if a != [] {
      assert a[0] in a && a[0] in b && b[0] in a;
      var i :| 0 <= i < |b| && b[i] == a[0];
      var j :| 0 <= j < |a| && a[j] == b[0];
      assert a[0] == b[0];
      StrictTail(a, less);
      StrictTail(b, less);
      StrictUnique(a[1..], b[1..], less);
      assert a == [a[0]] + a[1..] && b == [b[0]] + b[1..];
    }
  }

  lemma StrictTail<T(!new)>(a: seq<T>, less: (T, T) -> bool)
    requires (forall x, y :: less(x, y) ==> !less(y, x)) && StrictBy(a, less) && a != []
    ensures forall x :: x in a[1..] <==> x in a && x != a[0]
  {
    assert a == [a[0]] + a[1..];
    assert forall i :: 0 <= i < |a[1..]| ==> a[1..][i] == a[i + 1];
  }

  // ---------------------------------------------------------------------------------
  // Sums
  // ---------------------------------------------------------------------------------

  function Flatten<T>(ss: seq<seq<T>>): seq<T> {
    if ss == [] then [] else Flatten(ss[..|ss| - 1]) + ss[|ss| - 1]
  }

  /** How many elements come before the i-th list. */
  function Offset<T>(ss: seq<seq<T>>, i: nat): nat
    requires i <= |ss|
  {
    if i == 0 then 0 else Offset(ss, i - 1) + |ss[i - 1]|
  }

  lemma {:induction false} OffsetPrefix<T>(ss: seq<seq<T>>, n: nat, i: nat)
    requires i <= n <= |ss|
    ensures Offset(ss[..n], i) == Offset(ss, i)
    decreases i
  {
    if i > 0 { OffsetPrefix(ss, n, i - 1); }
  }

  lemma {:induction false} FlattenLength<T>(ss: seq<seq<T>>)
    ensures |Flatten(ss)| == Offset(ss, |ss|)
    decreases |ss|
  {
    if ss != [] {
      FlattenLength(ss[..|ss| - 1]);
      OffsetPrefix(ss, |ss| - 1, |ss| - 1);
    }
  }

  lemma {:induction false} FlattenAt<T>(ss: seq<seq<T>>, i: nat, j: nat)
    requires i < |ss| && j < |ss[i]|
    ensures Offset(ss, i) + j < |Flatten(ss)| && Flatten(ss)[Offset(ss, i) + j] == ss[i][j]
    decreases |ss|
  {
    var n := |ss| - 1;
    FlattenLength(ss[..n]);
    OffsetPrefix(ss, n, n);
    if i < n {
      OffsetPrefix(ss, n, i);
      FlattenAt(ss[..n], i, j);
    }
  }

  lemma {:induction false} FlattenMember<T>(ss: seq<seq<T>>, x: T) returns (i: nat)
    requires x in Flatten(ss)
    ensures i < |ss| && x in ss[i]
    decreases |ss|
  {
    i := |ss| - 1;
    if x !in ss[i] { i := FlattenMember(ss[..i], x); }
  }

  function Sum(s: seq<int>): int {
    if s == [] then 0 else Sum(s[..|s| - 1]) + s[|s| - 1]
  }

  lemma {:induction false} SumConcat(a: seq<int>, b: seq<int>)
    ensures Sum(a + b) == Sum(a) + Sum(b)
    decreases |b|
  {
    if b == [] {
      assert a + b == a;
    } else {
      var n := |b| - 1;
      SumConcat(a, b[..n]);
      assert (a + b)[..|a + b| - 1] == a + b[..n];
    }
  }

  ghost predicate Additive(f: seq<int> -> int) {
    forall a, b :: f(a + b) == f(a) + f(b)
  }

  lemma AdditiveSplit(f: seq<int> -> int, s: seq<int>, i: nat) returns (r: seq<int>)
    requires Additive(f) && i < |s|
    ensures f(s) == f([s[i]]) + f(r) && |r| == |s| - 1 && multiset(r) == multiset(s) - multiset{s[i]}
  {
    var a, b := s[..i], s[i + 1..];
    assert s == (a + [s[i]]) + b;
    r := a + b;
    Without(s, i);
  }

  /** An additive function of a list does not see its order. */
  lemma {:induction false} AdditivePermutes(f: seq<int> -> int, s: seq<int>, t: seq<int>)
    requires Additive(f) && multiset(s) == multiset(t)
    ensures f(s) == f(t)
    decreases |s|
  {
    SameElements(s, t);
    if s == [] {
      assert s == t;
    } else {
      assert s[0] in t;
      var i :| 0 <= i < |t| && t[i] == s[0];
      var a := AdditiveSplit(f, s, 0);
      var b := AdditiveSplit(f, t, i);
      AdditivePermutes(f, a, b);
    }
  }

  lemma SumPermutation(s: seq<int>, t: seq<int>)
    requires multiset(s) == multiset(t)
    ensures Sum(s) == Sum(t)
  {
    forall a, b
      ensures Sum(a + b) == Sum(a) + Sum(b)
    {
      SumConcat(a, b);
    }
    AdditivePermutes(Sum, s, t);
  }
}
