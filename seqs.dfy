/** Sequence operations the components build on: JavaScript's `filter`,
    `reduce` with `+`, `find`, `Array.from(new Set(..))`, `sort`, `reverse`
    and `slice(-n)`, each with the facts the components rely on.

    Every fold here recurses on the LAST element, as `reduce` folds from
    the left: F(s + [x]) is computed from F(s) and x. */
module Seqs {
  /** A value that may be absent (`undefined`). */
  datatype Option<T> = None | Some(value: T)

  // ---------------------------------------------------------------------
  // filter

  /** `s.filter(p)`: the elements satisfying p, in their original order. */
  function Filter<T(==)>(s: seq<T>, p: T -> bool): (r: seq<T>)
    ensures |r| <= |s|
    ensures forall x :: x in r ==> x in s && p(x)
  {
    if s == [] then []
    else
      var r0 := Filter(s[..|s| - 1], p);
      assert forall x :: x in s[..|s| - 1] ==> x in s;
      if p(s[|s| - 1]) then r0 + [s[|s| - 1]] else r0
  }

  /** idx lists positions of s, strictly increasing, at which s holds r. */
  predicate Embeds<T(==)>(idx: seq<nat>, r: seq<T>, s: seq<T>) {
    && |idx| == |r|
    && (forall i :: 0 <= i < |idx| ==> idx[i] < |s| && r[i] == s[idx[i]])
    && (forall i, j :: 0 <= i < j < |idx| ==> idx[i] < idx[j])
  }

  /** r is an order-preserving subsequence of s. */
  ghost predicate IsSubsequence<T>(r: seq<T>, s: seq<T>) {
    exists idx: seq<nat> :: Embeds(idx, r, s)
  }

  /** The positions Filter keeps. */
  function FilterIndices<T(==)>(s: seq<T>, p: T -> bool): (idx: seq<nat>)
    ensures Embeds(idx, Filter(s, p), s)
    ensures forall i :: 0 <= i < |idx| ==> p(s[idx[i]])
  {
    if s == [] then []
    else
      var idx0 := FilterIndices(s[..|s| - 1], p);
      if p(s[|s| - 1]) then idx0 + [|s| - 1] else idx0
  }

  lemma FilterIsSubsequence<T>(s: seq<T>, p: T -> bool)
    ensures IsSubsequence(Filter(s, p), s)
  {
    var idx := FilterIndices(s, p);
    assert Embeds(idx, Filter(s, p), s);
  }

  /** x survives the filter exactly when it occurs in s and satisfies p. */
  lemma {:induction false} FilterMembership<T>(s: seq<T>, p: T -> bool, x: T)
    ensures x in Filter(s, p) <==> x in s && p(x)
  {
    if s != [] {
      var init, last := s[..|s| - 1], s[|s| - 1];
      assert s == init + [last];
      FilterMembership(init, p, x);
    }
  }

  /** A filter whose predicate holds throughout is the identity. */
  lemma {:induction false} FilterKeepsAll<T>(s: seq<T>, p: T -> bool)
    requires forall x :: x in s ==> p(x)
    ensures Filter(s, p) == s
  {
    if s != [] {
      var init := s[..|s| - 1];
      assert forall x :: x in init ==> x in s;
      FilterKeepsAll(init, p);
      assert s == init + [s[|s| - 1]];
    }
  }

  /** Two predicates that agree on s filter it alike. */
  lemma {:induction false} FilterCongruent<T>(s: seq<T>, p: T -> bool, q: T -> bool)
    requires forall x :: x in s ==> p(x) == q(x)
    ensures Filter(s, p) == Filter(s, q)
  {
    if s != [] {
      var init := s[..|s| - 1];
      assert forall x :: x in init ==> x in s;
      FilterCongruent(init, p, q);
    }
  }

  /** Filtering an extended sequence extends the filtered one. */
  lemma FilterSnoc<T>(s: seq<T>, x: T, p: T -> bool)
    ensures Filter(s + [x], p) == Filter(s, p) + (if p(x) then [x] else [])
  {
    assert (s + [x])[..|s|] == s;
  }

  // ---------------------------------------------------------------------
  // reduce((sum, x) => sum + f(x), 0)

  function SumOf<T>(s: seq<T>, f: T -> int): int {
    if s == [] then 0 else SumOf(s[..|s| - 1], f) + f(s[|s| - 1])
  }

  lemma {:induction false} SumOfConcat<T>(a: seq<T>, b: seq<T>, f: T -> int)
    ensures SumOf(a + b, f) == SumOf(a, f) + SumOf(b, f)
  {
    if b == [] {
      assert a + b == a;
    } else {
      var init := b[..|b| - 1];
      assert (a + b)[..|a + b| - 1] == a + init;
      assert (a + b)[|a + b| - 1] == b[|b| - 1];
      SumOfConcat(a, init, f);
    }
  }

  /** Replacing one element changes the sum by the difference. */
  lemma {:induction false} SumOfUpdate<T>(s: seq<T>, j: nat, x: T, f: T -> int)
    requires j < |s|
    ensures SumOf(s[j := x], f) == SumOf(s, f) - f(s[j]) + f(x)
  {
    var n := |s|;
    if j == n - 1 {
      assert s[j := x][..n - 1] == s[..n - 1];
    } else {
      assert s[j := x][..n - 1] == s[..n - 1][j := x];
      SumOfUpdate(s[..n - 1], j, x, f);
    }
  }

  /** Adding up a non-empty sequence never exceeds |s| times its largest term. */
  lemma {:induction false} SumOfAtMostCountTimesMax<T>(s: seq<T>, f: T -> int, m: int)
    requires forall i :: 0 <= i < |s| ==> f(s[i]) <= m
    ensures SumOf(s, f) <= |s| * m
  {
    if s != [] {
      SumOfAtMostCountTimesMax(s[..|s| - 1], f, m);
    }
  }

  // ---------------------------------------------------------------------
  // Array.from(new Set(xs)): first occurrences, in order

  predicate NoDup<T(==)>(s: seq<T>) {
    forall i, j :: 0 <= i < j < |s| ==> s[i] != s[j]
  }

  /** The distinct elements of xs in order of first occurrence (a JavaScript
      Set iterates in insertion order). */
  function Distinct<T(==,!new)>(xs: seq<T>): (d: seq<T>)
    ensures NoDup(d)
    ensures forall x :: x in d <==> x in xs
    ensures |d| <= |xs|
  {
    if xs == [] then []
    else
      var init, last := xs[..|xs| - 1], xs[|xs| - 1];
      assert xs == init + [last];
      var d0 := Distinct(init);
      if last in d0 then d0 else d0 + [last]
  }

  lemma DistinctSnoc<T(!new)>(xs: seq<T>, x: T)
    ensures Distinct(xs + [x]) == if x in Distinct(xs) then Distinct(xs) else Distinct(xs) + [x]
  {
    assert (xs + [x])[..|xs|] == xs;
  }

  // ---------------------------------------------------------------------
  // find

  /** `s.find(p)` as a position: the first index whose element satisfies p,
      or |s| when there is none (`undefined`). */
  method Find<T(==)>(s: seq<T>, p: T -> bool) returns (j: nat)
    ensures j <= |s|
    ensures j < |s| ==> p(s[j])
    ensures forall i :: 0 <= i < j ==> !p(s[i])
  {
    j := 0;
    while j < |s| && !p(s[j])
      invariant j <= |s|
      invariant forall i :: 0 <= i < j ==> !p(s[i])
    {
      j := j + 1;
    }
  }

  // ---------------------------------------------------------------------
  // sort

  /** le is a total preorder: what a consistent comparator passed to
      `Array.prototype.sort` describes. */
  ghost predicate TotalPreorder<T(!new)>(le: (T, T) -> bool) {
    && (forall a, b :: le(a, b) || le(b, a))
    && (forall a, b, c :: le(a, b) && le(b, c) ==> le(a, c))
  }

  predicate SortedBy<T(==)>(s: seq<T>, le: (T, T) -> bool) {
    forall i, j :: 0 <= i < j < |s| ==> le(s[i], s[j])
  }

  /** Places x after every leading element that is le-below or equal to it,
      so that equal elements keep their arrival order. */
  function Insert<T(==)>(x: T, s: seq<T>, le: (T, T) -> bool): (r: seq<T>)
    ensures multiset(r) == multiset(s) + multiset{x}
    ensures |r| == |s| + 1
  {
    if s == [] then [x]
    else if le(s[0], x) then
      assert s == [s[0]] + s[1..];
      [s[0]] + Insert(x, s[1..], le)
    else [x] + s
  }

  /** Stable insertion sort, the model of `Array.prototype.sort(cmp)`. */
  function SortBy<T(==)>(s: seq<T>, le: (T, T) -> bool): (r: seq<T>)
    ensures multiset(r) == multiset(s)
    ensures |r| == |s|
  {
    if s == [] then []
    else
      assert s == s[..|s| - 1] + [s[|s| - 1]];
      Insert(s[|s| - 1], SortBy(s[..|s| - 1], le), le)
  }

  /** Sorting neither adds nor drops an element. */
  lemma SortByMembership<T>(s: seq<T>, le: (T, T) -> bool)
    ensures forall x :: x in SortBy(s, le) <==> x in s
  {
    forall x ensures x in SortBy(s, le) <==> x in s {
      assert x in SortBy(s, le) <==> x in multiset(SortBy(s, le));
      assert x in s <==> x in multiset(s);
    }
  }

  /** Inserting adds x and nothing else. */
  lemma InsertMembership<T(!new)>(x: T, s: seq<T>, le: (T, T) -> bool)
    ensures forall y :: y in Insert(x, s, le) <==> y == x || y in s
  {
    forall y ensures y in Insert(x, s, le) <==> y == x || y in s {
      assert y in Insert(x, s, le) <==> y in multiset(Insert(x, s, le));
      assert y in s <==> y in multiset(s);
    }
  }

  /** The head of a sorted sequence is le-below everything after it. */
  lemma SortedHead<T>(s: seq<T>, le: (T, T) -> bool)
    requires s != [] && SortedBy(s, le)
    ensures forall y :: y in s[1..] ==> le(s[0], y)
  {
    forall y | y in s[1..] ensures le(s[0], y) {
      var k :| 0 <= k < |s[1..]| && s[1..][k] == y;
      assert s[k + 1] == y;
    }
  }

  /** A head le-below everything of a sorted tail makes a sorted sequence. */
  lemma SortedCons<T>(h: T, tail: seq<T>, le: (T, T) -> bool)
    requires SortedBy(tail, le)
    requires forall y :: y in tail ==> le(h, y)
    ensures SortedBy([h] + tail, le)
  {
    var r := [h] + tail;
    forall i, j | 0 <= i < j < |r|
      ensures le(r[i], r[j])
    {
      assert r[j] == tail[j - 1];
      if i == 0 {
        assert r[j] in tail;
      } else {
        assert r[i] == tail[i - 1];
      }
    }
  }

  lemma {:induction false} InsertSorted<T(!new)>(x: T, s: seq<T>, le: (T, T) -> bool)
    requires TotalPreorder(le)
    requires SortedBy(s, le)
    ensures SortedBy(Insert(x, s, le), le)
  {
    if s != [] {
      SortedHead(s, le);
      assert SortedBy(s[1..], le) by {
        forall i, j | 0 <= i < j < |s[1..]| ensures le(s[1..][i], s[1..][j]) {
          assert s[1..][i] == s[i + 1] && s[1..][j] == s[j + 1];
        }
      }
      if le(s[0], x) {
        InsertSorted(x, s[1..], le);
        InsertMembership(x, s[1..], le);
        SortedCons(s[0], Insert(x, s[1..], le), le);
      } else {
        assert forall y :: y in s ==> y == s[0] || y in s[1..] by {
          assert s == [s[0]] + s[1..];
        }
        SortedCons(x, s, le);
      }
    }
  }

  /** The sort's output is ordered by le. */
  lemma {:induction false} SortBySorted<T(!new)>(s: seq<T>, le: (T, T) -> bool)
    requires TotalPreorder(le)
    ensures SortedBy(SortBy(s, le), le)
  {
    if s != [] {
      SortBySorted(s[..|s| - 1], le);
      InsertSorted(s[|s| - 1], SortBy(s[..|s| - 1], le), le);
    }
  }

  /** No two elements share a key. */
  predicate DistinctBy<T(==), K(==)>(s: seq<T>, key: T -> K) {
    forall i, j :: 0 <= i < j < |s| ==> key(s[i]) != key(s[j])
  }

  /** A head whose key no element of a key-distinct tail has keeps the
      keys distinct. */
  lemma DistinctByCons<T(!new), K>(h: T, tail: seq<T>, key: T -> K)
    requires DistinctBy(tail, key)
    requires forall y :: y in tail ==> key(y) != key(h)
    ensures DistinctBy([h] + tail, key)
  {
    var r := [h] + tail;
    forall i, j | 0 <= i < j < |r|
      ensures key(r[i]) != key(r[j])
    {
      assert r[j] == tail[j - 1];
      if i == 0 {
        assert r[j] in tail;
      } else {
        assert r[i] == tail[i - 1];
      }
    }
  }

  lemma {:induction false} InsertDistinctBy<T(!new), K>(x: T, s: seq<T>, le: (T, T) -> bool, key: T -> K)
    requires DistinctBy(s, key)
    requires forall i :: 0 <= i < |s| ==> key(s[i]) != key(x)
    ensures DistinctBy(Insert(x, s, le), key)
  {
    if s != [] {
      assert DistinctBy(s[1..], key) by {
        forall i, j | 0 <= i < j < |s[1..]| ensures key(s[1..][i]) != key(s[1..][j]) {
          assert s[1..][i] == s[i + 1] && s[1..][j] == s[j + 1];
        }
      }
      if le(s[0], x) {
        InsertDistinctBy(x, s[1..], le, key);
        InsertMembership(x, s[1..], le);
        forall y | y in s[1..] ensures key(y) != key(s[0]) {
          var k :| 0 <= k < |s[1..]| && s[1..][k] == y;
          assert s[k + 1] == y;
        }
        assert key(s[0]) != key(x);
        var tail := Insert(x, s[1..], le);
        forall y | y in tail ensures key(y) != key(s[0]) {
          assert y == x || y in s[1..];
        }
        DistinctByCons(s[0], tail, key);
      } else {
        forall y | y in s ensures key(y) != key(x) {
          var k :| 0 <= k < |s| && s[k] == y;
        }
        DistinctByCons(x, s, key);
      }
    }
  }

  /** Sorting never makes two elements share a key. */
  lemma {:induction false} SortByDistinctBy<T(!new), K>(s: seq<T>, le: (T, T) -> bool, key: T -> K)
    requires DistinctBy(s, key)
    ensures DistinctBy(SortBy(s, le), key)
  {
    if s != [] {
      var init, last := s[..|s| - 1], s[|s| - 1];
      SortByDistinctBy(init, le, key);
      var sorted := SortBy(init, le);
      forall i | 0 <= i < |sorted|
        ensures key(sorted[i]) != key(last)
      {
        assert sorted[i] in multiset(init);
        var k :| 0 <= k < |init| && init[k] == sorted[i];
        assert s[k] == sorted[i];
      }
      InsertDistinctBy(last, sorted, le, key);
    }
  }

  lemma {:induction false} SumOfInsert<T>(x: T, s: seq<T>, le: (T, T) -> bool, f: T -> int)
    ensures SumOf(Insert(x, s, le), f) == SumOf(s, f) + f(x)
  {
    if s == [] {
      assert SumOf([x], f) == SumOf([x][..0], f) + f(x);
    } else if le(s[0], x) {
      SumOfInsert(x, s[1..], le, f);
      SumOfConcat([s[0]], Insert(x, s[1..], le), f);
      SumOfConcat([s[0]], s[1..], f);
      assert s == [s[0]] + s[1..];
      assert SumOf([s[0]], f) == SumOf([s[0]][..0], f) + f(s[0]);
    } else {
      SumOfConcat([x], s, f);
      assert SumOf([x], f) == SumOf([x][..0], f) + f(x);
    }
  }

  /** Sorting leaves every column sum unchanged. */
  lemma {:induction false} SumOfSortBy<T>(s: seq<T>, le: (T, T) -> bool, f: T -> int)
    ensures SumOf(SortBy(s, le), f) == SumOf(s, f)
  {
    if s != [] {
      SumOfSortBy(s[..|s| - 1], le, f);
      SumOfInsert(s[|s| - 1], SortBy(s[..|s| - 1], le), le, f);
    }
  }

  // ---------------------------------------------------------------------
  // reverse, slice(-n)

  /** `s.reverse()` on a copy. */
  function Reverse<T(==)>(s: seq<T>): (r: seq<T>)
    ensures |r| == |s|
    ensures forall i :: 0 <= i < |s| ==> r[i] == s[|s| - 1 - i]
  {
    if s == [] then [] else [s[|s| - 1]] + Reverse(s[..|s| - 1])
  }

  /** Reversing turns an increasing sequence into a decreasing one, with the
      same elements. */
  lemma ReverseOrder<T>(s: seq<T>, lt: (T, T) -> bool)
    requires forall i, j :: 0 <= i < j < |s| ==> lt(s[i], s[j])
    ensures forall i, j :: 0 <= i < j < |s| ==> lt(Reverse(s)[j], Reverse(s)[i])
    ensures forall x :: x in Reverse(s) <==> x in s
  {
    var r := Reverse(s);
    forall i, j | 0 <= i < j < |s| ensures lt(r[j], r[i]) {
      assert r[j] == s[|s| - 1 - j] && r[i] == s[|s| - 1 - i];
    }
    forall x ensures x in r <==> x in s {
      if i :| 0 <= i < |r| && r[i] == x {
        assert s[|s| - 1 - i] == x;
      }
      if i :| 0 <= i < |s| && s[i] == x {
        assert r[|s| - 1 - i] == x;
      }
    }
  }

  /** `s.slice(-n)` for n > 0: the last n elements, or all of s when it is
      shorter. */
  function TakeLast<T(==)>(s: seq<T>, n: nat): (r: seq<T>)
    requires n > 0
    ensures |r| <= n && |r| <= |s|
    ensures |s| <= n ==> r == s
    ensures |s| > n ==> |r| == n
    ensures forall i :: 0 <= i < |r| ==> r[i] == s[|s| - |r| + i]
  {
    if |s| <= n then s else s[|s| - n..]
  }

  /** What `slice(-n)` keeps is a suffix: its elements come from s, and
      keys distinct in s stay distinct. */
  lemma TakeLastSuffix<T, K>(s: seq<T>, n: nat, key: T -> K)
    requires n > 0
    requires DistinctBy(s, key)
    ensures TakeLast(s, n) == s[|s| - |TakeLast(s, n)|..]
    ensures forall x :: x in TakeLast(s, n) ==> x in s
    ensures DistinctBy(TakeLast(s, n), key)
  {
    var r := TakeLast(s, n);
    var off := |s| - |r|;
    assert r == s[off..];
    forall i, j | 0 <= i < j < |r| ensures key(r[i]) != key(r[j]) {
      assert r[i] == s[off + i] && r[j] == s[off + j];
    }
  }
}
