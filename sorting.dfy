/** Stable sorting by a caller-chosen order, as JavaScript's `Array.prototype.sort` does with a
    comparator. `before(a, b)` means "`a` may come before `b`"; a stable sort keeps the original order
    of elements that may each come before the other, so its result is determined by the order alone.
    The specification is a functional insertion sort; `InsertionSort` does the same in place. */
module Sorting {
  import opened Seqs

  /** An order a comparator can describe: any two elements compare, and comparison is transitive. */
  ghost predicate TotalPreorder<T(!new)>(before: (T, T) -> bool) {
    && (forall x, y :: before(x, y) || before(y, x))
    && (forall x, y, z :: before(x, y) && before(y, z) ==> before(x, z))
  }

  ghost predicate SortedBy<T>(s: seq<T>, before: (T, T) -> bool) {
    forall i, j :: 0 <= i < j < |s| ==> before(s[i], s[j])
  }

  /** Inserts `x`, which came after every element of `s`, behind the last element it may follow. */
  function Insert<T>(s: seq<T>, x: T, before: (T, T) -> bool): (r: seq<T>)
    ensures |r| == |s| + 1
  {
    if s == [] then [x]
    else if before(s[|s| - 1], x) then s + [x]
    else Insert(s[..|s| - 1], x, before) + [s[|s| - 1]]
  }

  /** The stable sort of `s` by `before`. */
  function SortBy<T>(s: seq<T>, before: (T, T) -> bool): (r: seq<T>)
    ensures |r| == |s|
  {
    if s == [] then [] else Insert(SortBy(s[..|s| - 1], before), s[|s| - 1], before)
  }

  lemma {:induction false} InsertMultiset<T>(s: seq<T>, x: T, before: (T, T) -> bool)
    ensures multiset(Insert(s, x, before)) == multiset(s) + multiset{x}
  {
    if s != [] && !before(s[|s| - 1], x) {
      InsertMultiset(s[..|s| - 1], x, before);
      assert s == s[..|s| - 1] + [s[|s| - 1]];
    }
  }

  /** Sorting only reorders: the result is a permutation of the input. */
  lemma {:induction false} SortByMultiset<T>(s: seq<T>, before: (T, T) -> bool)
    ensures multiset(SortBy(s, before)) == multiset(s)
  {
    if s != [] {
      SortByMultiset(s[..|s| - 1], before);
      InsertMultiset(SortBy(s[..|s| - 1], before), s[|s| - 1], before);
      assert s == s[..|s| - 1] + [s[|s| - 1]];
    }
  }

  lemma {:induction false} InsertSorted<T(!new)>(s: seq<T>, x: T, before: (T, T) -> bool)
    requires TotalPreorder(before)
    requires SortedBy(s, before)
    ensures SortedBy(Insert(s, x, before), before)
  {
    if s != [] && !before(s[|s| - 1], x) {
      var front, last := s[..|s| - 1], s[|s| - 1];
      InsertSorted(front, x, before);
      var r := Insert(front, x, before);
      InsertMultiset(front, x, before);
      assert before(x, last);
      forall i | 0 <= i < |r| ensures before(r[i], last) {
        assert r[i] in multiset(r);
        if r[i] != x {
          assert r[i] in multiset(front);
          var k :| 0 <= k < |front| && front[k] == r[i];
          assert before(s[k], s[|s| - 1]);
        }
      }
    }
  }

  lemma {:induction false} SortBySorted<T(!new)>(s: seq<T>, before: (T, T) -> bool)
    requires TotalPreorder(before)
    ensures SortedBy(SortBy(s, before), before)
  {
    if s != [] {
      SortBySorted(s[..|s| - 1], before);
      InsertSorted(SortBy(s[..|s| - 1], before), s[|s| - 1], before);
    }
  }

  /** In a sorted sequence every element of a prefix may come before every element left after it. */
  lemma SortedPrefixPrecedes<T>(s: seq<T>, m: nat, before: (T, T) -> bool)
    requires SortedBy(s, before) && m <= |s|
    ensures forall k, d :: k in s[..m] && d in multiset(s) - multiset(s[..m]) ==> before(k, d)
  {
    assert s == s[..m] + s[m..];
    assert multiset(s) - multiset(s[..m]) == multiset(s[m..]);
    forall k, d | k in s[..m] && d in multiset(s[m..]) ensures before(k, d) {
      var i :| 0 <= i < m && s[i] == k;
      var j :| 0 <= j < |s[m..]| && s[m..][j] == d;
      assert s[m + j] == d;
    }
  }

  /** Reversing a sorted sequence sorts it by the converse order. */
  lemma ReverseSorted<T>(s: seq<T>, before: (T, T) -> bool, after: (T, T) -> bool)
    requires SortedBy(s, before)
    requires forall a, b :: after(a, b) == before(b, a)
    ensures SortedBy(Reverse(s), after)
  {
    var r := Reverse(s);
    forall i, j | 0 <= i < j < |r| ensures after(r[i], r[j]) {
      assert r[i] == s[|s| - 1 - i] && r[j] == s[|s| - 1 - j];
    }
  }

  /** A prefix of a sorted sequence is sorted. */
  lemma SortedPrefix<T>(s: seq<T>, m: nat, before: (T, T) -> bool)
    requires SortedBy(s, before) && m <= |s|
    ensures SortedBy(s[..m], before)
  {
    forall i, j | 0 <= i < j < m ensures before(s[..m][i], s[..m][j]) {
      assert s[..m][i] == s[i] && s[..m][j] == s[j];
    }
  }

  /** Where `Insert` puts `x`: right behind the prefix `s[..j]` when `x` may follow `s[j - 1]`
      and may follow none of `s[j..]`. */
  lemma {:induction false} InsertPosition<T>(s: seq<T>, x: T, before: (T, T) -> bool, j: nat)
    requires j <= |s|
    requires j == 0 || before(s[j - 1], x)
    requires forall k :: j <= k < |s| ==> !before(s[k], x)
    ensures Insert(s, x, before) == s[..j] + [x] + s[j..]
  {
    if j == |s| {
      assert s[..j] == s && s[j..] == [];
    } else {
      var front, last := s[..|s| - 1], s[|s| - 1];
      assert !before(last, x);
      assert Insert(s, x, before) == Insert(front, x, before) + [last];
      assert j == 0 || before(front[j - 1], x);
      InsertPosition(front, x, before, j);
      assert front[..j] == s[..j];
      assert front[j..] + [last] == s[j..];
      calc {
        Insert(s, x, before);
        front[..j] + [x] + front[j..] + [last];
        s[..j] + [x] + (front[j..] + [last]);
      }
    }
  }

  /** Sorting one more element of `s` inserts it into the sorted prefix. */
  lemma SortByStep<T>(s: seq<T>, i: nat, before: (T, T) -> bool)
    requires i < |s|
    ensures SortBy(s[..i + 1], before) == Insert(SortBy(s[..i], before), s[i], before)
  {
    assert s[..i + 1][..i] == s[..i];
  }

  /** Moves `a[i]` left into the sorted prefix `a[..i]`, past the elements it may not follow. */
  method InsertInPlace<T>(a: array<T>, i: nat, before: (T, T) -> bool)
    requires i < a.Length
    modifies a
    ensures a[..i + 1] == Insert(old(a[..i]), old(a[i]), before)
    ensures forall k :: i < k < a.Length ==> a[k] == old(a[k])
  {
    ghost var t := a[..i];
    var x := a[i];
    var j := i;
    while j > 0 && !before(a[j - 1], x)
      invariant 0 <= j <= i
      invariant forall k :: 0 <= k < j ==> a[k] == t[k]
      invariant forall k :: j < k <= i ==> a[k] == t[k - 1]
      invariant forall k :: i < k < a.Length ==> a[k] == old(a[k])
      invariant forall k :: j <= k < i ==> !before(t[k], x)
    {
      a[j] := a[j - 1];
      j := j - 1;
    }
    a[j] := x;
    InsertPosition(t, x, before, j);
    Placed(a[..i + 1], t, x, j);
  }

  /** A sequence that holds `t[..j]`, then `x`, then `t[j..]`, element by element, is that sequence. */
  lemma Placed<T>(v: seq<T>, t: seq<T>, x: T, j: nat)
    requires |v| == |t| + 1 && j <= |t| && v[j] == x
    requires forall k :: 0 <= k < j ==> v[k] == t[k]
    requires forall k :: j < k < |v| ==> v[k] == t[k - 1]
    ensures v == t[..j] + [x] + t[j..]
  {
    var u := t[..j] + [x] + t[j..];
    forall k | 0 <= k < |v| ensures v[k] == u[k] {
      if k < j {
        assert u[k] == t[k];
      } else if j < k {
        assert u[k] == t[j..][k - j - 1] == t[k - 1];
      }
    }
  }

  /** Sorts `a` in place, by insertion, as the stable sort `SortBy` of its old contents. */
  method InsertionSort<T>(a: array<T>, before: (T, T) -> bool)
    modifies a
    ensures a[..] == SortBy(old(a[..]), before)
  {
    ghost var s := a[..];
    var i := 0;
    while i < a.Length
      invariant 0 <= i <= a.Length
      invariant a[..i] == SortBy(s[..i], before)
      invariant forall k :: i <= k < a.Length ==> a[k] == s[k]
    {
      InsertInPlace(a, i, before);
      SortByStep(s, i, before);
      i := i + 1;
    }
    assert a[..] == a[..a.Length] && s == s[..a.Length];
  }
}
