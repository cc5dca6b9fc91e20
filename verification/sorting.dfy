/** A stable insertion sort over a strict "comes before" relation. JavaScript's
    `Array.prototype.sort` is stable, so for a comparator `cmp` this yields the same array
    as `sort(cmp)` when `before(a, b)` means `cmp(a, b) < 0`: an element is placed after
    every earlier element that does not come strictly after it. */
module Sorting {
  import Seqs

  /** Irreflexive and transitive: what a comparator-derived "comes before" relation is. */
  ghost predicate StrictOrder<T(!new)>(before: (T, T) -> bool) {
    (forall a :: !before(a, a))
    && (forall a, b, c :: before(a, b) && before(b, c) ==> before(a, c))
  }

  /** No element is strictly before an element that precedes it. */
  predicate SortedBy<T>(s: seq<T>, before: (T, T) -> bool) {
    forall i, j :: 0 <= i < j < |s| ==> !before(s[j], s[i])
  }

  /** Places `x` before the first element it comes strictly before. */
  function Insert<T>(x: T, s: seq<T>, before: (T, T) -> bool): (r: seq<T>)
    ensures |r| == |s| + 1
    ensures multiset(r) == multiset(s) + multiset{x}
  {
    if |s| == 0 then [x]
    else if before(x, s[0]) then [x] + s
    else
      assert s == [s[0]] + s[1..];
      [s[0]] + Insert(x, s[1..], before)
  }

  /** Sorts by inserting the elements in input order. */
  function Sort<T>(s: seq<T>, before: (T, T) -> bool): (r: seq<T>)
    ensures |r| == |s|
    ensures multiset(r) == multiset(s)
  {
    if |s| == 0 then []
    else
      assert s == s[..|s| - 1] + [s[|s| - 1]];
      Insert(s[|s| - 1], Sort(s[..|s| - 1], before), before)
  }

  lemma {:induction false} InsertSorted<T(!new)>(x: T, s: seq<T>, before: (T, T) -> bool)
    requires StrictOrder(before) && SortedBy(s, before)
    ensures SortedBy(Insert(x, s, before), before)
  {
    if |s| == 0 {
    } else if before(x, s[0]) {
      PrependSorted(x, s, before);
    } else {
      InsertSorted(x, s[1..], before);
      HeadStaysFirst(x, s, before);
    }
  }

  /** An element that comes before the head of a sorted list may be put in front of it. */
  lemma PrependSorted<T(!new)>(x: T, s: seq<T>, before: (T, T) -> bool)
    requires StrictOrder(before) && SortedBy(s, before)
    requires |s| > 0 && before(x, s[0])
    ensures SortedBy([x] + s, before)
  {
    var r := [x] + s;
    forall i, j | 0 <= i < j < |r| ensures !before(r[j], r[i]) {
      if i == 0 {
        var y, first := r[j], s[0];
        assert y == s[j - 1];
        assert before(y, x) ==> before(y, first);
        assert j > 1 ==> !before(y, first);
      } else {
        assert r[i] == s[i - 1] && r[j] == s[j - 1];
      }
    }
  }

  /** When `x` does not come before the head, the head stays in front of the sorted rest. */
  lemma HeadStaysFirst<T(!new)>(x: T, s: seq<T>, before: (T, T) -> bool)
    requires SortedBy(s, before)
    requires |s| > 0 && !before(x, s[0])
    requires SortedBy(Insert(x, s[1..], before), before)
    ensures SortedBy([s[0]] + Insert(x, s[1..], before), before)
  {
    var t := Insert(x, s[1..], before);
    var r := [s[0]] + t;
    assert multiset(t) == multiset(s[1..]) + multiset{x};
    forall j | 1 <= j < |r| ensures !before(r[j], s[0]) {
      var y := t[j - 1];
      assert y in multiset(t);
      if y == x {
      } else {
        assert y in multiset(s[1..]);
        var k :| 0 <= k < |s[1..]| && s[1..][k] == y;
        assert s[k + 1] == y;
      }
    }
    forall i, j | 0 <= i < j < |r| ensures !before(r[j], r[i]) {
      if i > 0 {
        assert r[i] == t[i - 1] && r[j] == t[j - 1];
      }
    }
  }

  lemma {:induction false} SortSorted<T(!new)>(s: seq<T>, before: (T, T) -> bool)
    requires StrictOrder(before)
    ensures SortedBy(Sort(s, before), before)
  {
    if |s| > 0 {
      SortSorted(s[..|s| - 1], before);
      InsertSorted(s[|s| - 1], Sort(s[..|s| - 1], before), before);
    }
  }

  /** Keeping only some elements keeps the order. */
  lemma {:induction false} FilterSorted<T(!new)>(s: seq<T>, before: (T, T) -> bool, p: T -> bool)
    requires SortedBy(s, before)
    ensures SortedBy(Seqs.Filter(s, p), before)
  {
    if |s| > 0 {
      var tail := s[1..];
      assert SortedBy(tail, before) by {
        forall i, j | 0 <= i < j < |tail| ensures !before(tail[j], tail[i]) {
          assert tail[i] == s[i + 1] && tail[j] == s[j + 1];
        }
      }
      FilterSorted(tail, before, p);
      var t := Seqs.Filter(tail, p);
      if p(s[0]) {
        var r := [s[0]] + t;
        assert Seqs.Filter(s, p) == r;
        forall i, j | 0 <= i < j < |r| ensures !before(r[j], r[i]) {
          if i == 0 {
            assert r[j] in t;
            assert r[j] in tail;
            var k :| 0 <= k < |tail| && tail[k] == r[j];
            assert s[k + 1] == r[j];
          } else {
            assert r[i] == t[i - 1] && r[j] == t[j - 1];
          }
        }
      } else {
        assert Seqs.Filter(s, p) == t;
      }
    }
  }

  /** In a list sorted by an order that is strict, and total on its elements, the first `n`
      elements are exactly those that do not come after the `n`-th. */
  lemma CutAt<T(!new)>(s: seq<T>, before: (T, T) -> bool, n: int, e: T)
    requires StrictOrder(before) && SortedBy(s, before)
    requires forall a, b :: a in s && b in s && a != b ==> before(a, b) || before(b, a)
    requires 0 < n <= |s| && e in s
    ensures e in s[..n] <==> !before(s[n - 1], e)
  {
    if e in s[..n] {
      var i :| 0 <= i < n && s[..n][i] == e;
      assert s[i] == e;
    } else {
      var j :| 0 <= j < |s| && s[j] == e;
      assert e != s[n - 1] by {
        assert s[..n][n - 1] == s[n - 1];
      }
    }
  }
}
