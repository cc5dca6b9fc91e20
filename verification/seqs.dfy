/** Order-preserving filtering (`Array.prototype.filter`) and the facts the modules rely on. */
module Seqs {
  import opened Wrappers

  /** The elements of `s` that satisfy `p`, in their original order. */
  function Filter<T(!new)>(s: seq<T>, p: T -> bool): (r: seq<T>)
    ensures |r| <= |s|
    ensures forall x :: x in r <==> x in s && p(x)
  {
    if |s| == 0 then []
    else
      assert s == [s[0]] + s[1..];
      (if p(s[0]) then [s[0]] else []) + Filter(s[1..], p)
  }

  lemma {:induction false} FilterAll<T(!new)>(s: seq<T>, p: T -> bool)
    requires forall x :: x in s ==> p(x)
    ensures Filter(s, p) == s
  {
    if |s| > 0 {
      FilterAll(s[1..], p);
    }
  }

  lemma {:induction false} FilterNone<T(!new)>(s: seq<T>, p: T -> bool)
    requires forall x :: x in s ==> !p(x)
    ensures Filter(s, p) == []
  {
    if |s| > 0 {
      FilterNone(s[1..], p);
    }
  }

  lemma FilterIdempotent<T(!new)>(s: seq<T>, p: T -> bool)
    ensures Filter(Filter(s, p), p) == Filter(s, p)
  {
    FilterAll(Filter(s, p), p);
  }

  lemma {:induction false} FilterAppend<T(!new)>(a: seq<T>, b: seq<T>, p: T -> bool)
    ensures Filter(a + b, p) == Filter(a, p) + Filter(b, p)
  {
    if |a| == 0 {
      assert a + b == b;
    } else {
      assert (a + b)[1..] == a[1..] + b;
      FilterAppend(a[1..], b, p);
    }
  }

  /** The number of occurrences of `x` in `s`. */
  function Count<T(==)>(s: seq<T>, x: T): nat {
    if |s| == 0 then 0 else (if s[0] == x then 1 else 0) + Count(s[1..], x)
  }

  /** A filter keeps every occurrence of an element it accepts and none of one it rejects. */
  lemma {:induction false} FilterCount<T(!new)>(s: seq<T>, p: T -> bool, x: T)
    ensures Count(Filter(s, p), x) == if p(x) then Count(s, x) else 0
  {
    if |s| > 0 {
      FilterCount(s[1..], p, x);
      var t := Filter(s[1..], p);
      if p(s[0]) {
        assert Filter(s, p) == [s[0]] + t;
        assert ([s[0]] + t)[1..] == t;
      } else {
        assert Filter(s, p) == t;
      }
    }
  }

  /** A stronger condition keeps no more elements. */
  lemma {:induction false} FilterStrongerIsShorter<T(!new)>(s: seq<T>, p: T -> bool, q: T -> bool)
    requires forall x :: p(x) ==> q(x)
    ensures |Filter(s, p)| <= |Filter(s, q)|
  {
    if |s| > 0 {
      FilterStrongerIsShorter(s[1..], p, q);
    }
  }

  /** Filtering by a condition and then by another is filtering by both. */
  lemma {:induction false} FilterFilter<T(!new)>(s: seq<T>, p: T -> bool, q: T -> bool)
    ensures Filter(Filter(s, p), q) == Filter(s, x => p(x) && q(x))
  {
    if |s| > 0 {
      FilterFilter(s[1..], p, q);
      var t := Filter(s[1..], p);
      if p(s[0]) {
        assert Filter(s, p) == [s[0]] + t;
        assert ([s[0]] + t)[1..] == t;
      } else {
        assert Filter(s, p) == t;
      }
    }
  }

  /** Filtering with conditions that agree on every element gives the same result. */
  lemma {:induction false} FilterCongruent<T(!new)>(s: seq<T>, p: T -> bool, q: T -> bool)
    requires forall x :: x in s ==> (p(x) <==> q(x))
    ensures Filter(s, p) == Filter(s, q)
  {
    if |s| > 0 {
      FilterCongruent(s[1..], p, q);
    }
  }

  /** `Array.prototype.findIndex`: the first index whose element satisfies `p`, or -1. */
  function FirstIndex<T>(s: seq<T>, p: T -> bool): (i: int)
    ensures -1 <= i < |s|
    ensures i == -1 <==> forall k :: 0 <= k < |s| ==> !p(s[k])
    ensures 0 <= i ==> p(s[i]) && forall k :: 0 <= k < i ==> !p(s[k])
  {
    if |s| == 0 then -1
    else if p(s[0]) then 0
    else
      var j := FirstIndex(s[1..], p);
      if j == -1 then -1 else j + 1
  }

  /** `indexOf`-style search for one value: its first position, or -1. */
  function IndexOf<T(==)>(s: seq<T>, x: T): (i: int)
    ensures -1 <= i < |s|
    ensures i == -1 <==> x !in s
    ensures 0 <= i ==> s[i] == x && forall k :: 0 <= k < i ==> s[k] != x
  {
    if |s| == 0 then -1
    else if s[0] == x then 0
    else
      var j := IndexOf(s[1..], x);
      if j == -1 then -1 else j + 1
  }

  /** `Array.prototype.find`: the first element that satisfies `p`. */
  function Find<T>(s: seq<T>, p: T -> bool): (r: Option<T>)
    ensures r.None? <==> forall k :: 0 <= k < |s| ==> !p(s[k])
    ensures r.Some? ==> r.value in s && p(r.value)
    ensures r.Some? ==> exists k | 0 <= k < |s| :: s[k] == r.value && forall j :: 0 <= j < k ==> !p(s[j])
  {
    var i := FirstIndex(s, p);
    if i == -1 then None else Some(s[i])
  }

  /** The first element kept by a filter is the first element found: `filter(p)[0]` and
      `find(p)` agree, and both are absent together. */
  lemma {:induction false} FilterHeadIsFind<T(!new)>(s: seq<T>, p: T -> bool)
    ensures |Filter(s, p)| > 0 <==> Find(s, p).Some?
    ensures |Filter(s, p)| > 0 ==> Filter(s, p)[0] == Find(s, p).value
  {
    if |s| > 0 {
      FilterHeadIsFind(s[1..], p);
      if !p(s[0]) {
        assert Filter(s, p) == Filter(s[1..], p);
        var j := FirstIndex(s[1..], p);
        assert FirstIndex(s, p) == (if j == -1 then -1 else j + 1);
        assert j != -1 ==> s[j + 1] == s[1..][j];
      }
    }
  }

  /** `Array.prototype.some`. */
  predicate Any<T>(s: seq<T>, p: T -> bool) {
    exists k | 0 <= k < |s| :: p(s[k])
  }

  /** `splice(i, 1)`: the sequence without its element at `i`. */
  function RemoveAt<T>(s: seq<T>, i: int): (r: seq<T>)
    requires 0 <= i < |s|
    ensures |r| == |s| - 1
    ensures forall k :: 0 <= k < i ==> r[k] == s[k]
    ensures forall k :: i <= k < |r| ==> r[k] == s[k + 1]
  {
    s[..i] + s[i + 1..]
  }

  /** The values of `f` at 0, 1, ..., n - 1, built by pushing one at a time. */
  function Tabulate<T>(n: nat, f: nat -> T): (r: seq<T>)
    ensures |r| == n
  {
    if n == 0 then [] else Tabulate(n - 1, f) + [f(n - 1)]
  }

  lemma {:induction false} TabulateAt<T>(n: nat, f: nat -> T, k: nat)
    requires k < n
    ensures Tabulate(n, f)[k] == f(k)
    decreases n
  {
    if k < n - 1 {
      TabulateAt(n - 1, f, k);
    }
  }

  /** A longer prefix is the shorter one and the next element. */
  lemma PrefixPush<T>(s: seq<T>, i: int)
    requires 0 <= i < |s|
    ensures s[..i + 1] == s[..i] + [s[i]]
  {
  }

  /** Moving the head of the rest onto the end of the part already produced. */
  lemma PushHead<T>(done: seq<T>, x: T, rest: seq<T>)
    ensures (done + [x]) + rest == done + ([x] + rest)
  {
  }

  lemma InConcat3<T>(a: seq<T>, b: seq<T>, c: seq<T>, x: T)
    ensures x in a + b + c <==> x in a || x in b || x in c
  {
  }

  /** A sequence around its element at `i`, and without it. */
  lemma SplitAt<T>(s: seq<T>, i: int)
    requires 0 <= i < |s|
    ensures s == (s[..i] + [s[i]]) + s[i + 1..]
    ensures RemoveAt(s, i) == s[..i] + s[i + 1..]
  {
  }

  /** `r` is `s` with some elements left out, the rest in their order. */
  predicate SubsequenceOf<T(==)>(r: seq<T>, s: seq<T>)
    decreases |s|
  {
    if |r| == 0 then true
    else if |s| == 0 then false
    else if r[0] == s[0] then SubsequenceOf(r[1..], s[1..])
    else SubsequenceOf(r, s[1..])
  }

  lemma {:induction false} SubsequenceOfSelf<T>(s: seq<T>)
    ensures SubsequenceOf(s, s)
  {
    if |s| > 0 {
      SubsequenceOfSelf(s[1..]);
    }
  }

  /** What a filter keeps is a subsequence of what it was given. */
  lemma {:induction false} FilterIsSubsequence<T(!new)>(s: seq<T>, p: T -> bool)
    ensures SubsequenceOf(Filter(s, p), s)
  {
    if |s| > 0 {
      FilterIsSubsequence(s[1..], p);
      var t := Filter(s[1..], p);
      if p(s[0]) {
        assert Filter(s, p) == [s[0]] + t;
        assert ([s[0]] + t)[1..] == t;
      } else {
        assert Filter(s, p) == t;
        SkipHead(t, s);
      }
    }
  }

  /** A subsequence of the tail is a subsequence of the whole. */
  lemma {:induction false} SkipHead<T>(r: seq<T>, s: seq<T>)
    requires |s| > 0 && SubsequenceOf(r, s[1..])
    ensures SubsequenceOf(r, s)
    decreases |r| + |s|
  {
    if |r| > 0 && r[0] == s[0] {
      DropFirst(r, s[1..]);
    }
  }

  /** Leaving out the first element of a subsequence keeps it one. */
  lemma {:induction false} DropFirst<T>(r: seq<T>, t: seq<T>)
    requires |r| > 0 && SubsequenceOf(r, t)
    ensures SubsequenceOf(r[1..], t)
    decreases |r| + |t|
  {
    if r[0] == t[0] {
      SkipHead(r[1..], t);
    } else {
      DropFirst(r, t[1..]);
      SkipHead(r[1..], t);
    }
  }

  predicate NoDuplicates<T(==)>(s: seq<T>) {
    forall i, j :: 0 <= i < j < |s| ==> s[i] != s[j]
  }

  /** `[...new Set(s)]`: the first occurrence of each element, in order. */
  function Dedupe<T(==,!new)>(s: seq<T>): (r: seq<T>)
    ensures NoDuplicates(r)
    ensures forall x :: x in r <==> x in s
  {
    if |s| == 0 then []
    else
      var r := Dedupe(s[..|s| - 1]);
      var x := s[|s| - 1];
      assert s == s[..|s| - 1] + [x];
      if x in r then r else r + [x]
  }

  /** The distinct elements of a sequence come before those its continuation adds. */
  lemma {:induction false} DedupePrefix<T(!new)>(a: seq<T>, b: seq<T>)
    ensures |Dedupe(a)| <= |Dedupe(a + b)| && Dedupe(a + b)[..|Dedupe(a)|] == Dedupe(a)
    decreases |b|
  {
    if |b| == 0 {
      assert a + b == a;
    } else {
      var b' := b[..|b| - 1];
      DedupePrefix(a, b');
      assert (a + b)[..|a + b| - 1] == a + b';
      var d := Dedupe(a + b');
      assert Dedupe(a + b) == d || Dedupe(a + b) == d + [b[|b| - 1]];
      assert Dedupe(a + b)[..|d|] == d;
    }
  }

  /** A sequence without repetitions is its own set of first occurrences. */
  lemma {:induction false} DedupeDistinct<T(!new)>(s: seq<T>)
    requires NoDuplicates(s)
    ensures Dedupe(s) == s
  {
    if |s| > 0 {
      DedupeDistinct(s[..|s| - 1]);
      assert s == s[..|s| - 1] + [s[|s| - 1]];
    }
  }
}
