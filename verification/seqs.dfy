/** Order-preserving filtering, the shape shared by Python list comprehensions with an
    `if` and JavaScript's `Array.prototype.filter`. */
module Seqs {
  import opened Wrappers

  /** `a` is obtained from `b` by deleting some elements, keeping the order of the rest. */
  predicate IsSubsequence<T(==)>(a: seq<T>, b: seq<T>)
    decreases |b|
  {
    if b == [] then a == []
    else IsSubsequence(a, b[1..]) || (a != [] && a[0] == b[0] && IsSubsequence(a[1..], b[1..]))
  }

  /** `[x for x in s if p(x)]`. */
  function Filter<T>(p: T -> bool, s: seq<T>): seq<T>
    decreases |s|
  {
    if s == [] then []
    else (if p(s[0]) then [s[0]] else []) + Filter(p, s[1..])
  }

  /** The filter keeps, in their original order, every occurrence of each element that
      satisfies `p` and nothing else. Together the two facts determine the result. */
  lemma {:induction false} FilterSpec<T>(p: T -> bool, s: seq<T>)
    ensures IsSubsequence(Filter(p, s), s)
    ensures forall x :: multiset(Filter(p, s))[x] == if p(x) then multiset(s)[x] else 0
    decreases |s|
  {
    if s != [] {
      FilterSpec(p, s[1..]);
      var f := Filter(p, s);
      var rest := Filter(p, s[1..]);
      assert s == [s[0]] + s[1..];
      if p(s[0]) {
        assert f == [s[0]] + rest;
        assert f[1..] == rest;
      } else {
        assert f == rest;
      }
    }
  }

  /** Elements of the filter satisfy `p` and come from `s`. */
  lemma FilterMembers<T>(p: T -> bool, s: seq<T>, x: T)
    ensures x in Filter(p, s) <==> x in s && p(x)
  {
    FilterSpec(p, s);
    assert x in Filter(p, s) <==> multiset(Filter(p, s))[x] > 0;
    assert x in s <==> multiset(s)[x] > 0;
  }

  /** A filter whose predicate holds everywhere on `s` returns `s` unchanged. */
  lemma {:induction false} FilterAll<T>(p: T -> bool, s: seq<T>)
    requires forall k :: 0 <= k < |s| ==> p(s[k])
    ensures Filter(p, s) == s
    decreases |s|
  {
    if s != [] {
      FilterAll(p, s[1..]);
      assert s == [s[0]] + s[1..];
    }
  }

  /** The present results of `f` over `s`, in order: a loop that appends `f(x)` for
      each `x` unless it yields nothing. */
  function FilterMap<T, U>(f: T -> Option<U>, s: seq<T>): seq<U>
    decreases |s|
  {
    if s == [] then []
    else (if f(s[0]).Some? then [f(s[0]).value] else []) + FilterMap(f, s[1..])
  }

  /** One result per element for which `f` yields something (`p` says which), in
      order: the k-th result is the value for the k-th such element. */
  lemma {:induction false} FilterMapSpec<T, U>(f: T -> Option<U>, p: T -> bool, s: seq<T>)
    requires forall x :: p(x) == f(x).Some?
    ensures var kept := Filter(p, s);
      var r := FilterMap(f, s);
      && |r| == |kept|
      && forall k :: 0 <= k < |r| ==> Some(r[k]) == f(kept[k])
    decreases |s|
  {
    if s != [] {
      FilterMapSpec(f, p, s[1..]);
      var kept := Filter(p, s);
      var rest := Filter(p, s[1..]);
      var r := FilterMap(f, s);
      var tail := FilterMap(f, s[1..]);
      if p(s[0]) {
        assert kept == [s[0]] + rest;
        assert r == [f(s[0]).value] + tail;
        assert forall k :: 1 <= k < |r| ==> r[k] == tail[k - 1] && kept[k] == rest[k - 1];
      } else {
        assert kept == rest;
        assert r == tail;
      }
    }
  }

  /** `[f(x) for x in s]`. */
  function Map<T, U>(f: T -> U, s: seq<T>): (r: seq<U>)
    ensures |r| == |s|
    ensures forall k :: 0 <= k < |s| ==> r[k] == f(s[k])
  {
    seq(|s|, k requires 0 <= k < |s| => f(s[k]))
  }

  /** No element occurs twice. */
  predicate NoDuplicates<T(==)>(s: seq<T>) {
    forall i, j :: 0 <= i < j < |s| ==> s[i] != s[j]
  }
}
