/** Counting facts about finite sets and repetition-free sequences that several modules need. */
module Finite {

  ghost predicate Distinct<T>(s: seq<T>) {
    forall i, j :: 0 <= i < j < |s| ==> s[i] != s[j]
  }

  lemma {:induction false} DistinctCons<T>(x: T, s: seq<T>)
    requires Distinct(s) && x !in s
    ensures Distinct([x] + s)
  {
  }

  function Elements<T>(s: seq<T>): set<T> {
    set x | x in s
  }

  /** The indices lo, lo + 1, ... lo + size - 1. */
  function Range(lo: nat, size: nat): set<nat>
    ensures forall x: nat :: x in Range(lo, size) <==> lo <= x < lo + size
  {
    if size == 0 then {} else Range(lo, size - 1) + {lo + size - 1}
  }

  lemma {:induction false} RangeSize(lo: nat, size: nat)
    ensures |Range(lo, size)| == size
  {
    if size > 0 {
      RangeSize(lo, size - 1);
    }
  }

  lemma {:induction false} DistinctSize<T>(s: seq<T>)
    requires Distinct(s)
    ensures |Elements(s)| == |s|
  {
    if s == [] {
    } else {
      var rest := s[..|s| - 1];
      var last := s[|s| - 1];
      DistinctSize(rest);
      assert s == rest + [last] && last !in rest;
      assert Elements(s) == Elements(rest) + {last};
    }
  }

  /** The test `len(s) == len(set(s))`. */
  lemma {:induction false} DistinctExactly<T>(s: seq<T>)
    ensures |Elements(s)| <= |s|
    ensures Distinct(s) <==> |Elements(s)| == |s|
  {
    if s != [] {
      var rest, last := s[..|s| - 1], s[|s| - 1];
      DistinctExactly(rest);
      assert s == rest + [last];
      assert Elements(s) == Elements(rest) + {last};
    }
  }

  /** A function maps a finite set to a set that is no larger. */
  lemma {:induction false} ImageSize<A, B>(f: map<A, B>, a: set<A>, b: set<B>)
    requires a <= f.Keys
    requires forall y :: y in b ==> exists x :: x in a && f[x] == y
    ensures |b| <= |a|
  {
    if b != {} {
      var y :| y in b;
      var x :| x in a && f[x] == y;
      ImageSize(f, a - {x}, b - {y});
    }
  }

  /** Repetition-free sequences with the same elements are permutations of each other. */
  lemma {:induction false} SameElements<T>(s: seq<T>, t: seq<T>)
    requires Distinct(s) && Distinct(t) && Elements(s) == Elements(t)
    ensures multiset(s) == multiset(t)
  {
    forall x ensures multiset(s)[x] == multiset(t)[x] {
      DistinctOnce(s, x);
      DistinctOnce(t, x);
      assert x in s <==> x in Elements(s);
      assert x in t <==> x in Elements(t);
    }
  }

  lemma {:induction false} DistinctOnce<T>(s: seq<T>, x: T)
    requires Distinct(s)
    ensures multiset(s)[x] == if x in s then 1 else 0
  {
    if s != [] {
      var rest, last := s[..|s| - 1], s[|s| - 1];
      DistinctOnce(rest, x);
      assert s == rest + [last];
    }
  }

  lemma {:induction false} SubsetSize<T>(a: set<T>, b: set<T>)
    requires a <= b
    ensures |a| <= |b|
    ensures |a| == |b| ==> a == b
  {
    assert b == a + (b - a);
  }

  /** A repetition-free sequence of indices below n has at most n entries. */
  lemma {:induction false} DistinctBound(s: seq<nat>, n: nat)
    requires Distinct(s) && forall x :: x in s ==> x < n
    ensures |s| <= n
  {
    DistinctSize(s);
    RangeSize(0, n);
    SubsetSize(Elements(s), Range(0, n));
  }
}
