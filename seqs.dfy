/**
 * Sequence helpers shared by the report's statistics: an order-preserving filter
 * (a list comprehension with an `if`), the first-seen order of distinct values
 * (the key order of a Python dict filled in a loop) and the ascending listing of
 * a finite set of integers (Python's `sorted` on a set).
 */
module Seqs {

  /** The elements of `s` that satisfy `p`, in their order in `s`. */
  function Filter<T(!new)>(s: seq<T>, p: T -> bool): (r: seq<T>)
    ensures |r| <= |s|
    ensures forall x :: x in r <==> x in s && p(x)
    decreases |s|
  {
    if s == [] then []
    else
      var init := s[..|s| - 1];
      assert s == init + [s[|s| - 1]];
      Filter(init, p) + (if p(s[|s| - 1]) then [s[|s| - 1]] else [])
  }

  /** Filtering distributes over concatenation: the filter keeps the input order. */
  lemma {:induction false} FilterAppend<T(!new)>(a: seq<T>, b: seq<T>, p: T -> bool)
    ensures Filter(a + b, p) == Filter(a, p) + Filter(b, p)
    decreases |b|
  {
    if b == [] {
      assert a + b == a;
    } else {
      var init := b[..|b| - 1];
      assert (a + b)[..|a + b| - 1] == a + init;
      FilterAppend(a, init, p);
    }
  }

  /** Two filters with predicates that never hold together pick at most `|s|` elements between them. */
  lemma {:induction false} FilterDisjointCount<T(!new)>(s: seq<T>, p: T -> bool, q: T -> bool)
    requires forall i :: 0 <= i < |s| ==> !(p(s[i]) && q(s[i]))
    ensures |Filter(s, p)| + |Filter(s, q)| <= |s|
    decreases |s|
  {
    if s != [] {
      var init := s[..|s| - 1];
      FilterDisjointCount(init, p, q);
    }
  }

  /** A filtered list is non-empty exactly when some element passes the filter. */
  lemma FilterNonEmpty<T(!new)>(s: seq<T>, p: T -> bool)
    ensures Filter(s, p) != [] <==> exists x :: x in s && p(x)
  {
    var r := Filter(s, p);
    if r != [] {
      assert r[0] in r;
    }
  }

  /** A property of every element of three sequences holds of every element of their concatenation. */
  lemma AllOfConcat<T>(a: seq<T>, b: seq<T>, c: seq<T>, p: T -> bool)
    requires forall i :: 0 <= i < |a| ==> p(a[i])
    requires forall i :: 0 <= i < |b| ==> p(b[i])
    requires forall i :: 0 <= i < |c| ==> p(c[i])
    ensures forall x :: x in a + b + c ==> p(x)
  {
  }

  /** Indexing into the middle of three concatenated sequences. */
  lemma IndexOfConcat<T>(a: seq<T>, b: seq<T>, c: seq<T>, i: int)
    requires 0 <= i < |b|
    ensures (a + b + c)[|a| + i] == b[i]
  {
  }

  predicate Distinct<T(==)>(s: seq<T>) {
    forall i, j :: 0 <= i < j < |s| ==> s[i] != s[j]
  }

  /** The distinct values of `s`, each at the position of its first occurrence. */
  function FirstSeen<T(==,!new)>(s: seq<T>): (r: seq<T>)
    ensures Distinct(r)
    ensures forall x :: x in r <==> x in s
    decreases |s|
  {
    if s == [] then []
    else
      var init := s[..|s| - 1];
      assert s == init + [s[|s| - 1]];
      var seen := FirstSeen(init);
      if s[|s| - 1] in seen then seen else seen + [s[|s| - 1]]
  }

  lemma FirstSeenSnoc<T(!new)>(s: seq<T>, x: T)
    ensures FirstSeen(s + [x]) == if x in s then FirstSeen(s) else FirstSeen(s) + [x]
  {
    assert (s + [x])[..|s|] == s;
  }

  /** The position of the first occurrence of `x` in `s`. */
  function FirstIndex<T(==)>(s: seq<T>, x: T): (k: nat)
    requires x in s
    ensures k < |s| && s[k] == x
    ensures x !in s[..k]
    decreases |s|
  {
    var init := s[..|s| - 1];
    assert s == init + [s[|s| - 1]];
    if x in init then
      var k := FirstIndex(init, x);
      assert s[..k] == init[..k];
      k
    else |s| - 1
  }

  /** The values of `FirstSeen(s)` come in the order of their first occurrences in `s`. */
  lemma {:induction false} FirstSeenOrder<T(!new)>(s: seq<T>)
    ensures forall i, j :: 0 <= i < j < |FirstSeen(s)| ==>
      FirstIndex(s, FirstSeen(s)[i]) < FirstIndex(s, FirstSeen(s)[j])
    decreases |s|
  {
    if s != [] {
      var init := s[..|s| - 1];
      var y := s[|s| - 1];
      assert s == init + [y];
      FirstSeenOrder(init);
      var seen := FirstSeen(init);
      var r := FirstSeen(s);
      assert forall x :: x in init ==> FirstIndex(s, x) == FirstIndex(init, x);
      forall i, j | 0 <= i < j < |r|
        ensures FirstIndex(s, r[i]) < FirstIndex(s, r[j])
      {
        assert r[i] in seen;
        if j < |seen| {
          assert r[i] == seen[i] && r[j] == seen[j];
          assert r[j] in seen;
        } else {
          assert r[j] == y && y !in init;
        }
      }
    }
  }

  predicate StrictlyAscending(s: seq<int>) {
    forall i, j :: 0 <= i < j < |s| ==> s[i] < s[j]
  }

  /** A strictly ascending list is determined by its members. */
  lemma {:induction false} AscendingUnique(a: seq<int>, b: seq<int>)
    requires StrictlyAscending(a) && StrictlyAscending(b)
    requires forall x :: x in a <==> x in b
    ensures a == b
    decreases |a|
  {
    if b != [] {
      assert b[0] in b;
    }
    if a != [] {
      assert a[0] in a;
      assert b != [];
      var i :| 0 <= i < |a| && a[i] == b[0];
      var j :| 0 <= j < |b| && b[j] == a[0];
      assert a[0] <= a[i] && b[0] <= b[j];
      var ta, tb := a[1..], b[1..];
      assert a == [a[0]] + ta && b == [b[0]] + tb;
      forall x ensures x in ta <==> x in tb {
        if x in ta {
          var k :| 0 <= k < |ta| && ta[k] == x;
          assert a[0] < a[k + 1];
          assert x in a && x != b[0];
          assert x in b;
        }
        if x in tb {
          var k :| 0 <= k < |tb| && tb[k] == x;
          assert b[0] < b[k + 1];
          assert x in b && x != a[0];
          assert x in a;
        }
      }
      AscendingUnique(ta, tb);
    }
  }

  /** `x` put at its place in the ascending `s`, unless `s` already holds it. */
  function InsertSorted(x: int, s: seq<int>): (r: seq<int>)
    requires StrictlyAscending(s)
    ensures StrictlyAscending(r)
    ensures forall y :: y in r <==> y in s || y == x
    decreases |s|
  {
    if s == [] then [x]
    else if x < s[0] then [x] + s
    else if x == s[0] then s
    else
      var tail := s[1..];
      assert forall k :: 0 <= k < |tail| ==> s[0] < tail[k];
      var rest := InsertSorted(x, tail);
      assert forall k :: 0 <= k < |rest| ==> s[0] < rest[k] by {
        forall k | 0 <= k < |rest| ensures s[0] < rest[k] {
          assert rest[k] in rest;
          if rest[k] != x {
            var j :| 0 <= j < |tail| && tail[j] == rest[k];
          }
        }
      }
      [s[0]] + rest
  }

  /** The distinct values of `ids` in strictly ascending order. */
  function SortedIds(ids: seq<int>): (r: seq<int>)
    ensures StrictlyAscending(r)
    ensures forall x :: x in r <==> x in ids
    decreases |ids|
  {
    if ids == [] then []
    else
      var init := ids[..|ids| - 1];
      assert ids == init + [ids[|ids| - 1]];
      InsertSorted(ids[|ids| - 1], SortedIds(init))
  }
}
