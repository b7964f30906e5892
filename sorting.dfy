/**
 * Descending orderings used by the listings: `order_by('-delivery_date')`,
 * `order_by('-created_at')` and `order_by('-total_qty')`. A row's key is
 * optional; rows without a key come after every row that has one (a NULL
 * sorts lowest in the database, so it comes last when descending). The order
 * among equal keys is not part of the contract.
 */
module Sorting {
  import opened Wrappers

  /** `a` may stand before `b` in a descending listing. */
  predicate AtLeast(a: Option<real>, b: Option<real>)
  {
    b.None? || (a.Some? && a.value >= b.value)
  }

  predicate SortedDesc<T>(s: seq<T>, key: T -> Option<real>)
  {
    forall i, j :: 0 <= i < j < |s| ==> AtLeast(key(s[i]), key(s[j]))
  }

  /** An element at least as large as every element of a sorted listing can head it. */
  lemma SortedPrepend<T>(y: T, s: seq<T>, key: T -> Option<real>)
    requires SortedDesc(s, key)
    requires forall j :: 0 <= j < |s| ==> AtLeast(key(y), key(s[j]))
    ensures SortedDesc([y] + s, key)
  {
    var r := [y] + s;
    forall i, j | 0 <= i < j < |r| ensures AtLeast(key(r[i]), key(r[j])) {
      assert r[j] == s[j - 1];
      if i > 0 { assert r[i] == s[i - 1]; }
    }
  }

  /** A bound on the elements of `s` and on `x` bounds every element of a listing holding exactly those. */
  lemma BoundsMembers<T>(y: T, x: T, s: seq<T>, r: seq<T>, key: T -> Option<real>)
    requires multiset(r) == multiset(s) + multiset{x}
    requires forall j :: 0 <= j < |s| ==> AtLeast(key(y), key(s[j]))
    requires AtLeast(key(y), key(x))
    ensures forall j :: 0 <= j < |r| ==> AtLeast(key(y), key(r[j]))
  {
    forall j | 0 <= j < |r| ensures AtLeast(key(y), key(r[j])) {
      assert r[j] in multiset(r);
      if r[j] != x {
        assert r[j] in multiset(s);
        var k :| 0 <= k < |s| && s[k] == r[j];
      }
    }
  }

  /** Puts `x` before the first element it is at least as large as. */
  function Insert<T>(x: T, s: seq<T>, key: T -> Option<real>): (r: seq<T>)
    requires SortedDesc(s, key)
    ensures SortedDesc(r, key)
    ensures multiset(r) == multiset(s) + multiset{x}
    ensures |r| == |s| + 1
  {
    if s == [] || AtLeast(key(x), key(s[0])) then
      SortedPrepend(x, s, key);
      [x] + s
    else
      var tail := s[1..];
      var rest := Insert(x, tail, key);
      assert forall j :: 0 <= j < |tail| ==> AtLeast(key(s[0]), key(tail[j])) by {
        forall j | 0 <= j < |tail| ensures AtLeast(key(s[0]), key(tail[j])) {
          assert tail[j] == s[j + 1];
        }
      }
      BoundsMembers(s[0], x, tail, rest, key);
      SortedPrepend(s[0], rest, key);
      assert s == [s[0]] + tail;
      [s[0]] + rest
  }

  /** Insertion sort. */
  function SortDesc<T>(s: seq<T>, key: T -> Option<real>): (r: seq<T>)
    ensures SortedDesc(r, key)
    ensures multiset(r) == multiset(s)
    ensures |r| == |s|
  {
    if s == [] then []
    else
      assert s == [s[0]] + s[1..];
      Insert(s[0], SortDesc(s[1..], key), key)
  }

  /** A sorted listing holds the same elements as its input. */
  lemma SortDescMembers<T>(s: seq<T>, key: T -> Option<real>)
    ensures forall x :: x in SortDesc(s, key) <==> x in s
  {
    var r := SortDesc(s, key);
    forall x ensures x in r <==> x in s {
      assert x in r <==> x in multiset(r);
      assert x in s <==> x in multiset(s);
    }
  }
}
