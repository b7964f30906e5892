/**
 * The aggregate vocabulary of the reports: `Sum` over a row set, grouping
 * keys taken once each (`values(...)` followed by `annotate`), and ascending
 * listings of distinct keys (`order_by`). A sum is written as a fold over a
 * sequence, and the lemmas here show that it does not depend on the order in
 * which the rows are visited.
 */
module Aggregates {
  import opened Wrappers
  import opened Sorting

  /** The sum of `f` over a sequence; 0 for none (`Sum(...) or 0`). */
  function Total<T>(s: seq<T>, f: T -> real): real
  {
    if s == [] then 0.0 else f(s[0]) + Total(s[1..], f)
  }

  /** The identity on amounts, to sum a sequence of amounts. */
  function Value(x: real): real
  {
    x
  }

  lemma {:induction false} TotalAppend<T>(a: seq<T>, b: seq<T>, f: T -> real)
    ensures Total(a + b, f) == Total(a, f) + Total(b, f)
  {
    if a == [] {
      assert a + b == b;
    } else {
      assert (a + b)[1..] == a[1..] + b;
      TotalAppend(a[1..], b, f);
    }
  }

  /** A sum does not depend on the order of its terms. */
  lemma {:induction false} TotalPermutation<T>(a: seq<T>, b: seq<T>, f: T -> real)
    requires multiset(a) == multiset(b)
    ensures Total(a, f) == Total(b, f)
  {
    if a != [] {
      var x := a[0];
      assert x in multiset(b);
      var i :| 0 <= i < |b| && b[i] == x;
      var rest := b[..i] + b[i + 1..];
      assert b == b[..i] + ([x] + b[i + 1..]);
      assert a == [x] + a[1..];
      assert multiset(b) == multiset(b[..i]) + multiset{x} + multiset(b[i + 1..]);
      assert multiset(rest) == multiset(b) - multiset{x};
      assert multiset(a[1..]) == multiset(a) - multiset{x};
      TotalPermutation(a[1..], rest, f);
      TotalAppend(b[..i], [x] + b[i + 1..], f);
      TotalAppend(b[..i], b[i + 1..], f);
      assert ([x] + b[i + 1..])[1..] == b[i + 1..];
    }
  }

  predicate NoDuplicates<T(==)>(s: seq<T>)
  {
    forall i, j :: 0 <= i < j < |s| ==> s[i] != s[j]
  }

  /** The values of `s` once each, in the order in which they first appear. */
  function Distinct<T(==, !new)>(s: seq<T>): (r: seq<T>)
    ensures NoDuplicates(r)
    ensures forall x :: x in r <==> x in s
  {
    if s == [] then []
    else
      var init := s[..|s| - 1];
      var last := s[|s| - 1];
      var rest := Distinct(init);
      assert s == init + [last];
      assert forall x :: x in s <==> x in init || x == last;
      if last in rest then rest else rest + [last]
  }

  /** Each value of a sequence without duplicates occurs in it exactly once. */
  lemma {:induction false} NoDuplicatesCount<T>(s: seq<T>, x: T)
    requires NoDuplicates(s)
    ensures multiset(s)[x] == if x in s then 1 else 0
  {
    if s != [] {
      var tail := s[1..];
      assert s == [s[0]] + tail;
      forall i, j | 0 <= i < j < |tail| ensures tail[i] != tail[j] {
        assert tail[i] == s[i + 1] && tail[j] == s[j + 1];
      }
      NoDuplicatesCount(tail, x);
      if s[0] == x {
        forall k | 0 <= k < |tail| ensures tail[k] != x {
          assert tail[k] == s[k + 1];
        }
      }
    }
  }

  /** A value found at two positions is counted at least twice. */
  lemma TwiceCounted<T>(s: seq<T>, i: int, j: int)
    requires 0 <= i < j < |s|
    ensures s[i] == s[j] ==> multiset(s)[s[i]] >= 2
  {
    if s[i] == s[j] {
      assert s == s[..j] + s[j..];
      assert s[..j][i] == s[i];
      assert s[j..][0] == s[j];
    }
  }

  /** Reordering a sequence without duplicates leaves none. */
  lemma PermutationKeepsNoDuplicates<T>(a: seq<T>, b: seq<T>)
    requires NoDuplicates(a) && multiset(a) == multiset(b)
    ensures NoDuplicates(b)
  {
    forall i, j | 0 <= i < j < |b| ensures b[i] != b[j] {
      NoDuplicatesCount(a, b[i]);
      TwiceCounted(b, i, j);
    }
  }

  /** The sort key that lists numbers smallest first through a descending sort. */
  function Negated(p: int): Option<real>
  {
    Some(-(p as real))
  }

  /** The distinct values of `s`, smallest first (`order_by` on a grouping key). */
  function AscendingDistinct(s: seq<int>): (r: seq<int>)
    ensures forall i, j :: 0 <= i < j < |r| ==> r[i] < r[j]
    ensures forall x :: x in r <==> x in s
  {
    var d := Distinct(s);
    var r := SortDesc(d, Negated);
    SortDescMembers(d, Negated);
    PermutationKeepsNoDuplicates(d, r);
    forall i, j | 0 <= i < j < |r| ensures r[i] < r[j] {
      assert AtLeast(Negated(r[i]), Negated(r[j]));
      assert r[i] != r[j];
    }
    r
  }

}
