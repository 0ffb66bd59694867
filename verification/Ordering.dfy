/** Sorting a finite set by a strict total order, as `ORDER BY` does when the last key is the row id. */
module Ordering {
  import opened Common

  ghost predicate StrictTotal<T(!new)>(less: (T, T) -> bool, s: set<T>) {
    && (forall x {:trigger less(x, x)} :: x in s ==> !less(x, x))
    && (forall x, y {:trigger less(x, y)} :: x in s && y in s && x != y ==> less(x, y) != less(y, x))
    && (forall x, y, z {:trigger less(x, y), less(y, z)} :: x in s && y in s && z in s && less(x, y) && less(y, z) ==>
        less(x, z))
  }

  predicate IsFirst<T(!new)>(less: (T, T) -> bool, s: set<T>, x: T) {
    x in s && forall y :: y in s && y != x ==> less(x, y)
  }

  lemma {:induction false} FirstExists<T(!new)>(less: (T, T) -> bool, s: set<T>)
    requires StrictTotal(less, s) && s != {}
    ensures exists x :: IsFirst(less, s, x)
    decreases |s|
  {
    var z :| z in s;
    var rest := s - {z};
    if rest == {} {
      assert s == {z};
      assert IsFirst(less, s, z);
    } else {
      FirstExists(less, rest);
      var x :| IsFirst(less, rest, x);
      if less(x, z) {
        assert IsFirst(less, s, x);
      } else {
        forall y | y in s && y != z
          ensures less(z, y)
        {
          assert y != x ==> less(x, y);
          assert less(z, x);
        }
        assert IsFirst(less, s, z);
      }
    }
  }

  lemma FirstUnique<T(!new)>(less: (T, T) -> bool, s: set<T>)
    requires StrictTotal(less, s)
    ensures forall x, y :: IsFirst(less, s, x) && IsFirst(less, s, y) ==> x == y
  {
    forall x, y | IsFirst(less, s, x) && IsFirst(less, s, y)
      ensures x == y
    {
      assert x != y ==> less(x, y) != less(y, x);
    }
  }

  function First<T(!new, ==)>(less: (T, T) -> bool, s: set<T>): (x: T)
    requires StrictTotal(less, s) && s != {}
    ensures IsFirst(less, s, x)
  {
    FirstExists(less, s);
    FirstUnique(less, s);
    var x :| x in s && IsFirst(less, s, x);
    x
  }

  ghost predicate Increasing<T(!new)>(less: (T, T) -> bool, r: seq<T>) {
    forall i, j {:trigger r[i], r[j]} :: 0 <= i < j < |r| ==> less(r[i], r[j])
  }

  ghost function Members<T>(r: seq<T>): set<T> {
    set x | x in r
  }

  /** All members of `s`, first to last. */
  function Sorted<T(!new, ==)>(less: (T, T) -> bool, s: set<T>): (r: seq<T>)
    requires StrictTotal(less, s)
    ensures |r| == |s| && Increasing(less, r)
    ensures forall x :: x in r <==> x in s
    decreases |s|
  {
    if s == {} then []
    else
      var x := First(less, s);
      var rest := Sorted(less, s - {x});
      assert forall y :: y in rest ==> less(x, y);
      assert forall i :: 0 <= i < |rest| ==> rest[i] in rest;
      [x] + rest
  }

  lemma {:induction false} IncreasingDistinct<T(!new)>(less: (T, T) -> bool, s: set<T>, r: seq<T>)
    requires StrictTotal(less, s) && Increasing(less, r) && forall x :: x in r ==> x in s
    ensures forall i, j :: 0 <= i < j < |r| ==> r[i] != r[j]
  {
    forall i, j | 0 <= i < j < |r|
      ensures r[i] != r[j]
    {
      assert r[i] in r && less(r[i], r[j]) && !less(r[i], r[i]);
    }
  }

  lemma HeadIsFirst<T(!new)>(less: (T, T) -> bool, r: seq<T>, x: T)
    requires Increasing(less, r) && x in r
    ensures x == r[0] || less(r[0], x)
  {
    var i :| 0 <= i < |r| && r[i] == x;
    assert r[0] == r[0] && (i == 0 || less(r[0], r[i]));
  }

  /** Increasing lists with the same members are the same list. */
  lemma {:induction false} IncreasingUnique<T(!new)>(less: (T, T) -> bool, s: set<T>, a: seq<T>, b: seq<T>)
    requires StrictTotal(less, s) && Increasing(less, a) && Increasing(less, b)
    requires (forall x :: x in a <==> x in b) && forall x :: x in a ==> x in s
    ensures a == b
    decreases |a|
  {
    if a != [] {
      assert a[0] in a;
    }
    if b != [] {
      assert b[0] in b;
    }
    if a != [] && b != [] {
      HeadIsFirst(less, b, a[0]);
      HeadIsFirst(less, a, b[0]);
      assert a[0] == b[0];
      IncreasingDistinct(less, s, a);
      IncreasingDistinct(less, s, b);
      forall x
        ensures x in a[1..] <==> x in b[1..]
      {
        TailMembers(a, x);
        TailMembers(b, x);
      }
      IncreasingUnique(less, s, a[1..], b[1..]);
      assert a == [a[0]] + a[1..] && b == [b[0]] + b[1..];
    }
  }

  lemma TailMembers<T>(a: seq<T>, x: T)
    requires a != [] && forall i, j :: 0 <= i < j < |a| ==> a[i] != a[j]
    ensures x in a[1..] <==> x in a && x != a[0]
  {
    if x in a && x != a[0] {
      var i :| 0 <= i < |a| && a[i] == x;
      assert a[1..][i - 1] == x;
    }
    if x in a[1..] {
      var i :| 0 <= i < |a[1..]| && a[1..][i] == x;
      assert a[i + 1] == x;
    }
  }

  ghost predicate Distinct<T>(r: seq<T>) {
    forall i, j :: 0 <= i < j < |r| ==> r[i] != r[j]
  }

  lemma {:induction false} DistinctSize<T>(r: seq<T>)
    requires Distinct(r)
    ensures |Members(r)| == |r|
  {
    if r != [] {
      var n := |r| - 1;
      DistinctSize(r[..n]);
      assert r == r[..n] + [r[n]];
      assert Members(r) == Members(r[..n]) + {r[n]};
    }
  }

  // ----- Orders by number, then by id -----

  datatype SortKey = SortKey(first: int, second: int, third: int)

  predicate KeyLess(a: SortKey, b: SortKey) {
    if a.first != b.first then a.first < b.first
    else if a.second != b.second then a.second < b.second
    else a.third < b.third
  }

  /** `ORDER BY` up to three numbers, then the id, is a strict total order. */
  lemma {:induction false} KeyThenIdIsTotal(less: (Id, Id) -> bool, key: Id -> SortKey, s: set<Id>)
    requires forall a, b {:trigger less(a, b)} :: a in s && b in s ==>
               (less(a, b) <==> KeyLess(key(a), key(b)) || (key(a) == key(b) && StringLess(a, b)))
    ensures StrictTotal(less, s)
  {
    hide StringLess;
    forall x | x in s
      ensures !less(x, x)
    {
      StringLessIrreflexive(x);
    }
    forall x, y | x in s && y in s && x != y
      ensures less(x, y) != less(y, x)
    {
      StringLessTotal(x, y);
      StringLessAsymmetric(x, y);
    }
    forall x, y, z | x in s && y in s && z in s && less(x, y) && less(y, z)
      ensures less(x, z)
    {
      if StringLess(x, y) && StringLess(y, z) {
        StringLessTransitive(x, y, z);
      }
    }
  }

  /** The opposite of a strict total order is one. */
  lemma ReversedIsTotal<T(!new)>(less: (T, T) -> bool, reversed: (T, T) -> bool, s: set<T>)
    requires StrictTotal(less, s) && forall a, b {:trigger reversed(a, b)} :: a in s && b in s ==>
             (reversed(a, b) <==> less(b, a))
    ensures StrictTotal(reversed, s)
  {
  }
}
