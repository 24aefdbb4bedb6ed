/**
  Sorting by a strict total order, and why its result does not depend on the order
  in which the elements were met.
*/
module Sorting {
  ghost predicate StrictOrder<T(!new)>(less: (T, T) -> bool) {
    && (forall x :: !less(x, x))
    && (forall x, y, z :: less(x, y) && less(y, z) ==> less(x, z))
    && (forall x, y :: x == y || less(x, y) || less(y, x))
  }

  ghost predicate Ascending<T>(less: (T, T) -> bool, s: seq<T>) {
    forall i, j :: 0 <= i < j < |s| ==> less(s[i], s[j])
  }

  function Insert<T(!new)>(less: (T, T) -> bool, x: T, s: seq<T>): seq<T> {
    if s == [] then [x]
    else if less(s[0], x) then [s[0]] + Insert(less, x, s[1..])
    else [x] + s
  }

  /** The library sort, on any sequence: ascending order, equal elements side by side. */
  function Sort<T(!new)>(less: (T, T) -> bool, s: seq<T>): seq<T> {
    if s == [] then [] else Insert(less, s[0], Sort(less, s[1..]))
  }

  lemma {:induction false} InsertMeaning<T(!new)>(less: (T, T) -> bool, x: T, s: seq<T>)
    requires StrictOrder(less) && Ascending(less, s) && x !in s
    ensures var r := Insert(less, x, s);
      Ascending(less, r) && (forall y :: y in r <==> y == x || y in s) && |r| == |s| + 1
  {
    if s != [] && less(s[0], x) {
      InsertMeaning(less, x, s[1..]);
      var rest := Insert(less, x, s[1..]);
      assert s == [s[0]] + s[1..];
      forall j | 0 <= j < |rest|
        ensures less(s[0], rest[j])
      {
        assert rest[j] in rest;
      }
    } else if s != [] {
      assert s[0] in s;
      assert less(x, s[0]);
    }
  }

  ghost predicate NoRepeats<T>(s: seq<T>) {
    forall i, j :: 0 <= i < j < |s| ==> s[i] != s[j]
  }

  /** A sequence without repeats is sorted into strictly ascending order, losing and adding nothing. */
  lemma {:induction false} SortMeaning<T(!new)>(less: (T, T) -> bool, s: seq<T>)
    requires StrictOrder(less) && NoRepeats(s)
    ensures var r := Sort(less, s);
      Ascending(less, r) && (forall y :: y in r <==> y in s) && |r| == |s|
  {
    if s != [] {
      SortMeaning(less, s[1..]);
      assert s == [s[0]] + s[1..];
      InsertMeaning(less, s[0], Sort(less, s[1..]));
    }
  }

  /** There is only one ascending sequence with given elements. */
  lemma {:induction false} AscendingUnique<T(!new)>(less: (T, T) -> bool, a: seq<T>, b: seq<T>)
    requires StrictOrder(less) && Ascending(less, a) && Ascending(less, b)
    requires forall x :: x in a <==> x in b
    ensures a == b
  {
    if a == [] {
      assert forall i :: 0 <= i < |b| ==> b[i] in b;
    } else {
      assert a[0] in b;
      assert b[0] in a;
      assert a[0] == b[0];
      assert a == [a[0]] + a[1..] && b == [b[0]] + b[1..];
      forall x
        ensures x in a[1..] <==> x in b[1..]
      {
        assert x in a <==> x == a[0] || x in a[1..];
        assert x in b <==> x == b[0] || x in b[1..];
        assert a[0] !in a[1..];
        assert b[0] !in b[1..];
      }
      AscendingUnique(less, a[1..], b[1..]);
    }
  }

  /** Sorting undoes any rearrangement p of an ascending sequence. */
  lemma SortUndoes<T(!new)>(less: (T, T) -> bool, ascending: seq<T>, s: seq<T>, p: seq<nat>)
    requires StrictOrder(less) && Ascending(less, ascending)
    requires |p| == |s| && NoRepeats(p)
    requires forall i :: 0 <= i < |s| ==> p[i] < |ascending| && s[i] == ascending[p[i]]
    requires forall k :: 0 <= k < |ascending| ==> k in p
    ensures Sort(less, s) == ascending
  {
    forall i, j | 0 <= i < j < |s|
      ensures s[i] != s[j]
    {
      assert p[i] < p[j] || p[j] < p[i];
    }
    forall x
      ensures x in s <==> x in ascending
    {
      if x in ascending {
        var k :| 0 <= k < |ascending| && ascending[k] == x;
        assert k in p;
        var i :| 0 <= i < |p| && p[i] == k;
        assert s[i] == x;
      }
    }
    SortMeaning(less, s);
    AscendingUnique(less, Sort(less, s), ascending);
  }
}
