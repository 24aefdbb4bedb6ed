/**
  What does not depend on the order in which a map is walked.
*/
module Permutations {
  import opened Sorting

  function FlatMap<T, U>(f: T -> seq<U>, xs: seq<T>): seq<U> {
    if xs == [] then [] else f(xs[0]) + FlatMap(f, xs[1..])
  }

  lemma {:induction false} FlatMapConcat<T, U>(f: T -> seq<U>, a: seq<T>, b: seq<T>)
    ensures FlatMap(f, a + b) == FlatMap(f, a) + FlatMap(f, b)
  {
    if a == [] {
      assert a + b == b;
    } else {
      assert (a + b)[1..] == a[1..] + b;
      FlatMapConcat(f, a[1..], b);
    }
  }

  lemma TakeOut<T>(x: T, rest: seq<T>, b: seq<T>, i: nat)
    requires i < |b| && b[i] == x && multiset([x] + rest) == multiset(b)
    ensures multiset(rest) == multiset(b[..i] + b[i + 1..])
  {
    assert b == b[..i] + [x] + b[i + 1..];
    assert multiset(b) == multiset(b[..i]) + multiset{x} + multiset(b[i + 1..]);
    assert multiset([x] + rest) == multiset{x} + multiset(rest);
    assert multiset(b[..i] + b[i + 1..]) == multiset(b) - multiset{x};
  }

  /** Mapping a rearranged sequence gives the same results, counted with repetitions. */
  lemma {:induction false} FlatMapPermutes<T, U>(f: T -> seq<U>, a: seq<T>, b: seq<T>)
    requires multiset(a) == multiset(b)
    ensures multiset(FlatMap(f, a)) == multiset(FlatMap(f, b))
  {
    if a == [] {
      assert |multiset(b)| == 0;
    } else {
      assert a[0] in multiset(b);
      var i :| 0 <= i < |b| && b[i] == a[0];
      assert a == [a[0]] + a[1..];
      TakeOut(a[0], a[1..], b, i);
      FlatMapPermutes(f, a[1..], b[..i] + b[i + 1..]);
      FlatMapConcat(f, b[..i], b[i + 1..]);
      FlatMapConcat(f, b[..i], b[i..]);
      assert b == b[..i] + b[i..] && b[i..][1..] == b[i + 1..];
    }
  }

  /** Two sequences without repeats and with the same elements are rearrangements of each other. */
  lemma NoRepeatsPermute<T>(a: seq<T>, b: seq<T>)
    requires NoRepeats(a) && NoRepeats(b)
    requires forall x :: x in a <==> x in b
    ensures multiset(a) == multiset(b)
  {
    forall x
      ensures multiset(a)[x] == multiset(b)[x]
    {
      CountWithoutRepeats(a, x);
      CountWithoutRepeats(b, x);
    }
  }

  lemma {:induction false} CountWithoutRepeats<T>(a: seq<T>, x: T)
    requires NoRepeats(a)
    ensures multiset(a)[x] == if x in a then 1 else 0
  {
    if a != [] {
      assert a == [a[0]] + a[1..];
      CountWithoutRepeats(a[1..], x);
    }
  }

  /** The images, element by element, of two rearrangements are rearrangements. */
  lemma ImagesPermute<T, U>(f: T -> U, a: seq<T>, x: seq<U>, b: seq<T>, y: seq<U>)
    requires multiset(a) == multiset(b)
    requires |x| == |a| && forall i :: 0 <= i < |a| ==> x[i] == f(a[i])
    requires |y| == |b| && forall i :: 0 <= i < |b| ==> y[i] == f(b[i])
    ensures multiset(x) == multiset(y)
  {
    var g := v => [f(v)];
    ImagesAreFlatMap(f, g, a, x);
    ImagesAreFlatMap(f, g, b, y);
    FlatMapPermutes(g, a, b);
  }

  lemma {:induction false} ImagesAreFlatMap<T, U>(f: T -> U, g: T -> seq<U>, a: seq<T>, x: seq<U>)
    requires forall v :: g(v) == [f(v)]
    requires |x| == |a| && forall i :: 0 <= i < |a| ==> x[i] == f(a[i])
    ensures x == FlatMap(g, a)
  {
    if a != [] {
      ImagesAreFlatMap(f, g, a[1..], x[1..]);
      assert x == [x[0]] + x[1..];
    }
  }
}
