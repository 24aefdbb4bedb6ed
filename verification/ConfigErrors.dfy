/**
  The error tree a failed load returns, and the walk that lists its field errors.
*/
module ConfigErrors {
  import opened Options
  import opened ConfigTypes

  /** The field errors of the first k parts, in order. */
  function PartsErrors(parts: seq<Error>, k: nat): seq<FieldError>
    requires k <= |parts|
    decreases parts, k
  {
    if k == 0 then [] else PartsErrors(parts, k - 1) + FieldErrors(parts[k - 1])
  }

  /** A field error counts as one, whatever its cause holds. */
  function FieldErrors(e: Error): seq<FieldError>
    decreases e
  {
    match e
    case Fail(err) => [err]
    case Wrapped(inner) => if inner == None then [] else FieldErrors(inner.value)
    case Joined(parts) => PartsErrors(parts, |parts|)
    case Foreign(_) => []
  }

  // The result list that the recursive walk appends to.
  class Collected {
    var out: seq<FieldError>

    constructor ()
      ensures out == []
    {
      out := [];
    }

    method Walk(node: Error)
      modifies this
      ensures out == old(out) + FieldErrors(node)
      decreases node
    {
      match node {
        case Fail(err) => out := out + [err];
        case Wrapped(inner) =>
          if inner != None {
            Walk(inner.value);
          }
        case Joined(parts) =>
          for i := 0 to |parts|
            invariant out == old(out) + PartsErrors(parts, i)
          {
            Walk(parts[i]);
          }
        case Foreign(_) =>
      }
    }
  }

  method FieldErrorsOf(err: Option<Error>) returns (out: seq<FieldError>)
    ensures out == if err == None then [] else FieldErrors(err.value)
  {
    var c := new Collected();
    if err != None {
      c.Walk(err.value);
    }
    return c.out;
  }

  function Failures(errs: seq<FieldError>): (r: seq<Error>)
    ensures |r| == |errs| && forall i :: 0 <= i < |errs| ==> r[i] == Fail(errs[i])
  {
    seq(|errs|, i requires 0 <= i < |errs| => Fail(errs[i]))
  }

  /** All problems joined and wrapped into the one rejection of a failed load. */
  function RejectionFrom(errs: seq<FieldError>): Error {
    Wrapped(Some(Joined(Failures(errs))))
  }

  lemma {:induction false} PartsOfFailures(errs: seq<FieldError>, k: nat)
    requires k <= |errs|
    ensures PartsErrors(Failures(errs), k) == errs[..k]
  {
    if k > 0 {
      PartsOfFailures(errs, k - 1);
      assert errs[..k] == errs[..k - 1] + [errs[k - 1]];
    }
  }

  /**
    Listing undoes wrapping: every problem once, in order. Causes are not searched, even when
    a validation hook returns a rejection of its own.
  */
  lemma RejectionListsItsErrors(errs: seq<FieldError>)
    ensures FieldErrors(RejectionFrom(errs)) == errs
  {
    PartsOfFailures(errs, |errs|);
    assert errs[..|errs|] == errs;
  }

  /** Wrapping a rejection again, any number of times, hides nothing. */
  lemma {:induction false} WrappingHidesNothing(e: Error, depth: nat)
    ensures FieldErrors(WrapTimes(e, depth)) == FieldErrors(e)
  {
    if depth > 0 {
      WrappingHidesNothing(e, depth - 1);
    }
  }

  function WrapTimes(e: Error, depth: nat): Error {
    if depth == 0 then e else Wrapped(Some(WrapTimes(e, depth - 1)))
  }
}
