/** Option and Result, and the exceptions that the ledger scripts can raise. */
module Wrappers {

  datatype Option<+T> = None | Some(value: T)

  /** Every exception the modelled code raises aborts the whole conversion. */
  datatype Error =
    | AssertionError     // an `assert` statement failed
    | KeyError(key: int) // a lookup of an account, category or payee id that is not in its table
    | RecursionError     // the category walk came back to an id it already visited
    | UnboundLocalError  // `dst` was read before any row had assigned it

  datatype Result<+T> = Ok(value: T) | Err(error: Error)

  /** f applied to each element in turn, stopping at the first element it fails on. */
  function Traverse<T, U>(xs: seq<T>, f: T -> Result<U>): (r: Result<seq<U>>)
    ensures r.Ok? ==> |r.value| == |xs|
  {
    if xs == [] then Ok([])
    else
      match f(xs[0])
      case Err(e) => Err(e)
      case Ok(y) =>
        match Traverse(xs[1..], f)
        case Err(e) => Err(e)
        case Ok(ys) => Ok([y] + ys)
  }

  /** The traversal succeeds exactly when f succeeds on every element, and then holds f's values in order. */
  lemma {:induction false} TraverseOk<T, U>(xs: seq<T>, f: T -> Result<U>)
    ensures Traverse(xs, f).Ok? <==> forall i :: 0 <= i < |xs| ==> f(xs[i]).Ok?
    ensures Traverse(xs, f).Ok? ==> forall i :: 0 <= i < |xs| ==> Traverse(xs, f).value[i] == f(xs[i]).value
  {
    if xs != [] {
      var rest := xs[1..];
      TraverseOk(rest, f);
      assert forall i :: 0 <= i < |rest| ==> rest[i] == xs[i + 1];
      assert (forall i :: 0 <= i < |xs| ==> f(xs[i]).Ok?) <==> f(xs[0]).Ok? && forall i :: 0 <= i < |rest| ==> f(rest[i]).Ok? by {
        if f(xs[0]).Ok? && forall i :: 0 <= i < |rest| ==> f(rest[i]).Ok? {
          forall i | 0 <= i < |xs| ensures f(xs[i]).Ok? {
            if i > 0 {
              assert f(rest[i - 1]).Ok?;
            }
          }
        }
      }
    }
  }

  /** The traversal fails with the error of the first element f fails on. */
  lemma {:induction false} TraverseFails<T, U>(xs: seq<T>, f: T -> Result<U>, i: int)
    requires 0 <= i < |xs| && f(xs[i]).Err?
    requires forall j :: 0 <= j < i ==> f(xs[j]).Ok?
    ensures Traverse(xs, f) == Err(f(xs[i]).error)
  {
    if i > 0 {
      var rest := xs[1..];
      assert forall j :: 0 <= j < i - 1 ==> rest[j] == xs[j + 1];
      TraverseFails(rest, f, i - 1);
    }
  }

  /** When every error f can give is e, so is every error of the traversal. */
  lemma {:induction false} TraverseError<T, U>(xs: seq<T>, f: T -> Result<U>, e: Error)
    requires forall x :: f(x).Err? ==> f(x).error == e
    ensures Traverse(xs, f).Err? ==> Traverse(xs, f).error == e
  {
    if xs != [] {
      TraverseError(xs[1..], f, e);
    }
  }

  /** Traversing one more element: f's value on it is appended, or its error is raised. */
  lemma {:induction false} TraverseSnoc<T, U>(xs: seq<T>, f: T -> Result<U>, x: T)
    requires Traverse(xs, f).Ok?
    ensures Traverse(xs + [x], f) == match f(x)
      case Err(e) => Err(e)
      case Ok(y) => Ok(Traverse(xs, f).value + [y])
  {
    if xs != [] {
      assert (xs + [x])[1..] == xs[1..] + [x];
      TraverseSnoc(xs[1..], f, x);
      assert (xs + [x])[0] == xs[0];
      if f(x).Ok? {
        var y0, ys := f(xs[0]).value, Traverse(xs[1..], f).value;
        assert [y0] + (ys + [f(x).value]) == ([y0] + ys) + [f(x).value];
      }
    } else {
      assert [x][1..] == [] && [x][0] == x;
      if f(x).Ok? {
        assert [f(x).value] + [] == [] + [f(x).value];
      }
    }
  }

  /** Once a prefix fails, the whole traversal fails with the same error. */
  lemma {:induction false} TraversePrefix<T, U>(xs: seq<T>, f: T -> Result<U>, k: int)
    requires 0 <= k <= |xs| && Traverse(xs[..k], f).Err?
    ensures Traverse(xs, f) == Traverse(xs[..k], f)
  {
    if k < |xs| {
      assert xs[..k][0] == xs[0];
      if f(xs[0]).Ok? {
        assert xs[..k][1..] == xs[1..][..k - 1];
        TraversePrefix(xs[1..], f, k - 1);
      }
    } else {
      assert xs[..k] == xs;
    }
  }

  /** One more element of a traversal that has succeeded so far: f's value on it is appended, or its error is the traversal's. */
  lemma TraverseStep<T, U>(xs: seq<T>, f: T -> Result<U>, i: int)
    requires 0 <= i < |xs| && Traverse(xs[..i], f).Ok?
    ensures Traverse(xs[..i + 1], f) == match f(xs[i])
      case Err(e) => Err(e)
      case Ok(y) => Ok(Traverse(xs[..i], f).value + [y])
    ensures f(xs[i]).Err? ==> Traverse(xs, f) == Err(f(xs[i]).error)
  {
    TraverseSnoc(xs[..i], f, xs[i]);
    assert xs[..i + 1] == xs[..i] + [xs[i]];
    if f(xs[i]).Err? {
      TraversePrefix(xs, f, i + 1);
    }
  }
}
