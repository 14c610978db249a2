/** Optional values and failure-carrying results, used wherever the modelled
    code reads a dictionary key that may be absent or raises an exception. */
module Wrappers {

  /** A value that may be absent, as a key missing from a JSON object. */
  datatype Option<+T> = None | Some(value: T) {

    /** The value, or `default` when absent: Python's `d.get(key, default)`. */
    function GetOr(default: T): T {
      match this
      case Some(v) => v
      case None => default
    }
  }

  /** Either a value or the exception that replaced it. */
  datatype Result<+T, +E> = Success(value: T) | Failure(error: E) {

    /** The value, or `default` on failure: a `try`/`except` that substitutes. */
    function GetOr(default: T): T {
      match this
      case Success(v) => v
      case Failure(_) => default
    }
  }

  /** Runs `step` on each element in order, as a `for` loop whose body may
      raise: the results of all steps, or the failure of the first step
      that fails. */
  function Traverse<T, U, E>(xs: seq<T>, step: T -> Result<U, E>): (r: Result<seq<U>, E>)
    ensures r.Success? <==> forall i :: 0 <= i < |xs| ==> step(xs[i]).Success?
    ensures r.Success? ==>
      && |r.value| == |xs|
      && forall i :: 0 <= i < |xs| ==> step(xs[i]) == Success(r.value[i])
    ensures r.Failure? ==>
      exists i :: 0 <= i < |xs| && step(xs[i]) == Failure(r.error)
                  && forall j :: 0 <= j < i ==> step(xs[j]).Success?
  {
    if |xs| == 0 then Success([])
    else
      match step(xs[0])
      case Failure(e) => Failure(e)
      case Success(y) =>
        match Traverse(xs[1..], step)
        case Failure(e) =>
          assert forall j :: 1 <= j < |xs| ==> xs[1..][j - 1] == xs[j];
          Failure(e)
        case Success(ys) => Success([y] + ys)
  }
}
