/** Python exceptions raised by the modelled code, and a failure-compatible result type. */
module Results {

  /** The exception classes the modelled functions can raise. */
  datatype PyError = ValueError | IndexError | ZeroDivisionError | AttributeError | TypeError | UnboundLocalError | ArgumentError

  /** Either a value or the exception that replaced it. */
  datatype Result<+T> = Ok(value: T) | Err(error: PyError) {

    predicate IsFailure() {
      Err?
    }

    function PropagateFailure<U>(): Result<U>
      requires Err?
    {
      Err(error)
    }

    function Extract(): T
      requires Ok?
    {
      value
    }
  }

  /** `[f(x) for x in xs]` where `f` may raise: the first failure, in order, is the overall failure. */
  function MapAll<A, B>(xs: seq<A>, f: A -> Result<B>): (r: Result<seq<B>>)
    ensures r.Ok? ==> |r.value| == |xs| && forall i :: 0 <= i < |xs| ==> f(xs[i]) == Ok(r.value[i])
    ensures r.Err? ==> exists i :: 0 <= i < |xs| && f(xs[i]) == Err(r.error)
    decreases |xs|
  {
    if |xs| == 0 then Ok([])
    else
      match f(xs[0])
      case Err(e) => Err(e)
      case Ok(v) =>
        match MapAll(xs[1..], f)
        case Err(e) =>
          var j :| 0 <= j < |xs| - 1 && f(xs[1..][j]) == Err(e);
          assert xs[1..][j] == xs[j + 1];
          Err(e)
        case Ok(vs) =>
          assert forall i :: 1 <= i < |xs| ==> xs[i] == xs[1..][i - 1];
          Ok([v] + vs)
  }

  /** The smaller of two integers. */
  function Min(a: int, b: int): int {
    if a <= b then a else b
  }

  /** The conventional Some/None datatype, standing for a Python value that may be `None` or absent. */
  datatype Option<+T> = None | Some(value: T)
}
