/**
 * Outcomes of the translator's operations.
 *
 * The translator signals two kinds of failure. A step it has no translation
 * rule for raises UnknownNodeException, which the converter mixins catch and
 * turn into the "unknown" fallback; everything else (a missing dictionary key,
 * a ClickException raised on purpose, a graph with a cycle) ends the run.
 */
module Outcome {

  datatype Option<T> = None | Some(value: T)
  {
    function GetOr(default: T): T
    {
      if Some? then value else default
    }
  }

  datatype Failure =
    | NotRecognised(message: string)   // UnknownNodeException: recoverable by the fallbacks
    | Fatal(message: string)           // any other exception: aborts the translation

  datatype Result<T> = Ok(value: T) | Err(failure: Failure)
  {
    predicate IsFatal()
    {
      Err? && failure.Fatal?
    }

    predicate IsFailure()
    {
      Err?
    }

    function PropagateFailure<U>(): Result<U>
      requires Err?
    {
      Err(failure)
    }

    function Extract(): T
      requires Ok?
    {
      value
    }
  }

  /** The KeyError raised by reading a JSON key that is absent. */
  function MissingKey(key: string): (f: Failure)
    ensures f.Fatal?
  {
    Fatal("KeyError: '" + key + "'")
  }

  /** Reading a JSON key that may be absent: its value, or the KeyError. */
  function Required<T>(o: Option<T>, key: string): (r: Result<T>)
    ensures r.Ok? <==> o.Some?
    ensures r.Ok? ==> r.value == o.value
    ensures r.Err? ==> r == Err(MissingKey(key))
  {
    if o.Some? then Ok(o.value) else Err(MissingKey(key))
  }

  /** The fallback of the mixins: an UnknownNodeException becomes `fallback`, other outcomes pass. */
  function Recover<T>(r: Result<T>, fallback: T): (out: Result<T>)
    ensures r.Ok? ==> out == r
    ensures out.Err? <==> r.IsFatal()
    ensures r.Err? && r.failure.NotRecognised? ==> out == Ok(fallback)
  {
    if r.Err? && r.failure.NotRecognised? then Ok(fallback) else r
  }
}
