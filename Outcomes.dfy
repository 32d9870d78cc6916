/** Outcomes shared by every conformance test: optional artefacts, computations that may
    raise a Python exception, and the three-way verdict of one unittest test method. */
module Outcomes {

  datatype Option<+T> = None | Some(value: T)

  /** A computation that yields a value or raises an exception described by `error`.
      Usable with `:-`, so a raised exception propagates like it does in Python. */
  datatype Result<+T> = Ok(value: T) | Err(error: string) {
    predicate IsFailure() { Err? }

    function PropagateFailure<U>(): Result<U>
      requires Err?
    {
      Err(error)
    }

    function Extract(): T
      requires Ok?
    {
      value
    }
  }

  /** Pass; Fail when an assertion of the test does not hold (the reason is the assertion's
      message); Error when any other exception escapes the test (the artefact could not be
      inspected). */
  datatype Verdict = Pass | Fail(reason: string) | Error(cause: string)

  /** One assertion: `self.assertTrue(cond, reason)`. */
  function Check(cond: bool, reason: string): (v: Verdict)
    ensures v.Pass? <==> cond
    ensures !cond ==> v == Fail(reason)
  {
    if cond then Pass else Fail(reason)
  }

  /** Two assertions in a row: the second is only reached when the first holds. */
  function Then(first: Verdict, second: Verdict): (v: Verdict)
    ensures v.Pass? <==> first.Pass? && second.Pass?
    ensures !first.Pass? ==> v == first
    ensures first.Pass? ==> v == second
  {
    if first.Pass? then second else first
  }

  /** The verdict of a test whose body raised the exception carried by an `Err`. */
  function Settle(r: Result<Verdict>): (v: Verdict)
    ensures r.Err? ==> v == Error(r.error)
    ensures r.Ok? ==> v == r.value
  {
    match r
    case Ok(v) => v
    case Err(e) => Error(e)
  }
}
