/** How a Go call of the library ends. */
module Outcomes {

  /** The root cause of a Go error, as far as the library's callers tell causes apart.
      `NotExist` and `Permission` are what `os.IsNotExist` and `os.IsPermission` recognise after
      `errors.Cause`; `Gone` is the error of reading an open /proc file whose process has exited,
      which neither of them recognises. */
  datatype Error =
    | NotExist
    | Permission
    | Gone
    | Other(message: string)

  /** A call returns a value, returns an error, or panics (an index or slice out of range,
      an integer division by zero). */
  datatype Outcome<+T> =
    | Ok(value: T)
    | Err(error: Error)
    | Panic
  {
    predicate IsFailure() {
      !Ok?
    }

    function PropagateFailure<U>(): Outcome<U>
      requires !Ok?
    {
      match this
      case Err(e) => Err(e)
      case Panic => Panic
    }

    function Extract(): T
      requires Ok?
    {
      value
    }

    predicate IsNotExist() {
      Err? && error == NotExist
    }
  }

  /** Whether a step is done, without its value */
  function Done<T>(step: Outcome<T>): Outcome<()> {
    match step
    case Ok(_) => Ok(())
    case Err(e) => Err(e)
    case Panic => Panic
  }

  /** Of steps one after the other, the first that is not done decides how the whole ends. */
  ghost predicate EndsWithFirst<T>(r: Outcome<T>, steps: seq<Outcome<()>>) {
    forall i :: 0 <= i < |steps| && !steps[i].Ok? && (forall j :: 0 <= j < i ==> steps[j].Ok?) ==>
      r == steps[i].PropagateFailure()
  }

  ghost predicate AllDone(steps: seq<Outcome<()>>) {
    forall i :: 0 <= i < |steps| ==> steps[i].Ok?
  }

  datatype Option<+T> = None | Some(value: T)
}
