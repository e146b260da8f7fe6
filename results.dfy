/** Failure-compatible wrappers shared by the evaluator, the step machine and the parser. */
module Results {

  /** Every way an evaluation or a parse can stop without a value.
      `Runtime` carries the message of a `std::runtime_error` thrown by the modelled code;
      the next three stand for failures raised by value methods whose code is not part of
      this model (their message text is unknown); `OutOfFuel` only exists in the model,
      where a step or recursion budget replaces the possibility of running forever. */
  datatype Error =
    | Runtime(message: string)
    | NotANumber
    | NotABoolean
    | NotCallable
    | OutOfFuel

  datatype Option<+T> = None | Some(value: T)

  datatype Result<+T> = Ok(value: T) | Err(error: Error) {
    predicate IsFailure() { Err? }

    function PropagateFailure<U>(): Result<U>
      requires Err?
    {
      Err(error)
    }

    function Extract(): T
      requires Ok?
    {
      value
    }
  }

  /** The result of a step that only changes state: it passes or it throws. */
  datatype Outcome = Pass | Fail(error: Error)
}
