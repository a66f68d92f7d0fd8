/** The Python exceptions that the modelled code raises or lets escape, and a
    failure-compatible Result type used by every module of the model. */
module Exceptions {

  datatype Exception =
    /** `ValueError` raised by a constructor or a builtin, with its message. */
    | ValueError(message: string)
    /** `ValueError("File ended with a partial record: got {got} bytes at record {index}")`. */
    | PartialRecord(got: nat, index: nat)
    /** `IndexError`: an index or a shape component taken of something too short. */
    | IndexError
    /** `KeyError(key)`: a dictionary lookup of an absent key. */
    | KeyError(key: string)
    /** `KeyError("Step '{step}' missing inputs: {missing}")` raised by the runner. */
    | MissingInputs(step: string, missing: seq<string>)
    /** `NotImplementedError` from the base step. */
    | NotImplementedError
    /** `AssertionError` from an `assert` statement of the source. */
    | AssertionError
    /** numpy's `AxisError`: an axis argument beyond the array's dimension. */
    | AxisError
    /** numpy's `ValueError` for operands whose shapes do not match. */
    | ShapeError
    /** `AttributeError`: an artifact of the wrong kind used as a TimeSeries. */
    | AttributeError
    /** `TypeError`: an object subscripted in a way its type does not support. */
    | TypeError

  datatype Result<+T> = Ok(value: T) | Err(error: Exception) {

    predicate IsFailure() {
      Err?
    }

    function PropagateFailure<U>(): Result<U>
      requires Err?
    {
      Err(error)
    }

    function Extract(): T
      requires Ok?
    {
      value
    }
  }

  datatype Option<+T> = None | Some(value: T)
}
