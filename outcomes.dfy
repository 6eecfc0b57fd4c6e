/** The ways the pipeline can fail, and the failure-compatible result type
    the model uses wherever the Python code can raise. */
module Outcomes {

  /** One constructor per exception the pipeline can raise. */
  datatype Failure =
    | NoAttribute          // AttributeError: `.get` called on something that is not a dict
    | NotIterable          // TypeError: the `features` value cannot be iterated
    | BadOperand           // TypeError: `time / 1000.0` on None, a string, a list or a dict
    | NotSubscriptable     // TypeError: `coordinates[i]` on None, a bool or a number
    | IndexOutOfRange      // IndexError: `coordinates[i]` past the end of a list or string
    | KeyMissing           // KeyError: `coordinates[i]` on a dict (JSON keys are strings)
    | TimestampOutOfRange  // ValueError/OverflowError from `utcfromtimestamp`; also stands for the
                           // OverflowError of `time / 1000.0` on an integer too large for a float
    | DateOverflow         // OverflowError: date arithmetic leaves years 1..9999
    | Unparseable          // pandas cannot parse a `Time` string
    | OutOfBoundsDatetime  // pandas: the parsed instant is outside its nanosecond range

  datatype Result<+T> = Ok(value: T) | Err(error: Failure) {
    predicate IsFailure() { Err? }

    function PropagateFailure<U>(): Result<U>
      requires Err?
    {
      Err(error)
    }

    function Extract(): T
      requires Ok?
    {
      value
    }
  }

  datatype Option<+T> = None | Some(value: T)
}
