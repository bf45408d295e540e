/** Failure values shared by every module: the exceptions the generators throw
    become `Err` results, so no operation silently degrades to partial output. */
module Faults {

  /** The exception kinds the modelled code can raise. */
  datatype Fault =
    | NotImplemented(what: string)   // an AST node, operator or literal kind outside the handled subset
    | InvalidArgument(what: string)  // ArgumentException: null/blank names, duplicate dictionary keys
    | InvalidCast                    // a cast of an AST node to Identifier that fails
    | NullReference                  // a required node (an identifier) that is absent
    | KeyNotFound(key: string)       // a dictionary read of a missing key
    | InvalidOperation               // InvalidOperationException
    | ArgumentOutOfRange             // ArgumentOutOfRangeException
    | IndexOutOfRange                // IndexOutOfRangeException: a read past the end of a string

  datatype Option<+T> = None | Some(value: T)

  /** The value of a computation that may throw one of the faults above. */
  datatype Result<+T> = Ok(value: T) | Err(fault: Fault) {
    predicate IsFailure() { Err? }

    function PropagateFailure<U>(): Result<U>
      requires Err?
    {
      Err(fault)
    }

    function Extract(): T
      requires Ok?
    {
      value
    }
  }
}
