/** The ways a class-file decode can end early.

    `JvmError` mirrors the Swift `JVMerror` enum (Sources/jacobin/Exceptions.swift).
    The decoder also stops in two ways that are not thrown errors: the
    log-and-`shutdown(successFlag: false)` path, and a Swift runtime trap
    (checked arithmetic overflow, an array subscript out of bounds, a closed
    range `a...b` with `b < a`, a forced downcast `as!` to the wrong class).
    All three are values of `Fault`; `Result` carries either a value or a
    fault and supports Dafny's `:-` so that the first fault propagates, as
    the Swift program stops at its first throw, shutdown or trap. */
module Exceptions {

  datatype JvmError =
    | ClassFormatError(name: string)
    | ClassVerificationError(name: string)
    | InvalidParameterError(msg: string)
    | UnreachableError(msg: string)

  datatype TrapKind =
    | ArithmeticOverflow  // Int16 arithmetic left its range
    | IndexOutOfRange     // subscript outside an array
    | EmptyRange          // `a...b` built with b < a
    | FailedCast          // `as!` applied to an entry of another class

  datatype Fault =
    | Thrown(error: JvmError)
    | Shutdown
    | Trap(kind: TrapKind)

  datatype Option<+T> = None | Some(value: T)

  datatype Result<+T> = Ok(value: T) | Err(fault: Fault) {

    predicate IsFailure() {
      Err?
    }

    function PropagateFailure<U>(): Result<U>
      requires Err?
    {
      Err(fault)
    }

    function Extract(): T
      requires Ok?
    {
      value
    }
  }

  /** The outcome of a step that produces no value. */
  type Status = Result<()>
}
