/** Option and Result types shared by the whole model.

    The source reports failures in three ways: returning `null`, letting a
    JavaScript TypeError escape (reading a field of `null` or `undefined`),
    and debug-only assertions that are compiled out of release builds. The
    first becomes `None`, the second an `Err`, and for the third the model
    follows the release build (the assertion is skipped).
 */
module Wrappers {

  datatype Option<+T> = None | Some(value: T)

  /** Why an operation of the source throws. */
  datatype Fault =
    /** A field or method of `null`/`undefined` is touched: a JavaScript TypeError. */
    | NullReference
    /** No object on a constructor's prototype chain can initialise a symbol instance. */
    | MissingSymbolPrototype
    /** `new` applied to a value that is not a constructor: a JavaScript TypeError. */
    | NotAConstructor

  datatype Result<+T> = Ok(value: T) | Err(fault: Fault) {

    predicate IsFailure() {
      Err?
    }

    function PropagateFailure<U>(): Result<U>
      requires Err?
    {
      Err(fault)
    }

    function Extract(): T
      requires Ok?
    {
      value
    }
  }
}
