/** Optional values and failure-carrying results.

    The Java code signals every failure by throwing; the loader catches each one per file and
    skips that file. Here a failure is a value: `Err` carries the kind of exception the Java
    code would have raised, so that `:-` propagates it exactly where the exception would have
    unwound the call stack. */
module Outcomes {

  /** A possibly-absent value: `None` stands for Java's `null`. */
  datatype Option<+T> = None | Some(value: T)

  /** The exceptions the core can raise, one constructor per cause. */
  datatype Exception =
    | WrongType(expected: string, found: string)   // expectType's IllegalArgumentException
    | UnknownStatusEffect(effect: string)          // the registry lookup's orElseThrow
    | NoEffects                                    // a beverage whose effect list is empty
    | NotConvertible                               // getAsX on a null, an object or a wrongly sized array
    | NotAnObject                                  // getAsJsonObject on a non-object
    | NumberFormat(text: string)                   // Integer.parseInt / Double.parseDouble
    | InvalidIdentifier(namespace: string, path: string)
    | NullField(field: string)                     // Objects.requireNonNull in a record constructor
    | Unreadable                                   // the file is not a JSON object (or is empty)

  /** Either a value or the exception that replaced it. */
  datatype Result<+T> = Ok(value: T) | Err(error: Exception) {

    predicate IsFailure() {
      Err?
    }

    function PropagateFailure<U>(): Result<U>
      requires Err?
    {
      Err(error)
    }

    function Extract(): T
      requires Ok?
    {
      value
    }
  }
}
