/**
  Python exceptions that can escape the modelled code, and the outcome of a
  call that either returns normally or raises one of them.
 */
module Exceptions {

  datatype Exception =
    | ValueError(message: string)
    | TypeError(message: string)
    | AttributeError(owner: string, attribute: string)
    | UnboundLocalError(variable: string)
    | KeyError(key: string)
    | ZeroDivisionError(message: string)
    | OverflowError(message: string)
      /** `from module import name` of a name the module does not bind. */
    | ImportError(name: string, fromModule: string)
      /** The plain `Exception` raised when no `visit_<type>` method exists. */
    | NoVisitMethod(typeName: string)

  /** A Python call's completion: it returned a value or raised an exception.
      Failure-compatible, so `:-` propagates a raised exception. */
  datatype Completion<+T> = Returned(value: T) | Raised(exception: Exception) {

    predicate IsFailure() {
      Raised?
    }

    function PropagateFailure<U>(): Completion<U>
      requires Raised?
    {
      Raised(exception)
    }

    function Extract(): T
      requires Returned?
    {
      value
    }
  }
}
