/** Option and Result types, and the error kinds the library throws as EventException. */
module Wrappers {

  datatype Option<+T> = None | Some(value: T) {
    function GetOr(default: T): T {
      match this
      case Some(v) => v
      case None => default
    }
  }

  datatype Result<+R, +E> = Success(value: R) | Failure(error: E)

  /** A Result without a value: the call either returned or threw. */
  datatype Outcome<+E> = Pass | Fail(error: E)

  /** The reason an EventException was thrown. */
  datatype EventError =
    | InvalidEventName    // name is empty (or not a string)
    | EmptyCallback       // callback is empty
    | InvalidWeight       // weight given but not a positive number
    | InvalidMaximum      // maxEventListeners is not a positive integer
    | WeightOutOfRange    // explicit weight >= maxEventListeners
    | WeightTaken         // explicit weight already used for the event
    | NoFreeWeight        // no free weight in [defaultWeight, maxEventListeners)
}
