/** The typed faults the services raise, and the outcome of a call that
    either returns a value or raises a fault. */
module Exceptions {
  import opened Common

  /** The exception classes the middleware tells apart; everything else is
      `OtherException`, carrying its runtime type name. */
  datatype FaultKind =
    | ValidationException
    | NotFoundException
    | UnauthorizedAccessException
    | OtherException(typeName: string)
  {
    /** One of the three kinds the middleware classifies explicitly. */
    predicate IsClassified() {
      !OtherException?
    }
  }

  /** A thrown exception: its class, its `Message` and its `StackTrace`
      (which may be `null`). */
  datatype Fault = Fault(kind: FaultKind, message: string, stackTrace: Option<string>)

  /** What a call does: returns a value or raises a fault. */
  datatype Outcome<+T> = Returned(value: T) | Raised(fault: Fault)

  /** `new ValidationException(message)`; the runtime's stack trace is not modelled. */
  function ValidationFault(message: string): (f: Fault)
    ensures f.kind == ValidationException && f.kind.IsClassified() && f.message == message
  {
    Fault(ValidationException, message, None)
  }

  /** `new NotFoundException(message)`; the runtime's stack trace is not modelled. */
  function NotFoundFault(message: string): (f: Fault)
    ensures f.kind == NotFoundException && f.kind.IsClassified() && f.message == message
  {
    Fault(NotFoundException, message, None)
  }
}
