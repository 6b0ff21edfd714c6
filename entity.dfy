/** The persistent entities and the error record built by the middleware. */
module Entity {
  import opened Common

  /** A row of the product table. A `null` name is modelled as the empty
      string; the decimal price is modelled as an exact `real`. */
  datatype Producto = Producto(productoId: int, nombre: string, precio: real, cantidad: int)

  /** A row of the user table; the password is stored and compared as text. */
  datatype Usuario = Usuario(usuarioId: int, email: string, password: string)

  /** The value of an `ErrorDetails` object once filled in: what the
      middleware serialises as the error body. */
  datatype ErrorBody = ErrorBody(
    statusCode: int,
    message: Option<string>,
    exceptionType: Option<string>,
    stackTrace: Option<string>,
    timestamp: int)

  /** `ErrorDetails`: every property has a public setter, so it is a class
      whose fields the middleware overwrites one by one. The timestamp is the
      clock reading handed to the constructor. */
  class ErrorDetails {
    var statusCode: int
    var message: Option<string>
    var exceptionType: Option<string>
    var stackTrace: Option<string>
    var timestamp: int

    constructor (now: int)
      ensures statusCode == 0 && message == None && exceptionType == None
      ensures stackTrace == None && timestamp == now
    {
      statusCode := 0;
      message := None;
      exceptionType := None;
      stackTrace := None;
      timestamp := now;
    }

    /** The current field values as an immutable record. */
    function View(): ErrorBody
      reads this
    {
      ErrorBody(statusCode, message, exceptionType, stackTrace, timestamp)
    }
  }
}
