/** Requests followed through service and middleware together: what a client
    observes when a service call is made and the fault it raises, if any, is
    caught by the middleware. */
module Pipeline {
  import opened Common
  import opened Entity
  import opened Exceptions
  import opened Results
  import opened Persistence
  import opened ProductoServices
  import opened UsuarioServices
  import opened Middleware

  /** What the middleware sees of a service call: the fault it raised, if any. */
  function Thrown<T>(r: Outcome<T>): (f: Option<Fault>)
    ensures f.Some? <==> r.Raised?
    ensures r.Raised? ==> f == Some(r.fault)
  {
    match r
    case Returned(_) => None
    case Raised(fault) => Some(fault)
  }

  /** A failed login is answered with 404 "Not Found" and the service's
      message, never with 500, in every environment. */
  lemma FailedLoginIsNotFound(unitOfWork: UnitOfWork, usuario: Usuario, isDevelopment: bool, now: int)
    requires GetUsuarioAsync(unitOfWork, usuario).Raised?
    ensures var d := Classify(GetUsuarioAsync(unitOfWork, usuario).fault, isDevelopment, now);
      d.statusCode == 404 && d.exceptionType == Some("Not Found")
      && d.message == Some(CredencialesIncorrectas) && d.stackTrace == None
  {
  }

  /** Creating any product with an empty name is answered with 400 and the
      label "Validation Error", and the table is unchanged. */
  method CreateWithEmptyNameIsBadRequest(service: ProductoService, middleware: ExceptionMiddleware,
                                         response: HttpResponse, producto: Producto, now: int)
      returns (body: Option<ErrorBody>)
    requires service.Valid() && producto.nombre == ""
    modifies service.unitOfWork, response
    ensures unchanged(service.unitOfWork)
    ensures response.statusCode == 400
    ensures body.Some? && body.value.statusCode == 400 && body.value.exceptionType == Some("Validation Error")
    ensures body.value.message == Some(NombreRequerido) && body.value.stackTrace == None
  {
    var r := service.CreateProductoAsync(producto);
    body := middleware.InvokeAsync(response, Thrown(r), now);
  }

  /** Create, read back, delete, read again, for any valid product: the read
      after the create returns the product with the request's name, price and
      quantity under the generated key, and the read after the delete raises
      `NotFoundException`, answered with 404. */
  method CreateReadDeleteRead(service: ProductoService, middleware: ExceptionMiddleware,
                              response: HttpResponse, producto: Producto, now: int)
      returns (created: Outcome<Result<Producto>>, read: Outcome<Result<Producto>>, body: Option<ErrorBody>)
    requires service.Valid() && producto.nombre != "" && producto.precio > 0.0
    modifies service.unitOfWork, response
    ensures service.Valid() && service.unitOfWork.usuarios == old(service.unitOfWork.usuarios)
    ensures created.Returned? && created.value.statusCode == 201 && created.value.data.Some?
    ensures created.value.data.value.productoId == old(service.unitOfWork.nextId)
    ensures read.Returned? && read.value.statusCode == 200 && read.value.data == created.value.data
    ensures var p := read.value.data.value;
      p.nombre == producto.nombre && p.precio == producto.precio && p.cantidad == producto.cantidad
    ensures body.Some? && body.value.statusCode == 404 && body.value.exceptionType == Some("Not Found")
    ensures response.statusCode == 404
  {
    created := service.CreateProductoAsync(producto);
    var id := created.value.data.value.productoId;
    read := service.GetProductoByIdAsync(id);
    FindByIdAt(service.unitOfWork.productos, |service.unitOfWork.productos| - 1);
    var deleted := service.DeleteProductoAsync(id);
    assert deleted == Returned(Results.Success(true));
    var again := service.GetProductoByIdAsync(id);
    assert again == Raised(NotFoundFault(NotFoundMessage(id)));
    body := middleware.InvokeAsync(response, Thrown(again), now);
  }

  /** A successful delete is followed by a read of the same key that raises
      `NotFoundException`. */
  method DeleteThenGetIsNotFound(service: ProductoService, id: int)
      returns (deleted: Outcome<Result<bool>>, read: Outcome<Result<Producto>>)
    requires service.Valid()
    modifies service.unitOfWork
    ensures service.Valid()
    ensures deleted.Returned? ==> read == Raised(NotFoundFault(NotFoundMessage(id)))
    ensures deleted.Raised? ==> read == Raised(NotFoundFault(NotFoundMessage(id)))
  {
    deleted := service.DeleteProductoAsync(id);
    read := service.GetProductoByIdAsync(id);
  }
}
