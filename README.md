# GestionInventario back end, modelled in Dafny

This project models the sequential core of the GestionInventario API: the
product service (`ProductoService`) as a state machine over a product
table behind a unit of work, the login lookup (`UsuarioService`), the two
repository queries (name substring filter, credential first match), the
immutable `Result<T>` / `ResultList<T>` envelopes, and the exception
middleware that turns a raised fault into an `ErrorDetails` body.

Structure, one module per source file or component:

- `Common` (common.dfy): `Option` for C# `null`/`default`, and the decimal
  rendering of `{id}` inside interpolated messages.
- `Entity` (entity.dfy): `Producto`, `Usuario` rows; `ErrorDetails` as a
  class whose fields are set one by one, and `ErrorBody`, its value.
- `Exceptions` (exceptions.dfy): `Fault` (exception class, `Message`,
  `StackTrace`) and `Outcome<T>` = returned value or raised fault.
- `Results`, `ResultLists` (result.dfy, result_list.dfy): the envelopes and
  their factories with default status codes. Their properties are get-only,
  so they are datatypes: an envelope never changes once built.
- `ProductoRepository`, `UsuarioRepository`: the two LINQ queries as
  functions over a sequence of rows.
- `Persistence` (unit_of_work.dfy): class `UnitOfWork` holding the
  committed product rows, the user rows, the staged changes and the
  store's identity counter; `CompleteAsync` applies all staged changes at
  once. Keys stay unique and below the counter, so a generated key is
  always fresh.
- `ProductoServices` (producto_service.dfy): class `ProductoService`, one
  method per operation, each checking its inputs in the source's order.
- `UsuarioServices` (usuario_service.dfy): the login lookup as a function.
- `Middleware` (exception_middleware.dfy): `Classify`, the classification
  table, and class `ExceptionMiddleware`, whose `HandleExceptionAsync`
  fills an `ErrorDetails` object field by field and is proved to build what
  `Classify` describes.
- `Pipeline` (pipeline.dfy): service calls followed through the middleware
  (failed login, empty-name create, create/read/delete/read).

The services raise `ValidationException`/`NotFoundException` rather than
return failure envelopes. A successful delete returns `Success(true)` with
status 200, which the controller answers with `Ok`. A failed login is a
`NotFoundException`, so the client gets 404.

Inputs the code takes from its environment are parameters: the clock value
stored in `ErrorDetails.Timestamp` (`now`), the development flag
(`isDevelopment`), and what the next request handler raised (`thrown`).

## Model

| member | source | states |
|---|---|---|
| `Results.Success` | BackEnd/Entity/Common/Result.cs:24-27 | a success envelope is well formed, carries the data, no error, and the given status code |
| `Results.Failure` | BackEnd/Entity/Common/Result.cs:29-32 | a failure envelope is well formed, carries the error, default data, and the given status code |
| `Results.DefaultStatusCodes` | BackEnd/Entity/Common/Result.cs:24-32 | the status code defaults to 200 for `Success` and 400 for `Failure` |
| `Results.WellFormedIsFactoryMade` | BackEnd/Entity/Common/Result.cs:11-32 | every well-formed envelope is exactly what one of the two factories builds from its own fields |
| `Results.SuccessIsNotFailure` | BackEnd/Entity/Common/Result.cs:16-32 | no success envelope equals a failure envelope |
| `ResultLists.Success` | BackEnd/Entity/Common/ResultList.cs:26-29 | a success list envelope carries the items, no error, the given record count and status code |
| `ResultLists.Failure` | BackEnd/Entity/Common/ResultList.cs:31-34 | a failure list envelope carries the error, no items, zero records and the given status code |
| `ResultLists.DefaultStatusCodes` | BackEnd/Entity/Common/ResultList.cs:26-34 | the status code defaults to 200 for `Success` and 400 for `Failure` |
| `ResultLists.WellFormedIsFactoryMade` | BackEnd/Entity/Common/ResultList.cs:11-34 | every well-formed list envelope is exactly what one of the two factories builds |
| `ResultLists.TotalRecordsIsIndependent` | BackEnd/Entity/Common/ResultList.cs:17-29 | a success whose record count differs from the number of its items is still well formed |
| `ProductoRepository.Contains` | BackEnd/Repository/ProductoRepository.cs:20 | the empty query is contained in every name, and a contained query is never longer than the name |
| `ProductoRepository.OccursImpliesContains` | BackEnd/Repository/ProductoRepository.cs:20 | a query occurring at any position of a name makes `Contains` true |
| `ProductoRepository.ContainsImpliesOccurs` | BackEnd/Repository/ProductoRepository.cs:20 | when `Contains` is true the query occurs at some position of the name |
| `ProductoRepository.ContainsIffOccurs` | BackEnd/Repository/ProductoRepository.cs:20 | `Contains` is exactly the positional substring relation |
| `ProductoRepository.GetProductosByNombre` | BackEnd/Repository/ProductoRepository.cs:18-21 | every returned row is stored and contains the query; every stored row containing it is returned; never more rows than stored |
| `ProductoRepository.EmptyQueryMatchesAll` | BackEnd/Repository/ProductoRepository.cs:20 | the empty query returns the stored rows unchanged |
| `UsuarioRepository.GetUsuarioAsync` | BackEnd/Repository/UsuarioRepository.cs:18-21 | a result is a stored user with exactly the given email and password; there is none exactly when no stored user has both (the test `Matches`, which requires email and password to be equal, as UsuarioRepository.cs:20 does) |
| `UsuarioRepository.ReturnsFirstMatch` | BackEnd/Repository/UsuarioRepository.cs:20 | with several matches, the first in row order is returned |
| `UsuarioRepository.StoredCredentialsAreFound` | BackEnd/Repository/UsuarioRepository.cs:20 | a stored user presenting their own email and password is found |
| `Persistence.FindById` | BackEnd/Services/ProductoService.cs:22 | a found row is stored and has the key; nothing is found exactly when no row has the key |
| `Persistence.FindByIdAt` | BackEnd/Services/ProductoService.cs:61 | with unique keys, the lookup finds the row stored at any index having that key |
| `Persistence.ReplaceById` | BackEnd/Services/ProductoService.cs:69 | the row with the new row's key is replaced, every other row keeps its place and value |
| `Persistence.RemoveById` | BackEnd/Services/ProductoService.cs:80 | the result holds exactly the stored rows with a different key |
| `Persistence.RemoveExistingShrinksByOne` | BackEnd/Services/ProductoService.cs:76-81 | removing a present key from rows with unique keys removes exactly one row |
| `Persistence.RemoveAbsentKeepsAll` | BackEnd/Services/ProductoService.cs:80 | removing a key no row has leaves the rows unchanged |
| `Persistence.RemoveKeepsUniqueIds` | BackEnd/Services/ProductoService.cs:80 | removal keeps keys unique |
| `Persistence.ApplyChange` | BackEnd/Repository/IUnitOfWork.cs:12 | an insert appends the staged product under the current identity value and advances the counter; an update replaces the row with the staged key by the staged product and leaves every other row in place; a delete keeps exactly the rows with another key; updates and deletes never add rows or move the counter |
| `Persistence.ApplyAll` | BackEnd/Repository/IUnitOfWork.cs:12 | committing never lowers the identity counter, and committing a single staged change is that change's effect |
| `Persistence.ApplyChangeKeepsKeys` | BackEnd/Repository/IUnitOfWork.cs:12 | one committed change keeps keys unique and below the identity counter, which never decreases |
| `Persistence.ApplyAllKeepsKeys` | BackEnd/Repository/IUnitOfWork.cs:12 | committing any sequence of staged changes keeps keys unique and fresh |
| `Persistence.UnitOfWork.constructor` | BackEnd/Repository/IUnitOfWork.cs:9-13 | a unit of work starts with the given rows, nothing staged |
| `Persistence.UnitOfWork.GetByIdAsync` | BackEnd/Services/ProductoService.cs:22 | returns the committed row with the key, or none |
| `Persistence.UnitOfWork.GetAllAsync` | BackEnd/Services/ProductoService.cs:31 | returns every committed row |
| `Persistence.UnitOfWork.GetProductosByNombre` | BackEnd/Services/ProductoService.cs:38 | returns the name filter over the committed rows |
| `Persistence.UnitOfWork.AddAsync` | BackEnd/Services/ProductoService.cs:51 | stages an insert and changes no committed row |
| `Persistence.UnitOfWork.UpdateAsync` | BackEnd/Services/ProductoService.cs:69 | stages an overwrite and changes no committed row |
| `Persistence.UnitOfWork.DeleteAsync` | BackEnd/Services/ProductoService.cs:80 | stages a removal and changes no committed row |
| `Persistence.UnitOfWork.CompleteAsync` | BackEnd/Repository/IUnitOfWork.cs:12 | applies all staged changes in order at once, empties the stage, keeps keys unique and fresh, returns the number of changes written |
| `ProductoServices.NotFoundMessage` | BackEnd/Services/ProductoService.cs:24 | the message is the fixed not-found text followed by the decimal rendering of the key |
| `ProductoServices.NotFoundMessageNamesId` | BackEnd/Services/ProductoService.cs:24 | different keys give different not-found messages |
| `ProductoServices.ProductoService.constructor` | BackEnd/Services/ProductoService.cs:14-18 | the service works on the given unit of work, which starts with nothing staged |
| `ProductoServices.Overwrite` | BackEnd/Services/ProductoService.cs:65-67 | the updated row keeps its key and takes the request's name, price and quantity |
| `ProductoServices.OverwriteWithSameKeyIsRequest` | BackEnd/Services/ProductoService.cs:58-67 | once the keys agree, the stored row equals the request |
| `ProductoServices.ProductoService.GetProductoByIdAsync` | BackEnd/Services/ProductoService.cs:20-27 | raises `NotFoundException` with the id in its message exactly when no row has the key; otherwise returns that stored row with status 200 |
| `ProductoServices.ProductoService.GetAllProductosAsync` | BackEnd/Services/ProductoService.cs:29-34 | never fails; returns every row, status 200, record count equal to the number of rows |
| `ProductoServices.ProductoService.GetProductosByNombre` | BackEnd/Services/ProductoService.cs:36-41 | never fails; returns exactly the rows whose name contains the query, status 200, record count equal to the number returned |
| `ProductoServices.ProductoService.CreateProductoAsync` | BackEnd/Services/ProductoService.cs:43-54 | empty name, then non-positive price, raise `ValidationException` with their messages and change nothing; otherwise exactly one row, the product under a fresh key, is appended and returned with status 201 |
| `ProductoServices.ProductoService.UpdateProductoAsync` | BackEnd/Services/ProductoService.cs:56-72 | key mismatch raises `ValidationException`, then an unknown key `NotFoundException`, both changing nothing; otherwise only name, price and quantity of the matching row change, with no re-validation, and the request is returned with status 200 |
| `ProductoServices.ProductoService.DeleteProductoAsync` | BackEnd/Services/ProductoService.cs:74-83 | an unknown key raises `NotFoundException` and changes nothing; otherwise exactly that row is removed, every other row stays, and `Success(true)` is returned with status 200 |
| `UsuarioServices.GetUsuarioAsync` | BackEnd/Services/UsuarioService.cs:20-27 | reads the unit of work's users only; raises `NotFoundException` "La contraseña o el mail son incorrectos" exactly when no stored user matches both fields; otherwise returns the user the repository found |
| `UsuarioServices.FailureDoesNotRevealWhichField` | BackEnd/Services/UsuarioService.cs:24-25 | any two failed logins raise the same fault |
| `Middleware.Classify` | BackEnd/GestionProductosAPI/Middleware/ExceptionMiddleware.cs:37-74 | validation, not-found and unauthorized faults give 400/404/401 with their own message and label and no stack trace; any other fault gives 500 "Server Error", masked as "Internal Server Error" with no stack trace outside development, with its message and stack trace in development |
| `Middleware.ProductionMasksUnclassified` | BackEnd/GestionProductosAPI/Middleware/ExceptionMiddleware.cs:62-71 | outside development, any two unclassified faults produce identical bodies |
| `Middleware.ExceptionMiddleware.constructor` | BackEnd/GestionProductosAPI/Middleware/ExceptionMiddleware.cs:13-18 | the middleware keeps the environment's development flag |
| `Middleware.ExceptionMiddleware.InvokeAsync` | BackEnd/GestionProductosAPI/Middleware/ExceptionMiddleware.cs:20-31 | a handler that completes leaves the response untouched; a fault is caught and answered with the classified body and its status code |
| `Middleware.ExceptionMiddleware.HandleExceptionAsync` | BackEnd/GestionProductosAPI/Middleware/ExceptionMiddleware.cs:33-74 | the fields written branch by branch form the classified body, whose status code equals the response's |
| `Pipeline.Thrown` | BackEnd/GestionProductosAPI/Middleware/ExceptionMiddleware.cs:22-29 | the middleware sees a fault exactly when the call raised one, and sees that fault |
| `Pipeline.FailedLoginIsNotFound` | BackEnd/Services/UsuarioService.cs:24-25 | a failed login is answered with 404 "Not Found" and the service's message, never 500, in every environment |
| `Pipeline.CreateWithEmptyNameIsBadRequest` | BackEnd/Services/ProductoService.cs:45-46 | creating any product with an empty name is answered with 400 "Validation Error" and the name message, and leaves the table unchanged |
| `Pipeline.CreateReadDeleteRead` | BackEnd/Services/ProductoService.cs:20-82 | for every product with a name and a positive price, the created product reads back with its name, price and quantity under the generated key; after deleting it a read is answered with 404 |
| `Pipeline.DeleteThenGetIsNotFound` | BackEnd/Services/ProductoService.cs:74-82 | after a delete of a key, a read of that key raises `NotFoundException` |
| `Common.NatToString` | BackEnd/Services/ProductoService.cs:24 | the rendering of a number is a non-empty run of decimal digits that denotes the number and starts with `0` only for `"0"` itself |
| `Common.IntToString` | BackEnd/Services/ProductoService.cs:24 | the rendering starts with a minus sign exactly for negative numbers, followed by a non-empty run of decimal digits that denotes the magnitude and starts with `0` only when the whole rendering is `"0"` |
| `Common.IntToStringInjective` | BackEnd/Services/ProductoService.cs:24 | different numbers are rendered differently |
| `Exceptions.ValidationFault` | BackEnd/Services/ProductoService.cs:46 | the fault is a classified validation fault with the given message |
| `Exceptions.NotFoundFault` | BackEnd/Services/ProductoService.cs:24 | the fault is a classified not-found fault with the given message |
| `Entity.ErrorDetails.constructor` | BackEnd/Entity/Common/ErrorDetails.cs:17-20 | a new error record has only its timestamp set, to the clock value given |

## Left out

- JWT issuance in AuthController.cs: HMAC signing, configuration, the clock and `Guid.NewGuid` are foreign calls.
- JSON serialisation and writing of the error body, and logging in the middleware: the model returns the body's value instead.
- `ErrorDetails.Timestamp`: the clock value is a parameter (`now`).
- EF Core internals: `DbContext`, SQL translation, `GenericRepository` and the `UnitOfWork` implementation are not part of this model; the store is a sequence of rows and a commit is atomic.
- Persistence.ApplyChange: an update or delete of a key no row has is a no-op, whereas a real store would fail the commit; the services never stage such a change.
- Collation-dependent comparisons in the store: the name filter's `Contains` and the credential lookup's `Email.Equals`/`Password.Equals` are both modelled as exact, case-sensitive matches.
- A `null` query or stored name is modelled as the empty string; LINQ to objects would throw on `Contains(null)`.
- Entity tracking and aliasing: the service updates the tracked entity in place and the store writes the generated key back into the inserted object; the model copies values instead (the created product is returned with the key the identity counter assigns).
- CreateProductoAsync: a key supplied in the request is ignored and replaced by the generated one; an explicit key insert is not modelled.
- Stack traces of the faults the services raise are runtime data and are modelled as absent; the middleware never exposes them for those kinds.
- 32-bit width of ids, quantities and the identity counter: integers are unbounded, overflow is not modelled.
- Async and `Task` machinery, and `IDisposable` of the unit of work: every call is sequential.
- Controller routing, `[Authorize]` attributes and middleware registration: ASP.NET wiring with no logic.
- The price-range query: declared in IProductoService.cs with no implementation.
- The Angular front end.
- ProductoRepository.GetProductosByNombre: states membership in both directions, not the order or multiplicity of the returned rows.
- Persistence.RemoveById: states membership only; the row order after a delete is not stated.
- ProductoServices.ProductoService.GetProductosByNombre: states membership in both directions, not the order or multiplicity of the returned rows.
- ProductoServices.ProductoService.DeleteProductoAsync: states which rows remain and the new count, not their order.
