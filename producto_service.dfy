/** `ProductoService`: validates its input, then reads the product rows or
    stages one change and commits it. Expected failures are raised as typed
    faults; successes are returned in an envelope. */
module ProductoServices {
  import opened Common
  import opened Entity
  import opened Exceptions
  import opened Results
  import opened ResultLists
  import ProductoRepository
  import opened Persistence

  const NombreRequerido := "El nombre del producto es requerido"
  const PrecioInvalido := "El precio del producto debe ser mayor a 0"
  const IdNoCoincide := "El ID de la ruta no coincide con el ID del producto"

  const NotFoundPrefix := "No se encontró el producto con ID: "

  /** `$"No se encontró el producto con ID: {id}"`: the fixed text followed
      by the decimal rendering of the key. */
  function NotFoundMessage(id: int): (m: string)
    ensures |m| > |NotFoundPrefix| && m[..|NotFoundPrefix|] == NotFoundPrefix
    ensures m[|NotFoundPrefix|..] == IntToString(id)
  {
    NotFoundPrefix + IntToString(id)
  }

  /** The message names the key: different keys give different messages. */
  lemma NotFoundMessageNamesId(a: int, b: int)
    requires NotFoundMessage(a) == NotFoundMessage(b)
    ensures a == b
  {
    assert IntToString(a) == NotFoundMessage(a)[|NotFoundPrefix|..];
    IntToStringInjective(a, b);
  }

  /** The key `id` belongs to no committed row. */
  ghost predicate Absent(rows: seq<Producto>, id: int) {
    forall i :: 0 <= i < |rows| ==> rows[i].productoId != id
  }

  /** The stored row after an update: the existing row with the name, price
      and quantity of the request, its key untouched. */
  function Overwrite(existing: Producto, producto: Producto): (r: Producto)
    ensures r.productoId == existing.productoId
    ensures r.nombre == producto.nombre && r.precio == producto.precio && r.cantidad == producto.cantidad
  {
    existing.(nombre := producto.nombre, precio := producto.precio, cantidad := producto.cantidad)
  }

  /** The product entity has no fields besides these four, so the row an
      update stores is exactly the request. */
  lemma OverwriteWithSameKeyIsRequest(existing: Producto, producto: Producto)
    requires existing.productoId == producto.productoId
    ensures Overwrite(existing, producto) == producto
  {
  }

  class ProductoService {
    const unitOfWork: UnitOfWork

    /** Between requests nothing is left staged. */
    ghost predicate Valid()
      reads this, unitOfWork
    {
      unitOfWork.Valid() && unitOfWork.pending == []
    }

    constructor (unitOfWork: UnitOfWork)
      requires unitOfWork.Valid() && unitOfWork.pending == []
      ensures this.unitOfWork == unitOfWork && Valid()
    {
      this.unitOfWork := unitOfWork;
    }

    /** `GetProductoByIdAsync`: the stored row with that key and status 200,
        or `NotFoundException` when no row has it. */
    method GetProductoByIdAsync(id: int) returns (r: Outcome<Result<Producto>>)
      ensures r.Raised? <==> Absent(unitOfWork.productos, id)
      ensures r.Raised? ==> r.fault == NotFoundFault(NotFoundMessage(id))
      ensures r.Returned? ==> r.value.isSuccess && r.value.statusCode == 200 && r.value.data.Some?
      ensures r.Returned? ==> r.value.data.value in unitOfWork.productos && r.value.data.value.productoId == id
    {
      var producto := unitOfWork.GetByIdAsync(id);
      if producto.None? {
        return Raised(NotFoundFault(NotFoundMessage(id)));
      }
      return Returned(Results.Success(producto.value));
    }

    /** `GetAllProductosAsync`: never fails; every committed row, status 200,
        and a record count equal to the number of rows returned. */
    method GetAllProductosAsync() returns (r: Outcome<ResultList<Producto>>)
      ensures r.Returned? && r.value.isSuccess && r.value.statusCode == 200
      ensures r.value.data == Some(unitOfWork.productos)
      ensures r.value.totalRecords == |unitOfWork.productos|
    {
      var productos := unitOfWork.GetAllAsync();
      return Returned(ResultLists.Success(productos, |productos|));
    }

    /** `GetProductosByNombre`: never fails; exactly the committed rows whose
        name contains the query, status 200, and a record count equal to the
        number of rows returned. */
    method GetProductosByNombre(nombre: string) returns (r: Outcome<ResultList<Producto>>)
      ensures r.Returned? && r.value.isSuccess && r.value.statusCode == 200 && r.value.data.Some?
      ensures forall p :: p in r.value.data.value <==> p in unitOfWork.productos && ProductoRepository.Contains(p.nombre, nombre)
      ensures r.value.totalRecords == |r.value.data.value|
    {
      var productos := unitOfWork.GetProductosByNombre(nombre);
      return Returned(ResultLists.Success(productos, |productos|));
    }

    /** `CreateProductoAsync`: an empty name, then a price that is not
        positive, raise `ValidationException` and change nothing; otherwise the
        product is inserted under a fresh key and returned with status 201. */
    method CreateProductoAsync(producto: Producto) returns (r: Outcome<Result<Producto>>)
      requires Valid()
      modifies unitOfWork
      ensures Valid() && unitOfWork.usuarios == old(unitOfWork.usuarios)
      ensures producto.nombre == "" ==>
        r == Raised(ValidationFault(NombreRequerido)) && unchanged(unitOfWork)
      ensures producto.nombre != "" && producto.precio <= 0.0 ==>
        r == Raised(ValidationFault(PrecioInvalido)) && unchanged(unitOfWork)
      ensures producto.nombre != "" && producto.precio > 0.0 ==>
        var created := producto.(productoId := old(unitOfWork.nextId));
        && Absent(old(unitOfWork.productos), created.productoId)
        && unitOfWork.productos == old(unitOfWork.productos) + [created]
        && r == Returned(Results.Success(created, 201))
    {
      if producto.nombre == "" {
        return Raised(ValidationFault(NombreRequerido));
      }
      if producto.precio <= 0.0 {
        return Raised(ValidationFault(PrecioInvalido));
      }
      // The store writes the generated key back into the entity it inserted.
      var created := producto.(productoId := unitOfWork.nextId);
      unitOfWork.AddAsync(producto);
      var _ := unitOfWork.CompleteAsync();
      return Returned(Results.Success(created, 201));
    }

    /** `UpdateProductoAsync`: a path key that differs from the payload's key
        raises `ValidationException` before any lookup; an unknown key raises
        `NotFoundException`; both change nothing. Otherwise only the name,
        price and quantity of the matching row are overwritten (without
        re-validating them) and the request is returned with status 200. */
    method UpdateProductoAsync(id: int, producto: Producto) returns (r: Outcome<Result<Producto>>)
      requires Valid()
      modifies unitOfWork
      ensures Valid() && unitOfWork.usuarios == old(unitOfWork.usuarios) && unitOfWork.nextId == old(unitOfWork.nextId)
      ensures id != producto.productoId ==>
        r == Raised(ValidationFault(IdNoCoincide)) && unchanged(unitOfWork)
      ensures id == producto.productoId && Absent(old(unitOfWork.productos), id) ==>
        r == Raised(NotFoundFault(NotFoundMessage(producto.productoId))) && unchanged(unitOfWork)
      ensures id == producto.productoId && !Absent(old(unitOfWork.productos), id) ==>
        && r == Returned(Results.Success(producto))
        && |unitOfWork.productos| == |old(unitOfWork.productos)|
        && forall i :: 0 <= i < |unitOfWork.productos| ==>
             unitOfWork.productos[i] ==
               if old(unitOfWork.productos[i]).productoId == id
               then Overwrite(old(unitOfWork.productos[i]), producto)
               else old(unitOfWork.productos[i])
    {
      if id != producto.productoId {
        return Raised(ValidationFault(IdNoCoincide));
      }
      var existing := unitOfWork.GetByIdAsync(producto.productoId);
      if existing.None? {
        return Raised(NotFoundFault(NotFoundMessage(producto.productoId)));
      }
      ghost var rows := unitOfWork.productos;
      var updated := Overwrite(existing.value, producto);
      forall i | 0 <= i < |rows| && rows[i].productoId == id
        ensures updated == Overwrite(rows[i], producto)
      {
        FindByIdAt(rows, i);
      }
      unitOfWork.UpdateAsync(updated);
      var _ := unitOfWork.CompleteAsync();
      return Returned(Results.Success(producto));
    }

    /** `DeleteProductoAsync`: an unknown key raises `NotFoundException` and
        changes nothing; otherwise exactly the row with that key is removed
        and `Success(true)` is returned with status 200. */
    method DeleteProductoAsync(id: int) returns (r: Outcome<Result<bool>>)
      requires Valid()
      modifies unitOfWork
      ensures Valid() && unitOfWork.usuarios == old(unitOfWork.usuarios) && unitOfWork.nextId == old(unitOfWork.nextId)
      ensures Absent(old(unitOfWork.productos), id) ==>
        r == Raised(NotFoundFault(NotFoundMessage(id))) && unchanged(unitOfWork)
      ensures !Absent(old(unitOfWork.productos), id) ==>
        && r == Returned(Results.Success(true))
        && Absent(unitOfWork.productos, id)
        && |unitOfWork.productos| == |old(unitOfWork.productos)| - 1
        && forall p :: p in old(unitOfWork.productos) && p.productoId != id ==> p in unitOfWork.productos
    {
      var producto := unitOfWork.GetByIdAsync(id);
      if producto.None? {
        return Raised(NotFoundFault(NotFoundMessage(id)));
      }
      RemoveExistingShrinksByOne(unitOfWork.productos, id);
      unitOfWork.DeleteAsync(producto.value);
      var _ := unitOfWork.CompleteAsync();
      assert Absent(unitOfWork.productos, id) by {
        forall i | 0 <= i < |unitOfWork.productos| ensures unitOfWork.productos[i].productoId != id {
          assert unitOfWork.productos[i] in unitOfWork.productos;
        }
      }
      return Returned(Results.Success(true));
    }
  }
}
