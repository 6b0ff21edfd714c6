/** The unit of work and the generic repository operations it offers on the
    product rows, plus the user rows it exposes as `Usuarios`. Insertions,
    updates and deletions are staged, and `CompleteAsync` commits all staged
    changes at once. */
module Persistence {
  import opened Common
  import opened Entity
  import ProductoRepository

  /** No two product rows share a key. */
  ghost predicate UniqueIds(rows: seq<Producto>) {
    forall i, j :: 0 <= i < |rows| && 0 <= j < |rows| && rows[i].productoId == rows[j].productoId ==> i == j
  }

  /** Every key is below the next identity value, so that value is fresh. */
  ghost predicate IdsBelow(rows: seq<Producto>, bound: int) {
    forall i :: 0 <= i < |rows| ==> rows[i].productoId < bound
  }

  /** `GetByIdAsync(id)`: the row with key `id`, or `null`. */
  function FindById(rows: seq<Producto>, id: int): (r: Option<Producto>)
    ensures r.Some? ==> r.value in rows && r.value.productoId == id
    ensures r.None? <==> forall i :: 0 <= i < |rows| ==> rows[i].productoId != id
  {
    if rows == [] then None
    else if rows[0].productoId == id then Some(rows[0])
    else
      var rest := FindById(rows[1..], id);
      assert forall i :: 1 <= i < |rows| ==> rows[i] == rows[1..][i - 1];
      rest
  }

  /** With unique keys, the row found is the one stored at any index with that key. */
  lemma FindByIdAt(rows: seq<Producto>, k: int)
    requires UniqueIds(rows) && 0 <= k < |rows|
    ensures FindById(rows, rows[k].productoId) == Some(rows[k])
  {
  }

  /** The full-row overwrite staged by `UpdateAsync`: the row with the same key
      as `p` becomes `p`, every other row stays where and what it was. */
  function ReplaceById(rows: seq<Producto>, p: Producto): (r: seq<Producto>)
    ensures |r| == |rows|
    ensures forall i :: 0 <= i < |rows| && rows[i].productoId == p.productoId ==> r[i] == p
    ensures forall i :: 0 <= i < |rows| && rows[i].productoId != p.productoId ==> r[i] == rows[i]
  {
    seq(|rows|, i requires 0 <= i < |rows| => if rows[i].productoId == p.productoId then p else rows[i])
  }

  /** The removal staged by `DeleteAsync`: the rows without key `id`. */
  function RemoveById(rows: seq<Producto>, id: int): (r: seq<Producto>)
    ensures |r| <= |rows|
    ensures forall p :: p in r <==> p in rows && p.productoId != id
  {
    if rows == [] then []
    else
      var rest := RemoveById(rows[1..], id);
      assert rows == [rows[0]] + rows[1..];
      if rows[0].productoId == id then rest else [rows[0]] + rest
  }

  /** Removing a key that is present, from rows with unique keys, removes exactly one row. */
  lemma {:induction false} RemoveExistingShrinksByOne(rows: seq<Producto>, id: int)
    requires UniqueIds(rows) && FindById(rows, id).Some?
    ensures |RemoveById(rows, id)| == |rows| - 1
  {
    assert UniqueIds(rows[1..]) by {
      forall i, j | 0 <= i < |rows[1..]| && 0 <= j < |rows[1..]| && rows[1..][i].productoId == rows[1..][j].productoId
        ensures i == j
      {
        assert rows[1..][i] == rows[i + 1] && rows[1..][j] == rows[j + 1];
      }
    }
    if rows[0].productoId == id {
      RemoveAbsentKeepsAll(rows[1..], id);
    } else {
      RemoveExistingShrinksByOne(rows[1..], id);
    }
  }

  /** Removing a key that no row has changes nothing. */
  lemma {:induction false} RemoveAbsentKeepsAll(rows: seq<Producto>, id: int)
    requires forall i :: 0 <= i < |rows| ==> rows[i].productoId != id
    ensures RemoveById(rows, id) == rows
  {
    if rows != [] {
      RemoveAbsentKeepsAll(rows[1..], id);
      assert rows == [rows[0]] + rows[1..];
    }
  }

  /** Removing rows keeps keys unique. */
  lemma {:induction false} RemoveKeepsUniqueIds(rows: seq<Producto>, id: int)
    requires UniqueIds(rows)
    ensures UniqueIds(RemoveById(rows, id))
  {
    if rows != [] {
      var tail := rows[1..];
      assert UniqueIds(tail) by {
        forall i, j | 0 <= i < |tail| && 0 <= j < |tail| && tail[i].productoId == tail[j].productoId
          ensures i == j
        {
          assert tail[i] == rows[i + 1] && tail[j] == rows[j + 1];
        }
      }
      RemoveKeepsUniqueIds(tail, id);
      var rest := RemoveById(tail, id);
      if rows[0].productoId != id {
        forall q | q in rest ensures q.productoId != rows[0].productoId {
          var k :| 0 <= k < |tail| && tail[k] == q;
          assert rows[k + 1] == q;
        }
        var r := [rows[0]] + rest;
        forall k | 0 < k < |r| ensures r[k].productoId != r[0].productoId {
          assert r[k] == rest[k - 1];
        }
        forall i, j | 0 < i < |r| && 0 < j < |r| && r[i].productoId == r[j].productoId
          ensures i == j
        {
          assert r[i] == rest[i - 1] && r[j] == rest[j - 1];
        }
        assert RemoveById(rows, id) == r;
      }
    }
  }

  /** A change staged on the product repository. */
  datatype Change = Added(producto: Producto) | Updated(producto: Producto) | Deleted(producto: Producto)

  /** The committed effect of one staged change on the rows and the identity
      counter. An insert receives the next identity value as its key; an
      update or delete of a key that no row has leaves the rows as they are. */
  function ApplyChange(rows: seq<Producto>, nextId: int, c: Change): (r: (seq<Producto>, int))
    ensures c.Added? ==> |r.0| == |rows| + 1 && r.0[..|rows|] == rows && r.0[|rows|].productoId == nextId
    ensures c.Added? ==> r.1 == nextId + 1
    ensures c.Added? ==> r.0[|rows|] == c.producto.(productoId := nextId)
    ensures !c.Added? ==> r.1 == nextId && |r.0| <= |rows|
    ensures c.Updated? ==> |r.0| == |rows|
    ensures c.Updated? ==> forall i :: 0 <= i < |rows| && rows[i].productoId == c.producto.productoId ==> r.0[i] == c.producto
    ensures c.Updated? ==> forall i :: 0 <= i < |rows| && rows[i].productoId != c.producto.productoId ==> r.0[i] == rows[i]
    ensures c.Deleted? ==> forall q :: q in r.0 <==> q in rows && q.productoId != c.producto.productoId
  {
    match c
    case Added(p) => (rows + [p.(productoId := nextId)], nextId + 1)
    case Updated(p) => (ReplaceById(rows, p), nextId)
    case Deleted(p) => (RemoveById(rows, p.productoId), nextId)
  }

  /** The effect of committing the staged changes in the order they were staged. */
  function ApplyAll(rows: seq<Producto>, nextId: int, cs: seq<Change>): (r: (seq<Producto>, int))
    ensures r.1 >= nextId
    ensures |cs| == 1 ==> r == ApplyChange(rows, nextId, cs[0])
    decreases |cs|
  {
    if cs == [] then (rows, nextId)
    else
      var (rows', nextId') := ApplyChange(rows, nextId, cs[0]);
      ApplyAll(rows', nextId', cs[1..])
  }

  /** One committed change keeps keys unique and below the identity counter,
      and never lowers the counter. */
  lemma ApplyChangeKeepsKeys(rows: seq<Producto>, nextId: int, c: Change)
    requires UniqueIds(rows) && IdsBelow(rows, nextId)
    ensures UniqueIds(ApplyChange(rows, nextId, c).0)
    ensures IdsBelow(ApplyChange(rows, nextId, c).0, ApplyChange(rows, nextId, c).1)
    ensures ApplyChange(rows, nextId, c).1 >= nextId
  {
    match c
    case Added(p) =>
      var r := rows + [p.(productoId := nextId)];
      assert forall i :: 0 <= i < |rows| ==> r[i] == rows[i];
    case Updated(p) =>
    case Deleted(p) =>
      RemoveKeepsUniqueIds(rows, p.productoId);
      var r := RemoveById(rows, p.productoId);
      forall i | 0 <= i < |r| ensures r[i].productoId < nextId {
        assert r[i] in rows;
      }
  }

  /** Committing any sequence of staged changes keeps keys unique and fresh. */
  lemma {:induction false} ApplyAllKeepsKeys(rows: seq<Producto>, nextId: int, cs: seq<Change>)
    requires UniqueIds(rows) && IdsBelow(rows, nextId)
    ensures UniqueIds(ApplyAll(rows, nextId, cs).0)
    ensures IdsBelow(ApplyAll(rows, nextId, cs).0, ApplyAll(rows, nextId, cs).1)
    decreases |cs|
  {
    if cs != [] {
      ApplyChangeKeepsKeys(rows, nextId, cs[0]);
      var (rows', nextId') := ApplyChange(rows, nextId, cs[0]);
      ApplyAllKeepsKeys(rows', nextId', cs[1..]);
    }
  }

  /** The state behind `IUnitOfWork`: the committed product rows, the user
      rows (`Usuarios`, which the service uses but the interface omits), the
      staged product changes and the store's identity counter. */
  class UnitOfWork {
    var productos: seq<Producto>
    var usuarios: seq<Usuario>
    var pending: seq<Change>
    var nextId: int

    ghost predicate Valid()
      reads this
    {
      UniqueIds(productos) && IdsBelow(productos, nextId)
    }

    constructor (productos: seq<Producto>, usuarios: seq<Usuario>, nextId: int)
      requires UniqueIds(productos) && IdsBelow(productos, nextId)
      ensures Valid() && pending == []
      ensures this.productos == productos && this.usuarios == usuarios && this.nextId == nextId
    {
      this.productos := productos;
      this.usuarios := usuarios;
      this.pending := [];
      this.nextId := nextId;
    }

    /** `Productos.GetByIdAsync(id)`. */
    method GetByIdAsync(id: int) returns (r: Option<Producto>)
      ensures r == FindById(productos, id)
    {
      r := FindById(productos, id);
    }

    /** `Productos.GetAllAsync()`: every committed row. */
    method GetAllAsync() returns (r: seq<Producto>)
      ensures r == productos
    {
      r := productos;
    }

    /** `Productos.GetProductosByNombre(nombre)`. */
    method GetProductosByNombre(nombre: string) returns (r: seq<Producto>)
      ensures r == ProductoRepository.GetProductosByNombre(productos, nombre)
    {
      r := ProductoRepository.GetProductosByNombre(productos, nombre);
    }

    /** `Productos.AddAsync(p)`: stages an insert; the rows are not yet changed. */
    method AddAsync(p: Producto)
      modifies this
      ensures pending == old(pending) + [Added(p)]
      ensures productos == old(productos) && usuarios == old(usuarios) && nextId == old(nextId)
    {
      pending := pending + [Added(p)];
    }

    /** `Productos.UpdateAsync(p)`: stages a full-row overwrite. */
    method UpdateAsync(p: Producto)
      modifies this
      ensures pending == old(pending) + [Updated(p)]
      ensures productos == old(productos) && usuarios == old(usuarios) && nextId == old(nextId)
    {
      pending := pending + [Updated(p)];
    }

    /** `Productos.DeleteAsync(p)`: stages a removal. */
    method DeleteAsync(p: Producto)
      modifies this
      ensures pending == old(pending) + [Deleted(p)]
      ensures productos == old(productos) && usuarios == old(usuarios) && nextId == old(nextId)
    {
      pending := pending + [Deleted(p)];
    }

    /** `CompleteAsync()`: commits every staged change at once and returns the
        number of entries written; keys stay unique and fresh. */
    method CompleteAsync() returns (written: nat)
      requires Valid()
      modifies this
      ensures Valid() && pending == [] && usuarios == old(usuarios)
      ensures (productos, nextId) == ApplyAll(old(productos), old(nextId), old(pending))
      ensures written == |old(pending)|
    {
      ApplyAllKeepsKeys(productos, nextId, pending);
      written := |pending|;
      productos, nextId := ApplyAll(productos, nextId, pending).0, ApplyAll(productos, nextId, pending).1;
      pending := [];
    }
  }
}
