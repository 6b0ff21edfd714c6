/** `ProductoRepository.GetProductosByNombre`: the rows whose name contains
    the query, as one `Where(... Contains ...)` over the product rows. */
module ProductoRepository {
  import opened Entity

  /** `sub` occurs in `s` starting at position `i`. */
  ghost predicate OccursAt(s: string, sub: string, i: int) {
    0 <= i && i + |sub| <= |s| && s[i..i + |sub|] == sub
  }

  /** `s.Contains(sub)`: an ordinal, case-sensitive substring test. */
  predicate Contains(s: string, sub: string)
    ensures sub == "" ==> Contains(s, sub)
    ensures Contains(s, sub) ==> |sub| <= |s|
    decreases |s|
  {
    sub <= s || (|s| > 0 && Contains(s[1..], sub))
  }

  /** An occurrence at any position makes the recursive test succeed. */
  lemma {:induction false} OccursImpliesContains(s: string, sub: string, i: int)
    requires OccursAt(s, sub, i)
    ensures Contains(s, sub)
    decreases i
  {
    if i > 0 {
      assert s[1..][i - 1..i - 1 + |sub|] == s[i..i + |sub|];
      OccursImpliesContains(s[1..], sub, i - 1);
    } else {
      assert s[..|sub|] == sub;
    }
  }

  /** A successful recursive test has a position where `sub` occurs. */
  lemma {:induction false} ContainsImpliesOccurs(s: string, sub: string)
    requires Contains(s, sub)
    ensures exists i :: OccursAt(s, sub, i)
    decreases |s|
  {
    if sub <= s {
      assert OccursAt(s, sub, 0);
    } else {
      ContainsImpliesOccurs(s[1..], sub);
      var j :| OccursAt(s[1..], sub, j);
      assert s[1..][j..j + |sub|] == s[j + 1..j + 1 + |sub|];
      assert OccursAt(s, sub, j + 1);
    }
  }

  /** The recursive test agrees with the positional definition of a substring. */
  lemma ContainsIffOccurs(s: string, sub: string)
    ensures Contains(s, sub) <==> exists i :: OccursAt(s, sub, i)
  {
    if Contains(s, sub) {
      ContainsImpliesOccurs(s, sub);
    }
    forall i | OccursAt(s, sub, i)
      ensures Contains(s, sub)
    {
      OccursImpliesContains(s, sub, i);
    }
  }

  /** `_dbSet.Where(p => p.Nombre.Contains(nombre))`: every returned row is a
      stored row whose name contains the query, and every such stored row is
      returned. */
  function GetProductosByNombre(rows: seq<Producto>, nombre: string): (r: seq<Producto>)
    ensures |r| <= |rows|
    ensures forall p :: p in r ==> p in rows && Contains(p.nombre, nombre)
    ensures forall p :: p in rows && Contains(p.nombre, nombre) ==> p in r
  {
    if rows == [] then []
    else
      var rest := GetProductosByNombre(rows[1..], nombre);
      assert rows == [rows[0]] + rows[1..];
      if Contains(rows[0].nombre, nombre) then [rows[0]] + rest else rest
  }

  /** The empty query is contained in every name, so it returns every row,
      in order. */
  lemma {:induction false} EmptyQueryMatchesAll(rows: seq<Producto>)
    ensures GetProductosByNombre(rows, "") == rows
  {
    if rows != [] {
      EmptyQueryMatchesAll(rows[1..]);
      assert Contains(rows[0].nombre, "");
    }
  }
}
