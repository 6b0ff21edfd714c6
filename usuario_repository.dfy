/** `UsuarioRepository.GetUsuarioAsync`: the first stored user whose email
    and password both equal the given ones, or `null`. */
module UsuarioRepository {
  import opened Common
  import opened Entity

  /** `p.Email.Equals(usuario.Email) && p.Password.Equals(usuario.Password)`. */
  predicate Matches(stored: Usuario, usuario: Usuario)
  {
    stored.email == usuario.email && stored.password == usuario.password
  }

  /** `_dbSet.Where(matches).FirstOrDefaultAsync()`: a result is a stored
      user with exactly the given credentials, and there is none exactly when
      no stored user has them. */
  function GetUsuarioAsync(rows: seq<Usuario>, usuario: Usuario): (r: Option<Usuario>)
    ensures r.Some? ==> r.value in rows
    ensures r.Some? ==> r.value.email == usuario.email && r.value.password == usuario.password
    ensures r.None? <==> forall i :: 0 <= i < |rows| ==> !Matches(rows[i], usuario)
  {
    if rows == [] then None
    else if Matches(rows[0], usuario) then Some(rows[0])
    else
      var rest := GetUsuarioAsync(rows[1..], usuario);
      assert forall i :: 1 <= i < |rows| ==> rows[i] == rows[1..][i - 1];
      rest
  }

  /** When several users match, the one returned is the first in row order. */
  lemma {:induction false} ReturnsFirstMatch(rows: seq<Usuario>, usuario: Usuario, i: int)
    requires 0 <= i < |rows| && Matches(rows[i], usuario)
    requires forall j :: 0 <= j < i ==> !Matches(rows[j], usuario)
    ensures GetUsuarioAsync(rows, usuario) == Some(rows[i])
  {
    if i > 0 {
      ReturnsFirstMatch(rows[1..], usuario, i - 1);
    }
  }

  /** A stored user presenting their own stored credentials is found. */
  lemma StoredCredentialsAreFound(rows: seq<Usuario>, i: int)
    requires 0 <= i < |rows|
    ensures GetUsuarioAsync(rows, rows[i]).Some?
  {
    assert Matches(rows[i], rows[i]);
  }
}
