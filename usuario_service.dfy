/** `UsuarioService.GetUsuarioAsync`: the login lookup. A missing credential
    match becomes a `NotFoundException`; otherwise the stored user is returned. */
module UsuarioServices {
  import opened Common
  import opened Entity
  import opened Exceptions
  import UsuarioRepository
  import opened Persistence

  const CredencialesIncorrectas := "La contraseña o el mail son incorrectos"

  /** Looks the credentials up among `_unitOfWork.Usuarios`; no state changes. */
  function GetUsuarioAsync(unitOfWork: UnitOfWork, usuario: Usuario): (r: Outcome<Usuario>)
    reads unitOfWork
    ensures r.Raised? <==> forall i :: 0 <= i < |unitOfWork.usuarios| ==> !UsuarioRepository.Matches(unitOfWork.usuarios[i], usuario)
    ensures r.Raised? ==> r.fault == NotFoundFault(CredencialesIncorrectas)
    ensures r.Returned? ==> UsuarioRepository.GetUsuarioAsync(unitOfWork.usuarios, usuario) == Some(r.value)
    ensures r.Returned? ==> r.value in unitOfWork.usuarios && r.value.email == usuario.email && r.value.password == usuario.password
  {
    match UsuarioRepository.GetUsuarioAsync(unitOfWork.usuarios, usuario)
    case None => Raised(NotFoundFault(CredencialesIncorrectas))
    case Some(found) => Returned(found)
  }

  /** A wrong email and a wrong password are reported with the same fault,
      so a caller cannot tell which of the two was wrong. */
  lemma FailureDoesNotRevealWhichField(unitOfWork: UnitOfWork, wrongEmail: Usuario, wrongPassword: Usuario)
    requires GetUsuarioAsync(unitOfWork, wrongEmail).Raised?
    requires GetUsuarioAsync(unitOfWork, wrongPassword).Raised?
    ensures GetUsuarioAsync(unitOfWork, wrongEmail) == GetUsuarioAsync(unitOfWork, wrongPassword)
  {
  }
}
