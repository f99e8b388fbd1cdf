/** The user forms (apps/users/forms.py): the cedula check at login, the
    inactive-user check, and the cedula and email checks of the registration
    and password-recovery forms. Each check returns the cleaned value or the
    form's message. */
module UsersForms {
  import opened Wrappers
  import opened Text
  import opened UsersModels

  const SOLO_NUMEROS_LOGIN := "La cédula debe contener solo números."
  const INACTIVO := "Usuario inactivo. Contacte al administrador."
  const SOLO_NUMEROS_REGISTRO := "La cédula solo debe contener números."
  const CEDULA_REGISTRADA := "La cédula ya está registrada."
  const CORREO_REGISTRADO := "El correo ya está registrado."
  const NO_EXISTE_CEDULA := "No existe un usuario con esa cédula."

  /** Some stored user has this cedula (`filter(cedula=...).exists()`). */
  predicate CedulaRegistrada(users: map<UserId, User>, ced: string) {
    exists id :: id in users && users[id].cedula == ced
  }

  /** Some stored user has this email. */
  predicate CorreoRegistrado(users: map<UserId, User>, email: string) {
    exists id :: id in users && users[id].email == email
  }

  /** `LoginForm.clean_username`: a non-empty run of digits, else an error. */
  function CleanUsername(ced: Option<string>): (r: Result<string>)
    ensures r.Success? <==> ced.Some? && ced.value != [] && IsDigits(ced.value)
    ensures r.Success? ==> r.value == ced.value
    ensures r.Failure? ==> r.error == ValidationError(SOLO_NUMEROS_LOGIN)
  {
    if ced.None? || ced.value == [] || !IsDigits(ced.value) then Failure(ValidationError(SOLO_NUMEROS_LOGIN))
    else Success(ced.value)
  }

  /** `LoginForm.confirm_login_allowed`: only an active user may log in. */
  function ConfirmLoginAllowed(u: User): (r: Outcome)
    ensures r.Pass? <==> u.isActive
    ensures r.Fail? ==> r.error == ValidationError(INACTIVO)
  {
    if !u.isActive then Fail(ValidationError(INACTIVO)) else Pass
  }

  /** `UserRegisterForm.clean_cedula`: a non-empty run of digits that no user
      has yet. */
  function RegisterCleanCedula(users: map<UserId, User>, ced: Option<string>): (r: Result<string>)
  {
    if ced.None? || ced.value == [] || !IsDigits(ced.value) then Failure(ValidationError(SOLO_NUMEROS_REGISTRO))
    else if CedulaRegistrada(users, ced.value) then Failure(ValidationError(CEDULA_REGISTRADA))
    else Success(ced.value)
  }

  /** `UserRegisterForm.clean_email`: an email that no user has yet. */
  function RegisterCleanEmail(users: map<UserId, User>, email: string): (r: Result<string>)
  {
    if CorreoRegistrado(users, email) then Failure(ValidationError(CORREO_REGISTRADO)) else Success(email)
  }

  /** `RecoverPasswordForm.clean_cedula`: digits only, and some user must have
      the cedula. */
  function RecoverCleanCedula(users: map<UserId, User>, ced: string): (r: Result<string>)
  {
    if !IsDigits(ced) then Failure(ValidationError(SOLO_NUMEROS_LOGIN))
    else if !CedulaRegistrada(users, ced) then Failure(ValidationError(NO_EXISTE_CEDULA))
    else Success(ced)
  }

  /** Registration accepts a cedula iff it is a non-empty run of digits that is
      free; the format error comes first. */
  lemma RegisterCleanCedulaSpec(users: map<UserId, User>, ced: Option<string>)
    ensures var r := RegisterCleanCedula(users, ced);
      && (r.Success? <==> ced.Some? && ced.value != [] && IsDigits(ced.value) && !CedulaRegistrada(users, ced.value))
      && (r.Success? ==> r.value == ced.value)
      && ((ced.Some? && ced.value != [] && IsDigits(ced.value) && CedulaRegistrada(users, ced.value)) ==>
            r == Failure(ValidationError(CEDULA_REGISTRADA)))
      && ((ced.None? || !IsDigits(ced.value) || ced.value == []) ==> r == Failure(ValidationError(SOLO_NUMEROS_REGISTRO)))
  {
  }

  /** Registration accepts an email iff no user has it. */
  lemma RegisterCleanEmailSpec(users: map<UserId, User>, email: string)
    ensures RegisterCleanEmail(users, email).Success? <==> !(exists id :: id in users && users[id].email == email)
  {
  }

  /** For a non-empty run of digits, registration and recovery make opposite
      existence checks: exactly one of them accepts the cedula. */
  lemma RegistroYRecuperacionOpuestos(users: map<UserId, User>, ced: string)
    requires ced != [] && IsDigits(ced)
    ensures RegisterCleanCedula(users, Some(ced)).Success? != RecoverCleanCedula(users, ced).Success?
    ensures RecoverCleanCedula(users, ced).Success? <==> CedulaRegistrada(users, ced)
  {
  }

  /** Recovery accepts exactly the digit strings some user has as cedula. */
  lemma RecoverCleanCedulaSpec(users: map<UserId, User>, ced: string)
    ensures var r := RecoverCleanCedula(users, ced);
      && (r.Success? <==> IsDigits(ced) && CedulaRegistrada(users, ced))
      && (r.Success? ==> r.value == ced)
      && (!IsDigits(ced) ==> r == Failure(ValidationError(SOLO_NUMEROS_LOGIN)))
  {
  }

  /** Once `create_user` has saved a user, the registration form refuses that
      cedula and email, and the recovery form accepts the cedula when it is
      made of digits. */
  lemma TrasCrearUsuario(c: Cuentas, ced: string, email: string, password: Option<string>, extra: Extra)
    requires CuentasValidas(c)
    requires CreateUser(c, CedulaTexto(ced), Some(email), password, extra).result.Success?
    ensures var after := CreateUser(c, CedulaTexto(ced), Some(email), password, extra).after;
      && RegisterCleanCedula(after.users, Some(ced)).Failure?
      && RegisterCleanEmail(after.users, NormalizeEmail(email)) == Failure(ValidationError(CORREO_REGISTRADO))
      && (IsDigits(ced) ==> RecoverCleanCedula(after.users, ced) == Success(ced))
  {
    var e := extra.(isStaff := Some(GetOr(extra.isStaff, false)), isSuperuser := Some(GetOr(extra.isSuperuser, false)));
    CrearUsuarioBaseSpec(c, CedulaTexto(ced), Some(email), password, e);
    var after := CreateUser(c, CedulaTexto(ced), Some(email), password, extra).after;
    assert after.users[c.nextUserId].cedula == ced;
    assert CedulaRegistrada(after.users, ced);
    assert CorreoRegistrado(after.users, NormalizeEmail(email));
  }
}
