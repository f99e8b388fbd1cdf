/** The user accounts (apps/users/models.py): the `User` record with its unique
    `cedula` and `email`, the roles, and `UserManager`, which creates ordinary
    users and superusers. Passwords are kept as given; hashing is not modelled. */
module UsersModels {
  import opened Wrappers
  import opened Text

  type UserId = nat
  type RolId = nat

  const CEDULA_OBLIGATORIA := "La cédula es obligatoria."
  const CORREO_OBLIGATORIO := "El correo es obligatorio."
  const SUPER_STAFF := "Superuser must have is_staff=True."
  const SUPER_SUPERUSER := "Superuser must have is_superuser=True."
  const ROL_NO_INSTANCIA := "User.rol must be a Rol instance."
  const GERENTE := "Gerente"

  datatype User = User(
    cedula: string,
    email: string,
    firstName: string,
    lastName: string,
    rol: Option<RolId>,
    isStaff: bool,
    isSuperuser: bool,
    isActive: bool,
    isTempPassword: bool,
    password: Option<string>)

  /** The `cedula` argument: text, a number, or nothing. */
  datatype CedulaArg = CedulaTexto(s: string) | CedulaNumero(n: int) | SinCedula

  /** What the caller passes as `rol`: nothing, a saved `Rol`, `None`, or a bare
      string (which the foreign key refuses). */
  datatype RolArg = RolNoDado | RolInstancia(id: RolId) | RolNulo | RolTexto(nombre: string)

  /** The `**extra_fields` a caller can pass; `None` means "not passed". */
  datatype Extra = Extra(
    isStaff: Option<bool>,
    isSuperuser: Option<bool>,
    rol: RolArg,
    firstName: string,
    lastName: string)

  /** The users and roles tables. */
  datatype Cuentas = Cuentas(
    users: map<UserId, User>,
    nextUserId: UserId,
    roles: map<RolId, string>,
    nextRolId: RolId)

  /** The result of a manager call and the tables after it. */
  datatype Paso<T> = Paso(result: Result<T>, after: Cuentas)

  /** The unique constraints and the role foreign key. */
  ghost predicate CuentasValidas(c: Cuentas) {
    && (forall id :: id in c.users ==> id < c.nextUserId)
    && (forall id :: id in c.roles ==> id < c.nextRolId)
    && (forall i, j :: i in c.users && j in c.users && i != j ==>
          c.users[i].cedula != c.users[j].cedula && c.users[i].email != c.users[j].email)
    && (forall i, j :: i in c.roles && j in c.roles && i != j ==> c.roles[i] != c.roles[j])
    && (forall id :: id in c.users && c.users[id].rol.Some? ==> c.users[id].rol.value in c.roles)
  }

  /** `not cedula`: missing, empty text, or the number zero. */
  predicate CedulaFalsa(c: CedulaArg) {
    c.SinCedula? || c == CedulaTexto("") || c == CedulaNumero(0)
  }

  /** `str(cedula)`. */
  function CedulaStr(c: CedulaArg): (r: string)
    requires !c.SinCedula?
    ensures c.CedulaTexto? ==> r == c.s
    ensures c.CedulaNumero? && c.n >= 0 ==> IsDigits(r)
  {
    if c.CedulaTexto? then c.s else IntToString(c.n)
  }

  // ----- normalize_email -----

  /** The position of the last `c` in `s`. */
  function LastIndex(s: string, c: char): (i: nat)
    requires c in s
    ensures i < |s| && s[i] == c && c !in s[i + 1..]
  {
    if s[|s| - 1] == c then |s| - 1
    else
      assert c in s[..|s| - 1] by {
        var k :| 0 <= k < |s| && s[k] == c;
        assert s[..|s| - 1][k] == c;
      }
      var i := LastIndex(s[..|s| - 1], c);
      assert s[i + 1..] == s[..|s| - 1][i + 1..] + [s[|s| - 1]];
      i
  }

  /** `BaseUserManager.normalize_email`: when the text has an `@`, it is
      stripped and the part after the last `@` is lower-cased; otherwise it is
      returned as given. */
  function NormalizeEmail(e: string): (r: string)
    ensures '@' !in e ==> r == e
  {
    if '@' !in e then e
    else
      var s := Strip(e);
      StripKeepsAt(e);
      var i := LastIndex(s, '@');
      s[..i] + "@" + Lower(s[i + 1..])
  }

  lemma StripKeepsAt(e: string)
    requires '@' in e
    ensures '@' in Strip(e)
  {
    var k :| 0 <= k < |e| && e[k] == '@';
    var i, j := StripIsSlice(e);
    assert !IsSpace(e[k]);
    SliceHas(e, i, j, k);
  }

  lemma SliceHas(e: string, i: nat, j: nat, k: nat)
    requires i <= k < j <= |e|
    ensures e[k] in e[i..j]
  {
    assert e[i..j][k - i] == e[k];
  }

  /** Normalising keeps the local part of the stripped address as it is, differs
      from the stripped address only in letter case, and a normalised address
      normalises to itself. */
  lemma NormalizeEmailSpec(e: string)
    requires '@' in e
    ensures '@' in Strip(e)
    ensures var i := LastIndex(Strip(e), '@');
      i < |NormalizeEmail(e)| && NormalizeEmail(e)[..i] == Strip(e)[..i]
    ensures IExact(NormalizeEmail(e), Strip(e))
    ensures NormalizeEmail(NormalizeEmail(e)) == NormalizeEmail(e)
  {
    StripKeepsAt(e);
    var s := Strip(e);
    var i := LastIndex(s, '@');
    var r := NormalizeEmail(e);
    assert r == s[..i] + "@" + Lower(s[i + 1..]);
    NormalizedShape(s, i);
    NormalizedFixed(r, i);
  }

  /** An address that is already stripped, whose last `@` is at `i` and whose
      domain is lower case, normalises to itself. */
  lemma NormalizedFixed(r: string, i: nat)
    requires '@' in r && Strip(r) == r && LastIndex(r, '@') == i
    requires r[..i] + "@" + Lower(r[i + 1..]) == r
    ensures NormalizeEmail(r) == r
  {
  }

  /** The shape of a normalised address, from the stripped text `s` and the
      position `i` of its last `@`. */
  lemma NormalizedShape(s: string, i: nat)
    requires i < |s| && s[i] == '@' && '@' !in s[i + 1..]
    requires s == [] || (!IsSpace(s[0]) && !IsSpace(s[|s| - 1]))
    ensures var r := s[..i] + "@" + Lower(s[i + 1..]);
      && '@' in r && Strip(r) == r && LastIndex(r, '@') == i
      && r[..i] == s[..i] && Lower(r) == Lower(s)
      && r[..i] + "@" + Lower(r[i + 1..]) == r
  {
    var d := Lower(s[i + 1..]);
    var r := s[..i] + "@" + d;
    assert r[i] == '@';
    assert r[i + 1..] == d;
    LowerKeepsNoAt(s[i + 1..]);
    StripSelf(r, s, i);
    LastIndexUnique(r, '@', i);
    assert r[..i] == s[..i];
    LowerIdempotent(s[i + 1..]);
    NormalizedLower(s, i);
  }

  lemma NormalizedLower(s: string, i: nat)
    requires i < |s| && s[i] == '@'
    ensures Lower(s[..i] + "@" + Lower(s[i + 1..])) == Lower(s)
  {
    var d := Lower(s[i + 1..]);
    var r := s[..i] + "@" + d;
    forall k | 0 <= k < |s| ensures Lower(r)[k] == Lower(s)[k] {
      if k < i {
        assert r[k] == s[k];
      } else if k > i {
        assert r[k] == d[k - i - 1] == LowerChar(s[k]);
      }
    }
  }

  lemma LowerKeepsNoAt(s: string)
    requires '@' !in s
    ensures '@' !in Lower(s)
  {
    forall k | 0 <= k < |s| ensures Lower(s)[k] != '@' {
      assert s[k] != '@';
    }
  }

  lemma LastIndexUnique(s: string, c: char, i: nat)
    requires i < |s| && s[i] == c && c !in s[i + 1..]
    ensures c in s && LastIndex(s, c) == i
  {
    var j := LastIndex(s, c);
    forall k | i < k < |s| ensures s[k] != c {
      assert s[i + 1..][k - i - 1] == s[k];
    }
    forall k | j < k < |s| ensures s[k] != c {
      assert s[j + 1..][k - j - 1] == s[k];
    }
  }

  /** A normalised address neither starts nor ends with a space. */
  lemma StripSelf(r: string, s: string, i: nat)
    requires i < |s| && s[i] == '@' && r == s[..i] + "@" + Lower(s[i + 1..])
    requires s == [] || (!IsSpace(s[0]) && !IsSpace(s[|s| - 1]))
    ensures Strip(r) == r
  {
    assert |r| == |s|;
    assert !IsSpace(r[0]) by {
      if i > 0 { assert r[0] == s[0]; } else { assert r[0] == '@'; }
    }
    assert !IsSpace(r[|r| - 1]) by {
      if i < |s| - 1 {
        assert r[|r| - 1] == Lower(s[i + 1..])[|s| - i - 2] == LowerChar(s[|s| - 1]);
      } else {
        assert r[|r| - 1] == '@';
      }
    }
    assert TrimLeft(r) == r;
    assert TrimRight(r) == r;
  }

  // ----- UserManager -----

  /** The `rol` a new user gets, or the error assigning it raises. */
  function RolDe(c: Cuentas, rol: RolArg): (r: Result<Option<RolId>>)
    ensures r.Success? && r.value.Some? ==> r.value.value in c.roles
  {
    match rol
    case RolNoDado => Success(None)
    case RolNulo => Success(None)
    case RolInstancia(id) => if id in c.roles then Success(Some(id)) else Failure(IntegrityError)
    case RolTexto(_) => Failure(ValueError(ROL_NO_INSTANCIA))
  }

  /** Another user already has this cedula or email. */
  predicate Choca(users: map<UserId, User>, cedula: string, email: string) {
    exists j :: j in users && (users[j].cedula == cedula || users[j].email == email)
  }

  /** `_create_user`: a missing cedula or email is refused; otherwise the user is
      built (cedula as text, email normalised, the extra fields, active, no
      temporary password) and saved under the next key, unless the store
      refuses a duplicate cedula or email. */
  function CrearUsuarioBase(c: Cuentas, cedula: CedulaArg, email: Option<string>, password: Option<string>,
                            extra: Extra): (p: Paso<UserId>)
  {
    if CedulaFalsa(cedula) then Paso(Failure(ValueError(CEDULA_OBLIGATORIA)), c)
    else if email.None? || email.value == "" then Paso(Failure(ValueError(CORREO_OBLIGATORIO)), c)
    else
      var rol := RolDe(c, extra.rol);
      if rol.Failure? then Paso(Failure(rol.error), c)
      else
        var u := User(CedulaStr(cedula), NormalizeEmail(email.value), extra.firstName, extra.lastName, rol.value,
                      extra.isStaff == Some(true), extra.isSuperuser == Some(true), true, false, password);
        if Choca(c.users, u.cedula, u.email) then Paso(Failure(IntegrityError), c)
        else Paso(Success(c.nextUserId), c.(users := c.users[c.nextUserId := u], nextUserId := c.nextUserId + 1))
  }

  /** A failed creation saves nothing; a successful one saves exactly one user,
      under the next key, whose cedula is the text of the argument, and keeps
      the tables valid. */
  lemma CrearUsuarioBaseSpec(c: Cuentas, cedula: CedulaArg, email: Option<string>, password: Option<string>,
                             extra: Extra)
    requires CuentasValidas(c)
    ensures var p := CrearUsuarioBase(c, cedula, email, password, extra);
      && CuentasValidas(p.after)
      && (p.result.Failure? ==> p.after == c)
      && (CedulaFalsa(cedula) ==> p.result == Failure(ValueError(CEDULA_OBLIGATORIA)))
      && ((!CedulaFalsa(cedula) && (email.None? || email.value == "")) ==>
            p.result == Failure(ValueError(CORREO_OBLIGATORIO)))
      && (p.result.Success? <==>
            && !CedulaFalsa(cedula) && email.Some? && email.value != ""
            && RolDe(c, extra.rol).Success?
            && !Choca(c.users, CedulaStr(cedula), NormalizeEmail(email.value)))
      && (p.result.Success? ==>
            && p.result.value == c.nextUserId
            && p.after.users.Keys == c.users.Keys + {c.nextUserId}
            && p.after.roles == c.roles
            && (forall id :: id in c.users ==> p.after.users[id] == c.users[id])
            && var u := p.after.users[c.nextUserId];
               && u.cedula == CedulaStr(cedula) && u.email == NormalizeEmail(email.value)
               && u.isActive && !u.isTempPassword)
  {
    var p := CrearUsuarioBase(c, cedula, email, password, extra);
    if p.result.Success? {
      var u := p.after.users[c.nextUserId];
      assert !Choca(c.users, u.cedula, u.email);
      NuevoUsuarioValido(c, u);
    }
  }

  /** Saving a user whose cedula and email are free, and whose role exists,
      keeps the tables valid. */
  lemma NuevoUsuarioValido(c: Cuentas, u: User)
    requires CuentasValidas(c)
    requires !Choca(c.users, u.cedula, u.email)
    requires u.rol.Some? ==> u.rol.value in c.roles
    ensures CuentasValidas(c.(users := c.users[c.nextUserId := u], nextUserId := c.nextUserId + 1))
  {
    var users := c.users[c.nextUserId := u];
    forall i, j | i in users && j in users && i != j
      ensures users[i].cedula != users[j].cedula && users[i].email != users[j].email
    {
      if i == c.nextUserId {
        assert users[j] == c.users[j];
      } else if j == c.nextUserId {
        assert users[i] == c.users[i];
      }
    }
  }

  /** When every check passes, `_create_user` saves `u` under the next key and
      the tables stay valid. */
  lemma CrearUsuarioBaseGuarda(c: Cuentas, cedula: CedulaArg, email: Option<string>, password: Option<string>,
                               extra: Extra, u: User)
    requires CuentasValidas(c)
    requires !CedulaFalsa(cedula) && email.Some? && email.value != ""
    requires RolDe(c, extra.rol).Success?
    requires u == User(CedulaStr(cedula), NormalizeEmail(email.value), extra.firstName, extra.lastName,
                       RolDe(c, extra.rol).value, extra.isStaff == Some(true), extra.isSuperuser == Some(true),
                       true, false, password)
    requires !Choca(c.users, u.cedula, u.email)
    ensures var after := c.(users := c.users[c.nextUserId := u], nextUserId := c.nextUserId + 1);
      && CuentasValidas(after)
      && CrearUsuarioBase(c, cedula, email, password, extra) == Paso(Success(c.nextUserId), after)
  {
    NuevoUsuarioValido(c, u);
  }

  /** `create_user`: `is_staff` and `is_superuser` default to False. */
  function CreateUser(c: Cuentas, cedula: CedulaArg, email: Option<string>, password: Option<string>, extra: Extra)
    : (p: Paso<UserId>)
  {
    var e := extra.(isStaff := Some(GetOr(extra.isStaff, false)), isSuperuser := Some(GetOr(extra.isSuperuser, false)));
    CrearUsuarioBase(c, cedula, email, password, e)
  }

  function GetOr(v: Option<bool>, d: bool): bool {
    if v.Some? then v.value else d
  }

  /** An ordinary user is staff or superuser only when the caller asks for it. */
  lemma CreateUserFlags(c: Cuentas, cedula: CedulaArg, email: Option<string>, password: Option<string>, extra: Extra)
    ensures var p := CreateUser(c, cedula, email, password, extra);
      p.result.Success? ==>
        && p.result.value in p.after.users
        && p.after.users[p.result.value].isStaff == (extra.isStaff == Some(true))
        && p.after.users[p.result.value].isSuperuser == (extra.isSuperuser == Some(true))
  {
  }

  /** `create_superuser` as written: both flags default to True and any other
      value is refused; `rol` defaults to the text `Gerente`. */
  function CreateSuperuserComoEscrito(c: Cuentas, cedula: CedulaArg, email: Option<string>, password: Option<string>,
                                      extra: Extra): (p: Paso<UserId>)
    ensures p.result.Failure? ==> p.after == c
  {
    var e := extra.(isStaff := Some(GetOr(extra.isStaff, true)), isSuperuser := Some(GetOr(extra.isSuperuser, true)),
                    rol := if extra.rol.RolNoDado? then RolTexto(GERENTE) else extra.rol);
    if e.isStaff != Some(true) then Paso(Failure(ValueError(SUPER_STAFF)), c)
    else if e.isSuperuser != Some(true) then Paso(Failure(ValueError(SUPER_SUPERUSER)), c)
    else CrearUsuarioBase(c, cedula, email, password, e)
  }

  /** Without an explicit role, the code as written never creates a superuser:
      once the flags, the cedula and the email pass, the default `'Gerente'`
      is a string, and the role foreign key only accepts a `Rol`. */
  lemma CreateSuperuserSinRolFalla(c: Cuentas, cedula: CedulaArg, email: Option<string>, password: Option<string>,
                                   extra: Extra)
    requires extra.rol.RolNoDado?
    ensures var p := CreateSuperuserComoEscrito(c, cedula, email, password, extra);
      && p.result.Failure? && p.after == c
      && ((extra.isStaff != Some(false) && extra.isSuperuser != Some(false) && !CedulaFalsa(cedula)
           && email.Some? && email.value != "") ==> p.result == Failure(ValueError(ROL_NO_INSTANCIA)))
  {
  }

  /** `Rol.objects.get_or_create(nombre_rol=nombre)`. */
  function GetOrCreateRol(c: Cuentas, nombre: string): (r: (RolId, Cuentas))
    requires CuentasValidas(c)
    ensures CuentasValidas(r.1)
    ensures r.0 in r.1.roles && r.1.roles[r.0] == nombre
    ensures r.1.users == c.users && r.1.nextUserId == c.nextUserId
    ensures forall id :: id in c.roles ==> id in r.1.roles && r.1.roles[id] == c.roles[id]
  {
    if id :| id in c.roles && c.roles[id] == nombre then (id, c)
    else (c.nextRolId, c.(roles := c.roles[c.nextRolId := nombre], nextRolId := c.nextRolId + 1))
  }

  /** `create_superuser` with the default role looked up as a `Rol` named
      `Gerente`: both flags default to True and any other value is refused. */
  function CreateSuperuser(c: Cuentas, cedula: CedulaArg, email: Option<string>, password: Option<string>,
                           extra: Extra): (p: Paso<UserId>)
    requires CuentasValidas(c)
  {
    var isStaff := GetOr(extra.isStaff, true);
    var isSuperuser := GetOr(extra.isSuperuser, true);
    if !isStaff then Paso(Failure(ValueError(SUPER_STAFF)), c)
    else if !isSuperuser then Paso(Failure(ValueError(SUPER_SUPERUSER)), c)
    else if CedulaFalsa(cedula) then Paso(Failure(ValueError(CEDULA_OBLIGATORIA)), c)
    else if email.None? || email.value == "" then Paso(Failure(ValueError(CORREO_OBLIGATORIO)), c)
    else if extra.rol.RolNoDado? then
      var (rol, c1) := GetOrCreateRol(c, GERENTE);
      var p := CrearUsuarioBase(c1, cedula, email, password,
                                extra.(isStaff := Some(true), isSuperuser := Some(true), rol := RolInstancia(rol)));
      if p.result.Failure? then Paso(p.result, c) else p
    else CrearUsuarioBase(c, cedula, email, password, extra.(isStaff := Some(true), isSuperuser := Some(true)))
  }

  /** A superuser created without a role gets the `Gerente` role whenever the
      cedula and email are given and free, and is staff and superuser. */
  lemma CreateSuperuserSpec(c: Cuentas, cedula: CedulaArg, email: Option<string>, password: Option<string>,
                            extra: Extra)
    requires CuentasValidas(c)
    ensures var p := CreateSuperuser(c, cedula, email, password, extra);
      && CuentasValidas(p.after)
      && (p.result.Failure? ==> p.after == c)
      && (extra.isStaff == Some(false) ==> p.result == Failure(ValueError(SUPER_STAFF)))
      && (p.result.Success? ==>
            && p.result.value in p.after.users
            && var u := p.after.users[p.result.value];
               u.isStaff && u.isSuperuser &&
               (extra.rol.RolNoDado? ==> u.rol.Some? && u.rol.value in p.after.roles && p.after.roles[u.rol.value] == GERENTE))
      && ((extra.rol.RolNoDado? && extra.isStaff != Some(false) && extra.isSuperuser != Some(false)
           && !CedulaFalsa(cedula) && email.Some? && email.value != ""
           && !Choca(c.users, CedulaStr(cedula), NormalizeEmail(email.value))) ==> p.result.Success?)
  {
    if extra.rol.RolNoDado? && GetOr(extra.isStaff, true) && GetOr(extra.isSuperuser, true)
       && !CedulaFalsa(cedula) && email.Some? && email.value != "" {
      var (rol, c1) := GetOrCreateRol(c, GERENTE);
      assert CuentasValidas(c1);
      CrearUsuarioBaseSpec(c1, cedula, email, password,
                           extra.(isStaff := Some(true), isSuperuser := Some(true), rol := RolInstancia(rol)));
    } else if GetOr(extra.isStaff, true) && GetOr(extra.isSuperuser, true) {
      CrearUsuarioBaseSpec(c, cedula, email, password, extra.(isStaff := Some(true), isSuperuser := Some(true)));
    }
  }

  /** `UserManager` over the users and roles tables. */
  class UserManager {
    var users: map<UserId, User>
    var nextUserId: UserId
    var roles: map<RolId, string>
    var nextRolId: RolId

    ghost function State(): Cuentas
      reads this
    {
      Cuentas(users, nextUserId, roles, nextRolId)
    }

    ghost predicate Valid()
      reads this
    {
      CuentasValidas(State())
    }

    constructor (roles: map<RolId, string>, nextRolId: RolId)
      requires CuentasValidas(Cuentas(map[], 0, roles, nextRolId))
      ensures Valid() && State() == Cuentas(map[], 0, roles, nextRolId)
    {
      this.users, this.nextUserId := map[], 0;
      this.roles, this.nextRolId := roles, nextRolId;
    }

    /** `create_user`. */
    method CreateUserEnDb(cedula: CedulaArg, email: Option<string>, password: Option<string>, extra: Extra)
      returns (r: Result<UserId>)
      requires Valid()
      modifies this
      ensures Valid()
      ensures Paso(r, State()) == CreateUser(old(State()), cedula, email, password, extra)
    {
      var e := extra.(isStaff := Some(GetOr(extra.isStaff, false)), isSuperuser := Some(GetOr(extra.isSuperuser, false)));
      r := CreateUserBase(cedula, email, password, e);
    }

    /** `create_superuser`, with the default role looked up as a `Rol`. */
    method CreateSuperuserEnDb(cedula: CedulaArg, email: Option<string>, password: Option<string>, extra: Extra)
      returns (r: Result<UserId>)
      requires Valid()
      modifies this
      ensures Valid()
      ensures Paso(r, State()) == CreateSuperuser(old(State()), cedula, email, password, extra)
    {
      ghost var c := State();
      CreateSuperuserSpec(c, cedula, email, password, extra);
      var p := CreateSuperuser(Cuentas(users, nextUserId, roles, nextRolId), cedula, email, password, extra);
      users, nextUserId, roles, nextRolId := p.after.users, p.after.nextUserId, p.after.roles, p.after.nextRolId;
      r := p.result;
    }

    /** `_create_user`. */
    method CreateUserBase(cedula: CedulaArg, email: Option<string>, password: Option<string>, extra: Extra)
      returns (r: Result<UserId>)
      requires Valid()
      modifies this
      ensures Valid()
      ensures Paso(r, State()) == CrearUsuarioBase(old(State()), cedula, email, password, extra)
    {
      if CedulaFalsa(cedula) {
        return Failure(ValueError(CEDULA_OBLIGATORIA));
      }
      if email.None? || email.value == "" {
        return Failure(ValueError(CORREO_OBLIGATORIO));
      }
      var rol := RolDe(Cuentas(users, nextUserId, roles, nextRolId), extra.rol);
      if rol.Failure? {
        return Failure(rol.error);
      }
      var u := User(CedulaStr(cedula), NormalizeEmail(email.value), extra.firstName, extra.lastName, rol.value,
                    extra.isStaff == Some(true), extra.isSuperuser == Some(true), true, false, password);
      if Choca(users, u.cedula, u.email) {
        return Failure(IntegrityError);
      }
      CrearUsuarioBaseGuarda(State(), cedula, email, password, extra, u);
      users, nextUserId := users[nextUserId := u], nextUserId + 1;
      r := Success(nextUserId - 1);
    }
  }

  // ----- __str__ -----

  /** `str(user.rol)`: the role's name, or `None`. */
  function RolStr(roles: map<RolId, string>, rol: Option<RolId>): string {
    if rol.Some? && rol.value in roles then roles[rol.value] else "None"
  }

  /** `User.__str__`: the full name (or the cedula when it is blank) and the role
      in parentheses. */
  function Str(u: User, roles: map<RolId, string>): (r: string)
  {
    var nombre := Strip(u.firstName + " " + u.lastName);
    (if nombre != [] then nombre else u.cedula) + " (" + RolStr(roles, u.rol) + ")"
  }

  /** A user with no name is shown by cedula; the role always closes the text. */
  lemma StrSpec(u: User, roles: map<RolId, string>)
    ensures var r := Str(u, roles);
      && r[|r| - 1] == ')'
      && (IsBlank(u.firstName) && IsBlank(u.lastName) ==> r == u.cedula + " (" + RolStr(roles, u.rol) + ")")
      && (!IsBlank(u.firstName) ==> r[0] != ' ')
  {
    var s := u.firstName + " " + u.lastName;
    if IsBlank(u.firstName) && IsBlank(u.lastName) {
      assert IsBlank(s) by {
        forall k | 0 <= k < |s| ensures IsSpace(s[k]) {
          if k < |u.firstName| { assert s[k] == u.firstName[k]; }
          else if k > |u.firstName| { assert s[k] == u.lastName[k - |u.firstName| - 1]; }
        }
      }
    }
    if !IsBlank(u.firstName) {
      assert !IsBlank(s) by {
        var k :| 0 <= k < |u.firstName| && !IsSpace(u.firstName[k]);
        assert s[k] == u.firstName[k];
      }
    }
  }
}
