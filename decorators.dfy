/** The two `role_required` view guards. `UsersDecorators` (apps/users/decorators.py)
    compares the role name exactly and answers with a redirect;
    `GanaderiaDecorators` (apps/ganaderia/decorators.py) compares lower-cased
    names and raises `PermissionDenied`. A view is a function of its
    arguments; the flash message travels with the redirect. */
module UsersDecorators {
  import opened Wrappers

  const LOGIN := "users:login"
  const DASHBOARD := "users:dashboard"
  const DEBE_INICIAR := "Debes iniciar sesión."
  const SIN_ROL := "Tu usuario no tiene un rol asignado."
  const SIN_PERMISO := "No tienes permisos para acceder a esta sección."

  /** The roles `seed_roles` creates. */
  const GERENTE := "Gerente"
  const ADMINISTRADOR_FINCA := "Administrador Finca"
  const AUXILIAR := "Auxiliar administrativa"

  /** The requesting user: anonymous, or logged in with the name of their role
      (if any). */
  datatype Usuario = Anonimo | Autenticado(rol: Option<string>)

  datatype Respuesta<R> = Redirect(to: string, message: string) | Vista(result: R)

  /** The guard: authentication first, then the presence of a role, then exact
      membership in the allowed names; only then is the view called. */
  function RoleRequired<A, R>(permitidos: seq<string>, user: Usuario, view: A -> R, args: A): (r: Respuesta<R>)
    ensures user.Anonimo? ==> r == Redirect(LOGIN, DEBE_INICIAR)
    ensures user.Autenticado? && user.rol.None? ==> r == Redirect(DASHBOARD, SIN_ROL)
    ensures user.Autenticado? && user.rol.Some? && user.rol.value !in permitidos ==> r == Redirect(DASHBOARD, SIN_PERMISO)
    ensures r.Vista? <==> user.Autenticado? && user.rol.Some? && user.rol.value in permitidos
    ensures r.Vista? ==> r.result == view(args)
  {
    if user.Anonimo? then Redirect(LOGIN, DEBE_INICIAR)
    else if user.rol.None? then Redirect(DASHBOARD, SIN_ROL)
    else if user.rol.value !in permitidos then Redirect(DASHBOARD, SIN_PERMISO)
    else Vista(view(args))
  }

  /** The comparison is exact: a role that differs from every allowed name, if
      only in letter case, is turned away. */
  lemma RoleRequiredExacto<A, R>(permitidos: seq<string>, rol: string, view: A -> R, args: A)
    requires forall k :: 0 <= k < |permitidos| ==> permitidos[k] != rol
    ensures RoleRequired(permitidos, Autenticado(Some(rol)), view, args) == Redirect(DASHBOARD, SIN_PERMISO)
  {
    assert rol !in permitidos by {
      forall k | 0 <= k < |permitidos| ensures permitidos[k] != rol { }
    }
  }

  /** The allowed names of the insemination create, edit and delete views, as
      written. */
  const PERMISOS_INSEMINACION_COMO_ESCRITO: seq<string> := [GERENTE, "Administrador finca"]

  /** The same lists with the seeded spelling of the farm administrator role,
      as the other views of the health module use it. */
  const PERMISOS_INSEMINACION: seq<string> := [GERENTE, ADMINISTRADOR_FINCA]

  /** As written, a farm administrator (the seeded role name) is redirected
      away from the insemination views. */
  lemma InseminacionRechazaAdministrador<A, R>(view: A -> R, args: A)
    ensures RoleRequired(PERMISOS_INSEMINACION_COMO_ESCRITO, Autenticado(Some(ADMINISTRADOR_FINCA)), view, args)
            == Redirect(DASHBOARD, SIN_PERMISO)
  {
    assert ADMINISTRADOR_FINCA != "Administrador finca" by {
      assert ADMINISTRADOR_FINCA[14] == 'F' && "Administrador finca"[14] == 'f';
    }
    RoleRequiredExacto(PERMISOS_INSEMINACION_COMO_ESCRITO, ADMINISTRADOR_FINCA, view, args);
  }

  /** With the seeded spelling, the managers and the farm administrators reach
      the insemination views, and the administrative assistants do not. */
  lemma InseminacionAdmite<A, R>(view: A -> R, args: A)
    ensures RoleRequired(PERMISOS_INSEMINACION, Autenticado(Some(ADMINISTRADOR_FINCA)), view, args) == Vista(view(args))
    ensures RoleRequired(PERMISOS_INSEMINACION, Autenticado(Some(GERENTE)), view, args) == Vista(view(args))
    ensures RoleRequired(PERMISOS_INSEMINACION, Autenticado(Some(AUXILIAR)), view, args) == Redirect(DASHBOARD, SIN_PERMISO)
  {
    assert AUXILIAR != GERENTE by { assert AUXILIAR[0] != GERENTE[0]; }
    assert AUXILIAR != ADMINISTRADOR_FINCA by { assert AUXILIAR[0] != ADMINISTRADOR_FINCA[1]; assert AUXILIAR[1] != ADMINISTRADOR_FINCA[1]; }
    RoleRequiredExacto(PERMISOS_INSEMINACION, AUXILIAR, view, args);
  }
}

module GanaderiaDecorators {
  import opened Wrappers
  import opened Text

  /** The requesting user: anonymous, or logged in with the name of their role
      (if any). */
  datatype Usuario = Anonimo | Autenticado(rol: Option<string>)

  datatype Respuesta<R> = PermissionDenied | Vista(result: R)

  /** The role as compared: its name lower-cased, or `''` for no role (an empty
      name also becomes `''`). */
  function RoleVal(rol: Option<string>): (r: string)
    ensures rol.None? ==> r == ""
    ensures rol.Some? ==> r == Lower(rol.value)
  {
    if rol.None? then "" else Lower(rol.value)
  }

  /** The allowed names, lower-cased. */
  function Allowed(allowedRoles: seq<string>): (r: seq<string>)
    ensures |r| == |allowedRoles|
    ensures forall k :: 0 <= k < |r| ==> r[k] == Lower(allowedRoles[k])
  {
    seq(|allowedRoles|, k requires 0 <= k < |allowedRoles| => Lower(allowedRoles[k]))
  }

  /** The guard: an anonymous user is denied; otherwise the view is called iff
      the lower-cased role is among the lower-cased allowed names. */
  function RoleRequired<A, R>(allowedRoles: seq<string>, user: Usuario, view: A -> R, args: A): (r: Respuesta<R>)
    ensures user.Anonimo? ==> r.PermissionDenied?
    ensures r.Vista? ==> r.result == view(args)
  {
    if user.Anonimo? then PermissionDenied
    else if RoleVal(user.rol) in Allowed(allowedRoles) then Vista(view(args))
    else PermissionDenied
  }

  /** The view is reached iff the user is logged in and their role equals some
      allowed name up to letter case; a user without a role is reached only
      when an allowed name is empty. */
  lemma RoleRequiredSpec<A, R>(allowedRoles: seq<string>, user: Usuario, view: A -> R, args: A)
    ensures RoleRequired(allowedRoles, user, view, args).Vista? <==>
      user.Autenticado? && exists k :: 0 <= k < |allowedRoles| && Lower(allowedRoles[k]) == RoleVal(user.rol)
    ensures user.Autenticado? && user.rol.None? ==>
      (RoleRequired(allowedRoles, user, view, args).Vista? <==> "" in allowedRoles)
  {
    if user.Autenticado? && user.rol.None? {
      if "" in allowedRoles {
        var k :| 0 <= k < |allowedRoles| && allowedRoles[k] == "";
        assert Allowed(allowedRoles)[k] == "";
      }
      if "" in Allowed(allowedRoles) {
        var k :| 0 <= k < |allowedRoles| && Allowed(allowedRoles)[k] == "";
        assert allowedRoles[k] == "";
      }
    }
  }

  /** Two role names equal up to letter case are admitted to the same views. */
  lemma RoleRequiredIgnoraMayusculas<A, R>(allowedRoles: seq<string>, a: string, b: string, view: A -> R, args: A)
    requires IExact(a, b)
    ensures RoleRequired(allowedRoles, Autenticado(Some(a)), view, args)
            == RoleRequired(allowedRoles, Autenticado(Some(b)), view, args)
  {
  }

  /** Unlike the exact guard, this one admits a farm administrator under either
      spelling of the role. */
  lemma AdmiteAmbasGrafias<A, R>(view: A -> R, args: A)
    ensures RoleRequired(["Gerente", "Administrador finca"], Autenticado(Some("Administrador Finca")), view, args)
            == Vista(view(args))
  {
    var allowed := Allowed(["Gerente", "Administrador finca"]);
    assert Lower("Administrador Finca") == allowed[1] by {
      forall k | 0 <= k < |"Administrador Finca"|
        ensures Lower("Administrador Finca")[k] == Lower("Administrador finca")[k]
      {
        assert LowerChar('F') == 'f';
      }
    }
  }
}
