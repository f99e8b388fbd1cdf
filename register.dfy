/** The registration page's client-side checks
    (apps/users/static/users/js/register.js): `validateForm`, which checks
    every field in turn and marks each failing one with its message, and the
    live cedula and email checks. An input the page lacks is `None`. */
module Register {
  import opened Wrappers
  import opened Text

  const NOMBRE_REQUERIDO := "El nombre es requerido"
  const APELLIDO_REQUERIDO := "El apellido es requerido"
  const CEDULA_REQUERIDA := "La cédula es requerida"
  const CEDULA_NUMEROS := "La cédula solo debe contener números"
  const CEDULA_CORTA := "La cédula debe tener al menos 6 dígitos"
  const CORREO_REQUERIDO := "El correo electrónico es requerido"
  const CORREO_INVALIDO := "Ingrese un correo electrónico válido"
  const ROL_REQUERIDO := "Debe seleccionar un rol"

  datatype Campo = FirstName | LastName | Cedula | Email | Rol

  /** `/^[^\s@]+@[^\s@]+\.[^\s@]+$/.test(s)`: an `@` at `i` and a `.` at `j`
      split the text into three non-empty parts, none of which holds a space or
      an `@`. */
  predicate EmailPattern(s: string) {
    exists i, j :: 0 < i && i + 1 < j < |s| - 1 && s[i] == '@' && s[j] == '.'
      && forall k :: 0 <= k < |s| && k != i ==> !IsSpace(s[k]) && s[k] != '@'
  }

  /** The pattern holds iff the text has no space, exactly one `@`, something
      before it, and a `.` strictly inside what follows it. */
  lemma EmailPatternSpec(s: string)
    ensures EmailPattern(s) <==>
      && (forall k :: 0 <= k < |s| ==> !IsSpace(s[k]))
      && '@' in s
      && var i := FirstAt(s);
         && i > 0
         && (forall k :: i < k < |s| ==> s[k] != '@')
         && exists j :: i + 1 < j < |s| - 1 && s[j] == '.'
  {
    if EmailPattern(s) {
      var i, j :| 0 < i && i + 1 < j < |s| - 1 && s[i] == '@' && s[j] == '.'
        && forall k :: 0 <= k < |s| && k != i ==> !IsSpace(s[k]) && s[k] != '@';
      assert FirstAt(s) == i by { FirstAtIs(s, i); }
    }
  }

  /** The position of the first `@`. */
  function FirstAt(s: string): (i: nat)
    requires '@' in s
    ensures i < |s| && s[i] == '@' && forall k :: 0 <= k < i ==> s[k] != '@'
  {
    if s[0] == '@' then 0 else 1 + FirstAt(s[1..])
  }

  lemma FirstAtIs(s: string, i: nat)
    requires i < |s| && s[i] == '@' && forall k :: 0 <= k < i ==> s[k] != '@'
    ensures '@' in s && FirstAt(s) == i
  {
    var f := FirstAt(s);
    assert f <= i;
    assert !(f < i) by {
      forall k | 0 <= k < i ensures s[k] != '@' { }
    }
  }

  /** The message a name field gets: none when the page lacks it or it is not
      blank. */
  function ErrorNombre(v: Option<string>, message: string): Option<string> {
    if v.Some? && IsBlank(v.value) then Some(message) else None
  }

  /** The cedula's message: the first of blank, not all digits, shorter than 6. */
  function ErrorCedula(v: Option<string>): Option<string> {
    if v.None? then None
    else if IsBlank(v.value) then Some(CEDULA_REQUERIDA)
    else if !IsDigits(v.value) then Some(CEDULA_NUMEROS)
    else if |v.value| < 6 then Some(CEDULA_CORTA)
    else None
  }

  /** The email's message: blank, or not of the pattern. */
  function ErrorEmail(v: Option<string>): Option<string> {
    if v.None? then None
    else if IsBlank(v.value) then Some(CORREO_REQUERIDO)
    else if !EmailPattern(v.value) then Some(CORREO_INVALIDO)
    else None
  }

  function ErrorRol(v: Option<string>): Option<string> {
    if v.Some? && v.value == "" then Some(ROL_REQUERIDO) else None
  }

  /** The values of the inputs the page has. */
  datatype Inputs = Inputs(firstName: Option<string>, lastName: Option<string>, cedula: Option<string>,
                           email: Option<string>, rol: Option<string>)

  /** The messages so far, with `campo`'s added when it has one. */
  function Marca(m: map<Campo, string>, campo: Campo, e: Option<string>): map<Campo, string> {
    if e.Some? then m[campo := e.value] else m
  }

  /** The messages after the checks, starting from the ones already shown. */
  function Marcas(m: map<Campo, string>, f: Inputs): map<Campo, string> {
    var m1 := Marca(m, FirstName, ErrorNombre(f.firstName, NOMBRE_REQUERIDO));
    var m2 := Marca(m1, LastName, ErrorNombre(f.lastName, APELLIDO_REQUERIDO));
    var m3 := Marca(m2, Cedula, ErrorCedula(f.cedula));
    var m4 := Marca(m3, Email, ErrorEmail(f.email));
    Marca(m4, Rol, ErrorRol(f.rol))
  }

  /** The message of each field that fails its check. */
  function Errores(f: Inputs): map<Campo, string> {
    Marcas(map[], f)
  }

  lemma MarcaUnion(a: map<Campo, string>, m: map<Campo, string>, c: Campo, e: Option<string>)
    ensures Marca(a + m, c, e) == a + Marca(m, c, e)
  {
  }

  /** Checking over earlier messages overwrites the failing fields' messages
      and keeps the rest. */
  lemma MarcasUnion(e0: map<Campo, string>, f: Inputs)
    ensures Marcas(e0, f) == e0 + Errores(f)
  {
    var m0: map<Campo, string> := map[];
    assert e0 == e0 + m0;
    var m1 := Marca(m0, FirstName, ErrorNombre(f.firstName, NOMBRE_REQUERIDO));
    MarcaUnion(e0, m0, FirstName, ErrorNombre(f.firstName, NOMBRE_REQUERIDO));
    var m2 := Marca(m1, LastName, ErrorNombre(f.lastName, APELLIDO_REQUERIDO));
    MarcaUnion(e0, m1, LastName, ErrorNombre(f.lastName, APELLIDO_REQUERIDO));
    var m3 := Marca(m2, Cedula, ErrorCedula(f.cedula));
    MarcaUnion(e0, m2, Cedula, ErrorCedula(f.cedula));
    var m4 := Marca(m3, Email, ErrorEmail(f.email));
    MarcaUnion(e0, m3, Email, ErrorEmail(f.email));
    MarcaUnion(e0, m4, Rol, ErrorRol(f.rol));
  }

  /** No field has a message exactly when no check fails. */
  lemma ErroresNinguno(f: Inputs)
    ensures Errores(f) == map[] <==>
      && ErrorNombre(f.firstName, NOMBRE_REQUERIDO).None? && ErrorNombre(f.lastName, APELLIDO_REQUERIDO).None?
      && ErrorCedula(f.cedula).None? && ErrorEmail(f.email).None? && ErrorRol(f.rol).None?
  {
    var m1 := Marca(map[], FirstName, ErrorNombre(f.firstName, NOMBRE_REQUERIDO));
    MarcaVacia(map[], FirstName, ErrorNombre(f.firstName, NOMBRE_REQUERIDO));
    var m2 := Marca(m1, LastName, ErrorNombre(f.lastName, APELLIDO_REQUERIDO));
    MarcaVacia(m1, LastName, ErrorNombre(f.lastName, APELLIDO_REQUERIDO));
    var m3 := Marca(m2, Cedula, ErrorCedula(f.cedula));
    MarcaVacia(m2, Cedula, ErrorCedula(f.cedula));
    var m4 := Marca(m3, Email, ErrorEmail(f.email));
    MarcaVacia(m3, Email, ErrorEmail(f.email));
    MarcaVacia(m4, Rol, ErrorRol(f.rol));
  }

  lemma MarcaVacia(m: map<Campo, string>, campo: Campo, e: Option<string>)
    ensures Marca(m, campo, e) == map[] <==> m == map[] && e.None?
  {
    if e.Some? {
      assert campo in Marca(m, campo, e);
    }
  }

  /** Every present input passes: names not blank, a cedula of at least six
      digits, an email of the pattern, a chosen role. */
  predicate Valido(f: Inputs) {
    && (f.firstName.Some? ==> !IsBlank(f.firstName.value))
    && (f.lastName.Some? ==> !IsBlank(f.lastName.value))
    && (f.cedula.Some? ==> IsDigits(f.cedula.value) && |f.cedula.value| >= 6)
    && (f.email.Some? ==> EmailPattern(f.email.value))
    && (f.rol.Some? ==> f.rol.value != "")
  }

  lemma DigitsNotBlank(s: string)
    requires IsDigits(s)
    ensures !IsBlank(s)
  {
    assert !IsSpace(s[0]);
  }

  lemma PatternNotBlank(s: string)
    requires EmailPattern(s)
    ensures !IsBlank(s)
  {
    var i, j :| 0 < i && i + 1 < j < |s| - 1 && s[i] == '@' && s[j] == '.'
      && forall k :: 0 <= k < |s| && k != i ==> !IsSpace(s[k]) && s[k] != '@';
    assert !IsSpace(s[0]);
  }

  /** No field has a message exactly when every present input passes. */
  lemma ErroresVacios(f: Inputs)
    ensures Errores(f) == map[] <==> Valido(f)
  {
    if f.cedula.Some? && IsDigits(f.cedula.value) {
      DigitsNotBlank(f.cedula.value);
    }
    if f.email.Some? && EmailPattern(f.email.value) {
      PatternNotBlank(f.email.value);
    }
    if Errores(f) == map[] {
      assert FirstName !in Errores(f) && LastName !in Errores(f) && Cedula !in Errores(f);
      assert Email !in Errores(f) && Rol !in Errores(f);
    }
  }

  /** A field fails with one message only: a blank cedula is reported as
      missing, not as non-numeric or short; a non-numeric one as non-numeric,
      whatever its length. */
  lemma CedulaPrimerError(v: string)
    ensures IsBlank(v) ==> ErrorCedula(Some(v)) == Some(CEDULA_REQUERIDA)
    ensures !IsBlank(v) && !IsDigits(v) ==> ErrorCedula(Some(v)) == Some(CEDULA_NUMEROS)
    ensures ErrorCedula(Some(v)).None? <==> IsDigits(v) && |v| >= 6
  {
    if IsDigits(v) {
      DigitsNotBlank(v);
    }
  }

  /** `value.replace(/\D/g, '')`: the digits of the text, in order. */
  function SoloDigitos(s: string): (r: string)
    ensures |r| <= |s|
    ensures forall k :: 0 <= k < |r| ==> IsDigit(r[k])
  {
    if s == [] then [] else (if IsDigit(s[0]) then [s[0]] else []) + SoloDigitos(s[1..])
  }

  /** Digits are kept as they are, so cleaning twice changes nothing more. */
  lemma {:induction false} SoloDigitosFijo(s: string)
    requires forall k :: 0 <= k < |s| ==> IsDigit(s[k])
    ensures SoloDigitos(s) == s
  {
    if s != [] {
      SoloDigitosFijo(s[1..]);
      assert [s[0]] + s[1..] == s;
    }
  }

  class RegisterForm {
    var inputs: Inputs
    /** The fields marked invalid, with the message shown under each. */
    var errors: map<Campo, string>
    /** The custom validity messages of the cedula and email inputs. */
    var cedulaValidity: string
    var emailValidity: string

    constructor (inputs: Inputs)
      ensures this.inputs == inputs && errors == map[] && cedulaValidity == "" && emailValidity == ""
    {
      this.inputs := inputs;
      errors := map[];
      cedulaValidity := "";
      emailValidity := "";
    }

    /** `showError`: mark the field and show the message. */
    method ShowError(campo: Campo, message: string)
      modifies this`errors
      ensures errors == old(errors)[campo := message]
    {
      errors := errors[campo := message];
    }

    /** `validateForm`: every field is checked, a failing one gets its
        message (earlier messages of passing fields stay), and the result is
        true iff no field failed. */
    method ValidateForm() returns (isValid: bool)
      modifies this`errors
      ensures errors == old(errors) + Errores(inputs)
      ensures isValid <==> Errores(inputs) == map[]
      ensures isValid <==> Valido(inputs)
    {
      isValid := true;
      ghost var m0 := errors;
      var e := ErrorNombre(inputs.firstName, NOMBRE_REQUERIDO);
      if e.Some? {
        ShowError(FirstName, e.value);
        isValid := false;
      }
      e := ErrorNombre(inputs.lastName, APELLIDO_REQUERIDO);
      if e.Some? {
        ShowError(LastName, e.value);
        isValid := false;
      }
      e := ErrorCedula(inputs.cedula);
      if e.Some? {
        ShowError(Cedula, e.value);
        isValid := false;
      }
      e := ErrorEmail(inputs.email);
      if e.Some? {
        ShowError(Email, e.value);
        isValid := false;
      }
      e := ErrorRol(inputs.rol);
      if e.Some? {
        ShowError(Rol, e.value);
        isValid := false;
      }
      MarcasUnion(m0, inputs);
      ErroresNinguno(inputs);
      ErroresVacios(inputs);
    }

    /** The cedula's `input` handler: non-digits are removed, and a value of one
        to five digits is flagged. */
    method OnCedulaInput(value: string)
      requires inputs.cedula.Some?
      modifies this`inputs, this`cedulaValidity
      ensures inputs == old(inputs).(cedula := Some(SoloDigitos(value)))
      ensures IsDigits(inputs.cedula.value) || inputs.cedula.value == []
      ensures cedulaValidity != "" <==> 0 < |SoloDigitos(value)| < 6
    {
      var limpio := SoloDigitos(value);
      inputs := inputs.(cedula := Some(limpio));
      if 0 < |limpio| < 6 {
        cedulaValidity := CEDULA_CORTA;
      } else {
        cedulaValidity := "";
      }
    }

    /** The email's `blur` handler: a non-empty value not of the pattern is
        flagged. */
    method OnEmailBlur()
      requires inputs.email.Some?
      modifies this`emailValidity
      ensures emailValidity != "" <==> inputs.email.value != "" && !EmailPattern(inputs.email.value)
    {
      if inputs.email.value != "" && !EmailPattern(inputs.email.value) {
        emailValidity := CORREO_INVALIDO;
      } else {
        emailValidity := "";
      }
    }
  }
}
