/** The farm record (apps/finca/models.py) and its model-level validation. */
module FincaModels {
  import opened Wrappers
  import opened Text

  type FincaId = nat

  datatype Finca = Finca(
    nombre: string,
    ubicacion: string,
    codigo: string,
    propietario: string,
    telefonoContacto: string)

  /** `Finca.clean`: the farm code has at least three characters. */
  function Clean(f: Finca): (r: Outcome)
    ensures r.Pass? <==> |f.codigo| >= 3
    ensures r.Fail? ==> r.error.ValidationError?
  {
    if |f.codigo| < 3 then
      Fail(ValidationError("El código de la finca debe tener al menos 3 caracteres."))
    else Pass
  }

  /** The per-field checks `full_clean` runs before `clean`: `nombre` and `codigo`
      are required (not blank), and every field fits its `max_length`. */
  predicate FieldsValid(f: Finca) {
    && f.nombre != [] && |f.nombre| <= 200
    && |f.ubicacion| <= 300
    && f.codigo != [] && |f.codigo| <= 50
    && |f.propietario| <= 200
    && |f.telefonoContacto| <= 20
  }

  /** `full_clean` on a farm: the field checks and then `clean`. Uniqueness is
      left to the store, which enforces it when the row is written. */
  function FullClean(f: Finca): (r: Outcome)
    ensures r.Pass? ==> |f.codigo| >= 3
    ensures r.Pass? <==> FieldsValid(f) && Clean(f).Pass?
  {
    if !FieldsValid(f) then Fail(ValidationError("Campos inválidos."))
    else Clean(f)
  }

  /** `Finca.__str__`: the name followed by the code in parentheses. */
  function Str(f: Finca): (r: string)
    ensures |r| == |f.nombre| + |f.codigo| + 3
    ensures r[..|f.nombre|] == f.nombre
    ensures r[|f.nombre|..] == " (" + f.codigo + ")"
  {
    f.nombre + " (" + f.codigo + ")"
  }

  /** Two farms with the same rendering and the same name have the same code. */
  lemma {:induction false} StrDeterminesCodigo(f: Finca, g: Finca)
    requires f.nombre == g.nombre && Str(f) == Str(g)
    ensures f.codigo == g.codigo
  {
    var n := |f.nombre|;
    assert Str(f)[n..] == Str(g)[n..];
    assert " (" + f.codigo + ")" == " (" + g.codigo + ")";
    assert f.codigo == (" (" + f.codigo + ")")[2..|f.codigo| + 2];
  }

  /** The store's unique constraints: no two farms share a name or a code. */
  ghost predicate UniqueFields(fincas: map<FincaId, Finca>) {
    forall i, j :: i in fincas && j in fincas && i != j ==>
      fincas[i].nombre != fincas[j].nombre && fincas[i].codigo != fincas[j].codigo
  }

  /** Would a row `f` stored under `id` clash with another farm? */
  predicate Clashes(fincas: map<FincaId, Finca>, id: FincaId, f: Finca) {
    exists j :: j in fincas && j != id && (fincas[j].nombre == f.nombre || fincas[j].codigo == f.codigo)
  }

  /** Writing a row that does not clash keeps names and codes unique. */
  lemma WriteKeepsUnique(fincas: map<FincaId, Finca>, id: FincaId, f: Finca)
    requires UniqueFields(fincas)
    requires !Clashes(fincas, id, f)
    ensures UniqueFields(fincas[id := f])
  {
  }
}
