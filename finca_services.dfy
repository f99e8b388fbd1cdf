/** `FincaService` (apps/finca/services.py) over its repository
    (apps/finca/repositories.py): list, create, update and delete farms. The
    service has no transaction: each repository call is written as soon as it is
    made. Each operation is specified by a function from the tables before to the
    result and the tables after. */
module FincaServices {
  import opened Wrappers
  import opened FincaModels
  import opened GanaderiaModels
  import opened Store

  const FINCA_NO_EXISTE := "La finca no existe."

  /** The `data` dict a caller passes: the fields it sets. */
  datatype FincaData = FincaData(
    nombre: Option<string>,
    ubicacion: Option<string>,
    codigo: Option<string>,
    propietario: Option<string>,
    telefonoContacto: Option<string>)

  /** A farm before any field is set: every text field defaults to the empty string. */
  const SIN_DATOS := Finca("", "", "", "", "")

  function Pick(v: Option<string>, current: string): string {
    if v.Some? then v.value else current
  }

  /** `setattr(finca, field, value)` for every field in `data`. */
  function Apply(f: Finca, data: FincaData): (r: Finca)
    ensures data.nombre.Some? ==> r.nombre == data.nombre.value
    ensures data.nombre.None? ==> r.nombre == f.nombre
    ensures data.ubicacion.Some? ==> r.ubicacion == data.ubicacion.value
    ensures data.ubicacion.None? ==> r.ubicacion == f.ubicacion
    ensures data.codigo.Some? ==> r.codigo == data.codigo.value
    ensures data.codigo.None? ==> r.codigo == f.codigo
    ensures data.propietario.Some? ==> r.propietario == data.propietario.value
    ensures data.propietario.None? ==> r.propietario == f.propietario
    ensures data.telefonoContacto.Some? ==> r.telefonoContacto == data.telefonoContacto.value
    ensures data.telefonoContacto.None? ==> r.telefonoContacto == f.telefonoContacto
  {
    Finca(Pick(data.nombre, f.nombre), Pick(data.ubicacion, f.ubicacion), Pick(data.codigo, f.codigo),
          Pick(data.propietario, f.propietario), Pick(data.telefonoContacto, f.telefonoContacto))
  }

  /** Applying the same data twice is applying it once, and empty data changes nothing. */
  lemma ApplyIdempotent(f: Finca, data: FincaData)
    ensures Apply(Apply(f, data), data) == Apply(f, data)
    ensures Apply(f, FincaData(None, None, None, None, None)) == f
  {
  }

  /** The result of a service call and the tables after it. */
  datatype Paso<T> = Paso(result: Result<T>, after: Tables)

  // ----- listar_fincas -----

  /** `listar_fincas`: every farm once, in `nombre` order (`Meta.ordering`). */
  ghost function ListarFincas(fincas: map<FincaId, Finca>): (r: seq<FincaId>)
    ensures |r| == |fincas.Keys|
    ensures forall k :: 0 <= k < |r| ==> r[k] in fincas
    ensures forall id :: id in fincas ==> id in r
    ensures forall k, l :: 0 <= k < l < |r| ==> r[k] != r[l] && TagLe(fincas[r[k]].nombre, fincas[r[l]].nombre)
  {
    EnOrden(fincas, fincas.Keys)
  }

  /** The farms `ids`, in `nombre` order. */
  ghost function EnOrden(fincas: map<FincaId, Finca>, ids: set<FincaId>): (r: seq<FincaId>)
    requires ids <= fincas.Keys
    ensures |r| == |ids|
    ensures forall k :: 0 <= k < |r| ==> r[k] in ids
    ensures forall id :: id in ids ==> id in r
    ensures forall k, l :: 0 <= k < l < |r| ==> r[k] != r[l] && TagLe(fincas[r[k]].nombre, fincas[r[l]].nombre)
    decreases |ids|
  {
    if ids == {} then []
    else
      LeastNombreExists(fincas, ids);
      var m :| m in ids && forall j :: j in ids ==> TagLe(fincas[m].nombre, fincas[j].nombre);
      var rest := EnOrden(fincas, ids - {m});
      PrimeroEnOrden(fincas, ids, m, rest);
      [m] + rest
  }

  /** The least farm followed by the others in order is all of them in order. */
  lemma PrimeroEnOrden(fincas: map<FincaId, Finca>, ids: set<FincaId>, m: FincaId, rest: seq<FincaId>)
    requires ids <= fincas.Keys && m in ids
    requires forall j :: j in ids ==> TagLe(fincas[m].nombre, fincas[j].nombre)
    requires |rest| == |ids - {m}|
    requires forall k :: 0 <= k < |rest| ==> rest[k] in ids - {m}
    requires forall id :: id in ids - {m} ==> id in rest
    requires forall k, l :: 0 <= k < l < |rest| ==> rest[k] != rest[l] && TagLe(fincas[rest[k]].nombre, fincas[rest[l]].nombre)
    ensures |[m] + rest| == |ids|
    ensures forall k :: 0 <= k < |[m] + rest| ==> ([m] + rest)[k] in ids
    ensures forall id :: id in ids ==> id in [m] + rest
    ensures forall k, l :: 0 <= k < l < |[m] + rest| ==>
      ([m] + rest)[k] != ([m] + rest)[l] && TagLe(fincas[([m] + rest)[k]].nombre, fincas[([m] + rest)[l]].nombre)
  {
    var r := [m] + rest;
    assert forall k :: 1 <= k < |r| ==> r[k] == rest[k - 1];
  }

  lemma {:induction false} LeastNombreExists(fincas: map<FincaId, Finca>, ids: set<FincaId>)
    requires ids != {} && ids <= fincas.Keys
    ensures exists m :: m in ids && forall j :: j in ids ==> TagLe(fincas[m].nombre, fincas[j].nombre)
    decreases |ids|
  {
    var x :| x in ids;
    if ids == {x} {
      TagLeReflexive(fincas[x].nombre);
    } else {
      LeastNombreExists(fincas, ids - {x});
      var m :| m in ids - {x} && forall j :: j in ids - {x} ==> TagLe(fincas[m].nombre, fincas[j].nombre);
      if TagLe(fincas[x].nombre, fincas[m].nombre) {
        TagLeReflexive(fincas[x].nombre);
        forall j | j in ids ensures TagLe(fincas[x].nombre, fincas[j].nombre) {
          if j != x { TagLeTransitive(fincas[x].nombre, fincas[m].nombre, fincas[j].nombre); }
        }
      } else {
        TagLeTotal(fincas[x].nombre, fincas[m].nombre);
        assert forall j :: j in ids ==> TagLe(fincas[m].nombre, fincas[j].nombre);
      }
    }
  }

  // ----- crear_finca -----

  /** `crear_finca` as written: `create` inserts the row first (the store refuses
      a clashing name or code), then `full_clean` runs; when it fails the row is
      already stored. */
  function CrearFincaComoEscrito(t: Tables, data: FincaData): (p: Paso<FincaId>)
    ensures p.result.Success? ==>
      p.result.value == t.nextFincaId && t.nextFincaId in p.after.fincas && p.after.fincas[t.nextFincaId] == Apply(SIN_DATOS, data)
  {
    var f := Apply(SIN_DATOS, data);
    if Clashes(t.fincas, t.nextFincaId, f) then Paso(Failure(IntegrityError), t)
    else
      var t1 := t.(fincas := t.fincas[t.nextFincaId := f], nextFincaId := t.nextFincaId + 1);
      var check := FullClean(f);
      if check.Fail? then Paso(Failure(check.error), t1) else Paso(Success(t.nextFincaId), t1)
  }

  /** The code as written stores a farm whose code is too short, and reports a
      validation error for it. */
  lemma CrearFincaDejaFilaInvalida(t: Tables, data: FincaData)
    requires ValidTables(t)
    requires var f := Apply(SIN_DATOS, data); FieldsValid(f) && |f.codigo| < 3 && !Clashes(t.fincas, t.nextFincaId, f)
    ensures var p := CrearFincaComoEscrito(t, data);
      && p.result.Failure? && p.result.error.ValidationError?
      && t.nextFincaId !in t.fincas
      && t.nextFincaId in p.after.fincas && |p.after.fincas[t.nextFincaId].codigo| < 3
  {
  }

  /** For example, an empty store and a farm coded `ab`. */
  lemma CrearFincaEjemplo()
    ensures var t := Tables(map[], 0, map[], 0, [], [], [], [], [], [], [], []);
      var p := CrearFincaComoEscrito(t, FincaData(Some("Norte"), None, Some("ab"), None, None));
      p.result.Failure? && p.after.fincas == map[0 := Finca("Norte", "", "ab", "", "")]
  {
    var t := Tables(map[], 0, map[], 0, [], [], [], [], [], [], [], []);
    var f := Finca("Norte", "", "ab", "", "");
    assert Apply(SIN_DATOS, FincaData(Some("Norte"), None, Some("ab"), None, None)) == f;
    assert !Clashes(t.fincas, 0, f);
  }

  /** Every stored farm passes `full_clean`. */
  predicate FincasValidas(fincas: map<FincaId, Finca>) {
    forall id :: id in fincas ==> FullClean(fincas[id]).Pass?
  }

  /** `crear_finca` validating before it writes: a farm is stored only when it
      passes `full_clean` and clashes with no other. */
  function CrearFincaValidada(t: Tables, data: FincaData): (p: Paso<FincaId>)
    ensures p.result.Success? ==>
      p.result.value == t.nextFincaId && t.nextFincaId in p.after.fincas && p.after.fincas[t.nextFincaId] == Apply(SIN_DATOS, data)
  {
    var f := Apply(SIN_DATOS, data);
    var check := FullClean(f);
    if check.Fail? then Paso(Failure(check.error), t)
    else if Clashes(t.fincas, t.nextFincaId, f) then Paso(Failure(IntegrityError), t)
    else Paso(Success(t.nextFincaId), t.(fincas := t.fincas[t.nextFincaId := f], nextFincaId := t.nextFincaId + 1))
  }

  /** Validating first makes creation all-or-nothing, keeps every stored farm
      valid, and adds exactly the new farm under the next key. */
  lemma CrearFincaValidadaSpec(t: Tables, data: FincaData)
    requires ValidTables(t)
    ensures var p := CrearFincaValidada(t, data);
      && ValidTables(p.after)
      && (p.result.Failure? ==> p.after == t)
      && (p.result.Failure? <==>
            FullClean(Apply(SIN_DATOS, data)).Fail? || Clashes(t.fincas, t.nextFincaId, Apply(SIN_DATOS, data)))
      && (p.result.Success? ==>
            && p.after == t.(fincas := t.fincas[t.nextFincaId := Apply(SIN_DATOS, data)], nextFincaId := t.nextFincaId + 1)
            && |Apply(SIN_DATOS, data).codigo| >= 3)
      && (FincasValidas(t.fincas) ==> FincasValidas(p.after.fincas))
  {
    var f := Apply(SIN_DATOS, data);
    if FullClean(f).Pass? && !Clashes(t.fincas, t.nextFincaId, f) {
      InsertFincaKeepsValid(t, f);
    }
  }

  /** The corrected service over the store. */
  method CrearFinca(db: Db, data: FincaData) returns (r: Result<FincaId>)
    requires db.Valid()
    modifies db
    ensures db.Valid()
    ensures Paso(r, db.State()) == CrearFincaValidada(old(db.State()), data)
  {
    var f := Apply(SIN_DATOS, data);
    var check := FullClean(f);
    if check.Fail? {
      return Failure(check.error);
    }
    if j :| j in db.fincas && j != db.nextFincaId && (db.fincas[j].nombre == f.nombre || db.fincas[j].codigo == f.codigo) {
      return Failure(IntegrityError);
    }
    var id := db.CreateFinca(f);
    r := Success(id);
  }

  /** The service as written, over the store. */
  method CrearFincaComoEscritoEnDb(db: Db, data: FincaData) returns (r: Result<FincaId>)
    requires db.Valid()
    modifies db
    ensures db.Valid()
    ensures Paso(r, db.State()) == CrearFincaComoEscrito(old(db.State()), data)
  {
    var f := Apply(SIN_DATOS, data);
    if j :| j in db.fincas && j != db.nextFincaId && (db.fincas[j].nombre == f.nombre || db.fincas[j].codigo == f.codigo) {
      return Failure(IntegrityError);
    }
    var id := db.CreateFinca(f);
    var check := FullClean(f);
    if check.Fail? {
      return Failure(check.error);
    }
    r := Success(id);
  }

  // ----- actualizar_finca -----

  /** `actualizar_finca` as written: an unknown id is refused; otherwise `update`
      writes the new fields first (the store refuses a clash), then `full_clean`
      runs; when it fails the new fields are already stored. */
  function ActualizarFincaComoEscrito(t: Tables, id: FincaId, data: FincaData): (p: Paso<FincaId>)
    ensures p.result.Success? ==> p.result.value == id
  {
    if id !in t.fincas then Paso(Failure(ValidationError(FINCA_NO_EXISTE)), t)
    else
      var f := Apply(t.fincas[id], data);
      if Clashes(t.fincas, id, f) then Paso(Failure(IntegrityError), t)
      else
        var t1 := t.(fincas := t.fincas[id := f]);
        var check := FullClean(f);
        if check.Fail? then Paso(Failure(check.error), t1) else Paso(Success(id), t1)
  }

  /** An unknown id changes nothing; a known one gets exactly the fields in
      `data` written, and keeps the others, even when validation then fails. */
  lemma ActualizarFincaComoEscritoSpec(t: Tables, id: FincaId, data: FincaData)
    ensures var p := ActualizarFincaComoEscrito(t, id, data);
      && (id !in t.fincas ==> p == Paso(Failure(ValidationError(FINCA_NO_EXISTE)), t))
      && (id in t.fincas && !Clashes(t.fincas, id, Apply(t.fincas[id], data)) ==>
            && p.after == t.(fincas := t.fincas[id := Apply(t.fincas[id], data)])
            && (p.result.Success? <==> FullClean(Apply(t.fincas[id], data)).Pass?))
  {
  }

  /** The code as written stores an update that fails validation. */
  lemma ActualizarFincaDejaCambioInvalido(t: Tables, id: FincaId, data: FincaData)
    requires ValidTables(t) && id in t.fincas && FincasValidas(t.fincas)
    requires var f := Apply(t.fincas[id], data); FieldsValid(f) && |f.codigo| < 3 && !Clashes(t.fincas, id, f)
    ensures var p := ActualizarFincaComoEscrito(t, id, data);
      && p.result.Failure? && p.result.error.ValidationError?
      && !FincasValidas(p.after.fincas)
  {
    var p := ActualizarFincaComoEscrito(t, id, data);
    assert FullClean(p.after.fincas[id]).Fail?;
  }

  /** `actualizar_finca` validating before it writes. */
  function ActualizarFincaValidada(t: Tables, id: FincaId, data: FincaData): (p: Paso<FincaId>)
    ensures p.result.Success? ==> p.result.value == id
  {
    if id !in t.fincas then Paso(Failure(ValidationError(FINCA_NO_EXISTE)), t)
    else
      var f := Apply(t.fincas[id], data);
      var check := FullClean(f);
      if check.Fail? then Paso(Failure(check.error), t)
      else if Clashes(t.fincas, id, f) then Paso(Failure(IntegrityError), t)
      else Paso(Success(id), t.(fincas := t.fincas[id := f]))
  }

  /** Validating first makes the update all-or-nothing and keeps every stored farm
      valid; a successful update writes exactly the fields in `data`. */
  lemma ActualizarFincaValidadaSpec(t: Tables, id: FincaId, data: FincaData)
    requires ValidTables(t)
    ensures var p := ActualizarFincaValidada(t, id, data);
      && ValidTables(p.after)
      && (p.result.Failure? ==> p.after == t)
      && (id !in t.fincas ==> p.result == Failure(ValidationError(FINCA_NO_EXISTE)))
      && (p.result.Success? ==> id in t.fincas && p.after == t.(fincas := t.fincas[id := Apply(t.fincas[id], data)]))
      && (FincasValidas(t.fincas) ==> FincasValidas(p.after.fincas))
  {
    if id in t.fincas {
      var f := Apply(t.fincas[id], data);
      if FullClean(f).Pass? && !Clashes(t.fincas, id, f) {
        ReplaceFincaKeepsValid(t, id, f);
      }
    }
  }

  method ActualizarFinca(db: Db, id: FincaId, data: FincaData) returns (r: Result<FincaId>)
    requires db.Valid()
    modifies db
    ensures db.Valid()
    ensures Paso(r, db.State()) == ActualizarFincaValidada(old(db.State()), id, data)
  {
    if id !in db.fincas {
      return Failure(ValidationError(FINCA_NO_EXISTE));
    }
    var f := Apply(db.fincas[id], data);
    var check := FullClean(f);
    if check.Fail? {
      return Failure(check.error);
    }
    if j :| j in db.fincas && j != id && (db.fincas[j].nombre == f.nombre || db.fincas[j].codigo == f.codigo) {
      return Failure(IntegrityError);
    }
    db.SaveFinca(id, f);
    r := Success(id);
  }

  method ActualizarFincaComoEscritoEnDb(db: Db, id: FincaId, data: FincaData) returns (r: Result<FincaId>)
    requires db.Valid()
    modifies db
    ensures db.Valid()
    ensures Paso(r, db.State()) == ActualizarFincaComoEscrito(old(db.State()), id, data)
  {
    if id !in db.fincas {
      return Failure(ValidationError(FINCA_NO_EXISTE));
    }
    var f := Apply(db.fincas[id], data);
    if j :| j in db.fincas && j != id && (db.fincas[j].nombre == f.nombre || db.fincas[j].codigo == f.codigo) {
      return Failure(IntegrityError);
    }
    db.SaveFinca(id, f);
    var check := FullClean(f);
    if check.Fail? {
      return Failure(check.error);
    }
    r := Success(id);
  }

  // ----- eliminar_finca -----

  /** Some row still points at the farm through an `on_delete=PROTECT` key. */
  ghost predicate Referenciada(t: Tables, id: FincaId) {
    ReferenciadaEn(t.animals, t.pesajes, t.partos, t.producciones, t.traslados, id)
  }

  /** The same test over the five tables whose keys are protected. */
  predicate ReferenciadaEn(animals: map<AnimalId, Animal>, pesajes: seq<Pesaje>, partos: seq<Parto>,
                           producciones: seq<ProduccionLeche>, traslados: seq<Traslado>, id: FincaId) {
    || (exists a :: a in animals && animals[a].finca == id)
    || (exists k :: 0 <= k < |pesajes| && pesajes[k].finca == id)
    || (exists k :: 0 <= k < |partos| && partos[k].finca == id)
    || (exists k :: 0 <= k < |producciones| && producciones[k].finca == id)
    || (exists k :: 0 <= k < |traslados| && (traslados[k].fincaOrigen == id || traslados[k].fincaDestino == id))
  }

  /** `eliminar_finca`: an unknown id is refused; a farm something still points
      at cannot be deleted; otherwise exactly that farm is removed. */
  ghost function EliminarFinca(t: Tables, id: FincaId): (p: Paso<()>)
    ensures p.result.Success? ==> id in t.fincas && p.after == t.(fincas := t.fincas - {id})
    ensures p.result.Failure? ==> p.after == t
    ensures id !in t.fincas ==> p.result == Failure(ValidationError(FINCA_NO_EXISTE))
  {
    if id !in t.fincas then Paso(Failure(ValidationError(FINCA_NO_EXISTE)), t)
    else if Referenciada(t, id) then Paso(Failure(ProtectedError), t)
    else Paso(Success(()), t.(fincas := t.fincas - {id}))
  }

  /** Deleting keeps the store valid, removes no other farm, and never leaves a
      row pointing at a farm that is gone. */
  lemma EliminarFincaSpec(t: Tables, id: FincaId)
    requires ValidTables(t)
    ensures var p := EliminarFinca(t, id);
      && ValidTables(p.after)
      && p.after.fincas.Keys == (if p.result.Success? then t.fincas.Keys - {id} else t.fincas.Keys)
      && (forall j :: j in p.after.fincas ==> p.after.fincas[j] == t.fincas[j])
      && (p.result.Success? ==> !Referenciada(t, id))
      && (id in t.fincas && Referenciada(t, id) ==> p.result == Failure(ProtectedError))
  {
    if id in t.fincas && !Referenciada(t, id) {
      RemoveFincaKeepsValid(t, id);
    }
  }

  method EliminarFincaEnDb(db: Db, id: FincaId) returns (r: Result<()>)
    requires db.Valid()
    modifies db
    ensures db.Valid()
    ensures Paso(r, db.State()) == EliminarFinca(old(db.State()), id)
  {
    if id !in db.fincas {
      return Failure(ValidationError(FINCA_NO_EXISTE));
    }
    var referenced := ReferenciadaEn(db.animals, db.pesajes, db.partos, db.producciones, db.traslados, id);
    if referenced {
      return Failure(ProtectedError);
    }
    db.DeleteFinca(id);
    r := Success(());
  }
}
