/** The health services (apps/salud/services.py): sanitary events, inseminations
    and gestation confirmations. The writing services are
    `@transaction.atomic`: on any error the store is left as it was. */
module SaludServices {
  import opened Wrappers
  import opened GanaderiaModels
  import opened SaludModels
  import opened Store

  const ANIMAL_NO_EXISTE := "El animal no existe."
  const ANIMAL_GESTANTE := "No se puede inseminar un animal gestante."
  const YA_CONFIRMADA := "Esta inseminación ya fue confirmada."

  // ----- EventoSanitarioService -----

  /** What `registrar_evento_sanitario` records: an event for an animal that
      exists, refused otherwise. */
  function NuevoEventoSanitario(animals: map<AnimalId, Animal>, fecha: Date, animal: AnimalId, diagnostico: string,
                                tratamiento: string, responsable: string, sintomas: Option<string>)
    : (r: Result<EventoSanitario>)
    ensures r.Success? <==> animal in animals
    ensures r.Failure? ==> r.error == ValidationError(ANIMAL_NO_EXISTE)
    ensures r.Success? ==>
      && r.value.animal == animal && r.value.fecha == fecha && r.value.diagnostico == diagnostico
      && r.value.tratamiento == tratamiento && r.value.responsable == responsable && r.value.sintomas == sintomas
  {
    if animal !in animals then Failure(ValidationError(ANIMAL_NO_EXISTE))
    else Success(EventoSanitario(fecha, animal, diagnostico, tratamiento, responsable, sintomas))
  }

  /** `registrar_evento_sanitario`: inserts one event and changes no animal, or
      changes nothing when the animal does not exist. */
  method RegistrarEventoSanitario(db: Db, fecha: Date, animal: AnimalId, diagnostico: string, tratamiento: string,
                                  responsable: string, sintomas: Option<string>)
    returns (r: Result<EventoSanitario>)
    requires db.Valid()
    modifies db
    ensures db.Valid()
    ensures r == NuevoEventoSanitario(old(db.animals), fecha, animal, diagnostico, tratamiento, responsable, sintomas)
    ensures r.Failure? ==> db.State() == old(db.State())
    ensures r.Success? ==> db.State() == old(db.State()).(eventosSanitarios := old(db.eventosSanitarios) + [r.value])
  {
    if animal !in db.animals {
      return Failure(ValidationError(ANIMAL_NO_EXISTE));
    }
    r := Success(EventoSanitario(fecha, animal, diagnostico, tratamiento, responsable, sintomas));
    AppendEventoSanitarioKeepsValid(db.State(), r.value);
    db.eventosSanitarios := db.eventosSanitarios + [r.value];
  }

  lemma AppendEventoSanitarioKeepsValid(t: Tables, e: EventoSanitario)
    requires ValidTables(t) && e.animal in t.animals
    ensures ValidTables(t.(eventosSanitarios := t.eventosSanitarios + [e]))
  {
  }

  // ----- InseminacionService -----

  /** What `registrar_inseminacion` records: refused exactly when the animal's
      state is the literal `Gestante`. */
  function NuevaInseminacion(animals: map<AnimalId, Animal>, fecha: Date, animal: AnimalId, tipoSemen: string,
                             inseminador: string, responsable: UserId): (r: Result<Inseminacion>)
    requires animal in animals
    ensures r.Failure? <==> animals[animal].estado == GESTANTE
    ensures r.Failure? ==> r.error == ValidationError(ANIMAL_GESTANTE)
    ensures r.Success? ==> r.value == Inseminacion(fecha, animal, tipoSemen, inseminador, responsable)
  {
    if animals[animal].estado == GESTANTE then Failure(ValidationError(ANIMAL_GESTANTE))
    else Success(Inseminacion(fecha, animal, tipoSemen, inseminador, responsable))
  }

  /** The comparison is exact: any other spelling of the state, such as the
      lower-case `gestante`, does not block an insemination. */
  lemma InseminacionComparaExacto(animals: map<AnimalId, Animal>, fecha: Date, animal: AnimalId, tipoSemen: string,
                                  inseminador: string, responsable: UserId)
    requires animal in animals && animals[animal].estado == "gestante"
    ensures NuevaInseminacion(animals, fecha, animal, tipoSemen, inseminador, responsable).Success?
  {
  }

  /** `registrar_inseminacion` for a saved animal: inserts one insemination and
      leaves the animal as it was, or changes nothing. */
  method RegistrarInseminacion(db: Db, fecha: Date, animal: AnimalId, tipoSemen: string, inseminador: string,
                               responsable: UserId)
    returns (r: Result<Inseminacion>)
    requires db.Valid() && animal in db.animals
    modifies db
    ensures db.Valid()
    ensures r == NuevaInseminacion(old(db.animals), fecha, animal, tipoSemen, inseminador, responsable)
    ensures r.Failure? ==> db.State() == old(db.State())
    ensures r.Success? ==> db.State() == old(db.State()).(inseminaciones := old(db.inseminaciones) + [r.value])
  {
    if db.animals[animal].estado == GESTANTE {
      return Failure(ValidationError(ANIMAL_GESTANTE));
    }
    r := Success(Inseminacion(fecha, animal, tipoSemen, inseminador, responsable));
    AppendInseminacionKeepsValid(db.State(), r.value);
    db.inseminaciones := db.inseminaciones + [r.value];
  }

  lemma AppendInseminacionKeepsValid(t: Tables, i: Inseminacion)
    requires ValidTables(t) && i.animal in t.animals
    ensures ValidTables(t.(inseminaciones := t.inseminaciones + [i]))
  {
  }

  // ----- GestacionService -----

  /** `obtener_inseminaciones_pendientes`: the inseminations with no confirmation. */
  function Pendientes(inseminaciones: seq<Inseminacion>, confirmaciones: seq<ConfirmacionGestacion>)
    : (r: set<InseminacionId>)
    ensures forall i :: i in r ==> i < |inseminaciones|
    ensures forall i :: i in r <==>
      0 <= i < |inseminaciones| && forall k :: 0 <= k < |confirmaciones| ==> confirmaciones[k].inseminacion != i
  {
    set i | 0 <= i < |inseminaciones| && !Confirmada(confirmaciones, i)
  }

  /** With no confirmation yet, every stored insemination is pending. */
  lemma PendientesSinConfirmar(inseminaciones: seq<Inseminacion>)
    ensures forall i :: i in Pendientes(inseminaciones, []) <==> 0 <= i < |inseminaciones|
  {
  }

  /** A new insemination is pending. */
  lemma PendientesTrasInseminar(inseminaciones: seq<Inseminacion>, confirmaciones: seq<ConfirmacionGestacion>,
                                nueva: Inseminacion)
    requires forall k :: 0 <= k < |confirmaciones| ==> confirmaciones[k].inseminacion < |inseminaciones|
    ensures Pendientes(inseminaciones + [nueva], confirmaciones) ==
            Pendientes(inseminaciones, confirmaciones) + {|inseminaciones|}
  {
  }

  /** A confirmation takes its insemination, and only it, out of the pending set. */
  lemma PendientesTrasConfirmar(inseminaciones: seq<Inseminacion>, confirmaciones: seq<ConfirmacionGestacion>,
                                c: ConfirmacionGestacion)
    ensures Pendientes(inseminaciones, confirmaciones + [c]) ==
            Pendientes(inseminaciones, confirmaciones) - {c.inseminacion}
  {
    assert (confirmaciones + [c])[|confirmaciones|] == c;
    assert forall k :: 0 <= k < |confirmaciones| ==> (confirmaciones + [c])[k] == confirmaciones[k];
  }

  /** What `confirmar_gestacion` records for a saved insemination: refused when
      it already has a confirmation. */
  function NuevaConfirmacion(confirmaciones: seq<ConfirmacionGestacion>, inseminacion: InseminacionId,
                             fechaConfirmacion: Date, metodoDiagnostico: string, resultado: string,
                             responsable: string, observaciones: Option<string>)
    : (r: Result<ConfirmacionGestacion>)
    ensures r.Failure? <==> Confirmada(confirmaciones, inseminacion)
    ensures r.Failure? ==> r.error == ValidationError(YA_CONFIRMADA)
    ensures r.Success? ==> r.value.inseminacion == inseminacion && r.value.resultado == resultado
  {
    if Confirmada(confirmaciones, inseminacion) then Failure(ValidationError(YA_CONFIRMADA))
    else Success(ConfirmacionGestacion(fechaConfirmacion, metodoDiagnostico, resultado, responsable, observaciones,
                                       inseminacion))
  }

  /** `confirmar_gestacion`: links one confirmation to the insemination and sets
      its animal's state to `Gestante` or `No gestante`; an insemination already
      confirmed is refused and nothing changes. */
  method ConfirmarGestacion(db: Db, inseminacion: InseminacionId, fechaConfirmacion: Date, metodoDiagnostico: string,
                            resultado: string, responsable: string, observaciones: Option<string>)
    returns (r: Result<ConfirmacionGestacion>)
    requires db.Valid() && inseminacion < |db.inseminaciones|
    modifies db
    ensures db.Valid()
    ensures r == NuevaConfirmacion(old(db.confirmaciones), inseminacion, fechaConfirmacion, metodoDiagnostico,
                                   resultado, responsable, observaciones)
    ensures r.Failure? ==> db.State() == old(db.State())
    ensures r.Success? ==>
      var id := old(db.inseminaciones)[inseminacion].animal;
      db.State() == old(db.State()).(
        confirmaciones := old(db.confirmaciones) + [r.value],
        animals := old(db.animals)[id := old(db.animals)[id].(estado := EstadoTrasConfirmacion(resultado))])
  {
    r := NuevaConfirmacion(db.confirmaciones, inseminacion, fechaConfirmacion, metodoDiagnostico, resultado,
                           responsable, observaciones);
    if r.Success? {
      var id := db.inseminaciones[inseminacion].animal;
      ghost var t1 := db.State().(confirmaciones := db.confirmaciones + [r.value]);
      AppendConfirmacionKeepsValid(db.State(), r.value);
      db.confirmaciones := db.confirmaciones + [r.value];
      assert db.State() == t1;
      db.SaveEstado(id, EstadoTrasConfirmacion(resultado));
    }
  }

  lemma AppendConfirmacionKeepsValid(t: Tables, c: ConfirmacionGestacion)
    requires ValidTables(t) && c.inseminacion < |t.inseminaciones| && !Confirmada(t.confirmaciones, c.inseminacion)
    ensures ValidTables(t.(confirmaciones := t.confirmaciones + [c]))
  {
    var cs := t.confirmaciones + [c];
    forall k, l | 0 <= k < l < |cs| ensures cs[k].inseminacion != cs[l].inseminacion {
      if l == |t.confirmaciones| {
        assert cs[k] == t.confirmaciones[k];
      }
    }
  }

  /** A confirmed insemination stays confirmed: a second `confirmar_gestacion`
      on it is refused. */
  lemma ConfirmarDosVeces(confirmaciones: seq<ConfirmacionGestacion>, inseminacion: InseminacionId,
                          fecha: Date, metodo: string, resultado: string, responsable: string,
                          observaciones: Option<string>, fecha2: Date, metodo2: string, resultado2: string,
                          responsable2: string, observaciones2: Option<string>)
    requires NuevaConfirmacion(confirmaciones, inseminacion, fecha, metodo, resultado, responsable, observaciones).Success?
    ensures var c := NuevaConfirmacion(confirmaciones, inseminacion, fecha, metodo, resultado, responsable, observaciones).value;
      NuevaConfirmacion(confirmaciones + [c], inseminacion, fecha2, metodo2, resultado2, responsable2, observaciones2)
        == Failure(ValidationError(YA_CONFIRMADA))
  {
    var c := NuevaConfirmacion(confirmaciones, inseminacion, fecha, metodo, resultado, responsable, observaciones).value;
    assert (confirmaciones + [c])[|confirmaciones|].inseminacion == inseminacion;
  }

  /** After a `gestante` confirmation, the animal cannot be inseminated again. */
  lemma GestanteNoSeInsemina(animals: map<AnimalId, Animal>, id: AnimalId, fecha: Date, tipoSemen: string,
                             inseminador: string, responsable: UserId)
    requires id in animals
    ensures var after := animals[id := animals[id].(estado := EstadoTrasConfirmacion("gestante"))];
      NuevaInseminacion(after, fecha, id, tipoSemen, inseminador, responsable) == Failure(ValidationError(ANIMAL_GESTANTE))
  {
  }

  /** After any other result the animal can be inseminated again. */
  lemma NoGestanteSeInsemina(animals: map<AnimalId, Animal>, id: AnimalId, resultado: string, fecha: Date,
                             tipoSemen: string, inseminador: string, responsable: UserId)
    requires id in animals && resultado != "gestante"
    ensures var after := animals[id := animals[id].(estado := EstadoTrasConfirmacion(resultado))];
      NuevaInseminacion(after, fecha, id, tipoSemen, inseminador, responsable).Success?
  {
  }
}
