/** `AnimalService` (apps/ganaderia/services.py): the livestock operations. Each
    service is `@transaction.atomic`, so on any error the store is left exactly
    as it was. */
module AnimalService {
  import opened Wrappers
  import opened Text
  import opened FincaModels
  import opened GanaderiaModels
  import opened Store
  import GanaderiaSignals

  const SIN_ANIMAL := "El número de arete no corresponde a ningún animal registrado"
  const NO_HEMBRA := "El animal seleccionado no puede ser madre porque no es hembra."
  const NO_ELEGIBLE := "No se puede registrar parto para esta hembra."
  const ARETE_DUPLICADO := "Ya existe un animal registrado con ese número de arete."

  /** `get_by_arete`: delegates to the manager. */
  method GetByArete(db: Db, numeroArete: string) returns (r: Option<AnimalId>)
    requires db.Valid()
    ensures r.None? <==> forall id :: id in db.animals ==> !IExact(db.animals[id].numeroArete, numeroArete)
    ensures r.Some? ==> IsFirstByArete(db.animals, numeroArete, r.value)
  {
    r := db.GetByArete(numeroArete);
    FirstByAreteIsFirst(db.animals, numeroArete);
  }

  /** What `registrar_pesaje` records: a weighing of the first animal matching the
      tag case-insensitively, refused when there is none or `Pesaje.clean` fails. */
  ghost function NuevoPesaje(animals: map<AnimalId, Animal>, numeroArete: string, fecha: Date, peso: real,
                             finca: FincaId): (r: Result<Pesaje>)
    ensures r.Success? ==> r.value.peso > 0.0
  {
    var first := FirstByArete(animals, numeroArete);
    if first.None? then Failure(ValidationError(SIN_ANIMAL))
    else
      var p := Pesaje(fecha, peso, first.value, finca);
      var check := PesajeClean(p, animals[first.value]);
      if check.Fail? then Failure(check.error) else Success(p)
  }

  /** A weighing is refused with the "no animal" message exactly when no tag
      matches; otherwise it is recorded exactly when the weight is positive and
      the first matching animal is not in a final state. */
  lemma NuevoPesajeSpec(animals: map<AnimalId, Animal>, numeroArete: string, fecha: Date, peso: real, finca: FincaId)
    ensures var r := NuevoPesaje(animals, numeroArete, fecha, peso, finca);
      && (r == Failure(ValidationError(SIN_ANIMAL)) <==>
            forall id :: id in animals ==> !IExact(animals[id].numeroArete, numeroArete))
      && (r.Success? <==>
            && (exists id :: id in animals && IExact(animals[id].numeroArete, numeroArete))
            && peso > 0.0 && !EstadoFinal(animals[FirstByArete(animals, numeroArete).value].estado))
      && (r.Success? ==>
            && IsFirstByArete(animals, numeroArete, r.value.animal)
            && r.value == Pesaje(fecha, peso, r.value.animal, finca))
  {
    FirstByAreteIsFirst(animals, numeroArete);
  }

  /** The lookup and `full_clean` steps of `registrar_pesaje`. */
  method PrepararPesaje(db: Db, numeroArete: string, fecha: Date, peso: real, finca: FincaId)
    returns (r: Result<Pesaje>)
    requires db.Valid()
    ensures r == NuevoPesaje(db.animals, numeroArete, fecha, peso, finca)
  {
    var animal := db.GetByArete(numeroArete);
    if animal.None? {
      return Failure(ValidationError(SIN_ANIMAL));
    }
    var pesaje := Pesaje(fecha, peso, animal.value, finca);
    var check := PesajeClean(pesaje, db.animals[animal.value]);
    if check.Fail? {
      return Failure(check.error);
    }
    r := Success(pesaje);
  }

  /** `registrar_pesaje`: inserts the weighing `NuevoPesaje` describes, or nothing. */
  method RegistrarPesaje(db: Db, numeroArete: string, fecha: Date, peso: real, finca: FincaId, usuario: Option<UserId>)
    returns (r: Result<Pesaje>)
    requires db.Valid() && finca in db.fincas
    modifies db
    ensures db.Valid()
    ensures r == NuevoPesaje(old(db.animals), numeroArete, fecha, peso, finca)
    ensures r.Failure? ==> db.State() == old(db.State())
    ensures r.Success? ==> db.State() == old(db.State()).(pesajes := old(db.pesajes) + [r.value])
  {
    r := PrepararPesaje(db, numeroArete, fecha, peso, finca);
    if r.Success? {
      AppendPesajeKeepsValid(db.State(), r.value);
      db.pesajes := db.pesajes + [r.value];
    }
  }

  /** The animal `Animal.objects.get(numero_arete=tag)` returns: the exact match. */
  ghost function MadrePorArete(animals: map<AnimalId, Animal>, numeroArete: string): (r: Option<AnimalId>)
    requires UniqueAretes(animals)
    ensures r.None? <==> !ExisteArete(animals, numeroArete)
    ensures r.Some? ==> r.value in animals && animals[r.value].numeroArete == numeroArete
  {
    if ExisteArete(animals, numeroArete) then
      var m :| m in animals && animals[m].numeroArete == numeroArete;
      Some(m)
    else None
  }

  /** What `registrar_parto` records, with `cria` the key the calf will get: the
      mother must exist under the exact tag, be female, be able to give birth, and
      the calf's tag must be new. */
  ghost function NuevoParto(animals: map<AnimalId, Animal>, numeroAreteMadre: string, numeroAreteCria: string,
                            cria: AnimalId, fechaNac: Date, finca: FincaId, raza: string, sexo: string,
                            peso: Option<real>, usuario: Option<UserId>): (r: Result<Parto>)
    requires UniqueAretes(animals)
    ensures r.Success? ==> r.value.madre in animals
  {
    var madre := MadrePorArete(animals, numeroAreteMadre);
    if madre.None? then Failure(DoesNotExist)
    else
      var m := madre.value;
      if animals[m].sexo != "F" then Failure(Exception(NO_HEMBRA))
      else if !CanRegisterParto(animals[m]) then Failure(Exception(NO_ELEGIBLE))
      else if ExisteArete(animals, numeroAreteCria) then Failure(Exception(ARETE_DUPLICADO))
      else Success(Parto(fechaNac, m, Some(cria), finca, peso, raza, sexo, usuario))
  }

  /** The outcome of `registrar_parto` for every mother the exact tag can name:
      not found, not female, not able to give birth, calf tag taken, or a birth
      of that mother with the calf under the next key. */
  lemma NuevoPartoSpec(animals: map<AnimalId, Animal>, numeroAreteMadre: string, numeroAreteCria: string,
                       cria: AnimalId, fechaNac: Date, finca: FincaId, raza: string, sexo: string,
                       peso: Option<real>, usuario: Option<UserId>)
    requires UniqueAretes(animals)
    ensures var r := NuevoParto(animals, numeroAreteMadre, numeroAreteCria, cria, fechaNac, finca, raza, sexo, peso, usuario);
      && (!ExisteArete(animals, numeroAreteMadre) ==> r == Failure(DoesNotExist))
      && (forall m :: m in animals && animals[m].numeroArete == numeroAreteMadre ==>
            && (animals[m].sexo != "F" ==> r == Failure(Exception(NO_HEMBRA)))
            && (animals[m].sexo == "F" && animals[m].estado != ACTIVO ==> r == Failure(Exception(NO_ELEGIBLE)))
            && (CanRegisterParto(animals[m]) && ExisteArete(animals, numeroAreteCria) ==>
                  r == Failure(Exception(ARETE_DUPLICADO)))
            && (CanRegisterParto(animals[m]) && !ExisteArete(animals, numeroAreteCria) ==>
                  r == Success(Parto(fechaNac, m, Some(cria), finca, peso, raza, sexo, usuario))))
  {
    var madre := MadrePorArete(animals, numeroAreteMadre);
    if madre.Some? {
      forall m | m in animals && animals[m].numeroArete == numeroAreteMadre ensures m == madre.value {
      }
    }
  }

  /** The checks of `registrar_parto`, in the order it makes them; the calf is to
      get the next free key. */
  method PrepararParto(db: Db, numeroAreteMadre: string, numeroAreteCria: string, fechaNac: Date,
                       finca: FincaId, raza: string, sexo: string, peso: Option<real>, usuario: Option<UserId>)
    returns (r: Result<Parto>)
    requires db.Valid()
    ensures r == NuevoParto(db.animals, numeroAreteMadre, numeroAreteCria, db.nextAnimalId,
                            fechaNac, finca, raza, sexo, peso, usuario)
    ensures r.Success? ==> r.value.madre in db.animals && !ExisteArete(db.animals, numeroAreteCria)
  {
    var found := db.Get(numeroAreteMadre);
    if found.Failure? {
      return Failure(found.error);
    }
    var m := found.value;
    var madre := db.animals[m];
    if madre.sexo != "F" {
      return Failure(Exception(NO_HEMBRA));
    }
    if !CanRegisterParto(madre) {
      return Failure(Exception(NO_ELEGIBLE));
    }
    if ExisteArete(db.animals, numeroAreteCria) {
      return Failure(Exception(ARETE_DUPLICADO));
    }
    r := Success(Parto(fechaNac, m, Some(db.nextAnimalId), finca, peso, raza, sexo, usuario));
  }

  /** `registrar_parto`: on success the calf (active, in the given farm, child of
      the mother) gets the next key and the birth is recorded; the mother's own
      record is not touched. */
  method RegistrarParto(db: Db, fechaNac: Date, numeroAreteMadre: string, numeroAreteCria: string,
                        nombreCria: string, finca: FincaId, raza: string, sexo: string,
                        peso: Option<real>, usuario: Option<UserId>)
    returns (r: Result<Parto>)
    requires db.Valid() && finca in db.fincas
    modifies db
    ensures db.Valid()
    ensures r == NuevoParto(old(db.animals), numeroAreteMadre, numeroAreteCria, old(db.nextAnimalId),
                            fechaNac, finca, raza, sexo, peso, usuario)
    ensures r.Failure? ==> db.State() == old(db.State())
    ensures r.Success? ==>
      var cria := old(db.nextAnimalId);
      db.State() == old(db.State()).(
        animals := old(db.animals)[cria := Animal(numeroAreteCria, nombreCria, Some(fechaNac), raza, sexo, ACTIVO, finca, Some(r.value.madre))],
        nextAnimalId := cria + 1,
        partos := old(db.partos) + [r.value])
  {
    r := PrepararParto(db, numeroAreteMadre, numeroAreteCria, fechaNac, finca, raza, sexo, peso, usuario);
    if r.Success? {
      var nueva := Animal(numeroAreteCria, nombreCria, Some(fechaNac), raza, sexo, ACTIVO, finca, Some(r.value.madre));
      var cria := db.CreateAnimal(nueva);
      db.CreateParto(r.value);
      GanaderiaSignals.PostPartoCrear(db, r.value, true);
    }
  }

  /** What `registrar_produccion` records: a milking of the first animal matching
      the tag, booked to that animal's farm, refused when `ProduccionLeche.clean`
      fails. */
  ghost function NuevaProduccion(animals: map<AnimalId, Animal>, numeroArete: string, fecha: Date,
                                 pesoAm: Option<real>, pesoPm: Option<real>): (r: Result<ProduccionLeche>)
    ensures r.Success? ==> PesosNoNegativos(r.value)
  {
    var first := FirstByArete(animals, numeroArete);
    if first.None? then Failure(ValidationError(SIN_ANIMAL))
    else
      var a := animals[first.value];
      var p := ProduccionLeche(fecha, pesoAm, pesoPm, first.value, a.finca);
      var check := ProduccionClean(p, Some(a));
      if check.Fail? then Failure(check.error) else Success(p)
  }

  /** A milking is refused with the "no animal" message exactly when no tag
      matches; otherwise it is recorded exactly when the first matching animal is
      female and no weight is negative, in that animal's farm. */
  lemma NuevaProduccionSpec(animals: map<AnimalId, Animal>, numeroArete: string, fecha: Date,
                            pesoAm: Option<real>, pesoPm: Option<real>)
    ensures var r := NuevaProduccion(animals, numeroArete, fecha, pesoAm, pesoPm);
      && (r == Failure(ValidationError(SIN_ANIMAL)) <==>
            forall id :: id in animals ==> !IExact(animals[id].numeroArete, numeroArete))
      && (r.Success? <==>
            && (exists id :: id in animals && IExact(animals[id].numeroArete, numeroArete))
            && animals[FirstByArete(animals, numeroArete).value].sexo == "F"
            && (pesoAm.None? || pesoAm.value >= 0.0) && (pesoPm.None? || pesoPm.value >= 0.0))
      && (r.Success? ==>
            && IsFirstByArete(animals, numeroArete, r.value.animal)
            && r.value == ProduccionLeche(fecha, pesoAm, pesoPm, r.value.animal, animals[r.value.animal].finca))
  {
    FirstByAreteIsFirst(animals, numeroArete);
  }

  /** The lookup and `full_clean` steps of `registrar_produccion`. */
  method PrepararProduccion(db: Db, numeroArete: string, fecha: Date, pesoAm: Option<real>, pesoPm: Option<real>)
    returns (r: Result<ProduccionLeche>)
    requires db.Valid()
    ensures r == NuevaProduccion(db.animals, numeroArete, fecha, pesoAm, pesoPm)
  {
    var animal := db.GetByArete(numeroArete);
    if animal.None? {
      return Failure(ValidationError(SIN_ANIMAL));
    }
    var a := db.animals[animal.value];
    var prod := ProduccionLeche(fecha, pesoAm, pesoPm, animal.value, a.finca);
    var check := ProduccionClean(prod, Some(a));
    if check.Fail? {
      return Failure(check.error);
    }
    r := Success(prod);
  }

  /** `registrar_produccion`: inserts the row `NuevaProduccion` describes, or
      nothing. Every call inserts a new row. */
  method RegistrarProduccion(db: Db, numeroArete: string, fecha: Date, pesoAm: Option<real>, pesoPm: Option<real>,
                             usuario: Option<UserId>)
    returns (r: Result<ProduccionLeche>)
    requires db.Valid()
    modifies db
    ensures db.Valid()
    ensures r == NuevaProduccion(old(db.animals), numeroArete, fecha, pesoAm, pesoPm)
    ensures r.Failure? ==> db.State() == old(db.State())
    ensures r.Success? ==> db.State() == old(db.State()).(producciones := old(db.producciones) + [r.value])
  {
    r := PrepararProduccion(db, numeroArete, fecha, pesoAm, pesoPm);
    if r.Success? {
      AppendProduccionKeepsValid(db.State(), r.value);
      db.producciones := db.producciones + [r.value];
    }
  }

  /** How many production rows an animal has for a day. */
  function CountFor(rows: seq<ProduccionLeche>, animal: AnimalId, fecha: Date): (n: nat)
    ensures n <= |rows|
    ensures n > 0 <==> exists k :: 0 <= k < |rows| && rows[k].animal == animal && rows[k].fecha == fecha
  {
    if rows == [] then 0
    else CountFor(rows[..|rows| - 1], animal, fecha)
         + (if rows[|rows| - 1].animal == animal && rows[|rows| - 1].fecha == fecha then 1 else 0)
  }

  /** A second registration for the same animal and day adds a second row: the
      service never updates an existing production. */
  lemma {:induction false} ProduccionNoUpsert(rows: seq<ProduccionLeche>, p: ProduccionLeche)
    ensures CountFor(rows + [p], p.animal, p.fecha) == CountFor(rows, p.animal, p.fecha) + 1
  {
    assert (rows + [p])[..|rows + [p]| - 1] == rows;
  }

  /** What `registrar_evento_salida` records: an exit event for the first animal
      matching the tag, refused unless its type is one of the choices and the
      animal is neither sold nor dead. */
  ghost function NuevoEventoSalida(animals: map<AnimalId, Animal>, numeroArete: string, fecha: Date,
                                   tipoEvento: string, usuario: Option<UserId>, observaciones: string)
    : (r: Result<EventoSalida>)
    ensures r.Success? ==> r.value.animal in animals && r.value.tipoEvento == tipoEvento
  {
    var first := FirstByArete(animals, numeroArete);
    if first.None? then Failure(ValidationError(SIN_ANIMAL))
    else
      var e := EventoSalida(fecha, tipoEvento, first.value, usuario, observaciones);
      var check := EventoSalidaFullClean(e, animals[first.value]);
      if check.Fail? then Failure(check.error) else Success(e)
  }

  /** An exit event is refused with the "no animal" message exactly when no tag
      matches; otherwise it is recorded exactly when its type is one of the
      choices and the first matching animal is neither sold nor dead. */
  lemma NuevoEventoSalidaSpec(animals: map<AnimalId, Animal>, numeroArete: string, fecha: Date,
                              tipoEvento: string, usuario: Option<UserId>, observaciones: string)
    ensures var r := NuevoEventoSalida(animals, numeroArete, fecha, tipoEvento, usuario, observaciones);
      && (r == Failure(ValidationError(SIN_ANIMAL)) <==>
            forall id :: id in animals ==> !IExact(animals[id].numeroArete, numeroArete))
      && (r.Success? <==>
            && (exists id :: id in animals && IExact(animals[id].numeroArete, numeroArete))
            && TipoEventoValido(tipoEvento)
            && animals[FirstByArete(animals, numeroArete).value].estado !in {VENDIDO, MUERTO})
      && (r.Success? ==>
            && IsFirstByArete(animals, numeroArete, r.value.animal)
            && r.value == EventoSalida(fecha, tipoEvento, r.value.animal, usuario, observaciones))
  {
    FirstByAreteIsFirst(animals, numeroArete);
  }

  /** The lookup and `full_clean` steps of `registrar_evento_salida`. */
  method PrepararEventoSalida(db: Db, numeroArete: string, fecha: Date, tipoEvento: string,
                              usuario: Option<UserId>, observaciones: string)
    returns (r: Result<EventoSalida>)
    requires db.Valid()
    ensures r == NuevoEventoSalida(db.animals, numeroArete, fecha, tipoEvento, usuario, observaciones)
  {
    var animal := db.GetByArete(numeroArete);
    if animal.None? {
      return Failure(ValidationError(SIN_ANIMAL));
    }
    var id := animal.value;
    var evento := EventoSalida(fecha, tipoEvento, id, usuario, observaciones);
    var check := EventoSalidaFullClean(evento, db.animals[id]);
    if check.Fail? {
      return Failure(check.error);
    }
    r := Success(evento);
  }

  /** `registrar_evento_salida`: saves the event `NuevoEventoSalida` describes and
      leaves its animal in the state the event type maps to, or changes nothing. */
  method RegistrarEventoSalida(db: Db, numeroArete: string, fecha: Date, tipoEvento: string,
                               usuario: Option<UserId>, observaciones: string)
    returns (r: Result<EventoSalida>)
    requires db.Valid()
    modifies db
    ensures db.Valid()
    ensures r == NuevoEventoSalida(old(db.animals), numeroArete, fecha, tipoEvento, usuario, observaciones)
    ensures r.Failure? ==> db.State() == old(db.State())
    ensures r.Success? ==>
      var id := r.value.animal;
      && id in old(db.animals)
      && db.State() == old(db.State()).(
           eventosSalida := old(db.eventosSalida) + [r.value],
           animals := old(db.animals)[id := old(db.animals)[id].(estado := EstadoTrasSalida(tipoEvento))])
  {
    r := PrepararEventoSalida(db, numeroArete, fecha, tipoEvento, usuario, observaciones);
    if r.Success? {
      GuardarEventoSalida(db, r.value);
    }
  }

  /** `evento.save()`, which fires the `post_save` handler, followed by the
      service's own write of the animal's state. */
  method GuardarEventoSalida(db: Db, evento: EventoSalida)
    requires db.Valid() && evento.animal in db.animals
    modifies db
    ensures db.Valid()
    ensures db.State() == old(db.State()).(
      eventosSalida := old(db.eventosSalida) + [evento],
      animals := old(db.animals)[evento.animal := old(db.animals)[evento.animal].(estado := EstadoTrasSalida(evento.tipoEvento))])
  {
    var id := evento.animal;
    AppendEventoSalidaKeepsValid(db.State(), evento);
    db.eventosSalida := db.eventosSalida + [evento];
    GanaderiaSignals.ActualizarEstadoAnimalEnEvento(db, evento, true);
    // The handler has already written the state, so the service's own write
    // puts back the same row.
    var a := db.animals[id];
    RewriteSameAnimal(db.animals, id);
    db.animals := db.animals[id := a.(estado := EstadoTrasSalida(evento.tipoEvento))];
  }

  // ----- transfers -----

  /** The rows a transfer writes: the animals table afterwards and the transfers made. */
  datatype Batch = Batch(animals: map<AnimalId, Animal>, traslados: seq<Traslado>)

  /** The animal moved to `destino` and marked as transferred. */
  function Moved(animals: map<AnimalId, Animal>, id: AnimalId, destino: FincaId): (r: map<AnimalId, Animal>)
    requires id in animals
    ensures r.Keys == animals.Keys
    ensures r[id].finca == destino && r[id].estado == TRASLADADO && r[id].numeroArete == animals[id].numeroArete
    ensures forall j :: j in animals && j != id ==> r[j] == animals[j]
  {
    animals[id := animals[id].(finca := destino, estado := TRASLADADO)]
  }

  /** One step of `trasladar_animales`: the tag must name an animal outside
      `destino`; the transfer goes from that animal's current farm. */
  ghost function PasoTraslado(animals: map<AnimalId, Animal>, tag: string, destino: FincaId,
                              usuario: Option<UserId>): (r: Result<Traslado>)
    ensures r.Success? ==> r.value.animal in animals && r.value.fincaOrigen != r.value.fincaDestino
    ensures r.Success? ==> r.value.fincaDestino == destino && r.value.fincaOrigen == animals[r.value.animal].finca
  {
    var first := FirstByArete(animals, tag);
    if first.None? then Failure(ValidationError("No existe el animal con arete " + tag))
    else if animals[first.value].finca == destino then
      Failure(ValidationError("El animal " + tag + " ya está en la finca seleccionada"))
    else Success(Traslado(animals[first.value].finca, destino, first.value, usuario))
  }

  /** What `trasladar_animales` does with a list of tags, tag by tag: each tag is
      looked up afresh and its animal is moved before the next tag is read. The
      first error aborts the whole batch. */
  ghost function PlanTraslado(animals: map<AnimalId, Animal>, tags: seq<string>, destino: FincaId,
                              usuario: Option<UserId>): Result<Batch>
    decreases |tags|
  {
    if tags == [] then Success(Batch(animals, []))
    else
      var paso := PasoTraslado(animals, tags[0], destino, usuario);
      if paso.Failure? then Failure(paso.error)
      else Prepend([paso.value], PlanTraslado(Moved(animals, paso.value.animal, destino), tags[1..], destino, usuario))
  }

  /** Unfolds the plan for the tags from position `i` on by one step. */
  lemma PlanTrasladoStep(animals: map<AnimalId, Animal>, tags: seq<string>, i: nat, destino: FincaId,
                         usuario: Option<UserId>)
    requires i < |tags|
    ensures var paso := PasoTraslado(animals, tags[i], destino, usuario);
      && (paso.Failure? ==> PlanTraslado(animals, tags[i..], destino, usuario) == Failure(paso.error))
      && (paso.Success? ==>
            PlanTraslado(animals, tags[i..], destino, usuario) ==
            Prepend([paso.value], PlanTraslado(Moved(animals, paso.value.animal, destino), tags[i + 1..], destino, usuario)))
  {
    assert tags[i..][0] == tags[i] && tags[i..][1..] == tags[i + 1..];
  }

  /** Puts transfers already made in front of the rest of a plan. */
  function Prepend(done: seq<Traslado>, rest: Result<Batch>): Result<Batch> {
    if rest.Failure? then rest else Success(Batch(rest.value.animals, done + rest.value.traslados))
  }

  /** The lookup and `full_clean` steps of one transfer, against the animals as
      the transaction sees them so far. */
  method PrepararTraslado(animals: map<AnimalId, Animal>, tag: string, destino: FincaId, usuario: Option<UserId>)
    returns (r: Result<Traslado>)
    requires UniqueAretes(animals)
    ensures r == PasoTraslado(animals, tag, destino, usuario)
  {
    var animal := GanaderiaModels.GetByArete(animals, tag);
    if animal.None? {
      return Failure(ValidationError("No existe el animal con arete " + tag));
    }
    var id := animal.value;
    if animals[id].finca == destino {
      return Failure(ValidationError("El animal " + tag + " ya está en la finca seleccionada"));
    }
    var traslado := Traslado(animals[id].finca, destino, id, usuario);
    // `full_clean` cannot fail here: its only check, origin != destination, was
    // made just above.
    var check := TrasladoClean(traslado);
    assert check.Pass?;
    r := Success(traslado);
  }

  /** The loop of `trasladar_animales`, run against the animals as the
      transaction sees them: each tag is looked up in the table as the previous
      steps left it. Returns the staged animals table and the new transfers. */
  method PlanificarTraslado(animals0: map<AnimalId, Animal>, listaAretes: seq<string>, destino: FincaId,
                            usuario: Option<UserId>) returns (r: Result<Batch>)
    requires UniqueAretes(animals0)
    ensures r == PlanTraslado(animals0, listaAretes, destino, usuario)
  {
    var animals := animals0;
    var nuevos: seq<Traslado> := [];
    var i := 0;
    ghost var plan := PlanTraslado(animals0, listaAretes, destino, usuario);
    assert listaAretes[i..] == listaAretes;
    assert Prepend(nuevos, plan) == plan by {
      if plan.Success? { assert nuevos + plan.value.traslados == plan.value.traslados; }
    }
    while i < |listaAretes|
      invariant 0 <= i <= |listaAretes|
      invariant UniqueAretes(animals)
      invariant plan == Prepend(nuevos, PlanTraslado(animals, listaAretes[i..], destino, usuario))
    {
      var paso := PrepararTraslado(animals, listaAretes[i], destino, usuario);
      PlanTrasladoStep(animals, listaAretes, i, destino, usuario);
      if paso.Failure? {
        return Failure(paso.error);
      }
      MovedKeepsUnique(animals, paso.value.animal, destino);
      PrependAssoc(nuevos, [paso.value], PlanTraslado(Moved(animals, paso.value.animal, destino), listaAretes[i + 1..], destino, usuario));
      animals := Moved(animals, paso.value.animal, destino);
      nuevos := nuevos + [paso.value];
      i := i + 1;
    }
    assert listaAretes[i..] == [] && nuevos + [] == nuevos;
    r := Success(Batch(animals, nuevos));
  }

  /** `trasladar_animales`: moves every listed animal to `destino`, one transfer
      row each, or, on the first unknown tag or animal already there, changes
      nothing and reports that tag. Under `@transaction.atomic` the loop's writes
      are committed together, or not at all. */
  method TrasladarAnimales(db: Db, listaAretes: seq<string>, destino: FincaId, usuario: Option<UserId>)
    returns (r: Result<seq<Traslado>>)
    requires db.Valid() && destino in db.fincas
    modifies db
    ensures db.Valid()
    ensures var plan := PlanTraslado(old(db.animals), listaAretes, destino, usuario);
      && (plan.Failure? ==> r == Failure(plan.error) && db.State() == old(db.State()))
      && (plan.Success? ==>
            && r == Success(plan.value.traslados)
            && db.State() == old(db.State()).(animals := plan.value.animals,
                                              traslados := old(db.traslados) + plan.value.traslados))
  {
    var batch := PlanificarTraslado(db.animals, listaAretes, destino, usuario);
    if batch.Failure? {
      return Failure(batch.error);
    }
    PlanTrasladoKeepsTags(db.animals, listaAretes, destino, usuario);
    PlanTrasladoValido(db.animals, listaAretes, destino, usuario, db.fincas.Keys);
    CommitKeepsValid(db.State(), batch.value.animals, batch.value.traslados);
    db.animals, db.traslados := batch.value.animals, db.traslados + batch.value.traslados;
    r := Success(batch.value.traslados);
  }

  /** `b` holds the same animals as `a`, with the same tags and mothers. */
  ghost predicate Retagged(a: map<AnimalId, Animal>, b: map<AnimalId, Animal>) {
    && a.Keys == b.Keys
    && forall id :: id in a ==> b[id].numeroArete == a[id].numeroArete && b[id].madre == a[id].madre
  }

  /** Committing moved animals, each in a stored farm, and valid transfers keeps
      the store valid. */
  lemma CommitKeepsValid(t: Tables, animals: map<AnimalId, Animal>, nuevos: seq<Traslado>)
    requires ValidTables(t) && Retagged(t.animals, animals)
    requires forall id :: id in animals ==> animals[id].finca in t.fincas
    requires forall k :: 0 <= k < |nuevos| ==> TrasladoValido(nuevos[k], t.animals.Keys, t.fincas.Keys)
    ensures ValidTables(t.(animals := animals, traslados := t.traslados + nuevos))
  {
    RetaggedValid(t.animals, animals, t.fincas.Keys);
    AppendTrasladosValid(t.traslados, nuevos, t.animals.Keys, t.fincas.Keys);
  }

  lemma RetaggedValid(a: map<AnimalId, Animal>, b: map<AnimalId, Animal>, fincas: set<FincaId>)
    requires AnimalsValid(a, fincas) && UniqueAretes(a) && Retagged(a, b)
    requires forall id :: id in b ==> b[id].finca in fincas
    ensures b.Keys == a.Keys && AnimalsValid(b, fincas) && UniqueAretes(b)
  {
    forall id | id in b
      ensures b[id].madre != Some(id) && (b[id].madre.Some? ==> b[id].madre.value in b)
    {
      assert b[id].madre == a[id].madre;
    }
    forall i, j | i in b && j in b && i != j ensures b[i].numeroArete != b[j].numeroArete {
      assert b[i].numeroArete == a[i].numeroArete;
      assert b[j].numeroArete == a[j].numeroArete;
    }
  }

  lemma AppendTrasladosValid(traslados: seq<Traslado>, nuevos: seq<Traslado>, animals: set<AnimalId>,
                             fincas: set<FincaId>)
    requires TrasladosValid(traslados, animals, fincas)
    requires forall k :: 0 <= k < |nuevos| ==> TrasladoValido(nuevos[k], animals, fincas)
    ensures TrasladosValid(traslados + nuevos, animals, fincas)
  {
    var all := traslados + nuevos;
    forall k | 0 <= k < |all| ensures TrasladoValido(all[k], animals, fincas) {
      if k < |traslados| {
        assert all[k] == traslados[k];
      } else {
        assert all[k] == nuevos[k - |traslados|];
      }
    }
  }

  lemma PrependAssoc(a: seq<Traslado>, b: seq<Traslado>, rest: Result<Batch>)
    ensures Prepend(a, Prepend(b, rest)) == Prepend(a + b, rest)
  {
    if rest.Success? { assert a + (b + rest.value.traslados) == (a + b) + rest.value.traslados; }
  }

  /** Moving an animal keeps every tag, so tags stay unique. */
  lemma MovedKeepsUnique(animals: map<AnimalId, Animal>, id: AnimalId, destino: FincaId)
    requires UniqueAretes(animals) && id in animals
    ensures UniqueAretes(Moved(animals, id, destino))
  {
    RetaggedKeepsUnique(animals, Moved(animals, id, destino));
  }

  /** Tags are all that uniqueness looks at. */
  lemma RetaggedKeepsUnique(a: map<AnimalId, Animal>, b: map<AnimalId, Animal>)
    requires UniqueAretes(a) && Retagged(a, b)
    ensures UniqueAretes(b)
  {
  }

  /** A lookup by tag in a table whose tags are unchanged finds the same animal. */
  lemma RetaggedKeepsLookup(a: map<AnimalId, Animal>, b: map<AnimalId, Animal>, tag: string)
    requires UniqueAretes(a) && Retagged(a, b)
    ensures FirstByArete(b, tag) == FirstByArete(a, tag)
  {
    RetaggedKeepsUnique(a, b);
    assert ByArete(b, tag) == ByArete(a, tag);
    FirstByAreteIsFirst(a, tag);
    FirstByAreteIsFirst(b, tag);
    var f := FirstByArete(a, tag);
    if f.Some? {
      assert IsFirstByArete(b, tag, f.value);
      FirstByAreteUnique(b, tag, f.value, FirstByArete(b, tag).value);
    }
  }

  /** Moving an animal changes neither its tag nor its mother. */
  lemma MovedRetagged(animals: map<AnimalId, Animal>, id: AnimalId, destino: FincaId)
    requires id in animals
    ensures Retagged(animals, Moved(animals, id, destino))
  {
  }

  /** A successful plan only moves animals: every tag and mother stays. */
  lemma {:induction false} PlanTrasladoKeepsTags(animals: map<AnimalId, Animal>, tags: seq<string>,
                                                 destino: FincaId, usuario: Option<UserId>)
    ensures var plan := PlanTraslado(animals, tags, destino, usuario);
      plan.Success? ==> Retagged(animals, plan.value.animals)
    decreases |tags|
  {
    if tags != [] {
      var paso := PasoTraslado(animals, tags[0], destino, usuario);
      if paso.Success? {
        var moved := Moved(animals, paso.value.animal, destino);
        PlanTrasladoKeepsTags(moved, tags[1..], destino, usuario);
        MovedRetagged(animals, paso.value.animal, destino);
      }
    }
  }

  /** Every transfer of a successful plan is between two different farms. */
  lemma {:induction false} PlanTrasladoCambiaFinca(animals: map<AnimalId, Animal>, tags: seq<string>,
                                                   destino: FincaId, usuario: Option<UserId>)
    ensures var plan := PlanTraslado(animals, tags, destino, usuario);
      plan.Success? ==> forall k :: 0 <= k < |plan.value.traslados| ==>
        plan.value.traslados[k].fincaOrigen != plan.value.traslados[k].fincaDestino
    decreases |tags|
  {
    if tags != [] {
      var paso := PasoTraslado(animals, tags[0], destino, usuario);
      if paso.Success? {
        var moved := Moved(animals, paso.value.animal, destino);
        PlanTrasladoCambiaFinca(moved, tags[1..], destino, usuario);
        PrependCambiaFinca(paso.value, PlanTraslado(moved, tags[1..], destino, usuario));
      }
    }
  }

  /** A transfer between two farms put in front of such transfers. */
  /** When the destination and every animal's farm are stored, each transfer of
      a successful batch names a stored animal and goes between two different
      stored farms, and every animal stays in a stored farm. */
  lemma {:induction false} PlanTrasladoValido(animals: map<AnimalId, Animal>, tags: seq<string>,
                                              destino: FincaId, usuario: Option<UserId>, fincas: set<FincaId>)
    requires destino in fincas
    requires forall id :: id in animals ==> animals[id].finca in fincas
    ensures var plan := PlanTraslado(animals, tags, destino, usuario);
      plan.Success? ==>
        && (forall id :: id in plan.value.animals ==> plan.value.animals[id].finca in fincas)
        && (forall k :: 0 <= k < |plan.value.traslados| ==>
              TrasladoValido(plan.value.traslados[k], animals.Keys, fincas))
    decreases |tags|
  {
    if tags != [] {
      var paso := PasoTraslado(animals, tags[0], destino, usuario);
      if paso.Success? {
        var moved := Moved(animals, paso.value.animal, destino);
        forall id | id in moved ensures moved[id].finca in fincas {
          if id != paso.value.animal {
            assert moved[id] == animals[id];
          }
        }
        PlanTrasladoValido(moved, tags[1..], destino, usuario, fincas);
        PrependValido(paso.value, PlanTraslado(moved, tags[1..], destino, usuario), animals.Keys, fincas);
      }
    }
  }

  lemma PrependValido(t: Traslado, rest: Result<Batch>, animals: set<AnimalId>, fincas: set<FincaId>)
    requires TrasladoValido(t, animals, fincas)
    requires rest.Success? ==> forall k :: 0 <= k < |rest.value.traslados| ==>
      TrasladoValido(rest.value.traslados[k], animals, fincas)
    ensures var all := Prepend([t], rest);
      all.Success? ==> forall k :: 0 <= k < |all.value.traslados| ==>
        TrasladoValido(all.value.traslados[k], animals, fincas)
  {
    if rest.Success? {
      var all := [t] + rest.value.traslados;
      forall k | 0 <= k < |all| ensures TrasladoValido(all[k], animals, fincas) {
        if k > 0 { assert all[k] == rest.value.traslados[k - 1]; }
      }
    }
  }

  lemma PrependCambiaFinca(t: Traslado, rest: Result<Batch>)
    requires t.fincaOrigen != t.fincaDestino
    requires rest.Success? ==> forall k :: 0 <= k < |rest.value.traslados| ==>
      rest.value.traslados[k].fincaOrigen != rest.value.traslados[k].fincaDestino
    ensures var all := Prepend([t], rest);
      all.Success? ==> forall k :: 0 <= k < |all.value.traslados| ==>
        all.value.traslados[k].fincaOrigen != all.value.traslados[k].fincaDestino
  {
    if rest.Success? {
      var all := [t] + rest.value.traslados;
      forall k | 0 <= k < |all| ensures all[k].fincaOrigen != all[k].fincaDestino {
        if k > 0 { assert all[k] == rest.value.traslados[k - 1]; }
      }
    }
  }

  /** Once a listed tag names no animal, or an animal already in `destino`, the
      batch fails: moving other animals keeps every tag and never takes an
      animal out of `destino`. */
  lemma {:induction false} PlanTrasladoFallaEn(animals: map<AnimalId, Animal>, tags: seq<string>, j: nat,
                                               destino: FincaId, usuario: Option<UserId>)
    requires UniqueAretes(animals) && j < |tags|
    requires FirstByArete(animals, tags[j]).None? || animals[FirstByArete(animals, tags[j]).value].finca == destino
    ensures PlanTraslado(animals, tags, destino, usuario).Failure?
    decreases |tags|
  {
    var paso := PasoTraslado(animals, tags[0], destino, usuario);
    if j > 0 && paso.Success? {
      var moved := Moved(animals, paso.value.animal, destino);
      MovedRetagged(animals, paso.value.animal, destino);
      RetaggedKeepsUnique(animals, moved);
      RetaggedKeepsLookup(animals, moved, tags[j]);
      assert tags[1..][j - 1] == tags[j];
      PlanTrasladoFallaEn(moved, tags[1..], j - 1, destino, usuario);
    }
  }

  /** A tag listed twice (up to case) makes the whole transfer fail: the second
      lookup finds the animal the first one already moved into `destino`. */
  lemma {:induction false} PlanTrasladoAretesRepetidos(animals: map<AnimalId, Animal>, tags: seq<string>,
                                                       k: nat, l: nat, destino: FincaId, usuario: Option<UserId>)
    requires UniqueAretes(animals) && k < l < |tags| && IExact(tags[k], tags[l])
    ensures PlanTraslado(animals, tags, destino, usuario).Failure?
    decreases |tags|
  {
    if k == 0 {
      PlanTrasladoRepiteElPrimero(animals, tags, l, destino, usuario);
    } else {
      var paso := PasoTraslado(animals, tags[0], destino, usuario);
      if paso.Success? {
        var moved := Moved(animals, paso.value.animal, destino);
        MovedRetagged(animals, paso.value.animal, destino);
        RetaggedKeepsUnique(animals, moved);
        assert tags[1..][k - 1] == tags[k] && tags[1..][l - 1] == tags[l];
        PlanTrasladoAretesRepetidos(moved, tags[1..], k - 1, l - 1, destino, usuario);
      }
    }
  }

  /** The case of `PlanTrasladoAretesRepetidos` where the first tag comes back. */
  lemma PlanTrasladoRepiteElPrimero(animals: map<AnimalId, Animal>, tags: seq<string>, l: nat,
                                    destino: FincaId, usuario: Option<UserId>)
    requires UniqueAretes(animals) && 0 < l < |tags| && IExact(tags[0], tags[l])
    ensures PlanTraslado(animals, tags, destino, usuario).Failure?
  {
    var paso := PasoTraslado(animals, tags[0], destino, usuario);
    if paso.Success? {
      var moved := Moved(animals, paso.value.animal, destino);
      MovedRetagged(animals, paso.value.animal, destino);
      RetaggedKeepsUnique(animals, moved);
      FirstByAreteIExact(animals, tags[0], tags[l]);
      RetaggedKeepsLookup(animals, moved, tags[l]);
      assert tags[1..][l - 1] == tags[l];
      PlanTrasladoFallaEn(moved, tags[1..], l - 1, destino, usuario);
    }
  }

  /** When `trasladar_animales` succeeds: every tag names an animal outside
      `destino`, and no tag is listed twice up to case. */
  ghost predicate TrasladoPosible(animals: map<AnimalId, Animal>, tags: seq<string>, destino: FincaId) {
    && (forall j :: 0 <= j < |tags| ==>
          FirstByArete(animals, tags[j]).Some? && animals[FirstByArete(animals, tags[j]).value].finca != destino)
    && (forall k, l :: 0 <= k < l < |tags| ==> !IExact(tags[k], tags[l]))
  }

  /** The batch succeeds exactly when it is possible. */
  lemma PlanTrasladoExito(animals: map<AnimalId, Animal>, tags: seq<string>, destino: FincaId, usuario: Option<UserId>)
    requires UniqueAretes(animals)
    ensures PlanTraslado(animals, tags, destino, usuario).Success? <==> TrasladoPosible(animals, tags, destino)
  {
    if TrasladoPosible(animals, tags, destino) {
      PlanTrasladoPosible(animals, tags, destino, usuario);
    } else if exists j :: 0 <= j < |tags| &&
                (FirstByArete(animals, tags[j]).None? || animals[FirstByArete(animals, tags[j]).value].finca == destino) {
      var j :| 0 <= j < |tags| &&
               (FirstByArete(animals, tags[j]).None? || animals[FirstByArete(animals, tags[j]).value].finca == destino);
      PlanTrasladoFallaEn(animals, tags, j, destino, usuario);
    } else {
      var k, l :| 0 <= k < l < |tags| && IExact(tags[k], tags[l]);
      PlanTrasladoAretesRepetidos(animals, tags, k, l, destino, usuario);
    }
  }

  /** Two tags that find the same animal are equal up to case. */
  lemma MismoAnimalMismoArete(animals: map<AnimalId, Animal>, a: string, b: string)
    requires FirstByArete(animals, a).Some?
    ensures FirstByArete(animals, a) == FirstByArete(animals, b) ==> IExact(a, b)
  {
    FirstByAreteIsFirst(animals, a);
    FirstByAreteIsFirst(animals, b);
  }

  lemma {:induction false} PlanTrasladoPosible(animals: map<AnimalId, Animal>, tags: seq<string>, destino: FincaId,
                                               usuario: Option<UserId>)
    requires UniqueAretes(animals) && TrasladoPosible(animals, tags, destino)
    ensures PlanTraslado(animals, tags, destino, usuario).Success?
    decreases |tags|
  {
    if tags != [] {
      var x := FirstByArete(animals, tags[0]).value;
      var moved := Moved(animals, x, destino);
      MovedRetagged(animals, x, destino);
      RetaggedKeepsUnique(animals, moved);
      forall j | 0 <= j < |tags[1..]|
        ensures FirstByArete(moved, tags[1..][j]).Some?
        ensures moved[FirstByArete(moved, tags[1..][j]).value].finca != destino
      {
        assert tags[1..][j] == tags[j + 1];
        RetaggedKeepsLookup(animals, moved, tags[j + 1]);
        MismoAnimalMismoArete(animals, tags[0], tags[j + 1]);
      }
      assert TrasladoPosible(moved, tags[1..], destino) by {
        forall k, l | 0 <= k < l < |tags[1..]| ensures !IExact(tags[1..][k], tags[1..][l]) {
          assert tags[1..][k] == tags[k + 1] && tags[1..][l] == tags[l + 1];
        }
      }
      PlanTrasladoPosible(moved, tags[1..], destino, usuario);
    }
  }

  /** The transfer row a tag produces: from the farm of the animal it finds. */
  ghost function Fila(animals: map<AnimalId, Animal>, tag: string, destino: FincaId, usuario: Option<UserId>): Traslado
    requires FirstByArete(animals, tag).Some?
  {
    var x := FirstByArete(animals, tag).value;
    Traslado(animals[x].finca, destino, x, usuario)
  }

  /** The transfer rows of a successful batch: one per tag, in order, each from
      the farm the animal found by that tag was in before the batch. */
  lemma {:induction false} PlanTrasladoFilas(animals: map<AnimalId, Animal>, tags: seq<string>, destino: FincaId,
                                             usuario: Option<UserId>)
    requires UniqueAretes(animals)
    ensures var plan := PlanTraslado(animals, tags, destino, usuario);
      plan.Success? ==>
        && |plan.value.traslados| == |tags|
        && forall k :: 0 <= k < |tags| ==>
             FirstByArete(animals, tags[k]).Some? && plan.value.traslados[k] == Fila(animals, tags[k], destino, usuario)
    decreases |tags|
  {
    var plan := PlanTraslado(animals, tags, destino, usuario);
    if tags != [] && plan.Success? {
      PlanTrasladoExito(animals, tags, destino, usuario);
      var x := FirstByArete(animals, tags[0]).value;
      var moved := Moved(animals, x, destino);
      MovedRetagged(animals, x, destino);
      RetaggedKeepsUnique(animals, moved);
      PlanTrasladoFilas(moved, tags[1..], destino, usuario);
      var rest := PlanTraslado(moved, tags[1..], destino, usuario).value.traslados;
      assert plan.value.traslados == [Fila(animals, tags[0], destino, usuario)] + rest;
      FilasPrepend(animals, tags, destino, usuario, rest);
    }
  }

  /** The first tag's row followed by the later tags' rows, as found after its
      animal moved, are the rows of every tag as found before the batch. */
  lemma FilasPrepend(animals: map<AnimalId, Animal>, tags: seq<string>, destino: FincaId, usuario: Option<UserId>,
                     rest: seq<Traslado>)
    requires UniqueAretes(animals) && tags != [] && TrasladoPosible(animals, tags, destino)
    requires |rest| == |tags| - 1
    requires var moved := Moved(animals, FirstByArete(animals, tags[0]).value, destino);
      forall k :: 0 <= k < |tags[1..]| ==>
        FirstByArete(moved, tags[1..][k]).Some? && rest[k] == Fila(moved, tags[1..][k], destino, usuario)
    ensures forall k :: 0 <= k < |tags| ==>
      FirstByArete(animals, tags[k]).Some? &&
      ([Fila(animals, tags[0], destino, usuario)] + rest)[k] == Fila(animals, tags[k], destino, usuario)
  {
    var all := [Fila(animals, tags[0], destino, usuario)] + rest;
    forall k | 0 <= k < |tags|
      ensures FirstByArete(animals, tags[k]).Some? && all[k] == Fila(animals, tags[k], destino, usuario)
    {
      if k > 0 {
        assert tags[1..][k - 1] == tags[k];
        PlanTrasladoFila(animals, tags, k, destino);
      }
    }
  }

  /** Moving the animal of the first tag leaves what a later tag of a possible
      batch finds, and that animal's farm, as they were. */
  lemma PlanTrasladoFila(animals: map<AnimalId, Animal>, tags: seq<string>, k: nat, destino: FincaId)
    requires UniqueAretes(animals) && 0 < k < |tags| && TrasladoPosible(animals, tags, destino)
    ensures var moved := Moved(animals, FirstByArete(animals, tags[0]).value, destino);
      && FirstByArete(animals, tags[k]).Some?
      && FirstByArete(moved, tags[k]) == FirstByArete(animals, tags[k])
      && moved[FirstByArete(animals, tags[k]).value] == animals[FirstByArete(animals, tags[k]).value]
  {
    var x := FirstByArete(animals, tags[0]).value;
    var moved := Moved(animals, x, destino);
    MovedRetagged(animals, x, destino);
    RetaggedKeepsLookup(animals, moved, tags[k]);
    MismoAnimalMismoArete(animals, tags[0], tags[k]);
  }

  /** `id` is the animal of one of the rows. */
  ghost predicate Movido(traslados: seq<Traslado>, id: AnimalId) {
    exists k :: 0 <= k < |traslados| && traslados[k].animal == id
  }

  /** The animals table after a successful batch: each transferred animal is in
      `destino` and marked transferred; every other animal is as it was. */
  lemma {:induction false} PlanTrasladoAnimales(animals: map<AnimalId, Animal>, tags: seq<string>, destino: FincaId,
                                                usuario: Option<UserId>)
    ensures var plan := PlanTraslado(animals, tags, destino, usuario);
      plan.Success? ==>
        && plan.value.animals.Keys == animals.Keys
        && forall id :: id in animals ==>
             plan.value.animals[id] ==
               if Movido(plan.value.traslados, id) then animals[id].(finca := destino, estado := TRASLADADO)
               else animals[id]
    decreases |tags|
  {
    var plan := PlanTraslado(animals, tags, destino, usuario);
    if tags != [] && plan.Success? {
      var paso := PasoTraslado(animals, tags[0], destino, usuario);
      var x := paso.value.animal;
      var moved := Moved(animals, x, destino);
      PlanTrasladoAnimales(moved, tags[1..], destino, usuario);
      var rest := PlanTraslado(moved, tags[1..], destino, usuario).value.traslados;
      assert plan.value.traslados == [paso.value] + rest;
      forall id | id in animals
        ensures plan.value.animals[id] ==
                if Movido(plan.value.traslados, id) then animals[id].(finca := destino, estado := TRASLADADO)
                else animals[id]
      {
        if Movido(rest, id) {
          var k :| 0 <= k < |rest| && rest[k].animal == id;
          assert plan.value.traslados[k + 1] == rest[k];
        } else if id == x {
          assert plan.value.traslados[0] == paso.value;
        }
      }
    }
  }
}
