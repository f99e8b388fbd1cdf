/** The livestock records (apps/ganaderia/models.py): animals and their event
    rows, the query helpers of the animal manager, and each model's `clean()`
    validator. */
module GanaderiaModels {
  import opened Wrappers
  import opened Text
  import opened FincaModels

  type AnimalId = nat
  type UserId = nat
  /** Calendar dates, as day numbers; only equality and order matter here. */
  type Date = int

  const ACTIVO := "activo"
  const VENDIDO := "vendido"
  const MUERTO := "muerto"
  const TRASLADADO := "trasladado"
  const INACTIVO := "inactivo"

  datatype Animal = Animal(
    numeroArete: string,
    nombre: string,
    fechaNacimiento: Option<Date>,
    raza: string,
    sexo: string,
    estado: string,
    finca: FincaId,
    madre: Option<AnimalId>)

  datatype Pesaje = Pesaje(fecha: Date, peso: real, animal: AnimalId, finca: FincaId)

  datatype Parto = Parto(
    fechaNacimiento: Date,
    madre: AnimalId,
    cria: Option<AnimalId>,
    finca: FincaId,
    peso: Option<real>,
    raza: string,
    sexo: string,
    createdBy: Option<UserId>)

  datatype ProduccionLeche = ProduccionLeche(
    fecha: Date,
    pesoAm: Option<real>,
    pesoPm: Option<real>,
    animal: AnimalId,
    finca: FincaId)

  datatype EventoSalida = EventoSalida(
    fecha: Date,
    tipoEvento: string,
    animal: AnimalId,
    responsable: Option<UserId>,
    observaciones: string)

  /** The creation timestamp (`auto_now_add`) comes from the clock and is not kept. */
  datatype Traslado = Traslado(
    fincaOrigen: FincaId,
    fincaDestino: FincaId,
    animal: AnimalId,
    usuario: Option<UserId>)

  // ----- AnimalQuerySet / AnimalManager -----

  /** `activos()`: exactly the animals whose state is `activo`, unchanged. */
  function Activos(animals: map<AnimalId, Animal>): (r: map<AnimalId, Animal>)
    ensures forall id :: id in r <==> id in animals && animals[id].estado == ACTIVO
    ensures forall id :: id in r ==> r[id] == animals[id]
  {
    map id | id in animals && animals[id].estado == ACTIVO :: animals[id]
  }

  /** `by_arete(tag)`: the animals whose tag equals `tag` up to case. */
  function ByArete(animals: map<AnimalId, Animal>, numeroArete: string): (r: set<AnimalId>)
    ensures forall id :: id in r <==> id in animals && IExact(animals[id].numeroArete, numeroArete)
  {
    set id | id in animals && IExact(animals[id].numeroArete, numeroArete)
  }

  /** The order of `Meta.ordering = ['numero_arete']`: code-point lexicographic order. */
  predicate TagLe(a: string, b: string) {
    a == [] || (b != [] && (a[0] < b[0] || (a[0] == b[0] && TagLe(a[1..], b[1..]))))
  }

  lemma {:induction false} TagLeReflexive(a: string)
    ensures TagLe(a, a)
  {
    if a != [] { TagLeReflexive(a[1..]); }
  }

  lemma {:induction false} TagLeTotal(a: string, b: string)
    ensures TagLe(a, b) || TagLe(b, a)
  {
    if a != [] && b != [] && a[0] == b[0] { TagLeTotal(a[1..], b[1..]); }
  }

  lemma {:induction false} TagLeTransitive(a: string, b: string, c: string)
    requires TagLe(a, b) && TagLe(b, c)
    ensures TagLe(a, c)
  {
    if a != [] && b != [] && c != [] && a[0] == b[0] && b[0] == c[0] {
      TagLeTransitive(a[1..], b[1..], c[1..]);
    }
  }

  lemma {:induction false} TagLeAntisymmetric(a: string, b: string)
    requires TagLe(a, b) && TagLe(b, a)
    ensures a == b
  {
    if a != [] && b != [] {
      TagLeAntisymmetric(a[1..], b[1..]);
      assert a == [a[0]] + a[1..] && b == [b[0]] + b[1..];
    }
  }

  /** `get_by_arete(tag)` returns `id`: a case-insensitive match with the least
      tag among all matches (`.first()` in `numero_arete` order). */
  ghost predicate IsFirstByArete(animals: map<AnimalId, Animal>, numeroArete: string, id: AnimalId) {
    && id in ByArete(animals, numeroArete)
    && forall j :: j in ByArete(animals, numeroArete) ==> TagLe(animals[id].numeroArete, animals[j].numeroArete)
  }

  /** The store's unique constraint on `numero_arete` (exact, case-sensitive). */
  ghost predicate UniqueAretes(animals: map<AnimalId, Animal>) {
    forall i, j :: i in animals && j in animals && i != j ==> animals[i].numeroArete != animals[j].numeroArete
  }

  /** Every non-empty set of animals has one whose tag is least. */
  lemma {:induction false} LeastTagExists(animals: map<AnimalId, Animal>, ids: set<AnimalId>)
    requires ids != {} && ids <= animals.Keys
    ensures exists m :: m in ids && forall j :: j in ids ==> TagLe(animals[m].numeroArete, animals[j].numeroArete)
    decreases |ids|
  {
    var x :| x in ids;
    if ids == {x} {
      TagLeReflexive(animals[x].numeroArete);
    } else {
      LeastTagExists(animals, ids - {x});
      var m :| m in ids - {x} && forall j :: j in ids - {x} ==> TagLe(animals[m].numeroArete, animals[j].numeroArete);
      if TagLe(animals[x].numeroArete, animals[m].numeroArete) {
        TagLeReflexive(animals[x].numeroArete);
        forall j | j in ids ensures TagLe(animals[x].numeroArete, animals[j].numeroArete) {
          if j != x { TagLeTransitive(animals[x].numeroArete, animals[m].numeroArete, animals[j].numeroArete); }
        }
      } else {
        TagLeTotal(animals[x].numeroArete, animals[m].numeroArete);
        assert forall j :: j in ids ==> TagLe(animals[m].numeroArete, animals[j].numeroArete);
      }
    }
  }

  /** The animal `get_by_arete(tag)` returns, if any: `.first()` of the
      case-insensitive matches in `numero_arete` order (see `FirstByAreteIsFirst`). */
  ghost function FirstByArete(animals: map<AnimalId, Animal>, numeroArete: string): (r: Option<AnimalId>)
    ensures r.Some? ==> r.value in animals
  {
    if ByArete(animals, numeroArete) == {} then None
    else
      FirstByAreteExists(animals, numeroArete);
      var m :| IsFirstByArete(animals, numeroArete, m);
      Some(m)
  }

  /** `get_by_arete` finds nothing exactly when no tag matches up to case, and
      otherwise a match whose tag is least. */
  lemma FirstByAreteIsFirst(animals: map<AnimalId, Animal>, numeroArete: string)
    ensures FirstByArete(animals, numeroArete).None? <==>
      forall id :: id in animals ==> !IExact(animals[id].numeroArete, numeroArete)
    ensures FirstByArete(animals, numeroArete).Some? ==>
      IsFirstByArete(animals, numeroArete, FirstByArete(animals, numeroArete).value)
  {
    if FirstByArete(animals, numeroArete).None? {
      assert ByArete(animals, numeroArete) == {};
    } else {
      var id := FirstByArete(animals, numeroArete).value;
      assert id in ByArete(animals, numeroArete);
    }
  }

  lemma FirstByAreteExists(animals: map<AnimalId, Animal>, numeroArete: string)
    requires ByArete(animals, numeroArete) != {}
    ensures exists m :: IsFirstByArete(animals, numeroArete, m)
  {
    var ids := ByArete(animals, numeroArete);
    LeastTagExists(animals, ids);
    var m :| m in ids && forall j :: j in ids ==> TagLe(animals[m].numeroArete, animals[j].numeroArete);
    assert IsFirstByArete(animals, numeroArete, m);
  }

  /** `AnimalManager.get_by_arete` over a table of animals. */
  method GetByArete(animals: map<AnimalId, Animal>, numeroArete: string) returns (r: Option<AnimalId>)
    requires UniqueAretes(animals)
    ensures r == FirstByArete(animals, numeroArete)
  {
    var ids := ByArete(animals, numeroArete);
    FirstByAreteIsFirst(animals, numeroArete);
    if ids == {} {
      return None;
    }
    LeastTagExists(animals, ids);
    var m :| m in ids && forall j :: j in ids ==> TagLe(animals[m].numeroArete, animals[j].numeroArete);
    FirstByAreteUnique(animals, numeroArete, m, FirstByArete(animals, numeroArete).value);
    r := Some(m);
  }

  /** `filter(numero_arete=tag).exists()`: an exact, case-sensitive match. */
  predicate ExisteArete(animals: map<AnimalId, Animal>, numeroArete: string) {
    exists id :: id in animals && animals[id].numeroArete == numeroArete
  }

  /** With unique tags, the animal `get_by_arete` returns is determined. */
  lemma FirstByAreteUnique(animals: map<AnimalId, Animal>, numeroArete: string, a: AnimalId, b: AnimalId)
    requires UniqueAretes(animals)
    requires IsFirstByArete(animals, numeroArete, a) && IsFirstByArete(animals, numeroArete, b)
    ensures a == b
  {
    TagLeAntisymmetric(animals[a].numeroArete, animals[b].numeroArete);
  }

  /** Tags equal up to case find the same animal. */
  lemma FirstByAreteIExact(animals: map<AnimalId, Animal>, a: string, b: string)
    requires UniqueAretes(animals) && IExact(a, b)
    ensures FirstByArete(animals, a) == FirstByArete(animals, b)
  {
    assert ByArete(animals, a) == ByArete(animals, b);
    FirstByAreteIsFirst(animals, a);
    FirstByAreteIsFirst(animals, b);
    if FirstByArete(animals, a).Some? {
      FirstByAreteUnique(animals, b, FirstByArete(animals, a).value, FirstByArete(animals, b).value);
    }
  }

  // ----- Animal -----

  /** `Animal.clean` for the animal stored under `self` (None before its first save). */
  function AnimalClean(self: Option<AnimalId>, a: Animal): (r: Outcome)
    ensures r.Pass? <==> (a.madre.None? || a.madre != self) && a.sexo in {"M", "F"}
    ensures r.Pass? && self.Some? ==> a.madre != Some(self.value)
  {
    if a.madre.Some? && a.madre == self then Fail(ValidationError("Un animal no puede ser su propia madre."))
    else if a.sexo !in {"M", "F"} then Fail(ValidationError("Sexo inválido."))
    else Pass
  }

  /** `Animal.can_register_parto`. */
  predicate CanRegisterParto(a: Animal) {
    a.sexo == "F" && a.estado == ACTIVO
  }

  /** Only an active female can register a birth, and every active female can. */
  lemma CanRegisterPartoIff(a: Animal)
    ensures CanRegisterParto(a) <==> a.sexo == "F" && a.estado == ACTIVO
    ensures a.estado in {VENDIDO, MUERTO, TRASLADADO, INACTIVO} ==> !CanRegisterParto(a)
  {
  }

  // ----- event validators -----

  /** The states in which no weighing may be recorded. */
  predicate EstadoFinal(estado: string) {
    estado in {MUERTO, VENDIDO, INACTIVO}
  }

  /** `Pesaje.clean`, given the weighed animal. */
  function PesajeClean(p: Pesaje, animal: Animal): (r: Outcome)
    ensures r.Pass? <==> p.peso > 0.0 && !EstadoFinal(animal.estado)
    ensures animal.estado == TRASLADADO ==> (r.Pass? <==> p.peso > 0.0)
  {
    if p.peso <= 0.0 then Fail(ValidationError("El peso debe ser mayor a 0."))
    else if EstadoFinal(animal.estado) then Fail(ValidationError("No se puede registrar pesaje para un animal en estado final."))
    else Pass
  }

  /** `Parto.clean`, given the mother. */
  function PartoClean(madre: Animal): (r: Outcome)
    ensures r.Pass? <==> madre.sexo == "F"
  {
    if madre.sexo != "F" then Fail(ValidationError("La madre debe ser hembra.")) else Pass
  }

  /** `ProduccionLeche.total_diario`: a missing weight counts as zero. */
  function TotalDiario(p: ProduccionLeche): real {
    (if p.pesoAm.Some? then p.pesoAm.value else 0.0) + (if p.pesoPm.Some? then p.pesoPm.value else 0.0)
  }

  /** Every present weight is non-negative. */
  predicate PesosNoNegativos(p: ProduccionLeche) {
    (p.pesoAm.None? || p.pesoAm.value >= 0.0) && (p.pesoPm.None? || p.pesoPm.value >= 0.0)
  }

  /** `ProduccionLeche.clean`, given the producing animal if one is set. */
  function ProduccionClean(p: ProduccionLeche, animal: Option<Animal>): (r: Outcome)
    ensures animal.None? ==> r.Pass?
    ensures animal.Some? ==> (r.Pass? <==> animal.value.sexo == "F" && PesosNoNegativos(p))
  {
    if animal.None? then Pass
    else if animal.value.sexo != "F" then Fail(ValidationError("Solo hembras pueden registrar producción de leche."))
    else if !PesosNoNegativos(p) then Fail(ValidationError("Los valores de peso deben ser >= 0."))
    else Pass
  }

  /** A production that passed `clean` with its animal set has a non-negative daily
      total, no smaller than either shift's weight. */
  lemma TotalDiarioNoNegativo(p: ProduccionLeche, animal: Animal)
    requires ProduccionClean(p, Some(animal)).Pass?
    ensures TotalDiario(p) >= 0.0
    ensures p.pesoAm.Some? ==> TotalDiario(p) >= p.pesoAm.value
    ensures p.pesoPm.Some? ==> TotalDiario(p) >= p.pesoPm.value
  {
  }

  /** The exit types offered by `EventoSalida.TIPO_CHOICES`. */
  predicate TipoEventoValido(tipo: string) {
    tipo in {"venta", "muerte", "descarte"}
  }

  /** `EventoSalida.clean`, given the animal if one is set: only sold or dead
      animals are refused (an `inactivo` animal is accepted). */
  function EventoSalidaClean(animal: Option<Animal>): (r: Outcome)
    ensures animal.None? ==> r.Pass?
    ensures animal.Some? ==> (r.Pass? <==> animal.value.estado !in {VENDIDO, MUERTO})
  {
    if animal.Some? && animal.value.estado in {VENDIDO, MUERTO} then
      Fail(ValidationError("El animal ya tiene un evento de salida registrado."))
    else Pass
  }

  /** `full_clean` of an exit event: the choice check on `tipo_evento`, then `clean`. */
  function EventoSalidaFullClean(e: EventoSalida, animal: Animal): (r: Outcome)
    ensures r.Pass? <==> TipoEventoValido(e.tipoEvento) && animal.estado !in {VENDIDO, MUERTO}
  {
    if !TipoEventoValido(e.tipoEvento) then Fail(ValidationError("Opción de tipo de evento inválida."))
    else EventoSalidaClean(Some(animal))
  }

  /** `Traslado.clean`: origin and destination differ. */
  function TrasladoClean(t: Traslado): (r: Outcome)
    ensures r.Pass? <==> t.fincaOrigen != t.fincaDestino
  {
    if t.fincaOrigen == t.fincaDestino then Fail(ValidationError("La finca destino debe ser diferente a la origen."))
    else Pass
  }

  /** The state an exit event leaves its animal in, written both by the service
      and by the `post_save` handler of `EventoSalida`. */
  function EstadoTrasSalida(tipoEvento: string): (r: string)
    ensures r in {VENDIDO, MUERTO, INACTIVO}
    ensures r == VENDIDO <==> tipoEvento == "venta"
    ensures r == MUERTO <==> tipoEvento == "muerte"
  {
    if tipoEvento == "venta" then VENDIDO
    else if tipoEvento == "muerte" then MUERTO
    else INACTIVO
  }

  /** After any exit event the animal can no longer be weighed nor give birth. */
  lemma SalidaEsFinal(a: Animal, tipoEvento: string)
    ensures EstadoFinal(EstadoTrasSalida(tipoEvento))
    ensures !CanRegisterParto(a.(estado := EstadoTrasSalida(tipoEvento)))
  {
  }
}
