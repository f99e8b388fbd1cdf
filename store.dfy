/** The relational store the services write to: one table per model, with the
    constraints the schema enforces (auto-increment keys, unique fields,
    foreign keys, the one-to-one confirmation link) and the invariants the
    validators protect. */
module Store {
  import opened Wrappers
  import opened Text
  import opened FincaModels
  import opened GanaderiaModels
  import opened SaludModels

  /** Every table at one moment; operations are specified by how they change it. */
  datatype Tables = Tables(
    fincas: map<FincaId, Finca>,
    nextFincaId: FincaId,
    animals: map<AnimalId, Animal>,
    nextAnimalId: AnimalId,
    pesajes: seq<Pesaje>,
    partos: seq<Parto>,
    producciones: seq<ProduccionLeche>,
    eventosSalida: seq<EventoSalida>,
    traslados: seq<Traslado>,
    eventosSanitarios: seq<EventoSanitario>,
    inseminaciones: seq<Inseminacion>,
    confirmaciones: seq<ConfirmacionGestacion>)

  /** The schema constraints and the invariants the validators protect, one
      predicate per table. Each names only its table and the keys its foreign
      keys point at, so a write to one table leaves the others' terms as they
      were. */
  ghost predicate ValidTables(t: Tables) {
    // auto-increment keys and unique constraints
    && KeysBelow(t.fincas.Keys, t.nextFincaId)
    && KeysBelow(t.animals.Keys, t.nextAnimalId)
    && UniqueFields(t.fincas)
    && UniqueAretes(t.animals)
    // foreign keys, and what the validators guarantee of every stored row
    && AnimalsValid(t.animals, t.fincas.Keys)
    && PesajesValid(t.pesajes, t.animals.Keys, t.fincas.Keys)
    && PartosValid(t.partos, t.animals.Keys, t.fincas.Keys)
    && ProduccionesValid(t.producciones, t.animals.Keys, t.fincas.Keys)
    && SalidasValid(t.eventosSalida, t.animals.Keys)
    && TrasladosValid(t.traslados, t.animals.Keys, t.fincas.Keys)
    && SanitariosValid(t.eventosSanitarios, t.animals.Keys)
    && InseminacionesValid(t.inseminaciones, t.animals.Keys)
    // the one-to-one confirmation link
    && ConfirmacionesValid(t.confirmaciones, |t.inseminaciones|)
  }

  ghost predicate KeysBelow(keys: set<nat>, next: nat) {
    forall id :: id in keys ==> id < next
  }

  /** Each animal's farm is stored, and its mother is another stored animal. */
  ghost predicate AnimalsValid(animals: map<AnimalId, Animal>, fincas: set<FincaId>) {
    forall id :: id in animals ==>
      && animals[id].finca in fincas
      && animals[id].madre != Some(id)
      && (animals[id].madre.Some? ==> animals[id].madre.value in animals)
  }

  ghost predicate PesajesValid(pesajes: seq<Pesaje>, animals: set<AnimalId>, fincas: set<FincaId>) {
    forall k :: 0 <= k < |pesajes| ==> PesajeValido(pesajes[k], animals, fincas)
  }

  /** A weighing is positive and names a stored animal and farm. */
  ghost predicate PesajeValido(p: Pesaje, animals: set<AnimalId>, fincas: set<FincaId>) {
    p.peso > 0.0 && p.animal in animals && p.finca in fincas
  }

  ghost predicate PartosValid(partos: seq<Parto>, animals: set<AnimalId>, fincas: set<FincaId>) {
    forall k :: 0 <= k < |partos| ==> PartoValido(partos[k], animals, fincas)
  }

  /** A birth names a stored mother, farm and calf. */
  ghost predicate PartoValido(p: Parto, animals: set<AnimalId>, fincas: set<FincaId>) {
    p.madre in animals && p.finca in fincas && (p.cria.Some? ==> p.cria.value in animals)
  }

  ghost predicate ProduccionesValid(producciones: seq<ProduccionLeche>, animals: set<AnimalId>, fincas: set<FincaId>) {
    forall k :: 0 <= k < |producciones| ==> ProduccionValida(producciones[k], animals, fincas)
  }

  /** A milking has no negative weight and names a stored animal and farm. */
  ghost predicate ProduccionValida(p: ProduccionLeche, animals: set<AnimalId>, fincas: set<FincaId>) {
    PesosNoNegativos(p) && p.animal in animals && p.finca in fincas
  }

  ghost predicate SalidasValid(eventos: seq<EventoSalida>, animals: set<AnimalId>) {
    forall k :: 0 <= k < |eventos| ==> eventos[k].animal in animals
  }

  ghost predicate TrasladosValid(traslados: seq<Traslado>, animals: set<AnimalId>, fincas: set<FincaId>) {
    forall k :: 0 <= k < |traslados| ==> TrasladoValido(traslados[k], animals, fincas)
  }

  /** A transfer goes between two different stored farms and names a stored animal. */
  ghost predicate TrasladoValido(tr: Traslado, animals: set<AnimalId>, fincas: set<FincaId>) {
    tr.fincaOrigen != tr.fincaDestino && tr.animal in animals && tr.fincaOrigen in fincas && tr.fincaDestino in fincas
  }

  ghost predicate SanitariosValid(eventos: seq<EventoSanitario>, animals: set<AnimalId>) {
    forall k :: 0 <= k < |eventos| ==> eventos[k].animal in animals
  }

  ghost predicate InseminacionesValid(inseminaciones: seq<Inseminacion>, animals: set<AnimalId>) {
    forall k :: 0 <= k < |inseminaciones| ==> inseminaciones[k].animal in animals
  }

  /** Each confirmation names a stored insemination, and none is confirmed twice. */
  ghost predicate ConfirmacionesValid(confirmaciones: seq<ConfirmacionGestacion>, n: nat) {
    && (forall k :: 0 <= k < |confirmaciones| ==> confirmaciones[k].inseminacion < n)
    && AtMostOneConfirmation(confirmaciones)
  }

  // ----- farms -----

  /** Inserting a farm that clashes with no other under the next key keeps the store valid. */
  lemma InsertFincaKeepsValid(t: Tables, f: Finca)
    requires ValidTables(t) && !Clashes(t.fincas, t.nextFincaId, f)
    ensures ValidTables(t.(fincas := t.fincas[t.nextFincaId := f], nextFincaId := t.nextFincaId + 1))
  {
    WriteKeepsUnique(t.fincas, t.nextFincaId, f);
    FincasGrow(t, t.fincas[t.nextFincaId := f].Keys);
  }

  /** Rewriting a stored farm so that it clashes with no other keeps the store valid. */
  lemma ReplaceFincaKeepsValid(t: Tables, id: FincaId, f: Finca)
    requires ValidTables(t) && id in t.fincas && !Clashes(t.fincas, id, f)
    ensures ValidTables(t.(fincas := t.fincas[id := f]))
  {
    WriteKeepsUnique(t.fincas, id, f);
    assert t.fincas[id := f].Keys == t.fincas.Keys;
  }

  /** The rows that point at a farm stay valid when farms are added. */
  lemma FincasGrow(t: Tables, fincas: set<FincaId>)
    requires ValidTables(t) && t.fincas.Keys <= fincas
    ensures AnimalsValid(t.animals, fincas)
    ensures PesajesValid(t.pesajes, t.animals.Keys, fincas)
    ensures PartosValid(t.partos, t.animals.Keys, fincas)
    ensures ProduccionesValid(t.producciones, t.animals.Keys, fincas)
    ensures TrasladosValid(t.traslados, t.animals.Keys, fincas)
  {
  }

  /** Removing a farm that no row points at keeps the store valid. */
  lemma RemoveFincaKeepsValid(t: Tables, id: FincaId)
    requires ValidTables(t)
    requires forall a :: a in t.animals ==> t.animals[a].finca != id
    requires forall k :: 0 <= k < |t.pesajes| ==> t.pesajes[k].finca != id
    requires forall k :: 0 <= k < |t.partos| ==> t.partos[k].finca != id
    requires forall k :: 0 <= k < |t.producciones| ==> t.producciones[k].finca != id
    requires forall k :: 0 <= k < |t.traslados| ==> t.traslados[k].fincaOrigen != id && t.traslados[k].fincaDestino != id
    ensures ValidTables(t.(fincas := t.fincas - {id}))
  {
    var fincas := (t.fincas - {id}).Keys;
    assert fincas == t.fincas.Keys - {id};
    assert AnimalsValid(t.animals, fincas);
    assert PesajesValid(t.pesajes, t.animals.Keys, fincas) by {
      forall k | 0 <= k < |t.pesajes| ensures PesajeValido(t.pesajes[k], t.animals.Keys, fincas) {
        assert PesajeValido(t.pesajes[k], t.animals.Keys, t.fincas.Keys);
      }
    }
    assert PartosValid(t.partos, t.animals.Keys, fincas) by {
      forall k | 0 <= k < |t.partos| ensures PartoValido(t.partos[k], t.animals.Keys, fincas) {
        assert PartoValido(t.partos[k], t.animals.Keys, t.fincas.Keys);
      }
    }
    assert ProduccionesValid(t.producciones, t.animals.Keys, fincas) by {
      forall k | 0 <= k < |t.producciones| ensures ProduccionValida(t.producciones[k], t.animals.Keys, fincas) {
        assert ProduccionValida(t.producciones[k], t.animals.Keys, t.fincas.Keys);
      }
    }
    assert TrasladosValid(t.traslados, t.animals.Keys, fincas) by {
      forall k | 0 <= k < |t.traslados| ensures TrasladoValido(t.traslados[k], t.animals.Keys, fincas) {
        assert TrasladoValido(t.traslados[k], t.animals.Keys, t.fincas.Keys);
      }
    }
  }

  // ----- animals and the rows about them -----

  /** Rewriting an animal's farm or state keeps the store valid. */
  lemma ReplaceAnimalKeepsValid(t: Tables, id: AnimalId, a: Animal)
    requires ValidTables(t) && id in t.animals && a.finca in t.fincas
    requires a.numeroArete == t.animals[id].numeroArete && a.madre == t.animals[id].madre
    ensures ValidTables(t.(animals := t.animals[id := a]))
  {
    ReplaceAnimalValid(t.animals, t.fincas.Keys, id, a);
  }

  /** Rewriting only a stored animal's state keeps the store valid. */
  lemma ReplaceEstadoKeepsValid(t: Tables, id: AnimalId, estado: string)
    requires ValidTables(t) && id in t.animals
    ensures ValidTables(t.(animals := t.animals[id := t.animals[id].(estado := estado)]))
  {
    assert t.animals[id].finca in t.fincas;
    ReplaceAnimalKeepsValid(t, id, t.animals[id].(estado := estado));
  }

  /** Writing back an animal's own row leaves the animals table as it was. */
  lemma RewriteSameAnimal(animals: map<AnimalId, Animal>, id: AnimalId)
    requires id in animals
    ensures animals[id := animals[id]] == animals
  {
  }

  lemma ReplaceAnimalValid(animals: map<AnimalId, Animal>, fincas: set<FincaId>, id: AnimalId, a: Animal)
    requires AnimalsValid(animals, fincas) && UniqueAretes(animals) && id in animals && a.finca in fincas
    requires a.numeroArete == animals[id].numeroArete && a.madre == animals[id].madre
    ensures var b := animals[id := a];
      b.Keys == animals.Keys && AnimalsValid(b, fincas) && UniqueAretes(b)
  {
    var b := animals[id := a];
    assert b.Keys == animals.Keys;
    forall j | j in b
      ensures b[j].finca in fincas && b[j].madre != Some(j)
      ensures b[j].madre.Some? ==> b[j].madre.value in b
    {
      if j != id {
        assert b[j] == animals[j];
      }
    }
    forall i, j | i in b && j in b && i != j ensures b[i].numeroArete != b[j].numeroArete {
      assert b[i].numeroArete == animals[i].numeroArete;
      assert b[j].numeroArete == animals[j].numeroArete;
    }
  }

  /** Inserting an animal with a new tag, in a stored farm, under the next key,
      keeps the store valid. */
  lemma InsertAnimalKeepsValid(t: Tables, a: Animal)
    requires ValidTables(t) && a.finca in t.fincas
    requires !ExisteArete(t.animals, a.numeroArete)
    requires a.madre.None? || a.madre.value in t.animals
    ensures ValidTables(t.(animals := t.animals[t.nextAnimalId := a], nextAnimalId := t.nextAnimalId + 1))
  {
    var animals := t.animals[t.nextAnimalId := a];
    AnimalsGrow(t, animals.Keys);
    assert UniqueAretes(animals);
    assert AnimalsValid(animals, t.fincas.Keys);
  }

  /** The rows that point at an animal stay valid when animals are added. */
  lemma AnimalsGrow(t: Tables, animals: set<AnimalId>)
    requires ValidTables(t) && t.animals.Keys <= animals
    ensures PesajesValid(t.pesajes, animals, t.fincas.Keys)
    ensures PartosValid(t.partos, animals, t.fincas.Keys)
    ensures ProduccionesValid(t.producciones, animals, t.fincas.Keys)
    ensures SalidasValid(t.eventosSalida, animals)
    ensures TrasladosValid(t.traslados, animals, t.fincas.Keys)
    ensures SanitariosValid(t.eventosSanitarios, animals)
    ensures InseminacionesValid(t.inseminaciones, animals)
  {
    forall k | 0 <= k < |t.pesajes| ensures PesajeValido(t.pesajes[k], animals, t.fincas.Keys) {
      assert PesajeValido(t.pesajes[k], t.animals.Keys, t.fincas.Keys);
    }
    forall k | 0 <= k < |t.partos| ensures PartoValido(t.partos[k], animals, t.fincas.Keys) {
      assert PartoValido(t.partos[k], t.animals.Keys, t.fincas.Keys);
    }
    forall k | 0 <= k < |t.producciones| ensures ProduccionValida(t.producciones[k], animals, t.fincas.Keys) {
      assert ProduccionValida(t.producciones[k], t.animals.Keys, t.fincas.Keys);
    }
    forall k | 0 <= k < |t.traslados| ensures TrasladoValido(t.traslados[k], animals, t.fincas.Keys) {
      assert TrasladoValido(t.traslados[k], t.animals.Keys, t.fincas.Keys);
    }
  }

  /** Appending a birth that names a stored mother, farm and calf keeps the store valid. */
  lemma AppendPartoKeepsValid(t: Tables, p: Parto)
    requires ValidTables(t) && PartoValido(p, t.animals.Keys, t.fincas.Keys)
    ensures ValidTables(t.(partos := t.partos + [p]))
  {
    var ps := t.partos + [p];
    forall k | 0 <= k < |ps| ensures PartoValido(ps[k], t.animals.Keys, t.fincas.Keys) {
      if k < |t.partos| {
        assert ps[k] == t.partos[k];
      }
    }
  }

  lemma AppendPesajeKeepsValid(t: Tables, p: Pesaje)
    requires ValidTables(t) && p.peso > 0.0
    requires p.animal in t.animals && p.finca in t.fincas
    ensures ValidTables(t.(pesajes := t.pesajes + [p]))
  {
    var ps := t.pesajes + [p];
    forall k | 0 <= k < |ps| ensures PesajeValido(ps[k], t.animals.Keys, t.fincas.Keys) {
      if k < |t.pesajes| {
        assert ps[k] == t.pesajes[k];
      }
    }
  }

  lemma AppendProduccionKeepsValid(t: Tables, p: ProduccionLeche)
    requires ValidTables(t) && PesosNoNegativos(p)
    requires p.animal in t.animals && p.finca in t.fincas
    ensures ValidTables(t.(producciones := t.producciones + [p]))
  {
    var ps := t.producciones + [p];
    forall k | 0 <= k < |ps| ensures ProduccionValida(ps[k], t.animals.Keys, t.fincas.Keys) {
      if k < |t.producciones| {
        assert ps[k] == t.producciones[k];
      }
    }
  }

  lemma AppendEventoSalidaKeepsValid(t: Tables, e: EventoSalida)
    requires ValidTables(t) && e.animal in t.animals
    ensures ValidTables(t.(eventosSalida := t.eventosSalida + [e]))
  {
    var es := t.eventosSalida + [e];
    forall k | 0 <= k < |es| ensures es[k].animal in t.animals {
      if k < |t.eventosSalida| {
        assert es[k] == t.eventosSalida[k];
      }
    }
  }

  class Db {
    var fincas: map<FincaId, Finca>
    var nextFincaId: FincaId
    var animals: map<AnimalId, Animal>
    var nextAnimalId: AnimalId
    var pesajes: seq<Pesaje>
    var partos: seq<Parto>
    var producciones: seq<ProduccionLeche>
    var eventosSalida: seq<EventoSalida>
    var traslados: seq<Traslado>
    var eventosSanitarios: seq<EventoSanitario>
    var inseminaciones: seq<Inseminacion>
    var confirmaciones: seq<ConfirmacionGestacion>

    ghost function State(): Tables
      reads this
    {
      Tables(fincas, nextFincaId, animals, nextAnimalId, pesajes, partos, producciones,
             eventosSalida, traslados, eventosSanitarios, inseminaciones, confirmaciones)
    }

    ghost predicate Valid()
      reads this
    {
      ValidTables(State())
    }

    /** An empty database. */
    constructor ()
      ensures Valid()
      ensures State() == Tables(map[], 0, map[], 0, [], [], [], [], [], [], [], [])
    {
      fincas, nextFincaId := map[], 0;
      animals, nextAnimalId := map[], 0;
      pesajes, partos, producciones, eventosSalida, traslados := [], [], [], [], [];
      eventosSanitarios, inseminaciones, confirmaciones := [], [], [];
    }

    /** `animal.save(update_fields=['estado'])` on a stored animal. */
    method SaveEstado(id: AnimalId, estado: string)
      requires Valid() && id in animals
      modifies this
      ensures Valid()
      ensures State() == old(State()).(animals := old(animals)[id := old(animals)[id].(estado := estado)])
    {
      ghost var t := State().(animals := animals[id := animals[id].(estado := estado)]);
      ReplaceEstadoKeepsValid(State(), id, estado);
      animals := animals[id := animals[id].(estado := estado)];
      assert State() == t;
    }

    /** `Finca.objects.create(...)`: the farm is stored under the next key. */
    method CreateFinca(f: Finca) returns (id: FincaId)
      requires Valid() && !Clashes(fincas, nextFincaId, f)
      modifies this
      ensures Valid()
      ensures id == old(nextFincaId)
      ensures State() == old(State()).(fincas := old(fincas)[id := f], nextFincaId := id + 1)
    {
      id := nextFincaId;
      ghost var t := State().(fincas := fincas[id := f], nextFincaId := id + 1);
      InsertFincaKeepsValid(State(), f);
      fincas, nextFincaId := fincas[id := f], id + 1;
      assert State() == t;
    }

    /** `finca.save()` of a stored farm with new field values. */
    method SaveFinca(id: FincaId, f: Finca)
      requires Valid() && id in fincas && !Clashes(fincas, id, f)
      modifies this
      ensures Valid()
      ensures State() == old(State()).(fincas := old(fincas)[id := f])
    {
      ghost var t := State().(fincas := fincas[id := f]);
      ReplaceFincaKeepsValid(State(), id, f);
      fincas := fincas[id := f];
      assert State() == t;
    }

    /** `finca.delete()` of a farm no row points at. */
    method DeleteFinca(id: FincaId)
      requires Valid()
      requires forall a :: a in animals ==> animals[a].finca != id
      requires forall k :: 0 <= k < |pesajes| ==> pesajes[k].finca != id
      requires forall k :: 0 <= k < |partos| ==> partos[k].finca != id
      requires forall k :: 0 <= k < |producciones| ==> producciones[k].finca != id
      requires forall k :: 0 <= k < |traslados| ==> traslados[k].fincaOrigen != id && traslados[k].fincaDestino != id
      modifies this
      ensures Valid()
      ensures State() == old(State()).(fincas := old(fincas) - {id})
    {
      ghost var t := State().(fincas := fincas - {id});
      RemoveFincaKeepsValid(State(), id);
      fincas := fincas - {id};
      assert State() == t;
    }

    /** `Animal.objects.create(...)`: the animal is stored under the next key. */
    method CreateAnimal(a: Animal) returns (id: AnimalId)
      requires Valid() && a.finca in fincas && !ExisteArete(animals, a.numeroArete)
      requires a.madre.None? || a.madre.value in animals
      modifies this
      ensures Valid()
      ensures id == old(nextAnimalId) && id !in old(animals)
      ensures State() == old(State()).(animals := old(animals)[id := a], nextAnimalId := id + 1)
    {
      id := nextAnimalId;
      ghost var t := State().(animals := animals[id := a], nextAnimalId := id + 1);
      InsertAnimalKeepsValid(State(), a);
      animals, nextAnimalId := animals[id := a], id + 1;
      assert State() == t;
    }

    /** `Parto.objects.create(...)` of a birth naming a stored mother, farm and calf. */
    method CreateParto(p: Parto)
      requires Valid() && PartoValido(p, animals.Keys, fincas.Keys)
      modifies this
      ensures Valid()
      ensures State() == old(State()).(partos := old(partos) + [p])
    {
      ghost var t := State().(partos := partos + [p]);
      AppendPartoKeepsValid(State(), p);
      partos := partos + [p];
      assert State() == t;
    }

    /** `Animal.objects.get_by_arete(tag)`: the case-insensitive match that comes
        first in `numero_arete` order, or None. */
    method GetByArete(numeroArete: string) returns (r: Option<AnimalId>)
      requires Valid()
      ensures r == FirstByArete(animals, numeroArete)
    {
      r := GanaderiaModels.GetByArete(animals, numeroArete);
    }

    /** `Animal.objects.get(numero_arete=tag)`: the exact match, or DoesNotExist. */
    method Get(numeroArete: string) returns (r: Result<AnimalId>)
      ensures r.Failure? <==> !ExisteArete(animals, numeroArete)
      ensures r.Failure? ==> r.error == DoesNotExist
      ensures r.Success? ==> r.value in animals && animals[r.value].numeroArete == numeroArete
    {
      if id :| id in animals && animals[id].numeroArete == numeroArete {
        r := Success(id);
      } else {
        r := Failure(DoesNotExist);
      }
    }
  }
}
