/** The input forms of apps/ganaderia/forms.py: the forms that resolve a typed
    tag to an animal, the birth form's two tag checks and the transfer form's
    tag-list parser. The database is passed in as the table of animals. */
module GanaderiaForms {
  import opened Wrappers
  import opened Text
  import opened FincaModels
  import opened GanaderiaModels
  import opened Store

  const SIN_ANIMAL_FORM := "El número de arete ingresado no corresponde a ningún animal registrado"
  const SIN_MADRE := "No existe la madre con ese número de arete"
  const MADRE_NO_HEMBRA := "La madre debe ser hembra."
  const CRIA_EXISTE := "El número de arete de la cría ya existe"
  const LISTA_VACIA := "Debe ingresar al menos un arete"

  /** A value of a form's `cleaned_data`. */
  datatype Value =
    | Texto(s: string)
    | Numero(x: real)
    | Fecha(d: Date)
    | AnimalRef(animal: AnimalId)
    | FincaRef(finca: FincaId)

  /** The three model forms whose `clean` looks up `numero_arete`. */
  datatype FormKind = PesajeForm | ProduccionForm | EventoSalidaForm

  /** `PesajeForm` and `ProduccionForm` also book the animal's farm;
      `EventoSalidaForm` does not. */
  predicate SetsFinca(kind: FormKind) {
    kind != EventoSalidaForm
  }

  /** `cleaned.get('numero_arete')`: None when the field is missing or did not clean. */
  function NumeroArete(cleaned: map<string, Value>): (r: Option<string>)
    ensures r.Some? <==> "numero_arete" in cleaned && cleaned["numero_arete"].Texto?
  {
    if "numero_arete" in cleaned && cleaned["numero_arete"].Texto? then Some(cleaned["numero_arete"].s) else None
  }

  /** The animal `get_by_arete` finds for the cleaned tag; a missing tag finds none. */
  ghost function AnimalDelForm(animals: map<AnimalId, Animal>, cleaned: map<string, Value>): Option<AnimalId> {
    var numero := NumeroArete(cleaned);
    if numero.None? then None else FirstByArete(animals, numero.value)
  }

  /** What the form's `clean` leaves in `cleaned_data`: the found animal, and for
      weighings and milkings its farm too. */
  ghost function CleanAreteForm(kind: FormKind, animals: map<AnimalId, Animal>, cleaned: map<string, Value>)
    : (r: Result<map<string, Value>>)
    ensures r.Success? ==> "animal" in r.value && r.value["animal"].AnimalRef?
  {
    var found := AnimalDelForm(animals, cleaned);
    if found.None? then Failure(ValidationError(SIN_ANIMAL_FORM))
    else
      var withAnimal := cleaned["animal" := AnimalRef(found.value)];
      if SetsFinca(kind) then Success(withAnimal["finca" := FincaRef(animals[found.value].finca)])
      else Success(withAnimal)
  }

  /** The form fails exactly when the tag matches no animal up to case; otherwise
      `animal` is the first match, `finca` is that animal's farm on the forms that
      set it and is left as it was on the exit-event form, and every other entry
      is kept. */
  lemma CleanAreteFormSpec(kind: FormKind, animals: map<AnimalId, Animal>, cleaned: map<string, Value>)
    ensures var r := CleanAreteForm(kind, animals, cleaned);
      && (r.Failure? <==>
            NumeroArete(cleaned).None? ||
            forall id :: id in animals ==> !IExact(animals[id].numeroArete, NumeroArete(cleaned).value))
      && (r.Failure? ==> r.error == ValidationError(SIN_ANIMAL_FORM))
      && (r.Success? ==>
            && var id := r.value["animal"].animal;
            && IsFirstByArete(animals, NumeroArete(cleaned).value, id)
            && (SetsFinca(kind) ==> "finca" in r.value && r.value["finca"] == FincaRef(animals[id].finca))
            && (!SetsFinca(kind) ==> ("finca" in r.value <==> "finca" in cleaned))
            && (!SetsFinca(kind) && "finca" in cleaned ==> r.value["finca"] == cleaned["finca"])
            && r.value.Keys == cleaned.Keys + {"animal"} + (if SetsFinca(kind) then {"finca"} else {})
            && forall key :: key in cleaned && key != "animal" && key != "finca" ==> r.value[key] == cleaned[key])
  {
    if NumeroArete(cleaned).Some? {
      FirstByAreteIsFirst(animals, NumeroArete(cleaned).value);
    }
  }

  /** A bound form whose fields have passed their own cleaning. */
  class AreteForm {
    const kind: FormKind
    var cleanedData: map<string, Value>

    constructor (kind: FormKind, cleanedData: map<string, Value>)
      ensures this.kind == kind && this.cleanedData == cleanedData
    {
      this.kind := kind;
      this.cleanedData := cleanedData;
    }

    /** `clean()`: writes `animal` (and `finca`) into `cleaned_data` and returns
        it, or raises and leaves it as it was. */
    method Clean(db: Db) returns (r: Result<map<string, Value>>)
      requires db.Valid()
      modifies this
      ensures r == CleanAreteForm(kind, db.animals, old(cleanedData))
      ensures cleanedData == if r.Success? then r.value else old(cleanedData)
    {
      var numero := NumeroArete(cleanedData);
      var animal: Option<AnimalId> := None;
      if numero.Some? {
        animal := db.GetByArete(numero.value);
      }
      if animal.None? {
        return Failure(ValidationError(SIN_ANIMAL_FORM));
      }
      cleanedData := cleanedData["animal" := AnimalRef(animal.value)];
      if SetsFinca(kind) {
        cleanedData := cleanedData["finca" := FincaRef(db.animals[animal.value].finca)];
      }
      r := Success(cleanedData);
    }
  }

  // ----- PartoForm -----

  /** `PartoForm.clean_numero_arete_madre`: the tag must find (up to case) a
      female; the tag is returned as typed. */
  ghost function CleanNumeroAreteMadre(animals: map<AnimalId, Animal>, numero: string): (r: Result<string>)
    ensures r.Success? ==> r.value == numero
  {
    var madre := FirstByArete(animals, numero);
    if madre.None? then Failure(ValidationError(SIN_MADRE))
    else if animals[madre.value].sexo != "F" then Failure(ValidationError(MADRE_NO_HEMBRA))
    else Success(numero)
  }

  /** The mother's tag is refused as unknown exactly when no tag matches it up to
      case, as not female when the first match is a male, and accepted otherwise. */
  lemma CleanNumeroAreteMadreSpec(animals: map<AnimalId, Animal>, numero: string)
    requires UniqueAretes(animals)
    ensures var r := CleanNumeroAreteMadre(animals, numero);
      && (r == Failure(ValidationError(SIN_MADRE)) <==>
            forall id :: id in animals ==> !IExact(animals[id].numeroArete, numero))
      && (r == Failure(ValidationError(MADRE_NO_HEMBRA)) <==>
            exists id :: IsFirstByArete(animals, numero, id) && animals[id].sexo != "F")
      && (r.Success? <==> exists id :: IsFirstByArete(animals, numero, id) && animals[id].sexo == "F")
  {
    FirstByAreteIsFirst(animals, numero);
    var madre := FirstByArete(animals, numero);
    if madre.Some? {
      forall id | IsFirstByArete(animals, numero, id) ensures id == madre.value {
        FirstByAreteUnique(animals, numero, id, madre.value);
      }
    }
  }

  /** `PartoForm.clean_numero_arete_cria`: the calf's tag must not exist yet,
      compared exactly. */
  function CleanNumeroAreteCria(animals: map<AnimalId, Animal>, numero: string): (r: Result<string>)
    ensures r.Success? ==> r.value == numero
  {
    if ExisteArete(animals, numero) then Failure(ValidationError(CRIA_EXISTE)) else Success(numero)
  }

  /** The calf's tag is refused exactly when an animal already carries it, with
      the same case: a tag differing only in case is accepted. */
  lemma CleanNumeroAreteCriaSpec(animals: map<AnimalId, Animal>, numero: string)
    ensures CleanNumeroAreteCria(animals, numero).Failure? <==>
      exists id :: id in animals && animals[id].numeroArete == numero
    ensures CleanNumeroAreteCria(animals, numero).Failure? ==>
      CleanNumeroAreteCria(animals, numero).error == ValidationError(CRIA_EXISTE)
  {
  }

  // ----- TrasladoForm -----

  /** `[x.strip() for x in pieces if x.strip()]`. */
  function Aretes(pieces: seq<string>): (r: seq<string>)
    ensures |r| <= |pieces|
  {
    if pieces == [] then []
    else if IsBlank(pieces[0]) then Aretes(pieces[1..])
    else [Strip(pieces[0])] + Aretes(pieces[1..])
  }

  /** `TrasladoForm.clean_lista_aretes`: the comma-separated, stripped, non-blank
      tags, in order and with repetitions; a list with none is refused. */
  function CleanListaAretes(value: string): (r: Result<seq<string>>)
    ensures r.Success? ==> r.value != []
  {
    var items := Aretes(Split(value, ','));
    if items == [] then Failure(ValidationError(LISTA_VACIA)) else Success(items)
  }

  /** A tag as the parser returns it: non-empty, without surrounding spaces and
      without commas. */
  predicate AreteLimpio(t: string) {
    t != [] && Strip(t) == t && ',' !in t
  }

  lemma {:induction false} AretesLimpios(pieces: seq<string>)
    requires forall k :: 0 <= k < |pieces| ==> ',' !in pieces[k]
    ensures forall k :: 0 <= k < |Aretes(pieces)| ==> AreteLimpio(Aretes(pieces)[k])
  {
    if pieces != [] {
      var rest := Aretes(pieces[1..]);
      assert forall k :: 0 <= k < |pieces[1..]| ==> pieces[1..][k] == pieces[k + 1];
      AretesLimpios(pieces[1..]);
      if !IsBlank(pieces[0]) {
        PiezaLimpia(pieces[0]);
        var t := [Strip(pieces[0])] + rest;
        assert Aretes(pieces) == t;
        forall k | 0 <= k < |t| ensures AreteLimpio(t[k]) {
          if k > 0 { assert t[k] == rest[k - 1]; }
        }
      }
    }
  }

  /** A non-blank piece without commas strips to a clean tag. */
  lemma PiezaLimpia(p: string)
    requires ',' !in p && !IsBlank(p)
    ensures AreteLimpio(Strip(p))
  {
    StripIdempotent(p);
    StripKeeps(p, ',');
  }

  /** Every tag the parser returns is clean. */
  lemma ListaAretesLimpia(value: string)
    ensures var r := CleanListaAretes(value);
      r.Success? ==> forall k :: 0 <= k < |r.value| ==> AreteLimpio(r.value[k])
  {
    AretesLimpios(Split(value, ','));
  }

  /** `Aretes` drops a piece exactly when it is blank. */
  lemma {:induction false} AretesVacios(pieces: seq<string>)
    ensures Aretes(pieces) == [] <==> forall k :: 0 <= k < |pieces| ==> IsBlank(pieces[k])
  {
    if pieces != [] {
      AretesVacios(pieces[1..]);
      assert forall k :: 1 <= k < |pieces| ==> pieces[k] == pieces[1..][k - 1];
    }
  }

  /** The pieces of `Join` are all blank exactly when the joined text holds only
      separators and spaces. */
  lemma {:induction false} JoinBlank(pieces: seq<string>, sep: char)
    requires |pieces| >= 1 && forall k :: 0 <= k < |pieces| ==> sep !in pieces[k]
    ensures (forall k :: 0 <= k < |pieces| ==> IsBlank(pieces[k])) <==> OnlySepOrSpace(Join(pieces, sep), sep)
  {
    if |pieces| > 1 {
      var tail := pieces[1..];
      assert forall k :: 0 <= k < |tail| ==> tail[k] == pieces[k + 1];
      JoinBlank(tail, sep);
      var rest := Join(tail, sep);
      var s := pieces[0] + [sep] + rest;
      assert Join(pieces, sep) == s;
      OnlySepOrSpaceConcat(pieces[0] + [sep], rest, sep);
      OnlySepOrSpaceConcat(pieces[0], [sep], sep);
      assert OnlySepOrSpace(pieces[0], sep) <==> IsBlank(pieces[0]);
      if forall k :: 0 <= k < |tail| ==> IsBlank(tail[k]) {
        assert forall k :: 0 <= k < |pieces| ==> IsBlank(pieces[k]) <==> (k == 0 ==> IsBlank(pieces[0]));
      }
    } else {
      assert Join(pieces, sep) == pieces[0];
    }
  }

  /** Text that holds only `sep` and spaces. */
  predicate OnlySepOrSpace(s: string, sep: char) {
    forall i :: 0 <= i < |s| ==> s[i] == sep || IsSpace(s[i])
  }

  lemma OnlySepOrSpaceConcat(a: string, b: string, sep: char)
    ensures OnlySepOrSpace(a + b, sep) <==> OnlySepOrSpace(a, sep) && OnlySepOrSpace(b, sep)
  {
    if OnlySepOrSpace(a, sep) && OnlySepOrSpace(b, sep) {
      forall i | 0 <= i < |a + b| ensures (a + b)[i] == sep || IsSpace((a + b)[i]) {
        if i >= |a| { assert (a + b)[i] == b[i - |a|]; }
      }
    }
    if OnlySepOrSpace(a + b, sep) {
      forall i | 0 <= i < |a| ensures a[i] == sep || IsSpace(a[i]) {
        assert a[i] == (a + b)[i];
      }
      forall i | 0 <= i < |b| ensures b[i] == sep || IsSpace(b[i]) {
        assert b[i] == (a + b)[|a| + i];
      }
    }
  }

  /** The list is refused exactly when the input holds nothing but commas and
      spaces. */
  lemma ListaAretesVacia(value: string)
    ensures CleanListaAretes(value).Failure? <==> OnlySepOrSpace(value, ',')
    ensures CleanListaAretes(value).Failure? ==> CleanListaAretes(value).error == ValidationError(LISTA_VACIA)
  {
    AretesVacios(Split(value, ','));
    JoinSplit(value, ',');
    JoinBlank(Split(value, ','), ',');
  }

  /** Clean tags joined with commas parse back to the same list, in order and
      with repetitions. */
  lemma ListaAretesJoin(tags: seq<string>)
    requires tags != [] && forall k :: 0 <= k < |tags| ==> AreteLimpio(tags[k])
    ensures CleanListaAretes(Join(tags, ',')) == Success(tags)
  {
    SplitJoin(tags, ',');
    AretesLimpiosFijos(tags);
  }

  lemma {:induction false} AretesLimpiosFijos(tags: seq<string>)
    requires forall k :: 0 <= k < |tags| ==> AreteLimpio(tags[k])
    ensures Aretes(tags) == tags
  {
    if tags != [] {
      assert !IsBlank(tags[0]) by {
        assert Strip(tags[0]) == tags[0] && tags[0] != [];
      }
      AretesLimpiosFijos(tags[1..]);
      assert [tags[0]] + tags[1..] == tags;
    }
  }
}
