# Sistema Web Tiquiza: a verified model of the farm-management core

This project models the domain core of a Django web application for running cattle farms, together with
the JavaScript helpers of its user pages. The core covers:

- **farms** (`Finca`): the model, its validation and the farm service;
- **livestock** (`Animal`, `Pesaje`, `Parto`, `ProduccionLeche`, `EventoSalida`, `Traslado`): the
  animal manager's tag lookup, the validators, the `AnimalService` operations, the `post_save`
  handlers and the forms that resolve a typed ear tag;
- **health** (`EventoSanitario`, `Inseminacion`, `ConfirmacionGestacion`): the health services;
- **users** (`User`, `Rol`): the `UserManager`, the login, registration and recovery forms, and the
  two `role_required` guards;
- **front-end helpers**: the dashboard's `formatNumber`, the `to_list` template filter, the filters,
  selection and bulk button of the users table, and the client-side checks of the registration form.

The database is one object, `Store.Db`, with one field per table. Each service is a method that
`modifies` it. Every service is specified by a function that says what it records, or which error it
raises, in terms of the tables before the call.

`@transaction.atomic` is stated as `db.State() == old(db.State())` whenever the service fails. The
store's invariant `Store.ValidTables` covers:

- auto-increment keys;
- the unique constraints;
- the foreign keys between the modelled tables: the farm and mother of every animal; the animal and farm
  of every weighing and milking; the mother, calf and farm of every birth; the animal and both farms of
  every transfer; the animal of every exit, sanitary event and insemination; the insemination of every
  confirmation;
- the one-to-one confirmation link;
- what the validators guarantee of every stored row.

Every writing service preserves it.

Django lookups are modelled as follows:

- `iexact` and `.lower()` are ASCII case folding (`Text.Lower`).
- `.first()` in `Meta.ordering = ['numero_arete']` order is code-point lexicographic order
  (`GanaderiaModels.TagLe`), as on the SQLite database of the local configuration.
- An exact `filter(...)`/`get(...)` is string equality.

The JavaScript pages are classes whose fields are the DOM state the handlers read and write.

## Model

| member | source | states |
|---|---|---|
| FincaModels.Clean | apps/finca/models.py:23-26 | a farm passes `clean` iff its code has at least three characters; otherwise a `ValidationError` |
| FincaModels.FullClean | apps/finca/models.py:6-26 | `full_clean` passes iff the required and max-length field checks pass and `clean` passes, so a passing farm's code has at least three characters |
| FincaModels.Str | apps/finca/models.py:20-21 | the rendering is the name followed by ` (`, the code and `)` |
| FincaModels.StrDeterminesCodigo | apps/finca/models.py:20-21 | two farms with the same name and the same rendering have the same code |
| FincaModels.WriteKeepsUnique | apps/finca/models.py:6-8 | writing a row that clashes with no other farm keeps names and codes unique |
| FincaServices.Apply | apps/finca/repositories.py:14-18 | after `setattr` for each given field, that field holds the given value; every field not given keeps the farm's value |
| FincaServices.ApplyIdempotent | apps/finca/repositories.py:14-18 | applying the same data twice equals applying it once, and empty data changes nothing |
| FincaServices.ListarFincas | apps/finca/services.py:9-10 | the list holds every farm exactly once, in `nombre` order |
| FincaServices.CrearFincaComoEscrito | apps/finca/services.py:12-16 | as written: the row is inserted before `full_clean`; on success it is stored under the next key |
| FincaServices.CrearFincaDejaFilaInvalida | apps/finca/services.py:12-16 | as written: a farm with a two-character code is reported invalid and yet stays stored |
| FincaServices.CrearFincaEjemplo | apps/finca/services.py:12-16 | concretely: on an empty store, creating farm `Norte` with code `ab` fails and leaves that row stored |
| FincaServices.CrearFincaValidada | apps/finca/services.py:12-16 | validating first: on success the new farm is stored under the next key |
| FincaServices.CrearFincaValidadaSpec | apps/finca/services.py:12-16 | creation fails iff `full_clean` fails or the name or code clashes; failure changes nothing; success adds exactly the new farm; the store stays valid and every stored farm stays clean |
| FincaServices.CrearFinca | apps/finca/services.py:12-16 | the database method yields exactly `CrearFincaValidada` of the old tables and keeps the store valid |
| FincaServices.CrearFincaComoEscritoEnDb | apps/finca/services.py:12-16 | the database method yields exactly `CrearFincaComoEscrito` of the old tables and keeps the store valid |
| FincaServices.ActualizarFincaComoEscrito | apps/finca/services.py:18-25 | as written: on success the result is the updated farm's id |
| FincaServices.ActualizarFincaComoEscritoSpec | apps/finca/services.py:18-25 | an unknown id changes nothing; a known one gets exactly the given fields written, even when validation then fails, and succeeds iff `full_clean` passes |
| FincaServices.ActualizarFincaDejaCambioInvalido | apps/finca/services.py:18-25 | as written: an update that fails validation is still stored, so some stored farm no longer passes `full_clean` |
| FincaServices.ActualizarFincaValidada | apps/finca/services.py:18-25 | validating first: on success the result is the updated farm's id |
| FincaServices.ActualizarFincaValidadaSpec | apps/finca/services.py:18-25 | the validated update is all-or-nothing, keeps the store valid and keeps every stored farm clean |
| FincaServices.ActualizarFinca | apps/finca/services.py:18-25 | the database method yields exactly `ActualizarFincaValidada` of the old tables |
| FincaServices.ActualizarFincaComoEscritoEnDb | apps/finca/services.py:18-25 | the database method yields exactly `ActualizarFincaComoEscrito` of the old tables |
| FincaServices.EliminarFinca | apps/finca/services.py:27-31 | an unknown id is refused and changes nothing; success removes exactly that farm |
| FincaServices.EliminarFincaSpec | apps/finca/services.py:27-31 | deletion keeps the store valid and removes no other farm; a farm still referenced (`PROTECT`) is refused |
| FincaServices.EliminarFincaEnDb | apps/finca/services.py:27-31 | the database method yields exactly `EliminarFinca` of the old tables |
| GanaderiaModels.Activos | apps/ganaderia/models.py:10-11 | exactly the animals whose state is `activo`, unchanged |
| GanaderiaModels.ByArete | apps/ganaderia/models.py:13-14 | exactly the animals whose tag equals the given one up to letter case |
| GanaderiaModels.TagLeReflexive | apps/ganaderia/models.py:47 | the tag order is reflexive |
| GanaderiaModels.TagLeTotal | apps/ganaderia/models.py:47 | the tag order is total |
| GanaderiaModels.TagLeTransitive | apps/ganaderia/models.py:47 | the tag order is transitive |
| GanaderiaModels.TagLeAntisymmetric | apps/ganaderia/models.py:47 | the tag order is antisymmetric |
| GanaderiaModels.LeastTagExists | apps/ganaderia/models.py:20-21 | every non-empty set of animals has one with the least tag |
| GanaderiaModels.FirstByArete | apps/ganaderia/models.py:20-21 | what `get_by_arete` returns is a stored animal |
| GanaderiaModels.FirstByAreteIsFirst | apps/ganaderia/models.py:20-21 | `get_by_arete` returns nothing iff no tag matches up to case; otherwise a match whose tag is least among all matches |
| GanaderiaModels.FirstByAreteExists | apps/ganaderia/models.py:20-21 | when some tag matches, a first match exists |
| GanaderiaModels.GetByArete | apps/ganaderia/models.py:20-21 | the scan returns the first match in tag order |
| GanaderiaModels.FirstByAreteUnique | apps/ganaderia/models.py:20-21 | with unique tags, the first match is determined |
| GanaderiaModels.FirstByAreteIExact | apps/ganaderia/models.py:13-14 | tags equal up to case find the same animal |
| GanaderiaModels.AnimalClean | apps/ganaderia/models.py:54-59 | an animal passes iff it is not its own mother and its sex is `M` or `F` |
| GanaderiaModels.CanRegisterPartoIff | apps/ganaderia/models.py:74-75 | a birth can be registered iff the animal is an active female; never for a sold, dead, transferred or inactive one |
| GanaderiaModels.PesajeClean | apps/ganaderia/models.py:92-97 | a weighing passes iff its weight is positive and the animal is not dead, sold or inactive; a transferred animal can still be weighed |
| GanaderiaModels.PartoClean | apps/ganaderia/models.py:120-123 | a birth passes iff the mother is female |
| GanaderiaModels.ProduccionClean | apps/ganaderia/models.py:142-154 | without an animal it passes; with one it passes iff the animal is female and no present weight is negative |
| GanaderiaModels.TotalDiarioNoNegativo | apps/ganaderia/models.py:138-154 | a validated production has a non-negative daily total, no smaller than either shift's weight |
| GanaderiaModels.EventoSalidaClean | apps/ganaderia/models.py:170-178 | an exit event is refused iff its animal is already sold or dead |
| GanaderiaModels.EventoSalidaFullClean | apps/ganaderia/models.py:157-178 | `full_clean` passes iff the type is one of the three choices and the animal is neither sold nor dead |
| GanaderiaModels.TrasladoClean | apps/ganaderia/models.py:193-196 | a transfer passes iff origin and destination differ |
| GanaderiaModels.EstadoTrasSalida | apps/ganaderia/services.py:86-92 | a sale gives `vendido`, a death gives `muerto`, anything else gives `inactivo`, and no other state is produced |
| GanaderiaModels.SalidaEsFinal | apps/ganaderia/services.py:86-92 | after any exit event the animal can be neither weighed nor registered for a birth |
| Store.InsertFincaKeepsValid | apps/finca/repositories.py:11-12 | inserting a farm whose name and code clash with no other under the next key keeps the store valid |
| Store.ReplaceFincaKeepsValid | apps/finca/repositories.py:14-18 | rewriting a stored farm so that it clashes with no other keeps the store valid |
| Store.RemoveFincaKeepsValid | apps/ganaderia/models.py:39 | removing a farm that no animal, weighing, birth, milking or transfer points at (`PROTECT`) keeps the store valid |
| Store.ReplaceAnimalKeepsValid | apps/ganaderia/models.py:33-40 | rewriting an animal with its tag and mother kept, into a stored farm, keeps the store valid |
| Store.ReplaceEstadoKeepsValid | apps/ganaderia/services.py:86-92 | rewriting only a stored animal's state keeps the store valid |
| Store.InsertAnimalKeepsValid | apps/ganaderia/services.py:36-49 | inserting an animal with a new tag, in a stored farm and with no mother or a stored one, under the next key keeps the store valid |
| Store.AppendPesajeKeepsValid | apps/ganaderia/models.py:80-97 | appending a positive weighing of a stored animal in a stored farm keeps the store valid |
| Store.AppendPartoKeepsValid | apps/ganaderia/services.py:52-61 | appending a birth that names a stored mother, farm and calf keeps the store valid |
| Store.AppendProduccionKeepsValid | apps/ganaderia/models.py:150-152 | appending a production with no negative weight, of a stored animal in a stored farm, keeps the store valid |
| Store.AppendEventoSalidaKeepsValid | apps/ganaderia/services.py:82-84 | appending an exit event of a stored animal keeps the store valid |
| Store.Db.CreateFinca | apps/finca/repositories.py:11-12 | `create` stores exactly the new farm under the next key and keeps the store valid |
| Store.Db.SaveFinca | apps/finca/repositories.py:14-18 | `save` of a stored farm replaces exactly that row and keeps the store valid |
| Store.Db.DeleteFinca | apps/finca/repositories.py:20-21 | `delete` of an unreferenced farm removes exactly that row and keeps the store valid |
| Store.Db.CreateAnimal | apps/ganaderia/services.py:40-49 | `create` stores exactly the new animal under the next, unused key and keeps the store valid |
| Store.Db.CreateParto | apps/ganaderia/services.py:52-61 | `create` appends exactly the birth row and keeps the store valid |
| Store.Db.SaveEstado | apps/ganaderia/services.py:92 | `save(update_fields=['estado'])` changes only that animal's state and keeps the store valid |
| Store.Db.GetByArete | apps/ganaderia/models.py:20-21 | the manager lookup returns the first case-insensitive match in tag order |
| Store.Db.Get | apps/ganaderia/services.py:27 | `get(numero_arete=...)` fails with `DoesNotExist` iff no tag matches exactly; otherwise it returns an animal with that exact tag |
| AnimalService.GetByArete | apps/ganaderia/services.py:7-9 | nothing iff no tag matches up to case; otherwise the first match in tag order |
| AnimalService.NuevoPesaje | apps/ganaderia/services.py:11-20 | a recorded weighing has a positive weight |
| AnimalService.NuevoPesajeSpec | apps/ganaderia/services.py:11-20 | refused with "no animal" iff no tag matches; recorded iff some tag matches, the weight is positive and the first match is not in a final state; the row names that first match |
| AnimalService.PrepararPesaje | apps/ganaderia/services.py:14-18 | the lookup and `full_clean` give exactly `NuevoPesaje` |
| AnimalService.RegistrarPesaje | apps/ganaderia/services.py:11-20 | inserts exactly the weighing `NuevoPesaje` describes, or changes nothing; the store stays valid |
| AnimalService.MadrePorArete | apps/ganaderia/services.py:27 | nothing iff no tag matches exactly; otherwise the animal with that exact tag |
| AnimalService.NuevoParto | apps/ganaderia/services.py:22-63 | a recorded birth's mother is a stored animal |
| AnimalService.NuevoPartoSpec | apps/ganaderia/services.py:22-63 | an unknown mother tag raises `DoesNotExist`; a male mother, an inactive female and a taken calf tag are refused with their messages, in that order; otherwise the birth of that mother with the calf under the next key |
| AnimalService.PrepararParto | apps/ganaderia/services.py:27-37 | the checks in the source's order give exactly `NuevoParto` |
| AnimalService.RegistrarParto | apps/ganaderia/services.py:22-63 | on success it inserts the active calf in the given farm, child of the mother, plus the birth row, and leaves the mother untouched; on failure nothing changes; the store stays valid |
| AnimalService.NuevaProduccion | apps/ganaderia/services.py:65-74 | a recorded production has no negative weight |
| AnimalService.NuevaProduccionSpec | apps/ganaderia/services.py:65-74 | refused with "no animal" iff no tag matches; recorded iff the first match is female and no weight is negative; the row is booked to that animal's farm |
| AnimalService.PrepararProduccion | apps/ganaderia/services.py:68-72 | the lookup and `full_clean` give exactly `NuevaProduccion` |
| AnimalService.RegistrarProduccion | apps/ganaderia/services.py:65-74 | inserts exactly the row `NuevaProduccion` describes, or changes nothing; the store stays valid |
| AnimalService.CountFor | apps/ganaderia/services.py:71-73 | the count of rows for an animal and day is positive iff such a row exists |
| AnimalService.ProduccionNoUpsert | apps/ganaderia/services.py:71-73 | a second registration for the same animal and day adds one more row rather than updating the first |
| AnimalService.NuevoEventoSalida | apps/ganaderia/services.py:76-84 | a recorded exit event names a stored animal and carries the given type |
| AnimalService.NuevoEventoSalidaSpec | apps/ganaderia/services.py:76-84 | refused with "no animal" iff no tag matches; recorded iff the type is a valid choice and the first match is neither sold nor dead |
| AnimalService.PrepararEventoSalida | apps/ganaderia/services.py:79-83 | the lookup and `full_clean` give exactly `NuevoEventoSalida` |
| AnimalService.RegistrarEventoSalida | apps/ganaderia/services.py:76-93 | on success it saves the event and sets the animal's state to the one the type maps to; on failure nothing changes; the store stays valid |
| AnimalService.GuardarEventoSalida | apps/ganaderia/services.py:83-92 | the `post_save` handler followed by the service's own write leaves exactly one state change, the one the type maps to |
| AnimalService.Moved | apps/ganaderia/services.py:109-111 | only the moved animal changes: it is in the destination farm, marked transferred, with its tag kept |
| AnimalService.PasoTraslado | apps/ganaderia/services.py:100-107 | a successful step is a transfer of a stored animal, from its current farm to a different destination |
| AnimalService.PlanTrasladoStep | apps/ganaderia/services.py:99-112 | the batch is the first step followed by the rest, run on the table the step left; the first failure ends the batch |
| AnimalService.PrepararTraslado | apps/ganaderia/services.py:100-107 | the lookup and `full_clean` of one tag give exactly `PasoTraslado` |
| AnimalService.PlanificarTraslado | apps/ganaderia/services.py:97-113 | the loop over the tags computes exactly the batch plan |
| AnimalService.TrasladarAnimales | apps/ganaderia/services.py:95-113 | either every transfer and animal move is committed, or nothing changes and the first error is returned; the store stays valid |
| AnimalService.CommitKeepsValid | apps/ganaderia/services.py:95-113 | committing re-farmed animals, with their tags and mothers kept and each in a stored farm, and transfers of stored animals between two different stored farms, keeps the store valid |
| AnimalService.PlanTrasladoValido | apps/ganaderia/services.py:99-111 | when the destination and every animal's farm are stored, every transfer of a successful batch names a stored animal and goes between two different stored farms, and every animal stays in a stored farm |
| AnimalService.MovedKeepsUnique | apps/ganaderia/services.py:109-111 | moving an animal keeps tags unique |
| AnimalService.MovedRetagged | apps/ganaderia/services.py:109-111 | moving an animal changes neither its tag nor its mother |
| AnimalService.RetaggedKeepsLookup | apps/ganaderia/services.py:99-100 | a lookup by tag in a table whose tags are unchanged finds the same animal |
| AnimalService.PlanTrasladoKeepsTags | apps/ganaderia/services.py:99-112 | a successful batch keeps every tag and mother |
| AnimalService.PlanTrasladoCambiaFinca | apps/ganaderia/services.py:103-107 | every transfer of a successful batch goes between two different farms |
| AnimalService.PlanTrasladoFallaEn | apps/ganaderia/services.py:99-104 | a listed tag that finds no animal, or finds one already in the destination, makes the whole batch fail |
| AnimalService.PlanTrasladoAretesRepetidos | apps/ganaderia/services.py:99-111 | a tag listed twice, up to case, makes the whole batch fail |
| AnimalService.PlanTrasladoRepiteElPrimero | apps/ganaderia/services.py:99-111 | the case where the repeated tag is the first one |
| AnimalService.PlanTrasladoExito | apps/ganaderia/services.py:96-104 | the batch succeeds iff every tag finds an animal outside the destination and no tag repeats up to case |
| AnimalService.MismoAnimalMismoArete | apps/ganaderia/services.py:100 | two tags that find the same animal are equal up to case |
| AnimalService.PlanTrasladoPosible | apps/ganaderia/services.py:96-113 | a possible batch succeeds |
| AnimalService.PlanTrasladoFilas | apps/ganaderia/services.py:105-112 | a successful batch writes one transfer per tag, in order, each from the farm its animal was in before the batch |
| AnimalService.PlanTrasladoAnimales | apps/ganaderia/services.py:109-111 | after a successful batch each transferred animal is in the destination and marked transferred; every other animal is as it was |
| GanaderiaSignals.ActualizarEstadoAnimalEnEvento | apps/ganaderia/signals.py:6-16 | on creation only the animal's state changes, to the one the event type maps to; a re-save changes nothing |
| GanaderiaSignals.PostPartoCrear | apps/ganaderia/signals.py:18-22 | the birth handler changes nothing |
| GanaderiaForms.NumeroArete | apps/ganaderia/forms.py:15 | a tag is read iff `numero_arete` is present and cleaned to text |
| GanaderiaForms.CleanAreteForm | apps/ganaderia/forms.py:13-21 | on success `cleaned_data` holds the found animal |
| GanaderiaForms.CleanAreteFormSpec | apps/ganaderia/forms.py:13-77 | the form fails iff the tag matches no animal up to case; otherwise it adds the first match, plus its farm for weighings and milkings, and keeps every other field |
| GanaderiaForms.AreteForm.Clean | apps/ganaderia/forms.py:13-21 | `cleaned_data` becomes the cleaned map on success and stays as it was on failure |
| GanaderiaForms.CleanNumeroAreteMadre | apps/ganaderia/forms.py:33-40 | an accepted mother tag is returned as typed |
| GanaderiaForms.CleanNumeroAreteMadreSpec | apps/ganaderia/forms.py:33-40 | the mother tag is refused as unknown iff no tag matches up to case, as not female iff the first match is male, and accepted otherwise |
| GanaderiaForms.CleanNumeroAreteCria | apps/ganaderia/forms.py:42-46 | an accepted calf tag is returned as typed |
| GanaderiaForms.CleanNumeroAreteCriaSpec | apps/ganaderia/forms.py:42-46 | the calf tag is refused iff an animal already has it with the same case; a tag differing only in case is accepted |
| GanaderiaForms.Aretes | apps/ganaderia/forms.py:85 | stripping and dropping blanks never lengthens the list |
| GanaderiaForms.CleanListaAretes | apps/ganaderia/forms.py:83-88 | an accepted list is never empty |
| GanaderiaForms.AretesLimpios | apps/ganaderia/forms.py:85 | pieces without commas yield tags that are non-empty, stripped and comma-free |
| GanaderiaForms.PiezaLimpia | apps/ganaderia/forms.py:85 | a non-blank piece without commas strips to a clean tag |
| GanaderiaForms.ListaAretesLimpia | apps/ganaderia/forms.py:83-88 | every tag the parser returns is clean |
| GanaderiaForms.AretesVacios | apps/ganaderia/forms.py:85 | no tag survives iff every piece is blank |
| GanaderiaForms.JoinBlank | apps/ganaderia/forms.py:85-87 | all pieces are blank iff the joined text holds only separators and spaces |
| GanaderiaForms.ListaAretesVacia | apps/ganaderia/forms.py:83-88 | the list is refused, with its message, iff the input holds only commas and spaces |
| GanaderiaForms.ListaAretesJoin | apps/ganaderia/forms.py:83-88 | clean tags joined with commas parse back to the same list, in order and with repetitions |
| GanaderiaForms.AretesLimpiosFijos | apps/ganaderia/forms.py:85 | a list of clean tags is left as it is |
| SaludModels.EstadoTrasConfirmacion | apps/salud/services.py:98 | a `gestante` result gives `Gestante`; any other gives `No gestante` |
| SaludServices.NuevoEventoSanitario | apps/salud/services.py:19-40 | recorded iff the animal exists, with the given fields; otherwise the "animal does not exist" error |
| SaludServices.RegistrarEventoSanitario | apps/salud/services.py:17-40 | inserts exactly that event and changes no animal, or changes nothing; the store stays valid |
| SaludServices.AppendEventoSanitarioKeepsValid | apps/salud/services.py:31-38 | appending a sanitary event keeps the store valid |
| SaludServices.NuevaInseminacion | apps/salud/services.py:47-60 | refused iff the animal's state is exactly `Gestante`; otherwise the insemination with the given fields |
| SaludServices.InseminacionComparaExacto | apps/salud/services.py:51-52 | a lower-case `gestante` state does not block an insemination |
| SaludServices.RegistrarInseminacion | apps/salud/services.py:45-60 | inserts exactly that insemination, leaving the animal as it was, or changes nothing |
| SaludServices.AppendInseminacionKeepsValid | apps/salud/services.py:54-60 | appending an insemination of a stored animal keeps the store valid |
| SaludServices.Pendientes | apps/salud/services.py:66-70 | an insemination is pending iff it is stored and no confirmation names it |
| SaludServices.PendientesSinConfirmar | apps/salud/services.py:66-70 | with no confirmation yet, every stored insemination is pending |
| SaludServices.PendientesTrasInseminar | apps/salud/services.py:66-70 | a new insemination joins the pending set |
| SaludServices.PendientesTrasConfirmar | apps/salud/services.py:66-70 | a confirmation removes exactly its insemination from the pending set |
| SaludServices.NuevaConfirmacion | apps/salud/services.py:74-94 | refused iff the insemination is already confirmed; otherwise a confirmation of it with the given result |
| SaludServices.ConfirmarGestacion | apps/salud/services.py:72-101 | on success it links the confirmation and sets the animal's state from the result; on failure nothing changes; the store stays valid |
| SaludServices.AppendConfirmacionKeepsValid | apps/salud/models.py:47 | confirming an unconfirmed stored insemination keeps the one-to-one link |
| SaludServices.ConfirmarDosVeces | apps/salud/services.py:83-85 | a second confirmation of the same insemination is refused |
| SaludServices.GestanteNoSeInsemina | apps/salud/services.py:51-52 | after a `gestante` confirmation the animal cannot be inseminated |
| SaludServices.NoGestanteSeInsemina | apps/salud/services.py:51-52 | after any other result it can be inseminated again |
| UsersModels.CedulaStr | apps/users/models.py:20 | text stays as it is; a non-negative number becomes its decimal digits |
| UsersModels.NormalizeEmail | apps/users/models.py:21 | text without `@` is returned unchanged |
| UsersModels.NormalizeEmailSpec | apps/users/models.py:21 | normalising keeps the stripped local part, changes nothing but letter case in the domain, and is idempotent |
| UsersModels.RolDe | apps/users/models.py:22 | an assigned role is a stored role |
| UsersModels.CrearUsuarioBaseSpec | apps/users/models.py:15-25 | a missing cedula and a missing email are refused, in that order; success iff both are given, the role is assignable and neither clashes; success adds exactly one active user without a temporary password under the next key; failure changes nothing; the tables stay valid |
| UsersModels.NuevoUsuarioValido | apps/users/models.py:52-55 | saving a user with a free cedula and email and an existing role keeps the tables valid |
| UsersModels.CreateUserFlags | apps/users/models.py:27-30 | an ordinary user is staff or superuser only when the caller asks for it |
| UsersModels.CreateSuperuserComoEscrito | apps/users/models.py:32-40 | as written: a failure changes nothing |
| UsersModels.CreateSuperuserSinRolFalla | apps/users/models.py:35 | as written: without an explicit role no superuser is ever created; once the other checks pass, the string default is refused by the role key |
| UsersModels.GetOrCreateRol | apps/users/models.py:35 | returns a role with the given name, keeps every existing role and user, and keeps the tables valid |
| UsersModels.CreateSuperuserSpec | apps/users/models.py:32-40 | a superuser is always staff and superuser; without a role it gets `Gerente` and succeeds whenever the cedula and email are given and free; failure changes nothing |
| UsersModels.UserManager.CreateUserEnDb | apps/users/models.py:27-30 | the manager method yields exactly `CreateUser` of the old tables |
| UsersModels.UserManager.CreateSuperuserEnDb | apps/users/models.py:32-40 | the manager method yields exactly `CreateSuperuser` of the old tables |
| UsersModels.UserManager.CreateUserBase | apps/users/models.py:15-25 | the manager method yields exactly `CrearUsuarioBase` of the old tables |
| UsersModels.StrSpec | apps/users/models.py:67-69 | a user without a name is shown by cedula; the text ends with the role in parentheses; a named user's text does not start with a space |
| UsersForms.CleanUsername | apps/users/forms.py:38-42 | accepted iff a non-empty run of digits, returned as typed |
| UsersForms.ConfirmLoginAllowed | apps/users/forms.py:44-49 | login is allowed iff the user is active |
| UsersForms.RegisterCleanCedulaSpec | apps/users/forms.py:101-107 | accepted iff a non-empty run of digits that no user has; the format error comes first |
| UsersForms.RegisterCleanEmailSpec | apps/users/forms.py:109-113 | accepted iff no user has the email |
| UsersForms.RecoverCleanCedulaSpec | apps/users/forms.py:131-137 | accepted iff made of digits and some user has it |
| UsersForms.RegistroYRecuperacionOpuestos | apps/users/forms.py:101-137 | for a run of digits, exactly one of registration and recovery accepts the cedula |
| UsersForms.TrasCrearUsuario | apps/users/forms.py:101-113 | after `create_user`, registration refuses that cedula and email, and recovery accepts the cedula |
| UsersDecorators.RoleRequired | apps/users/decorators.py:5-31 | anonymous users go to login, role-less users and roles not listed go to the dashboard with their messages; the view runs iff the role is listed exactly |
| UsersDecorators.RoleRequiredExacto | apps/users/decorators.py:25-27 | a role that differs from every allowed name, even only in case, is turned away |
| UsersDecorators.InseminacionRechazaAdministrador | apps/salud/views.py:135 | as written: the seeded farm-administrator role is turned away from the insemination views |
| UsersDecorators.InseminacionAdmite | apps/salud/views.py:135 | with the seeded spelling, managers and farm administrators reach those views and administrative assistants do not |
| GanaderiaDecorators.RoleVal | apps/ganaderia/decorators.py:12-16 | the compared role is the lower-cased name, or empty without a role |
| GanaderiaDecorators.Allowed | apps/ganaderia/decorators.py:17 | the allowed names, each lower-cased, in order |
| GanaderiaDecorators.RoleRequired | apps/ganaderia/decorators.py:5-22 | anonymous users are denied; the view runs only when allowed |
| GanaderiaDecorators.RoleRequiredSpec | apps/ganaderia/decorators.py:10-20 | the view runs iff the user is logged in and the role equals an allowed name up to case; a role-less user passes iff an allowed name is empty |
| GanaderiaDecorators.RoleRequiredIgnoraMayusculas | apps/ganaderia/decorators.py:13-18 | role names equal up to case reach the same views |
| GanaderiaDecorators.AdmiteAmbasGrafias | apps/ganaderia/decorators.py:12-18 | the farm administrator is admitted under either spelling |
| Dashboard.FormatNumberGrouped | static/js/dashboard.js:263-265 | the regex rewrite equals the reference grouping: the sign, then the digits in groups of three from the right, joined with commas |
| Dashboard.FormatNumberDigits | static/js/dashboard.js:263-265 | deleting the commas gives back the number's text |
| Dashboard.FormatNumberSmall | static/js/dashboard.js:264 | numbers strictly between -1000 and 1000 are unchanged |
| Dashboard.FormatNumberGroups | static/js/dashboard.js:264 | split at the commas, the first group has one to three digits and every other exactly three; a negative number's `-` is followed by a digit |
| Dashboard.Chunks | static/js/dashboard.js:263-265 | the first group has one to three digits and every other exactly three |
| ListFilters.ToList | apps/ganaderia/templatetags/list_filters.py:6-8 | the list has `end - start + 1` elements (none when `end < start`) and the i-th is `start + i` |
| ListFilters.ToListMembers | apps/ganaderia/templatetags/list_filters.py:6-8 | an integer is listed iff it lies between the bounds; the list is strictly increasing |
| UsersList.MatchesEmpty | apps/users/static/users/js/users_list.js:67-73 | an empty search with no filters passes every row |
| UsersList.FilterEmptyShowsAll | apps/users/static/users/js/users_list.js:67-80 | filtering with an empty search and no filters shows every data row |
| UsersList.CountVisibleFiltered | apps/users/static/users/js/users_list.js:76-85 | once filtered, the shown data rows are exactly those that pass |
| UsersList.CountMatchingEmpty | apps/users/static/users/js/users_list.js:67-78 | with no search and no filters, every data row counts |
| UsersList.CountVisibleCheckedAll | apps/users/static/users/js/users_list.js:143-147 | the checked shown boxes never outnumber the shown ones, and equal them iff every shown box is checked |
| UsersList.UsersListPage.FilterTable | apps/users/static/users/js/users_list.js:48-89 | a data row is shown iff it passes; the count is the number passing; the "no results" row is present iff none passes; selection is untouched |
| UsersList.UsersListPage.ShowNoResults | apps/users/static/users/js/users_list.js:94-115 | the row is added once when asked and removed when not |
| UsersList.UsersListPage.UpdateBulkActions | apps/users/static/users/js/users_list.js:155-167 | the button is shown iff some box is checked, labelled with how many |
| UsersList.UsersListPage.SelectAllChanged | apps/users/static/users/js/users_list.js:126-134 | the shown boxes take the new state and the hidden ones keep theirs; the button follows |
| UsersList.UsersListPage.CountVisibleBoxes | apps/users/static/users/js/users_list.js:143-146 | the counts of shown boxes and of shown checked boxes |
| UsersList.UsersListPage.CheckboxChanged | apps/users/static/users/js/users_list.js:138-149 | select-all becomes checked iff some box is shown and every shown box is checked; the button follows |
| Register.EmailPatternSpec | apps/users/static/users/js/register.js:132 | the email pattern holds iff there are no spaces, the single `@` is not first, and a `.` lies strictly inside the domain, not last |
| Register.ErroresVacios | apps/users/static/users/js/register.js:98-145 | the form has no errors iff every field is valid |
| Register.ErroresNinguno | apps/users/static/users/js/register.js:98-145 | no error message is recorded iff no field check fails |
| Register.MarcasUnion | apps/users/static/users/js/register.js:98-145 | validation adds its messages on top of the messages already shown |
| Register.CedulaPrimerError | apps/users/static/users/js/register.js:113-125 | the cedula's message is the first failing check: required, digits only, then at least six digits |
| Register.SoloDigitos | apps/users/static/users/js/register.js:57 | the cleaned input is made of digits and is no longer than the typed text |
| Register.SoloDigitosFijo | apps/users/static/users/js/register.js:57 | cleaning text made of digits leaves it as it is |
| Register.RegisterForm.ShowError | apps/users/static/users/js/register.js:148-159 | the field's message becomes the given one; the other fields' messages stay |
| Register.RegisterForm.ValidateForm | apps/users/static/users/js/register.js:98-145 | adds exactly the messages of the failing checks, and answers valid iff no check fails |
| Register.RegisterForm.OnCedulaInput | apps/users/static/users/js/register.js:56-63 | the input keeps only its digits; it is marked invalid iff it holds between one and five of them |
| Register.RegisterForm.OnEmailBlur | apps/users/static/users/js/register.js:69-76 | the input is marked invalid iff it is non-empty and does not match the pattern |

## Left out

- Letter case and digits are ASCII only. This applies to `iexact`, `.lower()`, `str.isdigit` and `\d`.
- Text.IsSpace: Python's `strip()` (apps/ganaderia/forms.py:85, apps/users/models.py:68) and JavaScript's `\s` and `trim()` are approximated by the ASCII whitespace and the no-break space. The other Unicode spaces they also remove are kept, so a tag such as `"A1\x1f"` keeps its last character in the model.
- GanaderiaModels.TagLe, GanaderiaModels.FirstByArete and Store.Db.GetByArete: the tag order and the case-insensitive match are SQLite's, the database of the local configuration (agrotiquiza/settings.py:92-99). With `DATABASE_URL` set (agrotiquiza/settings.py:81-91) the deployment runs on PostgreSQL, where `ORDER BY` follows the collation and `iexact` compares `UPPER()` with Unicode case folding; that order is not modelled.
- GanaderiaModels.EventoSalidaFullClean and FincaModels.FullClean: which calls pass is exact, but the error of a failing field check is one placeholder message. Django's own per-field messages (for a bad `tipo_evento`, "Value … is not a valid choice.") and their collection together with `clean()`'s error into one `ValidationError` are not modelled.
- Dates are integers and decimal weights are reals. No rounding and no `max_digits` are modelled.
- Several user-model details are not modelled: password hashing (`set_password`), `date_joined`, `empresa` and `username`, `EmailField` syntax checks and the `max_length` of user fields.
- Flash messages, clocks, `auto_now` and the request are not modelled; the acting user is a parameter.
- Views, URLs, templates, the admin, exports, seeding commands and the sending of recovery emails are not modelled.
- AnimalService.TrasladarAnimales: the batch is computed on a copy of the animals table and committed at the end. Under `@transaction.atomic` this is observably the same as writing as it goes.
- FincaServices: the service and repository are modelled as module-level functions and methods over the store. The repository's `save`, `update` and `delete` become map writes.
- SaludServices.Pendientes: the pending inseminations are a set of indices, not a queryset in date order.
- SaludServices.RegistrarInseminacion and SaludServices.ConfirmarGestacion: these require a stored animal or insemination, because the source receives saved model instances.
- AnimalService.RegistrarPesaje, AnimalService.RegistrarParto and AnimalService.TrasladarAnimales: these require the given farm to be stored, because the source receives a saved `Finca` instance.
- UsersModels.CrearUsuarioBase: the extra fields are limited to the two flags, the role and the names.
- Dashboard: `formatNumber` is modelled on integers only. Fractional numbers and numbers of 1e21 or more, which `toString` writes in another form, are not modelled.
- ListFilters.ToList: the `int()` parsing of the arguments is not modelled; they arrive as integers.
- UsersList.UsersListPage: every data row has exactly one checkbox. The initial state of the bulk button is assumed hidden.
- GanaderiaDecorators.RoleRequired: the answer for a role-less user is correct but not interesting. It is admitted only when an allowed name is empty, which no view passes.
- UsersModels.StrSpec: for a named user it states only that the text does not start with a space, not that it is the stripped full name.

## Findings

| source | as written | input that shows it | evidently intended | confidence | as-written member | corrected member |
|---|---|---|---|---|---|---|
| apps/finca/services.py:12-25 | `crear_finca` and `actualizar_finca` write the row and only then call `full_clean`, outside a transaction | creating a farm with code `ab` on an empty store: the `ValidationError` is raised but the row stays stored | validate before writing, so a failed call leaves the store unchanged and every stored farm valid | not executed | FincaServices.CrearFincaDejaFilaInvalida | FincaServices.CrearFincaValidadaSpec |
| apps/users/models.py:35 | `create_superuser` defaults `rol` to the string `'Gerente'`, which the role foreign key refuses with `ValueError` | `create_superuser('123456', 'a@b.co', 'x')` with no role | look up or create the `Rol` named `Gerente` and assign it | not executed | UsersModels.CreateSuperuserSinRolFalla | UsersModels.CreateSuperuserSpec |
| apps/salud/views.py:135 | the insemination views allow `"Administrador finca"`, but the seeded role is `"Administrador Finca"`, and the guard compares exactly | a user whose role is the seeded `Administrador Finca` opening the insemination create view | allow the seeded spelling, as the other health views do | not executed | UsersDecorators.InseminacionRechazaAdministrador | UsersDecorators.InseminacionAdmite |
