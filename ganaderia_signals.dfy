/** The `post_save` handlers of apps/ganaderia/signals.py. */
module GanaderiaSignals {
  import opened GanaderiaModels
  import opened Store

  /** After an exit event is first saved, its animal's `estado` becomes the state
      the event type maps to; only that field is written. A re-save
      (`created == false`) does nothing. */
  method ActualizarEstadoAnimalEnEvento(db: Db, instance: EventoSalida, created: bool)
    requires db.Valid() && instance.animal in db.animals
    modifies db
    ensures db.Valid()
    ensures !created ==> db.State() == old(db.State())
    ensures created ==> db.State() == old(db.State()).(animals := old(db.animals)[instance.animal :=
      old(db.animals)[instance.animal].(estado := EstadoTrasSalida(instance.tipoEvento))])
  {
    if created {
      db.SaveEstado(instance.animal, EstadoTrasSalida(instance.tipoEvento));
    }
  }

  /** The birth handler is a placeholder: saving a birth changes nothing more. */
  method PostPartoCrear(db: Db, instance: Parto, created: bool)
    ensures db.State() == old(db.State())
  {
  }
}
