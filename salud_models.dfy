/** The health records (apps/salud/models.py): sanitary events, inseminations
    and gestation confirmations. */
module SaludModels {
  import opened Wrappers
  import opened GanaderiaModels

  /** An insemination is identified by its position in the insemination table. */
  type InseminacionId = nat

  const GESTANTE := "Gestante"
  const NO_GESTANTE := "No gestante"

  datatype EventoSanitario = EventoSanitario(
    fecha: Date,
    animal: AnimalId,
    diagnostico: string,
    tratamiento: string,
    responsable: string,
    sintomas: Option<string>)

  datatype Inseminacion = Inseminacion(
    fecha: Date,
    animal: AnimalId,
    tipoSemen: string,
    inseminador: string,
    responsable: UserId)

  datatype ConfirmacionGestacion = ConfirmacionGestacion(
    fechaConfirmacion: Date,
    metodoDiagnostico: string,
    resultado: string,
    responsable: string,
    observaciones: Option<string>,
    inseminacion: InseminacionId)

  /** The reverse one-to-one link exists: the insemination has a confirmation. */
  predicate Confirmada(confirmaciones: seq<ConfirmacionGestacion>, i: InseminacionId) {
    exists k :: 0 <= k < |confirmaciones| && confirmaciones[k].inseminacion == i
  }

  /** The `OneToOneField`: no insemination is confirmed twice. */
  ghost predicate AtMostOneConfirmation(confirmaciones: seq<ConfirmacionGestacion>) {
    forall k, l :: 0 <= k < l < |confirmaciones| ==> confirmaciones[k].inseminacion != confirmaciones[l].inseminacion
  }

  /** The reproductive state a confirmation writes into the animal's `estado`. */
  function EstadoTrasConfirmacion(resultado: string): (r: string)
    ensures r == GESTANTE <==> resultado == "gestante"
    ensures r != GESTANTE ==> r == NO_GESTANTE
  {
    if resultado == "gestante" then GESTANTE else NO_GESTANTE
  }
}
