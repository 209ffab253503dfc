/** The relational store the DAOs work on: one row datatype per table and one
    object, `Database`, whose fields are the tables. Every table is a map from
    its serial id to its row; the serial counters start at 1, as PostgreSQL's
    do, so an id handed out by an insert is never 0 (and therefore truthy for
    the Python callers that test it with `if new_id:`). */
module Rows {

  datatype Option<T> = None | Some(value: T)

  /** Python's `if excluir_id:` followed by `AND id != excluir_id`: a missing
      exclusion and the id 0 are both falsy and exclude nothing. */
  predicate Excluye(excluir: Option<int>, id: int)
  {
    excluir.Some? && excluir.value != 0 && excluir.value == id
  }

  /** Every key of a table is a serial id already handed out, and the
      serial counter has not gone below its start. */
  predicate IdsEmitidos<T>(m: map<int, T>, siguiente: int)
  {
    && 1 <= siguiente
    && forall k :: k in m ==> 1 <= k < siguiente
  }

  /** Some element of a non-empty set: the next row a loop over a query
      result processes. */
  method Elegir<T>(s: set<T>) returns (x: T)
    requires s != {}
    ensures x in s
  {
    x :| x in s;
  }

  /** `Elegir` for proofs: a lemma cannot call a method, and the compiled
      loops need a non-ghost choice, so the choice is written once in each
      form. */
  lemma Testigo<T>(s: set<T>) returns (x: T)
    requires s != {}
    ensures x in s
  {
    x :| x in s;
  }

  /** `agenda_detalle.estado_detalle`. */
  datatype EstadoDetalle = Disponible | Agotado | Cancelado

  /** `disponibilidad_horaria`: a time-window template published by a doctor.
      Times are minutes of the day, dates are day numbers. */
  datatype Disponibilidad = Disponibilidad(
    medico: int, dia: int, turno: int,
    horaInicio: int, horaFin: int, fecha: int, cupos: int)

  /** `agenda_cabecera`: one doctor's schedule for one date. */
  datatype AgendaCabecera = AgendaCabecera(
    medico: int, especialidad: int, fecha: int,
    estado: string, funcionario: int, observaciones: string)

  /** `agenda_detalle`: a bookable slot copied from a template into a schedule. */
  datatype AgendaDetalle = AgendaDetalle(
    cabecera: int, disponibilidad: int, dia: int, turno: int,
    horaInicio: int, horaFin: int,
    cuposDisponibles: int, cuposMaximos: int, estado: EstadoDetalle)

  /** `cita_cabecera`: binds a patient to a schedule. */
  datatype CitaCabecera = CitaCabecera(
    paciente: int, agenda: int, funcionario: int, observaciones: string)

  /** `cita_detalle`: one appointment booked against a slot. */
  datatype CitaDetalle = CitaDetalle(
    cabecera: int, agendaDetalle: int, fecha: int, hora: int,
    motivo: string, estadoCita: int)

  /** `consultorio`: a consulting office. */
  datatype Consultorio = Consultorio(
    nombre: string, direccion: string, telefono: string, correo: string)

  class Database {
    /** The ids of the `estado_cita` rows. Fixed for the lifetime of the store. */
    const estadoExiste: int -> bool

    /** `estado_cita.ocupa_cupo`: whether an appointment status holds one unit
        of its slot's capacity, that is, whether it is one of the ids
        `getEstadosQueOcupanCupo` returns. Those ids are read from
        `estado_cita`, so a status id with no row never occupies (required
        by the constructor). Fixed for the lifetime of the store. */
    const ocupaCupo: int -> bool

    var disponibilidades: map<int, Disponibilidad>
    var nextDisponibilidad: int
    var agendaCabeceras: map<int, AgendaCabecera>
    var nextAgendaCabecera: int
    var agendaDetalles: map<int, AgendaDetalle>
    var nextAgendaDetalle: int
    var citaCabeceras: map<int, CitaCabecera>
    var nextCitaCabecera: int
    var citaDetalles: map<int, CitaDetalle>
    var nextCitaDetalle: int
    var consultorios: map<int, Consultorio>
    var nextConsultorio: int

    /** An empty store with the given status table and policy. */
    constructor (estadoExiste: int -> bool, ocupaCupo: int -> bool)
      requires forall e :: ocupaCupo(e) ==> estadoExiste(e)
      ensures this.estadoExiste == estadoExiste && this.ocupaCupo == ocupaCupo
      ensures disponibilidades == map[] && nextDisponibilidad == 1
      ensures agendaCabeceras == map[] && nextAgendaCabecera == 1
      ensures agendaDetalles == map[] && nextAgendaDetalle == 1
      ensures citaCabeceras == map[] && nextCitaCabecera == 1
      ensures citaDetalles == map[] && nextCitaDetalle == 1
      ensures consultorios == map[] && nextConsultorio == 1
    {
      this.estadoExiste, this.ocupaCupo := estadoExiste, ocupaCupo;
      disponibilidades, nextDisponibilidad := map[], 1;
      agendaCabeceras, nextAgendaCabecera := map[], 1;
      agendaDetalles, nextAgendaDetalle := map[], 1;
      citaCabeceras, nextCitaCabecera := map[], 1;
      citaDetalles, nextCitaDetalle := map[], 1;
      consultorios, nextConsultorio := map[], 1;
    }
  }
}
