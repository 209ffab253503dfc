/** CitaDao.py: the appointment operations that move slot capacity. Each
    method updates the tables of a `Database` in place, is proved equal to
    the value-level functions of `Libro`, and keeps the ledger invariant
    `Libro.LibroCuadra`. The status table is the fixed predicate `db.ocupaCupo`. */
module CitaDao {
  import opened Rows
  import opened Libro

  /** What the appointment operations report: a row id, the "SIN_CUPOS"
      sentinel, or `False` (unknown row, or a failed insert). */
  datatype Resultado = Ok(id: int) | SinCupos | NoEncontrado

  /** `verificarCuposDisponibles`: the capacity probe. */
  method VerificarCuposDisponibles(db: Database, id: int) returns (cupos: int)
    ensures id in db.agendaDetalles ==> cupos == db.agendaDetalles[id].cuposDisponibles
    ensures id !in db.agendaDetalles ==> cupos == 0
    ensures cupos == CuposDisponibles(db.agendaDetalles, id)
  {
    if id in db.agendaDetalles {
      cupos := db.agendaDetalles[id].cuposDisponibles;
    } else {
      cupos := 0;
    }
  }

  /** `restarCupoAgendaDetalle`: consume one unit, only while one remains. */
  method RestarCupoAgendaDetalle(db: Database, id: int) returns (ok: bool)
    modifies db`agendaDetalles
    ensures db.agendaDetalles == Restar(old(db.agendaDetalles), id)
    ensures ok <==> CuposDisponibles(old(db.agendaDetalles), id) > 0
  {
    if id in db.agendaDetalles && db.agendaDetalles[id].cuposDisponibles > 0 {
      var fila := db.agendaDetalles[id];
      var quedan := fila.cuposDisponibles - 1;
      db.agendaDetalles := db.agendaDetalles[id := fila.(
        cuposDisponibles := quedan,
        estado := if quedan == 0 then Agotado else fila.estado)];
      ok := true;
    } else {
      ok := false;
    }
  }

  /** `sumarCupoAgendaDetalle`: give one unit back; fails only for a missing slot. */
  method SumarCupoAgendaDetalle(db: Database, id: int) returns (ok: bool)
    modifies db`agendaDetalles
    ensures db.agendaDetalles == Sumar(old(db.agendaDetalles), id)
    ensures ok <==> id in old(db.agendaDetalles)
  {
    if id in db.agendaDetalles {
      var fila := db.agendaDetalles[id];
      db.agendaDetalles := db.agendaDetalles[id := fila.(
        cuposDisponibles := fila.cuposDisponibles + 1,
        estado := Disponible)];
      ok := true;
    } else {
      ok := false;
    }
  }

  /** `getDetalleById`: the appointment `k` is found only when its status has
      a row, since the query joins `estado_cita`. */
  predicate Encontrada(estadoExiste: int -> bool, citas: map<int, CitaDetalle>, k: int)
  {
    k in citas && estadoExiste(citas[k].estadoCita)
  }

  /** `guardarCitaCabecera`: insert an appointment header. */
  method GuardarCitaCabecera(db: Database, paciente: int, agenda: int, funcionario: int, observaciones: string)
    returns (r: Resultado)
    modifies db`citaCabeceras, db`nextCitaCabecera
    ensures old(db.nextCitaCabecera) in old(db.citaCabeceras) ==>
      r == NoEncontrado && unchanged(db)
    ensures old(db.nextCitaCabecera) !in old(db.citaCabeceras) ==>
      && r == Ok(old(db.nextCitaCabecera))
      && db.citaCabeceras == old(db.citaCabeceras)[r.id := CitaCabecera(paciente, agenda, funcionario, observaciones)]
      && db.nextCitaCabecera == old(db.nextCitaCabecera) + 1
    ensures old(LibroCuadra(db)) ==> LibroCuadra(db)
  {
    var nuevo := db.nextCitaCabecera;
    if nuevo in db.citaCabeceras {
      return NoEncontrado;
    }
    db.citaCabeceras := db.citaCabeceras[nuevo := CitaCabecera(paciente, agenda, funcionario, observaciones)];
    db.nextCitaCabecera := nuevo + 1;
    r := Ok(nuevo);
  }

  /** `guardarCitaDetalle`: probe the slot, insert the appointment, and
      consume one unit if its status occupies capacity. The probe rejects a
      slot with no units left whatever the status; an insert whose header
      does not exist fails (foreign key) before anything is consumed. */
  method GuardarCitaDetalle(db: Database, cabecera: int, slot: int, fecha: int, hora: int,
                            motivo: string, estado: int) returns (r: Resultado)
    modifies db`citaDetalles, db`nextCitaDetalle, db`agendaDetalles
    ensures CuposDisponibles(old(db.agendaDetalles), slot) <= 0 ==> r == SinCupos && unchanged(db)
    ensures CuposDisponibles(old(db.agendaDetalles), slot) > 0
            && (cabecera !in old(db.citaCabeceras) || old(db.nextCitaDetalle) in old(db.citaDetalles))
            ==> r == NoEncontrado && unchanged(db)
    ensures CuposDisponibles(old(db.agendaDetalles), slot) > 0
            && cabecera in old(db.citaCabeceras) && old(db.nextCitaDetalle) !in old(db.citaDetalles)
            ==> && r == Ok(old(db.nextCitaDetalle))
                && db.nextCitaDetalle == old(db.nextCitaDetalle) + 1
                && db.citaDetalles == old(db.citaDetalles)[r.id := CitaDetalle(cabecera, slot, fecha, hora, motivo, estado)]
                && db.agendaDetalles == (if db.ocupaCupo(estado) then Restar(old(db.agendaDetalles), slot)
                                         else old(db.agendaDetalles))
    ensures old(LibroCuadra(db)) ==> LibroCuadra(db)
  {
    var cupos := VerificarCuposDisponibles(db, slot);
    if cupos <= 0 {
      return SinCupos;
    }
    var nuevo := db.nextCitaDetalle;
    if cabecera !in db.citaCabeceras || nuevo in db.citaDetalles {
      return NoEncontrado;
    }
    ghost var slots0, citas0 := db.agendaDetalles, db.citaDetalles;
    var fila := CitaDetalle(cabecera, slot, fecha, hora, motivo, estado);
    db.citaDetalles := db.citaDetalles[nuevo := fila];
    db.nextCitaDetalle := nuevo + 1;
    if db.ocupaCupo(estado) {
      var consumido := RestarCupoAgendaDetalle(db, slot);
    }
    r := Ok(nuevo);
    if old(LibroCuadra(db)) {
      GuardarCuadra(db.ocupaCupo, slots0, citas0, nuevo, fila);
    }
  }

  /** `updateCitaDetalle`: rewrite an appointment and move capacity by the
      decision table `Libro.Decidir`, probing the target slot first exactly
      where a unit will be consumed. The appointment keeps its header. An
      appointment `getDetalleById` does not find is reported as unknown. */
  method UpdateCitaDetalle(db: Database, k: int, slot: int, fecha: int, hora: int,
                           motivo: string, estado: int) returns (r: Resultado)
    modifies db`citaDetalles, db`agendaDetalles
    ensures !Encontrada(db.estadoExiste, old(db.citaDetalles), k) ==> r == NoEncontrado && unchanged(db)
    ensures Encontrada(db.estadoExiste, old(db.citaDetalles), k) ==>
      var anterior := old(db.citaDetalles[k]);
      var plan := Decidir(db.ocupaCupo(anterior.estadoCita), db.ocupaCupo(estado), slot != anterior.agendaDetalle);
      if plan.probar && CuposDisponibles(old(db.agendaDetalles), slot) <= 0 then
        r == SinCupos && unchanged(db)
      else
        && r == Ok(k)
        && db.citaDetalles == old(db.citaDetalles)[k := CitaDetalle(anterior.cabecera, slot, fecha, hora, motivo, estado)]
        && db.agendaDetalles == Aplicar(old(db.agendaDetalles), plan, anterior.agendaDetalle, slot)
    ensures old(LibroCuadra(db)) ==> LibroCuadra(db)
  {
    if !Encontrada(db.estadoExiste, db.citaDetalles, k) {
      return NoEncontrado;
    }
    var anterior := db.citaDetalles[k];
    var anteriorOcupa := db.ocupaCupo(anterior.estadoCita);
    var nuevoOcupa := db.ocupaCupo(estado);
    var cambioAgenda := slot != anterior.agendaDetalle;
    var plan := Decidir(anteriorOcupa, nuevoOcupa, cambioAgenda);
    if plan.probar {
      var cupos := VerificarCuposDisponibles(db, slot);
      if cupos <= 0 {
        return SinCupos;
      }
    }
    ghost var slots0, citas0 := db.agendaDetalles, db.citaDetalles;
    var fila := CitaDetalle(anterior.cabecera, slot, fecha, hora, motivo, estado);
    db.citaDetalles := db.citaDetalles[k := fila];
    if plan.liberarAnterior {
      var liberado := SumarCupoAgendaDetalle(db, anterior.agendaDetalle);
    }
    if plan.ocuparNuevo {
      var consumido := RestarCupoAgendaDetalle(db, slot);
    }
    r := Ok(k);
    if old(LibroCuadra(db)) {
      ActualizarCuadra(db.ocupaCupo, slots0, citas0, k, fila);
    }
  }

  /** `deleteCitaDetalle`: an appointment `getDetalleById` does not find
      reports False and releases nothing;
      otherwise one unit goes back iff the status occupied, then the row goes. */
  method DeleteCitaDetalle(db: Database, k: int) returns (ok: bool)
    modifies db`citaDetalles, db`agendaDetalles
    ensures ok <==> Encontrada(db.estadoExiste, old(db.citaDetalles), k)
    ensures !ok ==> unchanged(db)
    ensures ok ==>
      && db.citaDetalles == old(db.citaDetalles) - {k}
      && db.agendaDetalles == (if db.ocupaCupo(old(db.citaDetalles[k]).estadoCita)
                               then Sumar(old(db.agendaDetalles), old(db.citaDetalles[k]).agendaDetalle)
                               else old(db.agendaDetalles))
    ensures old(LibroCuadra(db)) ==> LibroCuadra(db)
  {
    if !Encontrada(db.estadoExiste, db.citaDetalles, k) {
      return false;
    }
    ghost var slots0, citas0 := db.agendaDetalles, db.citaDetalles;
    var detalle := db.citaDetalles[k];
    if db.ocupaCupo(detalle.estadoCita) {
      var liberado := SumarCupoAgendaDetalle(db, detalle.agendaDetalle);
    }
    db.citaDetalles := db.citaDetalles - {k};
    ok := true;
    if old(LibroCuadra(db)) {
      EliminarCuadra(db.ocupaCupo, slots0, citas0, k);
    }
  }

  /** The appointments of header `h`, the rows the release loop goes over.
      `getDetallesPorCabecera` also joins the slot and the status tables and
      so drops an appointment whose slot or status row is missing. Keeping
      those rows here releases the same units: `Sumar` on a missing slot
      changes nothing, and a status without a row is not among the occupying
      ones (`Database` requires `ocupaCupo` to imply `estadoExiste`). */
  function DetallesDe(citas: map<int, CitaDetalle>, h: int): set<int>
  {
    set k | k in citas && citas[k].cabecera == h
  }

  /** The header cascade keeps the whole ledger. With the header foreign key
      in place a missing header has no appointments, so nothing is released. */
  lemma {:induction false} CascadaConserva(ocupa: int -> bool, slots: map<int, AgendaDetalle>, siguienteSlot: int,
                                           citas: map<int, CitaDetalle>, siguienteCita: int,
                                           cabeceras: map<int, CitaCabecera>, siguienteCabecera: int, h: int)
    requires Cuadra(ocupa, slots, siguienteSlot, citas, siguienteCita, cabeceras, siguienteCabecera)
    ensures h !in cabeceras ==> LiberarTodos(ocupa, slots, citas, DetallesDe(citas, h)) == slots
    ensures var liberados := LiberarTodos(ocupa, slots, citas, DetallesDe(citas, h));
      if h in cabeceras then
        Cuadra(ocupa, liberados, siguienteSlot, citas - DetallesDe(citas, h), siguienteCita,
               cabeceras - {h}, siguienteCabecera)
      else
        Cuadra(ocupa, liberados, siguienteSlot, citas, siguienteCita, cabeceras, siguienteCabecera)
  {
    var detalles := DetallesDe(citas, h);
    CascadaCuadra(ocupa, slots, citas, detalles);
    if h !in cabeceras {
      assert forall k :: k !in detalles;
      assert detalles == {};
      LiberarNada(ocupa, slots, citas);
    }
  }

  /** The release loop of `deleteCitaCabecera`: one unit back for every
      occupying appointment of `detalles`, each on its own slot. */
  method LiberarCupos(db: Database, detalles: set<int>)
    requires detalles <= db.citaDetalles.Keys
    modifies db`agendaDetalles
    ensures db.agendaDetalles == LiberarTodos(db.ocupaCupo, old(db.agendaDetalles), db.citaDetalles, detalles)
  {
    ghost var slots0 := db.agendaDetalles;
    var pendientes := detalles;
    ghost var hechas: set<int> := {};
    LiberarNada(db.ocupaCupo, slots0, db.citaDetalles);
    while pendientes != {}
      invariant pendientes + hechas == detalles && pendientes !! hechas
      invariant db.agendaDetalles == LiberarTodos(db.ocupaCupo, slots0, db.citaDetalles, hechas)
      decreases |pendientes|
    {
      var k := Elegir(pendientes);
      var detalle := db.citaDetalles[k];
      LiberarUnoMas(db.ocupaCupo, slots0, db.citaDetalles, hechas, k);
      if db.ocupaCupo(detalle.estadoCita) {
        var liberado := SumarCupoAgendaDetalle(db, detalle.agendaDetalle);
      }
      pendientes := pendientes - {k};
      hechas := hechas + {k};
    }
  }

  /** `deleteCitaCabecera`: release one unit for every occupying appointment
      of the header, each on its own slot, then delete the header; its
      appointments go with it by cascade. A missing header deletes nothing. */
  method DeleteCitaCabecera(db: Database, h: int) returns (ok: bool)
    modifies db`citaCabeceras, db`citaDetalles, db`agendaDetalles
    ensures ok <==> h in old(db.citaCabeceras)
    ensures db.agendaDetalles == LiberarTodos(db.ocupaCupo, old(db.agendaDetalles), old(db.citaDetalles),
                                              DetallesDe(old(db.citaDetalles), h))
    ensures ok ==> db.citaCabeceras == old(db.citaCabeceras) - {h}
                   && db.citaDetalles == old(db.citaDetalles) - DetallesDe(old(db.citaDetalles), h)
    ensures !ok ==> db.citaCabeceras == old(db.citaCabeceras) && db.citaDetalles == old(db.citaDetalles)
    ensures old(LibroCuadra(db)) ==> LibroCuadra(db)
  {
    var detalles := DetallesDe(db.citaDetalles, h);
    LiberarCupos(db, detalles);
    if h in db.citaCabeceras {
      db.citaCabeceras := db.citaCabeceras - {h};
      db.citaDetalles := db.citaDetalles - detalles;
      ok := true;
    } else {
      ok := false;
    }
    if old(LibroCuadra(db)) {
      CascadaConserva(db.ocupaCupo, old(db.agendaDetalles), db.nextAgendaDetalle, old(db.citaDetalles),
                      db.nextCitaDetalle, old(db.citaCabeceras), db.nextCitaCabecera, h);
    }
  }

}
