/** AgendaCabeceraDao.py: per-doctor-per-day schedules. A doctor has at
    most one schedule on a date; deleting a schedule takes its slots with
    it (database cascade) without touching any appointment. */
module AgendaCabeceraDao {
  import opened Rows
  import opened Libro

  /** `existeCabecera`: a schedule of the doctor on the date, other than
      `excluir` when that is truthy. */
  predicate ExisteCabecera(m: map<int, AgendaCabecera>, medico: int, fecha: int, excluir: Option<int>)
  {
    exists k :: k in m && m[k].medico == medico && m[k].fecha == fecha && !Excluye(excluir, k)
  }

  /** The exclusion leaves out exactly the edited row, and only when its id
      is truthy: without it, the probe also sees that row. */
  lemma ExisteCabeceraExcluye(m: map<int, AgendaCabecera>, medico: int, fecha: int, id: int)
    ensures ExisteCabecera(m, medico, fecha, None) <==>
      ExisteCabecera(m, medico, fecha, Some(id)) || (id != 0 && id in m && m[id].medico == medico && m[id].fecha == fecha)
    ensures ExisteCabecera(m, medico, fecha, Some(0)) == ExisteCabecera(m, medico, fecha, None)
  {
  }

  /** At most one schedule per (doctor, date). */
  ghost predicate UnaAgendaPorDia(m: map<int, AgendaCabecera>)
  {
    forall a, b :: a in m && b in m && a != b ==> m[a].medico != m[b].medico || m[a].fecha != m[b].fecha
  }

  /** The empty table holds one schedule per day and a valid serial. */
  lemma VaciaUnaPorDia()
    ensures UnaAgendaPorDia(map[]) && IdsEmitidos<AgendaCabecera>(map[], 1)
  {
  }

  /** Storing a row under `k` keeps one schedule per day when no other row
      holds its (doctor, date); the row under `k` itself is the one replaced. */
  lemma {:induction false} SinOtraConserva(m: map<int, AgendaCabecera>, k: int, c: AgendaCabecera)
    requires UnaAgendaPorDia(m)
    requires forall j :: j in m && j != k ==> m[j].medico != c.medico || m[j].fecha != c.fecha
    ensures UnaAgendaPorDia(m[k := c])
  {
    var n := m[k := c];
    forall a, b | a in n && b in n && a != b
      ensures n[a].medico != n[b].medico || n[a].fecha != n[b].fecha
    {
      if a == k {
        assert n[b] == m[b];
      } else if b == k {
        assert n[a] == m[a];
      }
    }
  }

  /** Re-saving a schedule under its own doctor and date is never a
      conflict: the row itself is excluded and no other row holds the pair. */
  lemma ReguardarPropio(m: map<int, AgendaCabecera>, id: int)
    requires UnaAgendaPorDia(m)
    requires id in m && id != 0
    ensures !ExisteCabecera(m, m[id].medico, m[id].fecha, Some(id))
  {
  }

  /** `guardarCabecera`: refuse a second schedule for the doctor on the date. */
  method GuardarCabecera(db: Database, c: AgendaCabecera) returns (r: Option<int>)
    modifies db`agendaCabeceras, db`nextAgendaCabecera
    ensures ExisteCabecera(old(db.agendaCabeceras), c.medico, c.fecha, None)
            || old(db.nextAgendaCabecera) in old(db.agendaCabeceras)
            ==> r == None && unchanged(db)
    ensures !ExisteCabecera(old(db.agendaCabeceras), c.medico, c.fecha, None)
            && old(db.nextAgendaCabecera) !in old(db.agendaCabeceras)
            ==> && r == Some(old(db.nextAgendaCabecera))
                && db.agendaCabeceras == old(db.agendaCabeceras)[r.value := c]
                && db.nextAgendaCabecera == old(db.nextAgendaCabecera) + 1
    ensures old(UnaAgendaPorDia(db.agendaCabeceras)) ==> UnaAgendaPorDia(db.agendaCabeceras)
  {
    if ExisteCabecera(db.agendaCabeceras, c.medico, c.fecha, None) {
      return None;
    }
    var nuevo := db.nextAgendaCabecera;
    if nuevo in db.agendaCabeceras {
      return None;
    }
    if UnaAgendaPorDia(db.agendaCabeceras) {
      SinOtraConserva(db.agendaCabeceras, nuevo, c);
    }
    db.agendaCabeceras := db.agendaCabeceras[nuevo := c];
    db.nextAgendaCabecera := nuevo + 1;
    r := Some(nuevo);
  }

  /** `updateCabecera`: the uniqueness check leaves out the edited row. */
  method UpdateCabecera(db: Database, id: int, c: AgendaCabecera) returns (ok: bool)
    modifies db`agendaCabeceras
    ensures ok <==> id in old(db.agendaCabeceras) && !ExisteCabecera(old(db.agendaCabeceras), c.medico, c.fecha, Some(id))
    ensures ok ==> db.agendaCabeceras == old(db.agendaCabeceras)[id := c]
    ensures !ok ==> db.agendaCabeceras == old(db.agendaCabeceras)
    ensures old(UnaAgendaPorDia(db.agendaCabeceras)) ==> UnaAgendaPorDia(db.agendaCabeceras)
  {
    if ExisteCabecera(db.agendaCabeceras, c.medico, c.fecha, Some(id)) {
      return false;
    }
    if id !in db.agendaCabeceras {
      return false;
    }
    if UnaAgendaPorDia(db.agendaCabeceras) {
      forall j | j in db.agendaCabeceras && j != id
        ensures db.agendaCabeceras[j].medico != c.medico || db.agendaCabeceras[j].fecha != c.fecha
      {
        assert !Excluye(Some(id), j);
      }
      SinOtraConserva(db.agendaCabeceras, id, c);
    }
    db.agendaCabeceras := db.agendaCabeceras[id := c];
    ok := true;
  }

  /** The slots of schedule `id`, which the cascade deletes with it. */
  function SlotsDe(slots: map<int, AgendaDetalle>, id: int): set<int>
  {
    set k | k in slots && slots[k].cabecera == id
  }

  /** `deleteCabecera`: remove the schedule and, by cascade, its slots. No
      capacity is released and no appointment is touched: the model assumes
      no foreign key from `cita_detalle` to `agenda_detalle`, so the delete
      goes through even when appointments sit on those slots. */
  method DeleteCabecera(db: Database, id: int) returns (ok: bool)
    modifies db`agendaCabeceras, db`agendaDetalles
    ensures ok <==> id in old(db.agendaCabeceras)
    ensures db.agendaCabeceras == old(db.agendaCabeceras) - {id}
    ensures ok ==> db.agendaDetalles == old(db.agendaDetalles) - SlotsDe(old(db.agendaDetalles), id)
    ensures !ok ==> db.agendaDetalles == old(db.agendaDetalles)
    ensures old(UnaAgendaPorDia(db.agendaCabeceras)) ==> UnaAgendaPorDia(db.agendaCabeceras)
    ensures old(LibroCuadra(db)) ==> LibroCuadra(db)
  {
    if id in db.agendaCabeceras {
      db.agendaCabeceras := db.agendaCabeceras - {id};
      db.agendaDetalles := db.agendaDetalles - SlotsDe(db.agendaDetalles, id);
      ok := true;
    } else {
      ok := false;
    }
  }

  /** `cambiarEstado`: set only the schedule's status. */
  method CambiarEstado(db: Database, id: int, estado: string) returns (ok: bool)
    modifies db`agendaCabeceras
    ensures ok <==> id in old(db.agendaCabeceras)
    ensures ok ==> db.agendaCabeceras == old(db.agendaCabeceras)[id := old(db.agendaCabeceras[id]).(estado := estado)]
    ensures !ok ==> db.agendaCabeceras == old(db.agendaCabeceras)
    ensures old(UnaAgendaPorDia(db.agendaCabeceras)) ==> UnaAgendaPorDia(db.agendaCabeceras)
  {
    if id in db.agendaCabeceras {
      db.agendaCabeceras := db.agendaCabeceras[id := db.agendaCabeceras[id].(estado := estado)];
      ok := true;
    } else {
      ok := false;
    }
  }
}
