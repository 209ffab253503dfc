/** AgendaDetalleDao.py: bookable slots materialised from time-window
    templates into a schedule. At most one slot per (schedule, template)
    pair; a new slot starts full (remaining = maximum = the template's
    capacity) and Disponible. */
module AgendaDetalleDao {
  import opened Rows
  import opened Libro

  /** `existeDetalle`: some slot already copies template `disponibilidad`
      into schedule `cabecera`. */
  predicate ExisteDetalle(slots: map<int, AgendaDetalle>, cabecera: int, disponibilidad: int)
  {
    exists k :: k in slots && slots[k].cabecera == cabecera && slots[k].disponibilidad == disponibilidad
  }

  /** No template is materialised twice into one schedule. */
  ghost predicate UnDetallePorPar(slots: map<int, AgendaDetalle>)
  {
    forall a, b :: a in slots && b in slots && a != b ==>
      slots[a].cabecera != slots[b].cabecera || slots[a].disponibilidad != slots[b].disponibilidad
  }

  /** The empty table holds no pair twice. */
  lemma VacioUnDetallePorPar()
    ensures UnDetallePorPar(map[])
  {
  }

  /** The row `guardarDetalle` inserts for template `d`. */
  function NuevoDetalle(cabecera: int, disponibilidad: int, d: Disponibilidad): (r: AgendaDetalle)
    ensures r.cuposDisponibles == r.cuposMaximos == d.cupos
    ensures r.estado == Disponible
    ensures r.cabecera == cabecera && r.disponibilidad == disponibilidad
    ensures r.horaInicio == d.horaInicio && r.horaFin == d.horaFin && r.dia == d.dia && r.turno == d.turno
  {
    AgendaDetalle(cabecera, disponibilidad, d.dia, d.turno, d.horaInicio, d.horaFin, d.cupos, d.cupos, Disponible)
  }

  /** The slot table and serial after one `guardarDetalle`, and the id it returns. */
  datatype Alta = Alta(slots: map<int, AgendaDetalle>, siguiente: int, creado: Option<int>)

  /** `guardarDetalle` on table values: a duplicate pair is refused before the
      insert; an insert into a missing schedule violates the foreign key, and
      one whose serial is already taken violates the primary key. */
  function Materializar(slots: map<int, AgendaDetalle>, siguiente: int, cabeceras: map<int, AgendaCabecera>,
                        cabecera: int, disponibilidad: int, d: Disponibilidad): (a: Alta)
    ensures a.creado.None? <==>
      ExisteDetalle(slots, cabecera, disponibilidad) || cabecera !in cabeceras || siguiente in slots
    ensures a.creado.None? ==> a.slots == slots && a.siguiente == siguiente
    ensures a.creado.Some? ==>
      && a.creado.value == siguiente
      && a.siguiente == siguiente + 1
      && a.slots == slots[siguiente := NuevoDetalle(cabecera, disponibilidad, d)]
  {
    if ExisteDetalle(slots, cabecera, disponibilidad) || cabecera !in cabeceras || siguiente in slots then
      Alta(slots, siguiente, None)
    else
      Alta(slots[siguiente := NuevoDetalle(cabecera, disponibilidad, d)], siguiente + 1, Some(siguiente))
  }

  /** Materialising never creates a second slot for a pair. */
  lemma MaterializarUnico(slots: map<int, AgendaDetalle>, siguiente: int, cabeceras: map<int, AgendaCabecera>,
                          cabecera: int, disponibilidad: int, d: Disponibilidad)
    requires UnDetallePorPar(slots)
    ensures UnDetallePorPar(Materializar(slots, siguiente, cabeceras, cabecera, disponibilidad, d).slots)
    ensures ExisteDetalle(Materializar(slots, siguiente, cabeceras, cabecera, disponibilidad, d).slots, cabecera, disponibilidad)
            <==> ExisteDetalle(slots, cabecera, disponibilidad) || (cabecera in cabeceras && siguiente !in slots)
  {
    var a := Materializar(slots, siguiente, cabeceras, cabecera, disponibilidad, d);
    if a.creado.Some? {
      assert a.slots[siguiente].cabecera == cabecera;
    }
  }

  /** A new slot keeps the capacity ledger when the template's capacity is
      not negative. */
  lemma {:induction false} MaterializarCuadra(ocupa: int -> bool, slots: map<int, AgendaDetalle>, siguiente: int,
                                              citas: map<int, CitaDetalle>, siguienteCita: int,
                                              cabecerasCita: map<int, CitaCabecera>, siguienteCabecera: int,
                                              cabeceras: map<int, AgendaCabecera>,
                                              cabecera: int, disponibilidad: int, d: Disponibilidad)
    requires Cuadra(ocupa, slots, siguiente, citas, siguienteCita, cabecerasCita, siguienteCabecera)
    requires d.cupos >= 0
    ensures var a := Materializar(slots, siguiente, cabeceras, cabecera, disponibilidad, d);
      Cuadra(ocupa, a.slots, a.siguiente, citas, siguienteCita, cabecerasCita, siguienteCabecera)
  {
    var a := Materializar(slots, siguiente, cabeceras, cabecera, disponibilidad, d);
    if a.creado.Some? {
      NuevaFilaCuadra(ocupa, slots, citas, siguiente, NuevoDetalle(cabecera, disponibilidad, d));
    }
  }

  /** `guardarDetalle`. */
  method GuardarDetalle(db: Database, cabecera: int, disponibilidad: int, d: Disponibilidad) returns (r: Option<int>)
    modifies db`agendaDetalles, db`nextAgendaDetalle
    ensures var a := Materializar(old(db.agendaDetalles), old(db.nextAgendaDetalle), db.agendaCabeceras,
                                  cabecera, disponibilidad, d);
      r == a.creado && db.agendaDetalles == a.slots && db.nextAgendaDetalle == a.siguiente
    ensures old(UnDetallePorPar(db.agendaDetalles)) ==> UnDetallePorPar(db.agendaDetalles)
    ensures old(LibroCuadra(db)) && d.cupos >= 0 ==> LibroCuadra(db)
  {
    if ExisteDetalle(db.agendaDetalles, cabecera, disponibilidad) {
      return None;
    }
    var nuevo := db.nextAgendaDetalle;
    if cabecera !in db.agendaCabeceras || nuevo in db.agendaDetalles {
      return None;
    }
    db.agendaDetalles := db.agendaDetalles[nuevo := NuevoDetalle(cabecera, disponibilidad, d)];
    db.nextAgendaDetalle := nuevo + 1;
    r := Some(nuevo);
    if old(UnDetallePorPar(db.agendaDetalles)) {
      MaterializarUnico(old(db.agendaDetalles), nuevo, db.agendaCabeceras, cabecera, disponibilidad, d);
    }
    if old(LibroCuadra(db)) && d.cupos >= 0 {
      MaterializarCuadra(db.ocupaCupo, old(db.agendaDetalles), nuevo, db.citaDetalles, db.nextCitaDetalle,
                         db.citaCabeceras, db.nextCitaCabecera, db.agendaCabeceras, cabecera, disponibilidad, d);
    }
  }

  // ---------------------------------------------------------------------
  // Batch publication

  /** Why one template of a batch produced no slot. */
  datatype ErrorDetalle = DisponibilidadInexistente(id: int) | YaPublicadaOError(id: int)

  /** The state a batch loop carries: the slot table and its serial, the ids
      created so far in input order, and the errors so far. */
  datatype Lote = Lote(slots: map<int, AgendaDetalle>, siguiente: int, creados: seq<int>, errores: seq<ErrorDetalle>)

  /** One iteration: a missing template is an error; otherwise the template
      is materialised, and a refusal is an error. */
  function Paso(l: Lote, cabeceras: map<int, AgendaCabecera>, cabecera: int,
                item: (int, Option<Disponibilidad>)): Lote
  {
    if item.1.None? then
      l.(errores := l.errores + [DisponibilidadInexistente(item.0)])
    else
      var a := Materializar(l.slots, l.siguiente, cabeceras, cabecera, item.0, item.1.value);
      if a.creado.Some? then Lote(a.slots, a.siguiente, l.creados + [a.creado.value], l.errores)
      else l.(errores := l.errores + [YaPublicadaOError(item.0)])
  }

  /** The whole batch, item by item in input order; no item stops the others. */
  function Publicar(l: Lote, cabeceras: map<int, AgendaCabecera>, cabecera: int,
                    items: seq<(int, Option<Disponibilidad>)>): Lote
    decreases |items|
  {
    if items == [] then l else Publicar(Paso(l, cabeceras, cabecera, items[0]), cabeceras, cabecera, items[1..])
  }

  /** Publishing from item `i` on is one step, then publishing from `i + 1` on. */
  lemma PublicarAvanza(l: Lote, siguiente: Lote, cabeceras: map<int, AgendaCabecera>, cabecera: int,
                       items: seq<(int, Option<Disponibilidad>)>, i: int)
    requires 0 <= i < |items| && siguiente == Paso(l, cabeceras, cabecera, items[i])
    ensures Publicar(siguiente, cabeceras, cabecera, items[i + 1..]) == Publicar(l, cabeceras, cabecera, items[i..])
  {
    assert items[i..][1..] == items[i + 1..];
  }

  /** Every item is accounted for exactly once: as a created id or as an error. */
  lemma {:induction false} PublicarCuenta(l: Lote, cabeceras: map<int, AgendaCabecera>, cabecera: int,
                                          items: seq<(int, Option<Disponibilidad>)>)
    ensures var r := Publicar(l, cabeceras, cabecera, items);
      |r.creados| + |r.errores| == |l.creados| + |l.errores| + |items|
    ensures var r := Publicar(l, cabeceras, cabecera, items);
      l.creados <= r.creados && l.errores <= r.errores
    decreases |items|
  {
    if items != [] {
      PublicarCuenta(Paso(l, cabeceras, cabecera, items[0]), cabeceras, cabecera, items[1..]);
    }
  }

  /** The batch only adds slots: each created id is fresh, ids are handed
      out in increasing order, earlier slots are untouched, and no pair is
      materialised twice. */
  lemma {:induction false} PublicarConserva(l: Lote, cabeceras: map<int, AgendaCabecera>, cabecera: int,
                                            items: seq<(int, Option<Disponibilidad>)>)
    requires UnDetallePorPar(l.slots)
    ensures var r := Publicar(l, cabeceras, cabecera, items);
      && UnDetallePorPar(r.slots)
      && l.siguiente <= r.siguiente
      && (forall k :: k in l.slots ==> k in r.slots && r.slots[k] == l.slots[k])
      && (forall i :: |l.creados| <= i < |r.creados| ==>
            l.siguiente <= r.creados[i] < r.siguiente && r.creados[i] !in l.slots && r.creados[i] in r.slots)
    decreases |items|
  {
    if items != [] {
      var m := Paso(l, cabeceras, cabecera, items[0]);
      if items[0].1.Some? {
        MaterializarUnico(l.slots, l.siguiente, cabeceras, cabecera, items[0].0, items[0].1.value);
      }
      PublicarConserva(m, cabeceras, cabecera, items[1..]);
      PublicarCuenta(m, cabeceras, cabecera, items[1..]);
    }
  }

  /** After a batch into an existing schedule whose serial is fresh, every
      template of the batch that exists is published in the schedule. */
  lemma {:induction false} PublicarCompleta(l: Lote, cabeceras: map<int, AgendaCabecera>, cabecera: int,
                                            items: seq<(int, Option<Disponibilidad>)>)
    requires IdsEmitidos(l.slots, l.siguiente)
    requires cabecera in cabeceras
    ensures var r := Publicar(l, cabeceras, cabecera, items);
      forall i :: 0 <= i < |items| && items[i].1.Some? ==> ExisteDetalle(r.slots, cabecera, items[i].0)
    decreases |items|
  {
    if items != [] {
      var m := Paso(l, cabeceras, cabecera, items[0]);
      var r := Publicar(l, cabeceras, cabecera, items);
      PublicarCompleta(m, cabeceras, cabecera, items[1..]);
      PublicarMonotona(m, cabeceras, cabecera, items[1..]);
      if items[0].1.Some? {
        var a := Materializar(l.slots, l.siguiente, cabeceras, cabecera, items[0].0, items[0].1.value);
        assert ExisteDetalle(m.slots, cabecera, items[0].0) by {
          if a.creado.Some? {
            assert m.slots[l.siguiente].disponibilidad == items[0].0;
          }
        }
      }
      forall i | 0 <= i < |items| && items[i].1.Some?
        ensures ExisteDetalle(r.slots, cabecera, items[i].0)
      {
        if i > 0 {
          assert items[1..][i - 1] == items[i];
        }
      }
    }
  }

  /** Existing slots survive a batch, and the serial never goes back. */
  lemma {:induction false} PublicarMonotona(l: Lote, cabeceras: map<int, AgendaCabecera>, cabecera: int,
                                            items: seq<(int, Option<Disponibilidad>)>)
    requires IdsEmitidos(l.slots, l.siguiente)
    ensures var r := Publicar(l, cabeceras, cabecera, items);
      && IdsEmitidos(r.slots, r.siguiente)
      && (forall k :: k in l.slots ==> k in r.slots && r.slots[k] == l.slots[k])
    decreases |items|
  {
    if items != [] {
      PublicarMonotona(Paso(l, cabeceras, cabecera, items[0]), cabeceras, cabecera, items[1..]);
    }
  }

  /** The templates a batch of `guardarDetallesMultiples` is given, all present. */
  function Presentes(disponibilidades: seq<(int, Disponibilidad)>): (r: seq<(int, Option<Disponibilidad>)>)
    ensures |r| == |disponibilidades|
    ensures forall i :: 0 <= i < |r| ==> r[i] == (disponibilidades[i].0, Some(disponibilidades[i].1))
  {
    seq(|disponibilidades|, i requires 0 <= i < |disponibilidades| => (disponibilidades[i].0, Some(disponibilidades[i].1)))
  }

  /** `guardarDetallesMultiples`: materialise every template in order,
      carrying on past refusals; the created ids, or None (Python's `False`)
      when nothing was created. */
  method GuardarDetallesMultiples(db: Database, cabecera: int, disponibilidades: seq<(int, Disponibilidad)>)
    returns (r: Option<seq<int>>)
    modifies db`agendaDetalles, db`nextAgendaDetalle
    ensures var l := Publicar(Lote(old(db.agendaDetalles), old(db.nextAgendaDetalle), [], []),
                              db.agendaCabeceras, cabecera, Presentes(disponibilidades));
      && db.agendaDetalles == l.slots && db.nextAgendaDetalle == l.siguiente
      && r == (if l.creados == [] then None else Some(l.creados))
    ensures old(UnDetallePorPar(db.agendaDetalles)) ==> UnDetallePorPar(db.agendaDetalles)
    ensures old(LibroCuadra(db)) && (forall i :: 0 <= i < |disponibilidades| ==> disponibilidades[i].1.cupos >= 0)
            ==> LibroCuadra(db)
  {
    ghost var unico := UnDetallePorPar(db.agendaDetalles);
    ghost var cuadra := LibroCuadra(db) && forall i :: 0 <= i < |disponibilidades| ==> disponibilidades[i].1.cupos >= 0;
    ghost var todo := Presentes(disponibilidades);
    ghost var inicio := Lote(db.agendaDetalles, db.nextAgendaDetalle, [], []);
    var creados: seq<int> := [];
    ghost var errores: seq<ErrorDetalle> := [];
    var i := 0;
    while i < |disponibilidades|
      invariant 0 <= i <= |disponibilidades|
      invariant Publicar(Lote(db.agendaDetalles, db.nextAgendaDetalle, creados, errores),
                         db.agendaCabeceras, cabecera, todo[i..])
             == Publicar(inicio, db.agendaCabeceras, cabecera, todo)
      invariant unico ==> UnDetallePorPar(db.agendaDetalles)
      invariant cuadra ==> LibroCuadra(db)
    {
      ghost var antes := Lote(db.agendaDetalles, db.nextAgendaDetalle, creados, errores);
      assert cuadra ==> disponibilidades[i].1.cupos >= 0;
      var id := GuardarDetalle(db, cabecera, disponibilidades[i].0, disponibilidades[i].1);
      if id.Some? {
        creados := creados + [id.value];
      } else {
        errores := errores + [YaPublicadaOError(disponibilidades[i].0)];
      }
      PublicarAvanza(antes, Lote(db.agendaDetalles, db.nextAgendaDetalle, creados, errores),
                     db.agendaCabeceras, cabecera, todo, i);
      i := i + 1;
    }
    assert todo[i..] == [];
    r := if creados == [] then None else Some(creados);
  }

  // ---------------------------------------------------------------------
  // Single-slot edits

  /** `deleteDetalle`: remove only the given slot; report whether it existed. */
  method DeleteDetalle(db: Database, id: int) returns (ok: bool)
    modifies db`agendaDetalles
    ensures ok <==> id in old(db.agendaDetalles)
    ensures db.agendaDetalles == old(db.agendaDetalles) - {id}
    ensures old(LibroCuadra(db)) ==> LibroCuadra(db)
  {
    ok := id in db.agendaDetalles;
    db.agendaDetalles := db.agendaDetalles - {id};
  }

  /** The administrative override `actualizarCuposDisponibles` on one row. */
  function FijarCupos(fila: AgendaDetalle, cupos: int): (r: AgendaDetalle)
    ensures r.cuposDisponibles == cupos
    ensures r.estado == Agotado <==> cupos == 0
    ensures r.estado == Disponible <==> cupos != 0
    ensures r.cuposMaximos == fila.cuposMaximos && MismaFila(r, fila)
  {
    fila.(cuposDisponibles := cupos, estado := if cupos == 0 then Agotado else Disponible)
  }

  /** `actualizarCuposDisponibles`: overwrite the remaining count. */
  method ActualizarCuposDisponibles(db: Database, id: int, cupos: int) returns (ok: bool)
    modifies db`agendaDetalles
    ensures ok <==> id in old(db.agendaDetalles)
    ensures ok ==> db.agendaDetalles == old(db.agendaDetalles)[id := FijarCupos(old(db.agendaDetalles[id]), cupos)]
    ensures !ok ==> db.agendaDetalles == old(db.agendaDetalles)
  {
    if id in db.agendaDetalles {
      db.agendaDetalles := db.agendaDetalles[id := FijarCupos(db.agendaDetalles[id], cupos)];
      ok := true;
    } else {
      ok := false;
    }
  }

  /** The override is outside the ledger: any value other than the one the
      ledger already holds breaks it. */
  lemma FijarCuposRompe(ocupa: int -> bool, slots: map<int, AgendaDetalle>, citas: map<int, CitaDetalle>,
                        id: int, cupos: int)
    requires CuposCuadran(ocupa, slots, citas)
    requires id in slots && cupos != slots[id].cuposDisponibles
    ensures !CuposCuadran(ocupa, slots[id := FijarCupos(slots[id], cupos)], citas)
  {
  }

  /** `cambiarEstadoDetalle`: set only the status. */
  method CambiarEstadoDetalle(db: Database, id: int, estado: EstadoDetalle) returns (ok: bool)
    modifies db`agendaDetalles
    ensures ok <==> id in old(db.agendaDetalles)
    ensures ok ==> db.agendaDetalles == old(db.agendaDetalles)[id := old(db.agendaDetalles[id]).(estado := estado)]
    ensures !ok ==> db.agendaDetalles == old(db.agendaDetalles)
    ensures old(LibroCuadra(db)) ==> LibroCuadra(db)
  {
    if id in db.agendaDetalles {
      db.agendaDetalles := db.agendaDetalles[id := db.agendaDetalles[id].(estado := estado)];
      ok := true;
    } else {
      ok := false;
    }
  }
}
