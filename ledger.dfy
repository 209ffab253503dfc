/** The capacity ledger of CitaDao.py: the two counter primitives on
    `agenda_detalle` (consume = `restarCupoAgendaDetalle`, release =
    `sumarCupoAgendaDetalle`), the probe `verificarCuposDisponibles`, the
    create/update/delete decision table, and the invariant they keep:
    every live slot's remaining count is its maximum minus the number of
    appointments on it whose status occupies capacity. Everything here is a
    function of table values; the methods in CitaDao are proved equal to
    these functions. */
module Libro {
  import opened Rows

  /** The slot `b` is the slot `a` apart from its remaining count and status. */
  predicate MismaFila(a: AgendaDetalle, b: AgendaDetalle)
  {
    a.(cuposDisponibles := 0, estado := Disponible) == b.(cuposDisponibles := 0, estado := Disponible)
  }

  /** What the capacity probe reads: the remaining count, or 0 for a slot
      that does not exist. */
  function CuposDisponibles(slots: map<int, AgendaDetalle>, id: int): int
  {
    if id in slots then slots[id].cuposDisponibles else 0
  }

  /** Consume: the UPDATE guarded by `cupos_disponibles > 0`. */
  function Restar(slots: map<int, AgendaDetalle>, id: int): (r: map<int, AgendaDetalle>)
    ensures r.Keys == slots.Keys
    ensures forall k :: k in slots && k != id ==> r[k] == slots[k]
    ensures CuposDisponibles(slots, id) <= 0 ==> r == slots
    ensures CuposDisponibles(slots, id) > 0 ==>
      && CuposDisponibles(r, id) == CuposDisponibles(slots, id) - 1
      && r[id].estado == (if CuposDisponibles(r, id) == 0 then Agotado else slots[id].estado)
      && MismaFila(r[id], slots[id])
  {
    if id in slots && slots[id].cuposDisponibles > 0 then
      var a := slots[id];
      slots[id := a.(cuposDisponibles := a.cuposDisponibles - 1,
                     estado := if a.cuposDisponibles - 1 == 0 then Agotado else a.estado)]
    else
      slots
  }

  /** Release: the unguarded UPDATE; no ceiling at `cupos_maximos`. */
  function Sumar(slots: map<int, AgendaDetalle>, id: int): (r: map<int, AgendaDetalle>)
    ensures r.Keys == slots.Keys
    ensures forall k :: k in slots && k != id ==> r[k] == slots[k]
    ensures id !in slots ==> r == slots
    ensures id in slots ==>
      && CuposDisponibles(r, id) == CuposDisponibles(slots, id) + 1
      && r[id].estado == Disponible
      && MismaFila(r[id], slots[id])
  {
    if id in slots then
      slots[id := slots[id].(cuposDisponibles := slots[id].cuposDisponibles + 1, estado := Disponible)]
    else
      slots
  }

  /** The appointments on slot `s` whose status occupies capacity. */
  function Ocupantes(ocupa: int -> bool, citas: map<int, CitaDetalle>, s: int): set<int>
  {
    set k | k in citas && citas[k].agendaDetalle == s && ocupa(citas[k].estadoCita)
  }

  function Ocupando(ocupa: int -> bool, citas: map<int, CitaDetalle>, s: int): nat
  {
    |Ocupantes(ocupa, citas, s)|
  }

  /** 1 when the appointment row `c` holds a unit of slot `s`. */
  function Marca(ocupa: int -> bool, c: CitaDetalle, s: int): nat
  {
    if c.agendaDetalle == s && ocupa(c.estadoCita) then 1 else 0
  }

  /** The central invariant: on every live slot the remaining count is
      non-negative and equals the maximum minus the occupying appointments. */
  ghost predicate CuposCuadran(ocupa: int -> bool, slots: map<int, AgendaDetalle>, citas: map<int, CitaDetalle>)
  {
    forall s :: s in slots ==>
      && 0 <= slots[s].cuposDisponibles
      && slots[s].cuposDisponibles == slots[s].cuposMaximos - Ocupando(ocupa, citas, s)
  }

  /** An occupying appointment only ever points at a slot id already handed out. */
  ghost predicate ReferenciasEmitidas(ocupa: int -> bool, citas: map<int, CitaDetalle>, siguienteSlot: int)
  {
    forall k :: k in citas && ocupa(citas[k].estadoCita) ==> citas[k].agendaDetalle < siguienteSlot
  }

  /** The foreign key `cita_detalle.id_cita_cabecera`. */
  ghost predicate CabecerasExisten(citas: map<int, CitaDetalle>, cabeceras: map<int, CitaCabecera>)
  {
    forall k :: k in citas ==> citas[k].cabecera in cabeceras
  }

  /** The ledger invariant of the whole store. */
  ghost predicate LibroCuadra(db: Database)
    reads db
  {
    Cuadra(db.ocupaCupo, db.agendaDetalles, db.nextAgendaDetalle, db.citaDetalles, db.nextCitaDetalle,
           db.citaCabeceras, db.nextCitaCabecera)
  }

  /** `LibroCuadra` over table values. */
  ghost predicate Cuadra(ocupa: int -> bool, slots: map<int, AgendaDetalle>, siguienteSlot: int,
                         citas: map<int, CitaDetalle>, siguienteCita: int,
                         cabeceras: map<int, CitaCabecera>, siguienteCabecera: int)
  {
    && CuposCuadran(ocupa, slots, citas)
    && ReferenciasEmitidas(ocupa, citas, siguienteSlot)
    && CabecerasExisten(citas, cabeceras)
    && IdsEmitidos(slots, siguienteSlot)
    && IdsEmitidos(citas, siguienteCita)
    && IdsEmitidos(cabeceras, siguienteCabecera)
  }

  /** The empty store of the `Database` constructor keeps the ledger for
      any status policy. */
  lemma VacioCuadra(ocupa: int -> bool)
    ensures Cuadra(ocupa, map[], 1, map[], 1, map[], 1)
  {
  }

  /** The bounds the invariant gives every live slot: 0 <= remaining <= max. */
  lemma CuposAcotados(ocupa: int -> bool, slots: map<int, AgendaDetalle>, citas: map<int, CitaDetalle>, s: int)
    requires CuposCuadran(ocupa, slots, citas)
    requires s in slots
    ensures 0 <= slots[s].cuposDisponibles <= slots[s].cuposMaximos
    ensures slots[s].cuposDisponibles == slots[s].cuposMaximos <==> Ocupantes(ocupa, citas, s) == {}
  {
  }

  // ---------------------------------------------------------------------
  // Counting occupying appointments across one-row changes

  lemma {:induction false} OcupandoInsertar(ocupa: int -> bool, citas: map<int, CitaDetalle>, k: int, c: CitaDetalle, s: int)
    requires k !in citas
    ensures Ocupando(ocupa, citas[k := c], s) == Ocupando(ocupa, citas, s) + Marca(ocupa, c, s)
  {
    var antes, despues := Ocupantes(ocupa, citas, s), Ocupantes(ocupa, citas[k := c], s);
    if Marca(ocupa, c, s) == 1 {
      assert despues == antes + {k};
    } else {
      assert despues == antes;
    }
  }

  lemma {:induction false} OcupandoReemplazar(ocupa: int -> bool, citas: map<int, CitaDetalle>, k: int, c: CitaDetalle, s: int)
    requires k in citas
    ensures Ocupando(ocupa, citas[k := c], s) == Ocupando(ocupa, citas, s) - Marca(ocupa, citas[k], s) + Marca(ocupa, c, s)
  {
    var resto := citas - {k};
    assert citas == resto[k := citas[k]];
    assert citas[k := c] == resto[k := c];
    OcupandoInsertar(ocupa, resto, k, citas[k], s);
    OcupandoInsertar(ocupa, resto, k, c, s);
  }

  lemma {:induction false} OcupandoQuitar(ocupa: int -> bool, citas: map<int, CitaDetalle>, quitadas: set<int>, s: int)
    ensures Ocupando(ocupa, citas - quitadas, s)
         == Ocupando(ocupa, citas, s) - |Ocupantes(ocupa, citas, s) * quitadas|
  {
    var todos := Ocupantes(ocupa, citas, s);
    assert Ocupantes(ocupa, citas - quitadas, s) == todos - quitadas;
    assert todos == (todos - quitadas) + (todos * quitadas);
    assert (todos - quitadas) * (todos * quitadas) == {};
  }

  // ---------------------------------------------------------------------
  // Create

  /** A booking that passed the probe keeps the ledger: the new row adds one
      occupant exactly where one unit is consumed. */
  lemma {:induction false} GuardarCuadra(ocupa: int -> bool, slots: map<int, AgendaDetalle>,
                                         citas: map<int, CitaDetalle>, k: int, c: CitaDetalle)
    requires CuposCuadran(ocupa, slots, citas)
    requires k !in citas
    requires CuposDisponibles(slots, c.agendaDetalle) > 0
    ensures CuposCuadran(ocupa, if ocupa(c.estadoCita) then Restar(slots, c.agendaDetalle) else slots, citas[k := c])
  {
    var despues := if ocupa(c.estadoCita) then Restar(slots, c.agendaDetalle) else slots;
    forall s | s in despues
      ensures 0 <= despues[s].cuposDisponibles
      ensures despues[s].cuposDisponibles == despues[s].cuposMaximos - Ocupando(ocupa, citas[k := c], s)
    {
      OcupandoInsertar(ocupa, citas, k, c, s);
    }
  }

  // ---------------------------------------------------------------------
  // Update: the decision table of updateCitaDetalle

  /** What an update does to capacity: whether the target slot is probed,
      whether the old slot gets a unit back, whether the new slot gives one. */
  datatype Plan = Plan(probar: bool, liberarAnterior: bool, ocuparNuevo: bool)

  /** The decision keyed on (old status occupies, new status occupies, slot moved). */
  function Decidir(anteriorOcupa: bool, nuevoOcupa: bool, cambioAgenda: bool): (p: Plan)
    ensures p.probar == p.ocuparNuevo
    ensures p.liberarAnterior ==> anteriorOcupa
    ensures p.ocuparNuevo ==> nuevoOcupa
    ensures !cambioAgenda && anteriorOcupa == nuevoOcupa ==> !p.liberarAnterior && !p.ocuparNuevo
  {
    if cambioAgenda then Plan(nuevoOcupa, anteriorOcupa, nuevoOcupa)
    else if anteriorOcupa && !nuevoOcupa then Plan(false, true, false)
    else if !anteriorOcupa && nuevoOcupa then Plan(true, false, true)
    else Plan(false, false, false)
  }

  /** The units a plan moves on slot `s` equal the change of that slot's
      occupancy when the appointment goes from (slot a, flag o) to (slot b, flag n). */
  lemma DecidirEquilibra(o: bool, n: bool, a: int, b: int, s: int)
    ensures var p := Decidir(o, n, a != b);
      (if p.liberarAnterior && s == a then 1 else 0) - (if p.ocuparNuevo && s == b then 1 else 0)
      == (if o && s == a then 1 else 0) - (if n && s == b then 1 else 0)
  {
  }

  /** The plan's capacity steps in the order the source runs them. */
  function Aplicar(slots: map<int, AgendaDetalle>, p: Plan, anterior: int, nuevo: int): map<int, AgendaDetalle>
  {
    var liberado := if p.liberarAnterior then Sumar(slots, anterior) else slots;
    if p.ocuparNuevo then Restar(liberado, nuevo) else liberado
  }

  /** An update that passed its probe keeps the ledger. */
  lemma {:induction false} ActualizarCuadra(ocupa: int -> bool, slots: map<int, AgendaDetalle>,
                                            citas: map<int, CitaDetalle>, k: int, c: CitaDetalle)
    requires CuposCuadran(ocupa, slots, citas)
    requires k in citas
    requires Decidir(ocupa(citas[k].estadoCita), ocupa(c.estadoCita),
                     c.agendaDetalle != citas[k].agendaDetalle).probar
             ==> CuposDisponibles(slots, c.agendaDetalle) > 0
    ensures CuposCuadran(ocupa,
              Aplicar(slots, Decidir(ocupa(citas[k].estadoCita), ocupa(c.estadoCita),
                                     c.agendaDetalle != citas[k].agendaDetalle),
                      citas[k].agendaDetalle, c.agendaDetalle),
              citas[k := c])
  {
    var a, b := citas[k].agendaDetalle, c.agendaDetalle;
    var o, n := ocupa(citas[k].estadoCita), ocupa(c.estadoCita);
    var p := Decidir(o, n, a != b);
    var liberado := if p.liberarAnterior then Sumar(slots, a) else slots;
    var despues := Aplicar(slots, p, a, b);
    assert p.ocuparNuevo ==> CuposDisponibles(liberado, b) > 0 by {
      if p.ocuparNuevo {
        assert p.liberarAnterior ==> a != b;
      }
    }
    forall s | s in despues
      ensures 0 <= despues[s].cuposDisponibles
      ensures despues[s].cuposDisponibles == despues[s].cuposMaximos - Ocupando(ocupa, citas[k := c], s)
    {
      OcupandoReemplazar(ocupa, citas, k, c, s);
      DecidirEquilibra(o, n, a, b, s);
    }
  }

  // ---------------------------------------------------------------------
  // Delete one appointment, delete a header with all its appointments

  /** Deleting an appointment gives its unit back exactly when it held one. */
  lemma {:induction false} EliminarCuadra(ocupa: int -> bool, slots: map<int, AgendaDetalle>,
                                          citas: map<int, CitaDetalle>, k: int)
    requires CuposCuadran(ocupa, slots, citas)
    requires k in citas
    ensures CuposCuadran(ocupa,
              if ocupa(citas[k].estadoCita) then Sumar(slots, citas[k].agendaDetalle) else slots,
              citas - {k})
  {
    var despues := if ocupa(citas[k].estadoCita) then Sumar(slots, citas[k].agendaDetalle) else slots;
    forall s | s in despues
      ensures 0 <= despues[s].cuposDisponibles
      ensures despues[s].cuposDisponibles == despues[s].cuposMaximos - Ocupando(ocupa, citas - {k}, s)
    {
      OcupandoQuitar(ocupa, citas, {k}, s);
      assert Ocupantes(ocupa, citas, s) * {k} == if Marca(ocupa, citas[k], s) == 1 then {k} else {};
    }
  }

  /** A slot after `n` releases (n >= 0): n more units, and Disponible if n > 0. */
  function Liberado(fila: AgendaDetalle, n: nat): AgendaDetalle
  {
    if n == 0 then fila
    else fila.(cuposDisponibles := fila.cuposDisponibles + n, estado := Disponible)
  }

  /** The slot table after releasing one unit for every occupying appointment
      among `hechas`, each on its own slot. */
  function LiberarTodos(ocupa: int -> bool, slots: map<int, AgendaDetalle>,
                        citas: map<int, CitaDetalle>, hechas: set<int>): (r: map<int, AgendaDetalle>)
    ensures r.Keys == slots.Keys
  {
    map s | s in slots :: Liberado(slots[s], |Ocupantes(ocupa, citas, s) * hechas|)
  }

  /** One more appointment processed: the released count on slot `s` grows
      by the unit that appointment held there. */
  lemma {:induction false} ContarUnoMas(ocupa: int -> bool, citas: map<int, CitaDetalle>,
                                        hechas: set<int>, k: int, s: int)
    requires k in citas && k !in hechas
    ensures |Ocupantes(ocupa, citas, s) * (hechas + {k})|
         == |Ocupantes(ocupa, citas, s) * hechas| + Marca(ocupa, citas[k], s)
  {
    var occ := Ocupantes(ocupa, citas, s);
    if Marca(ocupa, citas[k], s) == 1 {
      assert occ * (hechas + {k}) == (occ * hechas) + {k};
    } else {
      assert occ * (hechas + {k}) == occ * hechas;
    }
  }

  /** One more appointment processed by the cascade loop. */
  lemma {:induction false} LiberarUnoMas(ocupa: int -> bool, slots: map<int, AgendaDetalle>,
                                         citas: map<int, CitaDetalle>, hechas: set<int>, k: int)
    requires k in citas && k !in hechas
    ensures LiberarTodos(ocupa, slots, citas, hechas + {k})
         == if ocupa(citas[k].estadoCita)
            then Sumar(LiberarTodos(ocupa, slots, citas, hechas), citas[k].agendaDetalle)
            else LiberarTodos(ocupa, slots, citas, hechas)
  {
    var antes := LiberarTodos(ocupa, slots, citas, hechas);
    var despues := LiberarTodos(ocupa, slots, citas, hechas + {k});
    var esperado := if ocupa(citas[k].estadoCita) then Sumar(antes, citas[k].agendaDetalle) else antes;
    assert forall s :: s in despues ==> despues[s] == esperado[s] by {
      forall s | s in slots
        ensures despues[s] == esperado[s]
      {
        LiberarUnoMasEn(ocupa, slots, citas, hechas, k, s);
      }
    }
    MapasIguales(despues, esperado);
  }

  /** Two maps with the same keys and the same value at every key are equal. */
  lemma MapasIguales(a: map<int, AgendaDetalle>, b: map<int, AgendaDetalle>)
    requires a.Keys == b.Keys
    requires forall s :: s in a ==> a[s] == b[s]
    ensures a == b
  {
    assert forall s | s in a :: a[s] == b[s];
    assert a.Keys == b.Keys;
  }

  /** `LiberarUnoMas` on one slot. */
  lemma {:induction false} LiberarUnoMasEn(ocupa: int -> bool, slots: map<int, AgendaDetalle>,
                                           citas: map<int, CitaDetalle>, hechas: set<int>, k: int, s: int)
    requires k in citas && k !in hechas && s in slots
    ensures LiberarTodos(ocupa, slots, citas, hechas + {k})[s]
         == (if ocupa(citas[k].estadoCita)
             then Sumar(LiberarTodos(ocupa, slots, citas, hechas), citas[k].agendaDetalle)
             else LiberarTodos(ocupa, slots, citas, hechas))[s]
  {
    var n := |Ocupantes(ocupa, citas, s) * hechas|;
    assert |Ocupantes(ocupa, citas, s) * (hechas + {k})| == n + Marca(ocupa, citas[k], s) by {
      ContarUnoMas(ocupa, citas, hechas, k, s);
    }
    assert LiberarTodos(ocupa, slots, citas, hechas)[s] == Liberado(slots[s], n);
  }


  /** Nothing processed yet: nothing released. */
  lemma LiberarNada(ocupa: int -> bool, slots: map<int, AgendaDetalle>, citas: map<int, CitaDetalle>)
    ensures LiberarTodos(ocupa, slots, citas, {}) == slots
  {
    forall s | s in slots
      ensures LiberarTodos(ocupa, slots, citas, {})[s] == slots[s]
    {
      assert Ocupantes(ocupa, citas, s) * {} == {};
    }
  }

  /** The header cascade keeps the ledger: every unit released belongs to
      an appointment that is removed with the header. */
  lemma {:induction false} CascadaCuadra(ocupa: int -> bool, slots: map<int, AgendaDetalle>,
                                         citas: map<int, CitaDetalle>, quitadas: set<int>)
    requires CuposCuadran(ocupa, slots, citas)
    ensures CuposCuadran(ocupa, LiberarTodos(ocupa, slots, citas, quitadas), citas - quitadas)
  {
    var despues := LiberarTodos(ocupa, slots, citas, quitadas);
    forall s | s in despues
      ensures 0 <= despues[s].cuposDisponibles
      ensures despues[s].cuposDisponibles == despues[s].cuposMaximos - Ocupando(ocupa, citas - quitadas, s)
    {
      OcupandoQuitar(ocupa, citas, quitadas, s);
    }
  }

  // ---------------------------------------------------------------------
  // Slot rows created or removed by AgendaDetalleDao / AgendaCabeceraDao

  /** A fresh slot whose remaining count equals its maximum keeps the ledger:
      no occupying appointment can point at an id not yet handed out. */
  lemma {:induction false} NuevaFilaCuadra(ocupa: int -> bool, slots: map<int, AgendaDetalle>,
                                           citas: map<int, CitaDetalle>, siguiente: int, fila: AgendaDetalle)
    requires CuposCuadran(ocupa, slots, citas)
    requires ReferenciasEmitidas(ocupa, citas, siguiente)
    requires 0 <= fila.cuposDisponibles == fila.cuposMaximos
    ensures CuposCuadran(ocupa, slots[siguiente := fila], citas)
  {
    assert forall k :: k !in Ocupantes(ocupa, citas, siguiente);
    assert Ocupantes(ocupa, citas, siguiente) == {};
  }

  // ---------------------------------------------------------------------
  // Round trip and the missing ceiling

  /** Create with an occupying status followed by delete gives the slot back
      its remaining count (its status becomes Disponible). */
  lemma RestarSumarRestaura(slots: map<int, AgendaDetalle>, id: int)
    requires CuposDisponibles(slots, id) > 0
    ensures Sumar(Restar(slots, id), id) == slots[id := slots[id].(estado := Disponible)]
  {
  }

  /** Release has no ceiling: on a slot that is already full it pushes the
      remaining count above the maximum. */
  lemma SumarSinTope(slots: map<int, AgendaDetalle>, id: int)
    requires id in slots && slots[id].cuposDisponibles == slots[id].cuposMaximos
    ensures Sumar(slots, id)[id].cuposDisponibles > Sumar(slots, id)[id].cuposMaximos
  {
  }
}
