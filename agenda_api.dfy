/** agenda_api.py: the batch loop of `addDetalles` and the input checks of
    `actualizarCupos`. HTTP status codes are the constructors of the
    response datatypes; message texts are not modelled. */
module AgendaApi {
  import opened Rows
  import opened Libro
  import opened AgendaDetalleDao

  /** The `ids_disponibilidades` field of the request body. */
  datatype Lista = Ausente | NoEsLista | Lista(ids: seq<int>)

  /** The responses of `addDetalles`. */
  datatype Respuesta =
    | Creados(ids: seq<int>, cantidad: int, errores: Option<seq<ErrorDetalle>>)  // 201
    | NingunoCreado(fallos: seq<ErrorDetalle>)                                   // 400, errors joined
    | PeticionInvalida                                                           // 400
    | CabeceraInexistente                                                        // 404

  /** Each requested id with the template `getDisponibilidadById` finds for it. */
  function Consultar(plantillas: map<int, Disponibilidad>, ids: seq<int>): (r: seq<(int, Option<Disponibilidad>)>)
    ensures |r| == |ids|
    ensures forall i :: 0 <= i < |r| ==>
      r[i] == (ids[i], if ids[i] in plantillas then Some(plantillas[ids[i]]) else None)
  {
    seq(|ids|, i requires 0 <= i < |ids| =>
      (ids[i], if ids[i] in plantillas then Some(plantillas[ids[i]]) else None))
  }

  /** The response built from the finished batch. */
  function Responder(l: Lote): Respuesta
  {
    if l.creados != [] then
      Creados(l.creados, |l.creados|, if l.errores == [] then None else Some(l.errores))
    else
      NingunoCreado(l.errores)
  }

  /** What a batch response says: success iff something was created, the
      count is the number of created ids, errors are null iff there were
      none, and every requested id shows up once, as an id or as an error. */
  lemma {:induction false} RespuestaCuenta(slots: map<int, AgendaDetalle>, siguiente: int,
                                           cabeceras: map<int, AgendaCabecera>, cabecera: int,
                                           plantillas: map<int, Disponibilidad>, ids: seq<int>)
    ensures var l := Publicar(Lote(slots, siguiente, [], []), cabeceras, cabecera, Consultar(plantillas, ids));
      var r := Responder(l);
      && (r.Creados? <==> l.creados != [])
      && (r.Creados? ==> r.cantidad == |r.ids| && (r.errores.None? <==> |r.ids| == |ids|)
                         && |r.ids| + (if r.errores.Some? then |r.errores.value| else 0) == |ids|)
      && (r.NingunoCreado? ==> |r.fallos| == |ids|)
  {
    PublicarCuenta(Lote(slots, siguiente, [], []), cabeceras, cabecera, Consultar(plantillas, ids));
  }

  /** The loop of `addDetalles`: look each id up and publish it, collecting
      created ids and errors in request order. */
  method PublicarIds(db: Database, cabecera: int, ids: seq<int>) returns (creados: seq<int>, errores: seq<ErrorDetalle>)
    modifies db`agendaDetalles, db`nextAgendaDetalle
    ensures var l := Publicar(Lote(old(db.agendaDetalles), old(db.nextAgendaDetalle), [], []),
                              db.agendaCabeceras, cabecera, Consultar(db.disponibilidades, ids));
      && creados == l.creados && errores == l.errores
      && db.agendaDetalles == l.slots && db.nextAgendaDetalle == l.siguiente
    ensures old(UnDetallePorPar(db.agendaDetalles)) ==> UnDetallePorPar(db.agendaDetalles)
    ensures old(LibroCuadra(db)) && (forall k :: k in db.disponibilidades ==> db.disponibilidades[k].cupos >= 0)
            ==> LibroCuadra(db)
  {
    ghost var todo := Consultar(db.disponibilidades, ids);
    ghost var inicio := Lote(db.agendaDetalles, db.nextAgendaDetalle, [], []);
    ghost var unico := UnDetallePorPar(db.agendaDetalles);
    ghost var cuadra := LibroCuadra(db) && forall k :: k in db.disponibilidades ==> db.disponibilidades[k].cupos >= 0;
    creados := [];
    errores := [];
    var i := 0;
    while i < |ids|
      invariant 0 <= i <= |ids|
      invariant Publicar(Lote(db.agendaDetalles, db.nextAgendaDetalle, creados, errores),
                         db.agendaCabeceras, cabecera, todo[i..])
             == Publicar(inicio, db.agendaCabeceras, cabecera, todo)
      invariant unico ==> UnDetallePorPar(db.agendaDetalles)
      invariant cuadra ==> LibroCuadra(db)
    {
      ghost var antes := Lote(db.agendaDetalles, db.nextAgendaDetalle, creados, errores);
      var id := ids[i];
      assert todo[i] == (id, if id in db.disponibilidades then Some(db.disponibilidades[id]) else None);
      if id !in db.disponibilidades {
        errores := errores + [DisponibilidadInexistente(id)];
      } else {
        assert cuadra ==> db.disponibilidades[id].cupos >= 0;
        var creado := GuardarDetalle(db, cabecera, id, db.disponibilidades[id]);
        if creado.Some? {
          creados := creados + [creado.value];
        } else {
          errores := errores + [YaPublicadaOError(id)];
        }
      }
      PublicarAvanza(antes, Lote(db.agendaDetalles, db.nextAgendaDetalle, creados, errores),
                     db.agendaCabeceras, cabecera, todo, i);
      i := i + 1;
    }
    assert todo[i..] == [];
  }

  /** `addDetalles`: validate the body, check the schedule exists, then
      publish every requested template in order, carrying on past errors. */
  method AddDetalles(db: Database, cabecera: int, entrada: Lista) returns (r: Respuesta)
    modifies db`agendaDetalles, db`nextAgendaDetalle
    ensures !entrada.Lista? || entrada.ids == [] ==> r == PeticionInvalida && unchanged(db)
    ensures entrada.Lista? && entrada.ids != [] && cabecera !in db.agendaCabeceras
            ==> r == CabeceraInexistente && unchanged(db)
    ensures entrada.Lista? && entrada.ids != [] && cabecera in db.agendaCabeceras ==>
      var l := Publicar(Lote(old(db.agendaDetalles), old(db.nextAgendaDetalle), [], []),
                        db.agendaCabeceras, cabecera, Consultar(db.disponibilidades, entrada.ids));
      r == Responder(l) && db.agendaDetalles == l.slots && db.nextAgendaDetalle == l.siguiente
    ensures old(UnDetallePorPar(db.agendaDetalles)) ==> UnDetallePorPar(db.agendaDetalles)
    ensures old(LibroCuadra(db)) && (forall k :: k in db.disponibilidades ==> db.disponibilidades[k].cupos >= 0)
            ==> LibroCuadra(db)
  {
    if !entrada.Lista? || entrada.ids == [] {
      return PeticionInvalida;
    }
    if cabecera !in db.agendaCabeceras {
      return CabeceraInexistente;
    }
    var creados, errores := PublicarIds(db, cabecera, entrada.ids);
    if creados != [] {
      r := Creados(creados, |creados|, if errores == [] then None else Some(errores));
    } else {
      r := NingunoCreado(errores);
    }
  }

  /** The `cupos_disponibles` field as `int()` sees it: missing, converted,
      refused with ValueError, or refused with any other exception. */
  datatype Valor = Falta | Entero(n: int) | NoNumerico | OtroTipo

  /** The responses of `actualizarCupos`. */
  datatype RespuestaCupos =
    | Actualizado(cupos: int)  // 200
    | Rechazado                // 400
    | NoActualizado            // 404
    | ErrorInterno             // 500

  /** `actualizarCupos`: reject a missing, non-numeric or negative value
      before the override is applied. */
  method ActualizarCupos(db: Database, id: int, valor: Valor) returns (r: RespuestaCupos)
    modifies db`agendaDetalles
    ensures valor.Falta? || valor.NoNumerico? || (valor.Entero? && valor.n < 0)
            ==> r == Rechazado && unchanged(db)
    ensures valor.OtroTipo? ==> r == ErrorInterno && unchanged(db)
    ensures valor.Entero? && valor.n >= 0 && id !in old(db.agendaDetalles)
            ==> r == NoActualizado && unchanged(db)
    ensures valor.Entero? && valor.n >= 0 && id in old(db.agendaDetalles)
            ==> r == Actualizado(valor.n)
                && db.agendaDetalles == old(db.agendaDetalles)[id := FijarCupos(old(db.agendaDetalles[id]), valor.n)]
  {
    match valor {
      case Falta => r := Rechazado;
      case NoNumerico => r := Rechazado;
      case OtroTipo => r := ErrorInterno;
      case Entero(n) =>
        if n < 0 {
          r := Rechazado;
        } else {
          var ok := ActualizarCuposDisponibles(db, id, n);
          r := if ok then Actualizado(n) else NoActualizado;
        }
    }
  }
}
