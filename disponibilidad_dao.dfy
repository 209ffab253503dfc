/** DisponibilidadHorariaDao.py: a doctor's time-window templates. Two
    templates of the same doctor on the same date must not overlap, where
    windows are half-open: one ending at 10:00 and one starting at 10:00
    do not conflict. */
module DisponibilidadHorariaDao {
  import opened Rows

  /** The SQL overlap test between the stored window [inicio, fin) and the
      candidate [nuevoInicio, nuevoFin). */
  predicate Solapan(inicio: int, fin: int, nuevoInicio: int, nuevoFin: int)
  {
    !(fin <= nuevoInicio || inicio >= nuevoFin)
  }

  /** Minute `t` lies in the window [inicio, fin). */
  predicate EnVentana(t: int, inicio: int, fin: int)
  {
    inicio <= t < fin
  }

  /** For non-empty windows the test is exactly "some minute lies in both". */
  lemma SolapanSiComparten(a: int, b: int, c: int, d: int)
    requires a < b && c < d
    ensures Solapan(a, b, c, d) <==> exists t :: EnVentana(t, a, b) && EnVentana(t, c, d)
  {
    if Solapan(a, b, c, d) {
      var t := if a < c then c else a;
      assert EnVentana(t, a, b) && EnVentana(t, c, d);
    } else {
      forall t | EnVentana(t, a, b)
        ensures !EnVentana(t, c, d)
      {
      }
    }
  }

  /** The test does not depend on which window is the stored one, and
      windows that only touch do not conflict. */
  lemma SolapanSimetrico(a: int, b: int, c: int, d: int)
    ensures Solapan(a, b, c, d) <==> Solapan(c, d, a, b)
    ensures !Solapan(a, b, b, d) && !Solapan(c, d, a, c)
  {
  }

  /** `existeDisponibilidad`: a stored template of the same doctor on the
      same date overlaps the candidate window, leaving out `excluir` when it
      is truthy. */
  predicate ExisteDisponibilidad(m: map<int, Disponibilidad>, medico: int, fecha: int,
                                 inicio: int, fin: int, excluir: Option<int>)
  {
    exists k :: k in m && m[k].medico == medico && m[k].fecha == fecha
      && Solapan(m[k].horaInicio, m[k].horaFin, inicio, fin) && !Excluye(excluir, k)
  }

  /** The exclusion leaves out exactly the edited template, and only when
      its id is truthy. */
  lemma ExisteDisponibilidadExcluye(m: map<int, Disponibilidad>, medico: int, fecha: int,
                                    inicio: int, fin: int, id: int)
    ensures ExisteDisponibilidad(m, medico, fecha, inicio, fin, None) <==>
      || ExisteDisponibilidad(m, medico, fecha, inicio, fin, Some(id))
      || (id != 0 && id in m && m[id].medico == medico && m[id].fecha == fecha
          && Solapan(m[id].horaInicio, m[id].horaFin, inicio, fin))
    ensures ExisteDisponibilidad(m, medico, fecha, inicio, fin, Some(0))
         == ExisteDisponibilidad(m, medico, fecha, inicio, fin, None)
  {
  }

  /** No two templates of one doctor on one date overlap. */
  ghost predicate SinSolapes(m: map<int, Disponibilidad>)
  {
    forall a, b :: a in m && b in m && a != b && m[a].medico == m[b].medico && m[a].fecha == m[b].fecha ==>
      !Solapan(m[a].horaInicio, m[a].horaFin, m[b].horaInicio, m[b].horaFin)
  }

  /** The empty table has no overlaps and a valid serial. */
  lemma VaciaSinSolapes()
    ensures SinSolapes(map[]) && IdsEmitidos<Disponibilidad>(map[], 1)
  {
  }

  /** A window that passes the check can be stored next to the others
      without breaking `SinSolapes`; the excluded row is the one replaced. */
  lemma {:induction false} SinConflictoConserva(m: map<int, Disponibilidad>, k: int, d: Disponibilidad)
    requires SinSolapes(m)
    requires !ExisteDisponibilidad(m, d.medico, d.fecha, d.horaInicio, d.horaFin, Some(k))
    requires k != 0
    ensures SinSolapes(m[k := d])
  {
    var n := m[k := d];
    forall a, b | a in n && b in n && a != b && n[a].medico == n[b].medico && n[a].fecha == n[b].fecha
      ensures !Solapan(n[a].horaInicio, n[a].horaFin, n[b].horaInicio, n[b].horaFin)
    {
      if a == k {
        assert !Excluye(Some(k), b);
        SolapanSimetrico(n[a].horaInicio, n[a].horaFin, n[b].horaInicio, n[b].horaFin);
      } else if b == k {
        assert !Excluye(Some(k), a);
      }
    }
  }

  /** `guardarDisponibilidad`: refuse an overlapping window, otherwise insert. */
  method GuardarDisponibilidad(db: Database, d: Disponibilidad) returns (r: Option<int>)
    modifies db`disponibilidades, db`nextDisponibilidad
    ensures ExisteDisponibilidad(old(db.disponibilidades), d.medico, d.fecha, d.horaInicio, d.horaFin, None)
            || old(db.nextDisponibilidad) in old(db.disponibilidades)
            ==> r == None && unchanged(db)
    ensures !ExisteDisponibilidad(old(db.disponibilidades), d.medico, d.fecha, d.horaInicio, d.horaFin, None)
            && old(db.nextDisponibilidad) !in old(db.disponibilidades)
            ==> && r == Some(old(db.nextDisponibilidad))
                && db.disponibilidades == old(db.disponibilidades)[r.value := d]
                && db.nextDisponibilidad == old(db.nextDisponibilidad) + 1
    ensures old(SinSolapes(db.disponibilidades)) ==> SinSolapes(db.disponibilidades)
    ensures old(IdsEmitidos(db.disponibilidades, db.nextDisponibilidad))
            ==> IdsEmitidos(db.disponibilidades, db.nextDisponibilidad)
  {
    if ExisteDisponibilidad(db.disponibilidades, d.medico, d.fecha, d.horaInicio, d.horaFin, None) {
      return None;
    }
    var nuevo := db.nextDisponibilidad;
    if nuevo in db.disponibilidades {
      return None;
    }
    if SinSolapes(db.disponibilidades) {
      SinConflictoReemplazo(db.disponibilidades, nuevo, d);
    }
    db.disponibilidades := db.disponibilidades[nuevo := d];
    db.nextDisponibilidad := nuevo + 1;
    r := Some(nuevo);
  }

  /** `updateDisponibilidad`: the check leaves out the edited row itself. */
  method UpdateDisponibilidad(db: Database, id: int, d: Disponibilidad) returns (ok: bool)
    modifies db`disponibilidades
    ensures ok <==> id in old(db.disponibilidades)
                    && !ExisteDisponibilidad(old(db.disponibilidades), d.medico, d.fecha, d.horaInicio, d.horaFin, Some(id))
    ensures ok ==> db.disponibilidades == old(db.disponibilidades)[id := d]
    ensures !ok ==> db.disponibilidades == old(db.disponibilidades)
    ensures old(SinSolapes(db.disponibilidades)) ==> SinSolapes(db.disponibilidades)
  {
    if ExisteDisponibilidad(db.disponibilidades, d.medico, d.fecha, d.horaInicio, d.horaFin, Some(id)) {
      return false;
    }
    if id !in db.disponibilidades {
      return false;
    }
    if SinSolapes(db.disponibilidades) {
      if id == 0 {
        assert !Excluye(Some(id), id);
        SinConflictoReemplazo(db.disponibilidades, id, d);
      } else {
        SinConflictoConserva(db.disponibilidades, id, d);
      }
    }
    db.disponibilidades := db.disponibilidades[id := d];
    ok := true;
  }

  /** A window that conflicts with no stored row at all can be stored under
      any id, new or replaced, keeping `SinSolapes`. */
  lemma {:induction false} SinConflictoReemplazo(m: map<int, Disponibilidad>, k: int, d: Disponibilidad)
    requires SinSolapes(m)
    requires !ExisteDisponibilidad(m, d.medico, d.fecha, d.horaInicio, d.horaFin, None)
    ensures SinSolapes(m[k := d])
  {
    var n := m[k := d];
    forall a, b | a in n && b in n && a != b && n[a].medico == n[b].medico && n[a].fecha == n[b].fecha
      ensures !Solapan(n[a].horaInicio, n[a].horaFin, n[b].horaInicio, n[b].horaFin)
    {
      if a == k {
        SolapanSimetrico(n[a].horaInicio, n[a].horaFin, n[b].horaInicio, n[b].horaFin);
      }
    }
  }

  /** Re-saving a template unchanged never conflicts with itself. */
  lemma ReguardarSinCambios(m: map<int, Disponibilidad>, id: int)
    requires SinSolapes(m)
    requires id in m && id != 0
    ensures !ExisteDisponibilidad(m, m[id].medico, m[id].fecha, m[id].horaInicio, m[id].horaFin, Some(id))
  {
  }

  /** `deleteDisponibilidad`. */
  method DeleteDisponibilidad(db: Database, id: int) returns (ok: bool)
    modifies db`disponibilidades
    ensures ok <==> id in old(db.disponibilidades)
    ensures db.disponibilidades == old(db.disponibilidades) - {id}
    ensures old(SinSolapes(db.disponibilidades)) ==> SinSolapes(db.disponibilidades)
  {
    ok := id in db.disponibilidades;
    db.disponibilidades := db.disponibilidades - {id};
  }

  /** Some template of `ids` starting no later than every other. */
  lemma {:induction false} Primero(m: map<int, Disponibilidad>, ids: set<int>) returns (k: int)
    requires ids != {} && ids <= m.Keys
    ensures k in ids && forall j :: j in ids ==> m[k].horaInicio <= m[j].horaInicio
    decreases |ids|
  {
    var x := Testigo(ids);
    if ids == {x} {
      k := x;
    } else {
      var y := Primero(m, ids - {x});
      k := if m[x].horaInicio <= m[y].horaInicio then x else y;
    }
  }

  lemma PrimeroExiste(m: map<int, Disponibilidad>, ids: set<int>)
    requires ids != {} && ids <= m.Keys
    ensures exists k :: k in ids && forall j :: j in ids ==> m[k].horaInicio <= m[j].horaInicio
  {
    var k := Primero(m, ids);
  }

  /** The ids of `ids` ordered by start time (`ORDER BY dispo_hora_inicio`):
      each time the earliest remaining template comes next. */
  ghost function OrdenarPorInicio(m: map<int, Disponibilidad>, ids: set<int>): (r: seq<int>)
    requires ids <= m.Keys
    ensures |r| == |ids|
    ensures forall k :: k in ids <==> k in r
    ensures forall i :: 0 <= i < |r| ==> r[i] in m
    decreases |ids|
  {
    if ids == {} then []
    else
      PrimeroExiste(m, ids);
      var k :| k in ids && forall j :: j in ids ==> m[k].horaInicio <= m[j].horaInicio;
      [k] + OrdenarPorInicio(m, ids - {k})
  }

  /** A listing of templates of `m`, each once, sorted by start time. */
  predicate Listado(m: map<int, Disponibilidad>, r: seq<int>)
  {
    && (forall i :: 0 <= i < |r| ==> r[i] in m)
    && (forall i, j :: 0 <= i < j < |r| ==> r[i] != r[j])
    && (forall i, j :: 0 <= i < j < |r| ==> m[r[i]].horaInicio <= m[r[j]].horaInicio)
  }

  /** The listing holds each id once and is sorted by start time. */
  lemma {:induction false} OrdenadoPorInicio(m: map<int, Disponibilidad>, ids: set<int>)
    requires ids <= m.Keys
    ensures Listado(m, OrdenarPorInicio(m, ids))
    decreases |ids|
  {
    if ids != {} {
      var r := OrdenarPorInicio(m, ids);
      PrimeroDelListado(m, ids);
      OrdenadoPorInicio(m, ids - {r[0]});
      ConPrimero(m, ids, r[0], r[1..]);
      assert r == [r[0]] + r[1..];
    }
  }

  /** One step of `OrdenarPorInicio`: the earliest id, then the rest. */
  lemma PrimeroDelListado(m: map<int, Disponibilidad>, ids: set<int>)
    requires ids != {} && ids <= m.Keys
    ensures var r := OrdenarPorInicio(m, ids);
      && r != [] && r[0] in ids && (forall j :: j in ids ==> m[r[0]].horaInicio <= m[j].horaInicio)
      && r[1..] == OrdenarPorInicio(m, ids - {r[0]})
  {
  }

  /** Putting the earliest id of `ids` in front of a listing of the others
      keeps it a listing. */
  lemma ConPrimero(m: map<int, Disponibilidad>, ids: set<int>, k: int, resto: seq<int>)
    requires ids <= m.Keys && k in ids
    requires forall j :: j in ids ==> m[k].horaInicio <= m[j].horaInicio
    requires forall x :: x in resto <==> x in ids - {k}
    requires Listado(m, resto)
    ensures Listado(m, [k] + resto)
  {
    var r := [k] + resto;
    forall i, j | 0 <= i < j < |r|
      ensures r[i] != r[j] && m[r[i]].horaInicio <= m[r[j]].horaInicio
    {
      assert r[j] == resto[j - 1] && r[j] in ids - {k};
      if i > 0 {
        assert r[i] == resto[i - 1];
      }
    }
  }

  /** `getDisponibilidadesPorMedicoFecha`: the ids of exactly the templates
      of one doctor on one date, by start time, each once. */
  ghost function GetDisponibilidadesPorMedicoFecha(m: map<int, Disponibilidad>, medico: int, fecha: int): (r: seq<int>)
    ensures forall k :: k in r <==> k in m && m[k].medico == medico && m[k].fecha == fecha
    ensures forall i :: 0 <= i < |r| ==> r[i] in m
    ensures forall i, j :: 0 <= i < j < |r| ==> r[i] != r[j]
    ensures forall i, j :: 0 <= i < j < |r| ==> m[r[i]].horaInicio <= m[r[j]].horaInicio
  {
    var ids := set k | k in m && m[k].medico == medico && m[k].fecha == fecha;
    OrdenadoPorInicio(m, ids);
    OrdenarPorInicio(m, ids)
  }
}
