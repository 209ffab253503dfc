/** ConsultorioDao.py: consulting offices. A phone number is normalised to
    the Paraguayan international form "595…" before it is validated and
    stored; name, address and e-mail are checked in a fixed order, then
    name and e-mail must not clash, case-insensitively, with another office.
    Python's `None` and the empty string are both falsy and both read as
    the empty string here. */
module ConsultorioDao {
  import opened Rows
  import opened Texto
  import opened Validadores

  // ---------------------------------------------------------------------
  // Phone numbers and e-mail addresses: documented and counter examples

  /** Doc example: a local number with its leading 0. */
  lemma EjemploLocal(s: string)
    requires s == "0981234567"
    ensures NormalizarTelefono(s) == Some("595981234567")
  {
    Limpio(s);
    assert s[..1] != "+" by { assert s[..1][0] == '0'; }
    assert s[..1] == "0";
    assert "595" + s[1..] == "595981234567";
  }

  /** Doc example: a local number without the 0. */
  lemma EjemploSinCero(s: string)
    requires s == "981234567"
    ensures NormalizarTelefono(s) == Some("595981234567")
  {
    Limpio(s);
    assert s[..1] != "+" && s[..1] != "0" by { assert s[..1][0] == '9'; }
    assert s[..3] != "595" by { assert s[..3][0] == '9'; }
    assert "595" + s == "595981234567";
  }

  /** Doc example: the international form with '+'. */
  lemma EjemploInternacional(s: string)
    requires s == "+595981234567"
    ensures NormalizarTelefono(s) == Some("595981234567")
  {
    Limpio(s);
    assert s[..1] == "+";
    var t := s[1..];
    assert t == "595981234567";
    assert t[..1] != "0" by { assert t[..1][0] == '5'; }
    assert t[..3] == "595";
  }

  lemma SinBlancos(s: string)
    requires s == "098 123 4567"
    ensures Quitar(s, ' ') == "0981234567"
  {
    var a, b, c := s[..3], s[4..7], s[8..];
    assert s == a + [' '] + b + [' '] + c;
    QuitarSeparadores(a, b, c, ' ');
  }

  lemma SinEspacios(s: string)
    requires s == "098 123 4567"
    ensures Limpiar(s) == "0981234567"
  {
    StripFijo(s);
    SinBlancos(s);
    QuitarAusente(Quitar(s, ' '), '-');
  }

  /** Doc example: spaces inside the number are dropped. */
  lemma EjemploConEspacios(s: string)
    requires s == "098 123 4567"
    ensures NormalizarTelefono(s) == Some("595981234567")
  {
    var t := "0981234567";
    assert Limpiar(s) == t by { SinEspacios(s); }
    assert NormalizarTelefono(t) == Some("595981234567") by { EjemploLocal(t); }
    MismoLimpio(s, t);
  }

  lemma MismoLimpio(s: string, t: string)
    requires s != [] && Limpiar(s) == t && t != [] && !EsEspacio(t[0]) && !EsEspacio(t[|t| - 1])
    ensures NormalizarTelefono(s) == NormalizarTelefono(t)
  {
    SoloCuentaLimpio(s);
  }

  /** The `$` quirk: a number followed by one newline is accepted as is. */
  lemma NuevaLineaFinalAceptada()
    ensures EsTelefonoParaguayoValido(Some("595981234567\n"))
  {
    assert "595981234567\n"[..12] == "595981234567";
  }

  /** The example address of the office form is accepted. */
  lemma EjemploCorreo(s: string)
    requires s == "info@consultorio.com"
    ensures EsCorreoValido(s)
  {
    assert s[..4] == "info" && s[5..16] == "consultorio" && s[17..] == "com";
    assert Partido(s, 4, 16);
  }

  // ---------------------------------------------------------------------
  // The validation sequence of guardarConsultorio / updateConsultorio

  /** The field whose check failed. */
  datatype Campo = Nombre | Direccion | Correo | Telefono

  /** The checks in source order; the first failing field, or None. */
  function ValidarCampos(nombre: string, direccion: string, telefono: string, correo: string): (r: Option<Campo>)
    ensures r == None <==> && |Strip(nombre)| >= 3 && |Strip(direccion)| >= 5 && EsCorreoValido(correo)
                           && EsTelefonoParaguayoValido(NormalizarTelefono(telefono))
    ensures r == Some(Nombre) <==> |Strip(nombre)| < 3
    ensures r == Some(Direccion) <==> |Strip(nombre)| >= 3 && |Strip(direccion)| < 5
    ensures r == Some(Correo) <==> |Strip(nombre)| >= 3 && |Strip(direccion)| >= 5 && !EsCorreoValido(correo)
    ensures r == Some(Telefono) ==> |Strip(nombre)| >= 3 && |Strip(direccion)| >= 5 && EsCorreoValido(correo)
    ensures r == None ==> telefono != []
  {
    if |Strip(nombre)| < 3 then Some(Nombre)
    else if |Strip(direccion)| < 5 then Some(Direccion)
    else if correo == [] || !EsCorreoValido(correo) then Some(Correo)
    else if !EsTelefonoParaguayoValido(NormalizarTelefono(telefono)) then Some(Telefono)
    else None
  }

  /** `existeDuplicado`: another office with the same name or the same
      e-mail, ignoring case, leaving out `excluir` when it is truthy. */
  predicate ExisteDuplicado(m: map<int, Consultorio>, nombre: string, correo: string, excluir: Option<int>)
  {
    exists k :: k in m && !Excluye(excluir, k)
      && (Upper(m[k].nombre) == Upper(nombre) || Upper(m[k].correo) == Upper(correo))
  }

  /** The exclusion leaves out exactly the edited office, and only when its
      code is truthy. */
  lemma ExisteDuplicadoExcluye(m: map<int, Consultorio>, nombre: string, correo: string, id: int)
    ensures ExisteDuplicado(m, nombre, correo, None) <==>
      || ExisteDuplicado(m, nombre, correo, Some(id))
      || (id != 0 && id in m && (Upper(m[id].nombre) == Upper(nombre) || Upper(m[id].correo) == Upper(correo)))
    ensures ExisteDuplicado(m, nombre, correo, Some(0)) == ExisteDuplicado(m, nombre, correo, None)
  {
  }

  /** No two offices share a name or an e-mail, ignoring case. */
  ghost predicate SinDuplicados(m: map<int, Consultorio>)
  {
    forall a, b :: a in m && b in m && a != b ==>
      Upper(m[a].nombre) != Upper(m[b].nombre) && Upper(m[a].correo) != Upper(m[b].correo)
  }

  /** The empty table has no duplicates and a valid serial. */
  lemma VacioSinDuplicados()
    ensures SinDuplicados(map[]) && IdsEmitidos<Consultorio>(map[], 1)
  {
  }

  /** The row stored for valid input: name, address and e-mail stripped,
      the phone normalised. */
  function Fila(nombre: string, direccion: string, telefono: string, correo: string): (r: Consultorio)
    requires telefono != []
    ensures r.telefono == NormalizarTelefono(telefono).value
    ensures r.nombre == Strip(nombre) && r.direccion == Strip(direccion) && r.correo == Strip(correo)
  {
    Consultorio(Strip(nombre), Strip(direccion), NormalizarTelefono(telefono).value, Strip(correo))
  }

  /** The outcome of a save: the office code, no row touched (`False`), the
      ValueError of a failed check, or the database refusing the insert. */
  datatype Resultado = Hecho(codigo: int) | SinFilas | Invalido(campo: Campo) | Duplicado | ErrorBase

  /** Storing an office whose (already stripped) name and e-mail clash with
      no other keeps `SinDuplicados`. */
  lemma {:induction false} SinChoqueConserva(m: map<int, Consultorio>, k: int, c: Consultorio)
    requires SinDuplicados(m)
    requires forall j :: j in m && j != k ==>
      Upper(m[j].nombre) != Upper(c.nombre) && Upper(m[j].correo) != Upper(c.correo)
    ensures SinDuplicados(m[k := c])
  {
    var n := m[k := c];
    forall a, b | a in n && b in n && a != b
      ensures Upper(n[a].nombre) != Upper(n[b].nombre) && Upper(n[a].correo) != Upper(n[b].correo)
    {
      if a == k {
        assert n[b] == m[b];
      } else if b == k {
        assert n[a] == m[a];
      }
    }
  }

  /** A row that passed the duplicate check, with `excluir` naming at most
      the row it replaces, keeps `SinDuplicados` when the name and e-mail
      it was checked with are the stored, stripped ones. */
  lemma SinDuplicadoConserva(m: map<int, Consultorio>, k: int, excluir: Option<int>,
                             nombre: string, correo: string, c: Consultorio)
    requires excluir == None || excluir == Some(k)
    requires !ExisteDuplicado(m, nombre, correo, excluir)
    requires c.nombre == Strip(nombre) && c.correo == Strip(correo)
    ensures SinDuplicados(m) && nombre == Strip(nombre) && correo == Strip(correo) ==> SinDuplicados(m[k := c])
  {
    if SinDuplicados(m) && nombre == Strip(nombre) && correo == Strip(correo) {
      forall j | j in m && j != k
        ensures Upper(m[j].nombre) != Upper(c.nombre) && Upper(m[j].correo) != Upper(c.correo)
      {
        assert !Excluye(excluir, j);
      }
      SinChoqueConserva(m, k, c);
    }
  }

  lemma EspacioNoDuplica(m: map<int, Consultorio>, nombre: string, correo: string)
    requires m == map[1 := Consultorio("Sede", "Calle 1", "595981234567", "a@b.co")]
    requires nombre == " Sede" && correo == "x@y.co"
    ensures !ExisteDuplicado(m, nombre, correo, None)
  {
    assert Upper(nombre)[0] == ' ' && Upper(m[1].nombre)[0] == 'S';
    assert Upper(correo)[0] == 'X' && Upper(m[1].correo)[0] == 'A';
  }

  lemma InicioSede(nombre: string)
    requires nombre == " Sede"
    ensures QuitarInicio(nombre) == nombre[1..]
  {
    assert EsEspacio(nombre[0]);
    assert !EsEspacio(nombre[1..][0]);
  }

  lemma FinalSede(nombre: string)
    requires nombre == "Sede"
    ensures QuitarFinal(nombre) == nombre
  {
    assert !EsEspacio(nombre[|nombre| - 1]);
  }

  lemma StripSede(nombre: string)
    requires nombre == " Sede"
    ensures Strip(nombre) == nombre[1..]
  {
    InicioSede(nombre);
    FinalSede(nombre[1..]);
  }

  /** The duplicate check compares the name and e-mail as given, but the
      row stores them stripped: a name with a leading space passes the
      check and then collides with the stored one. */
  lemma DuplicadoConEspacios(m: map<int, Consultorio>, nombre: string, correo: string, c: Consultorio)
    requires m == map[1 := Consultorio("Sede", "Calle 1", "595981234567", "a@b.co")]
    requires nombre == " Sede" && correo == "x@y.co"
    requires c.nombre == Strip(nombre)
    ensures !ExisteDuplicado(m, nombre, correo, None)
    ensures !SinDuplicados(m[2 := c])
  {
    EspacioNoDuplica(m, nombre, correo);
    StripSede(nombre);
    assert c.nombre == m[1].nombre;
    var n := m[2 := c];
    assert n[1] == m[1] && n[2] == c;
  }

  /** `guardarConsultorio`: validate, refuse a duplicate, insert the
      stripped and normalised row. */
  method GuardarConsultorio(db: Database, nombre: string, direccion: string, telefono: string, correo: string)
    returns (r: Resultado)
    modifies db`consultorios, db`nextConsultorio
    ensures ValidarCampos(nombre, direccion, telefono, correo).Some? ==>
      r == Invalido(ValidarCampos(nombre, direccion, telefono, correo).value) && unchanged(db)
    ensures ValidarCampos(nombre, direccion, telefono, correo).None?
            && ExisteDuplicado(old(db.consultorios), nombre, correo, None)
            ==> r == Duplicado && unchanged(db)
    ensures ValidarCampos(nombre, direccion, telefono, correo).None?
            && !ExisteDuplicado(old(db.consultorios), nombre, correo, None)
            ==> if old(db.nextConsultorio) in old(db.consultorios) then r == ErrorBase && unchanged(db)
                else && r == Hecho(old(db.nextConsultorio))
                     && db.consultorios == old(db.consultorios)[r.codigo := Fila(nombre, direccion, telefono, correo)]
                     && db.nextConsultorio == old(db.nextConsultorio) + 1
    ensures old(SinDuplicados(db.consultorios)) && nombre == Strip(nombre) && correo == Strip(correo)
            ==> SinDuplicados(db.consultorios)
  {
    var fallo := ValidarCampos(nombre, direccion, telefono, correo);
    if fallo.Some? {
      return Invalido(fallo.value);
    }
    if ExisteDuplicado(db.consultorios, nombre, correo, None) {
      return Duplicado;
    }
    var codigo := db.nextConsultorio;
    if codigo in db.consultorios {
      return ErrorBase;
    }
    var fila := Fila(nombre, direccion, telefono, correo);
    SinDuplicadoConserva(db.consultorios, codigo, None, nombre, correo, fila);
    db.consultorios := db.consultorios[codigo := fila];
    db.nextConsultorio := codigo + 1;
    r := Hecho(codigo);
  }

  /** `updateConsultorio`: as `guardarConsultorio`, with the edited office
      left out of the duplicate check; `False` when no row has the code. */
  method UpdateConsultorio(db: Database, codigo: int, nombre: string, direccion: string, telefono: string,
                           correo: string) returns (r: Resultado)
    modifies db`consultorios
    ensures ValidarCampos(nombre, direccion, telefono, correo).Some? ==>
      r == Invalido(ValidarCampos(nombre, direccion, telefono, correo).value) && unchanged(db)
    ensures ValidarCampos(nombre, direccion, telefono, correo).None?
            && ExisteDuplicado(old(db.consultorios), nombre, correo, Some(codigo))
            ==> r == Duplicado && unchanged(db)
    ensures ValidarCampos(nombre, direccion, telefono, correo).None?
            && !ExisteDuplicado(old(db.consultorios), nombre, correo, Some(codigo))
            ==> if codigo in old(db.consultorios) then
                  r == Hecho(codigo)
                  && db.consultorios == old(db.consultorios)[codigo := Fila(nombre, direccion, telefono, correo)]
                else r == SinFilas && unchanged(db)
    ensures old(SinDuplicados(db.consultorios)) && nombre == Strip(nombre) && correo == Strip(correo)
            ==> SinDuplicados(db.consultorios)
  {
    var fallo := ValidarCampos(nombre, direccion, telefono, correo);
    if fallo.Some? {
      return Invalido(fallo.value);
    }
    if ExisteDuplicado(db.consultorios, nombre, correo, Some(codigo)) {
      return Duplicado;
    }
    if codigo !in db.consultorios {
      return SinFilas;
    }
    var fila := Fila(nombre, direccion, telefono, correo);
    SinDuplicadoConserva(db.consultorios, codigo, Some(codigo), nombre, correo, fila);
    db.consultorios := db.consultorios[codigo := fila];
    r := Hecho(codigo);
  }

  /** `deleteConsultorio`. */
  method DeleteConsultorio(db: Database, codigo: int) returns (ok: bool)
    modifies db`consultorios
    ensures ok <==> codigo in old(db.consultorios)
    ensures db.consultorios == old(db.consultorios) - {codigo}
    ensures old(SinDuplicados(db.consultorios)) ==> SinDuplicados(db.consultorios)
  {
    ok := codigo in db.consultorios;
    db.consultorios := db.consultorios - {codigo};
  }
}
