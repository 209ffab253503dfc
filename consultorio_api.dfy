/** consultorio_api.py: the API-level validators run before the office DAO
    is called. `normalizar_telefono` and `validar_correo` are the DAO's
    `_normalizarTelefono` and the pattern of `_esCorreoValido` again, so the
    model reuses `Validadores.NormalizarTelefono` and
    `Validadores.EsCorreoValido`. What differs is that the API's phone
    validator has no guard for a missing value. */
module ConsultorioApi {
  import opened Rows
  import opened Texto
  import opened Validadores
  import opened ConsultorioDao

  /** `validar_telefono`: `re.match` on `None` raises `TypeError`, modelled
      as the result None; otherwise the DAO's pattern. */
  function ValidarTelefono(telefono: Option<string>): (r: Option<bool>)
    ensures r.None? <==> telefono.None?
    ensures r == Some(true) <==> telefono.Some? && PatronTelefono(telefono.value)
    ensures telefono.Some? && telefono.value != [] ==> r == Some(EsTelefonoParaguayoValido(telefono))
  {
    if telefono.None? then None
    else Some(PatronTelefono(telefono.value))
  }

  /** The outcome of `validar_datos_consultorio`: `(True, None)`,
      `(False, message of the failed field)`, or the `TypeError` raised on
      the way. */
  datatype Validacion = Valida | Invalida(campo: Campo) | ErrorDeTipo

  /** `validar_datos_consultorio` as written: an empty phone normalises to
      None and reaches `validar_telefono`, which raises. */
  function ValidarDatosConsultorio(nombre: string, direccion: string, telefono: string, correo: string)
    : (r: Validacion)
    ensures r == ErrorDeTipo <==>
      telefono == [] && |Strip(nombre)| >= 3 && |Strip(direccion)| >= 5 && EsCorreoValido(correo)
    ensures r != ErrorDeTipo ==>
      (r == Valida <==> ValidarCampos(nombre, direccion, telefono, correo) == None)
    ensures r.Invalida? ==> ValidarCampos(nombre, direccion, telefono, correo) == Some(r.campo)
  {
    if |Strip(nombre)| < 3 then Invalida(Nombre)
    else if |Strip(direccion)| < 5 then Invalida(Direccion)
    else if correo == [] || !EsCorreoValido(correo) then Invalida(Correo)
    else
      match ValidarTelefono(NormalizarTelefono(telefono))
      case None => ErrorDeTipo
      case Some(ok) => if ok then Valida else Invalida(Telefono)
  }

  /** The discrepancy: once name, address and e-mail pass, an empty phone
      raises instead of being reported. */
  lemma TelefonoVacioLanza(nombre: string, direccion: string, correo: string)
    requires |Strip(nombre)| >= 3 && |Strip(direccion)| >= 5 && EsCorreoValido(correo)
    ensures ValidarDatosConsultorio(nombre, direccion, [], correo) == ErrorDeTipo
  {
  }

  /** A concrete request that shows it. */
  lemma EjemploTelefonoVacio(nombre: string, direccion: string, correo: string)
    requires nombre == "Sede" && direccion == "Calle 1" && correo == "info@consultorio.com"
    ensures ValidarDatosConsultorio(nombre, direccion, [], correo) == ErrorDeTipo
  {
    assert |Strip(nombre)| >= 3 by { LargoSinBordes(nombre); }
    assert |Strip(direccion)| >= 5 by { LargoSinBordes(direccion); }
    assert EsCorreoValido(correo) by { EjemploCorreo(correo); }
    TelefonoVacioLanza(nombre, direccion, correo);
  }

  lemma LargoSinBordes(s: string)
    requires s == "Sede" || s == "Calle 1"
    ensures |Strip(s)| == |s|
  {
    StripFijo(s);
  }

  /** `validar_datos_consultorio` as evidently intended: a missing phone is
      an invalid phone, as in the DAO's `_esTelefonoParaguayoValido`. */
  function ValidarDatosConsultorioCorregido(nombre: string, direccion: string, telefono: string, correo: string)
    : (r: Validacion)
    ensures r != ErrorDeTipo
  {
    if |Strip(nombre)| < 3 then Invalida(Nombre)
    else if |Strip(direccion)| < 5 then Invalida(Direccion)
    else if correo == [] || !EsCorreoValido(correo) then Invalida(Correo)
    else if !EsTelefonoParaguayoValido(NormalizarTelefono(telefono)) then Invalida(Telefono)
    else Valida
  }

  /** The corrected API check and the DAO's validation sequence agree on
      every input: `(True, None)` exactly when the DAO raises nothing, and
      otherwise the same first failing field. */
  lemma CorregidoComoDao(nombre: string, direccion: string, telefono: string, correo: string)
    ensures ValidarDatosConsultorioCorregido(nombre, direccion, telefono, correo) == Valida
            <==> ValidarCampos(nombre, direccion, telefono, correo) == None
    ensures forall c ::
      (ValidarDatosConsultorioCorregido(nombre, direccion, telefono, correo) == Invalida(c)
       <==> ValidarCampos(nombre, direccion, telefono, correo) == Some(c))
  {
  }

  /** Apart from the empty phone the as-written check is the corrected one. */
  lemma CorregidoSoloCambiaVacio(nombre: string, direccion: string, telefono: string, correo: string)
    requires telefono != []
    ensures ValidarDatosConsultorio(nombre, direccion, telefono, correo)
            == ValidarDatosConsultorioCorregido(nombre, direccion, telefono, correo)
  {
  }

  /** The endpoints normalise the phone once here and the DAO normalises it
      again. A number the API accepted survives the second pass: it stays
      valid and loses at most the one trailing newline the pattern let
      through. */
  lemma DobleNormalizacion(telefono: string)
    requires EsTelefonoParaguayoValido(NormalizarTelefono(telefono))
    ensures var n := NormalizarTelefono(telefono).value;
      && EsTelefonoParaguayoValido(NormalizarTelefono(n))
      && (NormalizarTelefono(n) == Some(n) || NormalizarTelefono(n) == Some(n[..|n| - 1]))
  {
    var n := NormalizarTelefono(telefono).value;
    if Patron595(n) {
      assert EsDigito(n[|n| - 1]);
      NormalizarIdempotente(telefono);
    } else {
      var m := n[..|n| - 1];
      assert Patron595(m);
      assert m[0] == '5' by { assert m[..3][0] == m[0]; }
      assert EsDigito(m[|m| - 1]);
      SinNuevaLinea(n);
      Limpio(m);
      assert m[..1] != "+" && m[..1] != "0" by { assert m[..1][0] == '5'; }
      assert m[..3] == n[..3];
    }
  }

  /** Stripping a valid number with one trailing newline drops the newline. */
  lemma SinNuevaLinea(n: string)
    requires |n| > 1 && n[|n| - 1] == '\n' && Patron595(n[..|n| - 1])
    ensures Strip(n) == n[..|n| - 1]
  {
    var m := n[..|n| - 1];
    assert !EsEspacio(n[0]) by { assert n[0] == m[0] && m[..3] == "595"; assert m[..3][0] == m[0]; }
    assert QuitarInicio(n) == n;
    assert QuitarFinal(n) == QuitarFinal(m);
    assert EsDigito(m[|m| - 1]);
    assert QuitarFinal(m) == m;
  }
}
