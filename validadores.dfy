/** The validators the office DAO and the office API share: the phone
    normaliser `_normalizarTelefono` (repeated in the API as
    `normalizar_telefono`), the Paraguayan phone pattern and the e-mail
    pattern (repeated in the API as `validar_correo`). */
module Validadores {
  import opened Rows
  import opened Texto

  // ---------------------------------------------------------------------
  // Phone numbers

  /** `_normalizarTelefono`: strip, drop every space and '-', drop one
      leading '+', turn a leading '0' into "595", otherwise prefix "595"
      unless already there. Empty input gives None. */
  function NormalizarTelefono(telefono: string): (r: Option<string>)
    ensures r.None? <==> telefono == []
    ensures r.Some? ==> StartsWith(r.value, "595")
    ensures r.Some? ==> ' ' !in r.value && '-' !in r.value
  {
    if telefono == [] then None
    else
      var limpio := Limpiar(telefono);
      var sinMas := if StartsWith(limpio, "+") then limpio[1..] else limpio;
      assert forall x :: x in sinMas ==> x in limpio;
      if StartsWith(sinMas, "0") then
        assert forall x :: x in sinMas[1..] ==> x in sinMas;
        Some("595" + sinMas[1..])
      else if !StartsWith(sinMas, "595") then Some("595" + sinMas)
      else Some(sinMas)
  }

  /** The cleaning steps: strip, drop the spaces and the dashes. */
  function Limpiar(s: string): (r: string)
  {
    Quitar(Quitar(Strip(s), ' '), '-')
  }

  /** A cleaned number with a leading '0' becomes "595" and the rest. */
  lemma NormalizarCero(s: string, u: string)
    requires Limpiar(s) == u && u != [] && u[0] == '0'
    ensures NormalizarTelefono(s) == Some("595" + u[1..])
  {
    assert s != [];
    assert u[..1] != "+" && u[..1] == "0" by { assert u[..1][0] == u[0]; }
  }



  /** A cleaned number already starting with "595" is kept as it is. */
  lemma NormalizarConPrefijo(s: string, u: string)
    requires s != [] && Limpiar(s) == u && |u| >= 3 && u[..3] == "595"
    ensures NormalizarTelefono(s) == Some(u)
  {
    assert u[..1] != "+" && u[..1] != "0" by { assert u[..1][0] == u[..3][0]; }
  }

  /** A number with no whitespace at its ends and no ' ' or '-' inside
      passes the cleaning steps unchanged. */
  lemma Limpio(s: string)
    requires s != [] && !EsEspacio(s[0]) && !EsEspacio(s[|s| - 1])
    requires ' ' !in s && '-' !in s
    ensures Limpiar(s) == s
  {
    StripFijo(s);
    QuitarAusente(s, ' ');
    QuitarAusente(s, '-');
  }

  /** The result depends on the input only through its cleaned form. */
  lemma SoloCuentaLimpio(s: string)
    requires s != [] && Limpiar(s) != []
    requires !EsEspacio(Limpiar(s)[0]) && !EsEspacio(Limpiar(s)[|Limpiar(s)| - 1])
    ensures NormalizarTelefono(s) == NormalizarTelefono(Limpiar(s))
  {
    Limpio(Limpiar(s));
  }

  /** Normalising a normalised number changes nothing, provided it does not
      end in whitespace. */
  lemma NormalizarIdempotente(telefono: string)
    requires NormalizarTelefono(telefono).Some?
    requires var n := NormalizarTelefono(telefono).value; !EsEspacio(n[|n| - 1])
    ensures NormalizarTelefono(NormalizarTelefono(telefono).value) == NormalizarTelefono(telefono)
  {
    var n := NormalizarTelefono(telefono).value;
    Limpio(n);
    assert n[..1] != "+" && n[..1] != "0" by { assert n[..1][0] == '5'; }
  }
  /** Without that proviso it fails: whitespace the first strip could not
      reach, because a '-' followed it, is stripped by the second pass.
      "0981\n-" is one such input: it gives "595981\n", and that gives
      "595981". */
  lemma NormalizarNoIdempotente(d: string, w: char)
    requires forall i :: 0 <= i < |d| ==> EsDigito(d[i])
    requires EsEspacio(w) && w != ' '
    ensures NormalizarTelefono("0" + d + [w] + "-") == Some("595" + d + [w])
    ensures NormalizarTelefono("595" + d + [w]) == Some("595" + d)
  {
    assert NormalizarTelefono("0" + d + [w] + "-") == Some("595" + d + [w]) by { PrimeraPasada(d, w); }
    assert NormalizarTelefono("595" + d + [w]) == Some("595" + d) by { SegundaPasada(d, w); }
  }

  /** The first pass: only the '-' goes, then the '0' becomes "595". */
  lemma PrimeraPasada(d: string, w: char)
    requires forall i :: 0 <= i < |d| ==> EsDigito(d[i])
    requires EsEspacio(w) && w != ' '
    ensures NormalizarTelefono("0" + d + [w] + "-") == Some("595" + d + [w])
  {
    GuionFinal(d, w);
    ColaDeCero(d, w);
    NormalizarCero("0" + d + [w] + "-", "0" + d + [w]);
  }

  lemma ColaDeCero(d: string, w: char)
    ensures ("0" + d + [w])[0] == '0' && ("0" + d + [w])[1..] == d + [w]
    ensures "595" + (d + [w]) == "595" + d + [w]
  {
    assert ("0" + d + [w])[1..] == d + [w];
  }


  /** The second pass: the strip drops `w`, and the "595" stays. */
  lemma SegundaPasada(d: string, w: char)
    requires forall i :: 0 <= i < |d| ==> EsDigito(d[i])
    requires EsEspacio(w) && w != ' '
    ensures NormalizarTelefono("595" + d + [w]) == Some("595" + d)
  {
    BlancoFinal(d, w);
    PrefijoDe(d);
    NormalizarConPrefijo("595" + d + [w], "595" + d);
  }

  lemma PrefijoDe(d: string)
    ensures ("595" + d)[..3] == "595"
  {
  }


  /** The cleaning steps, one at a time. */
  lemma LimpiarPasos(s: string, sinBordes: string, sinBlancos: string, limpio: string)
    requires Strip(s) == sinBordes && Quitar(sinBordes, ' ') == sinBlancos && Quitar(sinBlancos, '-') == limpio
    ensures Limpiar(s) == limpio
  {
  }

  /** No digit string contains a non-digit. */
  lemma SinCaracter(d: string, c: char)
    requires forall i :: 0 <= i < |d| ==> EsDigito(d[i])
    requires !EsDigito(c)
    ensures c !in d
  {
  }

  lemma GuionFinal(d: string, w: char)
    requires forall i :: 0 <= i < |d| ==> EsDigito(d[i])
    requires EsEspacio(w) && w != ' '
    ensures Limpiar("0" + d + [w] + "-") == "0" + d + [w]
  {
    FormaPrimera(d, w);
    StripFijo("0" + d + [w] + "-");
    QuitarAusente("0" + d + [w] + "-", ' ');
    QuitarUltimo("0" + d + [w], '-');
    LimpiarPasos("0" + d + [w] + "-", "0" + d + [w] + "-", "0" + d + [w] + "-", "0" + d + [w]);
  }

  /** The characters of the first-pass input that the cleaning looks at. */
  lemma FormaPrimera(d: string, w: char)
    requires forall i :: 0 <= i < |d| ==> EsDigito(d[i])
    requires EsEspacio(w) && w != ' '
    ensures var s := "0" + d + [w] + "-";
      ' ' !in s && '-' !in "0" + d + [w] && s[0] == '0' && s[|s| - 1] == '-'
  {
    SinCaracter(d, ' ');
    SinCaracter(d, '-');
  }

  /** Dropping `c` from a `c`-free string followed by one `c`. */
  lemma QuitarUltimo(u: string, c: char)
    requires c !in u
    ensures Quitar(u + [c], c) == u
  {
    QuitarConcat(u, [c], c);
    QuitarAusente(u, c);
  }


  lemma BlancoFinal(d: string, w: char)
    requires forall i :: 0 <= i < |d| ==> EsDigito(d[i])
    requires EsEspacio(w) && w != ' '
    ensures Limpiar("595" + d + [w]) == "595" + d
  {
    FormaSegunda(d);
    StripBlancoFinal("595" + d, w);
    QuitarAusente("595" + d, ' ');
    QuitarAusente("595" + d, '-');
    LimpiarPasos("595" + d + [w], "595" + d, "595" + d, "595" + d);
  }

  /** The characters of the second-pass input that the cleaning looks at. */
  lemma FormaSegunda(d: string)
    requires forall i :: 0 <= i < |d| ==> EsDigito(d[i])
    ensures var v := "595" + d;
      ' ' !in v && '-' !in v && v[0] == '5' && !EsEspacio(v[|v| - 1])
  {
    SinCaracter(d, ' ');
    SinCaracter(d, '-');
    var v := "595" + d;
    if d != [] {
      assert v[|v| - 1] == d[|d| - 1];
    }
  }


  /** Stripping a string with clean ends plus one trailing whitespace
      character drops just that character. */
  lemma StripBlancoFinal(v: string, w: char)
    requires v != [] && !EsEspacio(v[0]) && !EsEspacio(v[|v| - 1]) && EsEspacio(w)
    ensures Strip(v + [w]) == v
  {
    var t := v + [w];
    assert QuitarInicio(t) == t;
    assert t[..|t| - 1] == v;
    assert QuitarFinal(v) == v;
  }



  /** The regex `^595\d{8,9}$` without the trailing-newline allowance. */
  predicate Patron595(s: string)
  {
    (|s| == 11 || |s| == 12) && StartsWith(s, "595") && forall i :: 3 <= i < |s| ==> EsDigito(s[i])
  }

  /** `re.match(r'^595\d{8,9}$', s)`: Python's `$` also matches just before
      one final newline. */
  predicate PatronTelefono(s: string)
  {
    Patron595(s) || (|s| > 0 && s[|s| - 1] == '\n' && Patron595(s[..|s| - 1]))
  }

  /** `_esTelefonoParaguayoValido`: a falsy value is invalid. */
  predicate EsTelefonoParaguayoValido(telefono: Option<string>)
  {
    telefono.Some? && telefono.value != [] && PatronTelefono(telefono.value)
  }

  /** A local number "0" + 8 or 9 digits normalises to "595" and the same
      digits, which is a valid phone. */
  lemma LocalValido(s: string)
    requires (|s| == 9 || |s| == 10) && s[0] == '0'
    requires forall i :: 1 <= i < |s| ==> EsDigito(s[i])
    ensures NormalizarTelefono(s) == Some("595" + s[1..])
    ensures EsTelefonoParaguayoValido(NormalizarTelefono(s))
  {
    assert Limpiar(s) == s by { LocalLimpio(s); }
    assert NormalizarTelefono(s) == Some("595" + s[1..]) by { NormalizarCero(s, s); }
    assert Patron595("595" + s[1..]) by { PrefijoYDigitos(s[1..]); }
  }

  /** "0" and digits pass the cleaning steps unchanged. */
  lemma LocalLimpio(s: string)
    requires s != [] && s[0] == '0'
    requires forall i :: 1 <= i < |s| ==> EsDigito(s[i])
    ensures Limpiar(s) == s
  {
    assert forall i :: 0 <= i < |s| ==> EsDigito(s[i]);
    assert ' ' !in s && '-' !in s;
    Limpio(s);
  }



  /** "595" followed by 8 or 9 digits matches the pattern. */
  lemma PrefijoYDigitos(digitos: string)
    requires |digitos| == 8 || |digitos| == 9
    requires forall i :: 0 <= i < |digitos| ==> EsDigito(digitos[i])
    ensures Patron595("595" + digitos)
  {
    var r := "595" + digitos;
    forall i | 3 <= i < |r|
      ensures EsDigito(r[i])
    {
      assert r[i] == digitos[i - 3];
    }
    assert r[..3] == "595";
  }

  /** What the validator accepts, apart from the trailing newline, is
      exactly "595" followed by 8 or 9 digits. */
  lemma ValidoSiPatron(s: string)
    requires s == [] || s[|s| - 1] != '\n'
    ensures EsTelefonoParaguayoValido(Some(s)) <==>
      exists resto :: s == "595" + resto && (|resto| == 8 || |resto| == 9)
                      && forall i :: 0 <= i < |resto| ==> EsDigito(resto[i])
  {
    if EsTelefonoParaguayoValido(Some(s)) {
      var resto := s[3..];
      assert s == "595" + resto;
      forall i | 0 <= i < |resto|
        ensures EsDigito(resto[i])
      {
        assert resto[i] == s[i + 3];
      }
    }
    if exists resto :: s == "595" + resto && (|resto| == 8 || |resto| == 9)
                       && forall i :: 0 <= i < |resto| ==> EsDigito(resto[i]) {
      var resto :| s == "595" + resto && (|resto| == 8 || |resto| == 9)
                   && forall i :: 0 <= i < |resto| ==> EsDigito(resto[i]);
      forall i | 3 <= i < |s|
        ensures EsDigito(s[i])
      {
        assert s[i] == resto[i - 3];
      }
    }
  }

  // ---------------------------------------------------------------------
  // E-mail

  /** `[\w\.-]+`: non-empty, every character a word character, '.' or '-'. */
  predicate ClaseLocal(s: string)
  {
    |s| > 0 && forall i :: 0 <= i < |s| ==> EsPalabra(s[i]) || s[i] == '.' || s[i] == '-'
  }

  /** `\w+`. */
  predicate ClasePalabra(s: string)
  {
    |s| > 0 && forall i :: 0 <= i < |s| ==> EsPalabra(s[i])
  }

  /** An '@' at `i` and a '.' at `j` split `s` into the three classes of
      `[\w\.-]+@[\w\.-]+\.\w+`. */
  predicate Partido(s: string, i: int, j: int)
  {
    0 <= i < j < |s| && s[i] == '@' && s[j] == '.'
      && ClaseLocal(s[..i]) && ClaseLocal(s[i + 1..j]) && ClasePalabra(s[j + 1..])
  }

  /** The pattern matches all of `s`. */
  predicate Patron(s: string)
  {
    exists i, j :: 0 <= i < j < |s| && Partido(s, i, j)
  }

  /** `_esCorreoValido`, with Python's `$` allowance for one final newline.
      The empty string is falsy and invalid, which the pattern implies. */
  predicate EsCorreoValido(correo: string)
  {
    Patron(correo) || (|correo| > 0 && correo[|correo| - 1] == '\n' && Patron(correo[..|correo| - 1]))
  }

  lemma ArrobaUnica(s: string, i: int, j: int)
    requires Partido(s, i, j)
    ensures forall k :: 0 <= k < |s| && s[k] == '@' ==> k == i
  {
    forall k | 0 <= k < |s| && k != i
      ensures s[k] != '@'
    {
      if k < i {
        assert s[..i][k] == s[k];
      } else if k < j {
        assert s[i + 1..j][k - i - 1] == s[k];
      } else if k > j {
        assert s[j + 1..][k - j - 1] == s[k];
      }
    }
  }

  /** A valid address holds exactly one '@'. */
  lemma CorreoUnaArroba(correo: string) returns (i: int)
    requires EsCorreoValido(correo)
    ensures 0 <= i < |correo| && correo[i] == '@'
    ensures forall k :: 0 <= k < |correo| && correo[k] == '@' ==> k == i
  {
    var s := if Patron(correo) then correo else correo[..|correo| - 1];
    var j :| exists jj :: 0 <= j < jj < |s| && Partido(s, j, jj);
    var jj :| Partido(s, j, jj);
    ArrobaUnica(s, j, jj);
    i := j;
    forall k | 0 <= k < |correo| && correo[k] == '@'
      ensures k == i
    {
      if k < |s| {
        assert s[k] == correo[k];
      }
    }
  }
}
