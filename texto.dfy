/** The few Python string operations the consultorio validators use:
    `str.strip()`, `str.replace(c, "")`, `str.startswith`, the regex
    classes `\d` and `\w`, and SQL `UPPER`, all over ASCII. */
module Texto {

  /** `str.isspace()` on ASCII: space, \t \n \x0b \x0c \r and \x1c-\x1f. */
  predicate EsEspacio(c: char)
  {
    c == ' ' || ('\t' <= c <= '\r') || ('\U{1C}' <= c <= '\U{1F}')
  }

  function QuitarInicio(s: string): (r: string)
    ensures |r| <= |s| && r == s[|s| - |r|..]
    ensures r == [] || !EsEspacio(r[0])
    ensures forall i :: 0 <= i < |s| - |r| ==> EsEspacio(s[i])
  {
    if s != [] && EsEspacio(s[0]) then
      var r := QuitarInicio(s[1..]);
      assert s[1..][|s| - 1 - |r|..] == s[|s| - |r|..];
      assert forall i :: 1 <= i < |s| ==> s[1..][i - 1] == s[i];
      r
    else s
  }

  function QuitarFinal(s: string): (r: string)
    ensures |r| <= |s| && r == s[..|r|]
    ensures r == [] || !EsEspacio(r[|r| - 1])
    ensures forall i :: |r| <= i < |s| ==> EsEspacio(s[i])
  {
    if s != [] && EsEspacio(s[|s| - 1]) then
      var r := QuitarFinal(s[..|s| - 1]);
      assert s[..|s| - 1][..|r|] == s[..|r|];
      r
    else s
  }

  /** `str.strip()`: drop whitespace at both ends. */
  function Strip(s: string): (r: string)
    ensures |r| <= |s|
    ensures r == [] || (!EsEspacio(r[0]) && !EsEspacio(r[|r| - 1]))
  {
    QuitarFinal(QuitarInicio(s))
  }

  /** A string with no whitespace at either end is its own strip. */
  lemma StripFijo(s: string)
    requires s == [] || (!EsEspacio(s[0]) && !EsEspacio(s[|s| - 1]))
    ensures Strip(s) == s
  {
  }

  /** `str.replace(c, "")`: drop every occurrence of `c`, keep the rest in order. */
  function Quitar(s: string, c: char): (r: string)
    ensures |r| <= |s|
    ensures forall x :: x in r <==> x in s && x != c
  {
    if s == [] then []
    else if s[0] == c then Quitar(s[1..], c)
    else [s[0]] + Quitar(s[1..], c)
  }

  /** A string without `c` is left alone. */
  lemma {:induction false} QuitarAusente(s: string, c: char)
    requires c !in s
    ensures Quitar(s, c) == s
  {
    if s != [] {
      assert c !in s[1..];
      QuitarAusente(s[1..], c);
    }
  }

  /** `replace` distributes over concatenation. */
  lemma {:induction false} QuitarConcat(a: string, b: string, c: char)
    ensures Quitar(a + b, c) == Quitar(a, c) + Quitar(b, c)
  {
    if a == [] {
      assert a + b == b;
    } else {
      assert (a + b)[0] == a[0];
      assert (a + b)[1..] == a[1..] + b;
      QuitarConcat(a[1..], b, c);
    }
  }

  /** Dropping `x` from two `x`-separated joints leaves the three parts. */
  lemma QuitarSeparadores(a: string, b: string, c: string, x: char)
    requires x !in a && x !in b && x !in c
    ensures Quitar(a + [x] + b + [x] + c, x) == a + b + c
  {
    assert Quitar([x], x) == [];
    assert Quitar(a + [x], x) == a by { QuitarConcat(a, [x], x); QuitarAusente(a, x); }
    assert Quitar(a + [x] + b, x) == a + b by { QuitarConcat(a + [x], b, x); QuitarAusente(b, x); }
    assert Quitar(a + [x] + b + [x], x) == a + b by { QuitarConcat(a + [x] + b, [x], x); }
    assert Quitar(a + [x] + b + [x] + c, x) == a + b + c by {
      QuitarConcat(a + [x] + b + [x], c, x);
      QuitarAusente(c, x);
    }
  }


  predicate StartsWith(s: string, prefijo: string)
  {
    |prefijo| <= |s| && s[..|prefijo|] == prefijo
  }

  /** `\d` on ASCII. */
  predicate EsDigito(c: char)
  {
    '0' <= c <= '9'
  }

  /** `\w` on ASCII: letters, digits and underscore. */
  predicate EsPalabra(c: char)
  {
    ('a' <= c <= 'z') || ('A' <= c <= 'Z') || EsDigito(c) || c == '_'
  }

  /** SQL `UPPER` on ASCII letters. */
  function Upper(s: string): (r: string)
    ensures |r| == |s|
    ensures forall i :: 0 <= i < |s| ==>
      r[i] == (if 'a' <= s[i] <= 'z' then (s[i] as int - 32) as char else s[i])
  {
    seq(|s|, i requires 0 <= i < |s| => if 'a' <= s[i] <= 'z' then (s[i] as int - 32) as char else s[i])
  }
}
