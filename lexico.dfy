/** The single-pass scanner: one token per call, with line/column bookkeeping.
    `Siguiente` is the specification of one call of `ObtenerSiguienteToken`;
    the class `AnalizadorLexico` is the scanner itself, proved to follow it. */
module Lexico {
  import opened Numeros
  import opened Tokens
  import opened Simbolos

  // ---------------------------------------------------------------------------
  // Character classes

  /** `char.IsWhiteSpace`: the ASCII controls \t..\r, the space separators and U+0085, U+2028, U+2029. */
  predicate IsWhiteSpace(c: char) {
    c == ' ' || ('\t' <= c <= '\r') || c == '\U{85}' || c == '\U{A0}' || c == '\U{1680}'
    || ('\U{2000}' <= c <= '\U{200A}') || c == '\U{2028}' || c == '\U{2029}'
    || c == '\U{202F}' || c == '\U{205F}' || c == '\U{3000}'
  }

  /** `char.IsLetter`, restricted to ASCII letters. */
  predicate IsLetter(c: char) {
    'a' <= c <= 'z' || 'A' <= c <= 'Z'
  }

  /** A character that may continue an identifier: letter, digit or '_'. */
  predicate IsIdentChar(c: char) {
    IsLetter(c) || IsDigit(c) || c == '_'
  }

  /** The single-character delimiters `(){}[];.,:`. */
  predicate IsDelimitador(c: char) {
    c in "(){}[];.,:"
  }

  // The single-character operators: = + - * and slash.
  predicate IsOperador(c: char) {
    c in "=+-*/"
  }

  // ---------------------------------------------------------------------------
  // Reserved words

  const Reservadas: seq<string> :=
    ["if", "else", "while", "for", "class", "public", "private", "void", "int", "string", "decimal"]

  function ToUpperAscii(c: char): char {
    if 'a' <= c <= 'z' then (c as int - 32) as char else c
  }

  function ToLowerAscii(c: char): char {
    if 'A' <= c <= 'Z' then (c as int + 32) as char else c
  }

  /** `ToLowerInvariant` on ASCII text: the same letters ignoring case, and none upper-case. */
  function ToLower(s: string): (r: string)
    ensures |r| == |s| && EqualsIgnoreCase(r, s)
    ensures forall i :: 0 <= i < |r| ==> !('A' <= r[i] <= 'Z')
  {
    seq(|s|, i requires 0 <= i < |s| => ToLowerAscii(s[i]))
  }

  /** Lower-casing twice is lower-casing once. */
  lemma ToLowerIdempotent(s: string)
    ensures ToLower(ToLower(s)) == ToLower(s)
  {
  }

  /** `StringComparison.OrdinalIgnoreCase` on ASCII text. */
  predicate EqualsIgnoreCase(a: string, b: string) {
    |a| == |b| && forall i :: 0 <= i < |a| ==> ToUpperAscii(a[i]) == ToUpperAscii(b[i])
  }

  /** `EsPalabraReservada`: the lexeme equals one of the eleven words, ignoring case. */
  predicate EsPalabraReservada(lexema: string)
    ensures EsPalabraReservada(lexema) ==> 2 <= |lexema| <= 7
    ensures EsPalabraReservada(lexema) ==> forall i :: 0 <= i < |lexema| ==> IsLetter(lexema[i])
  {
    exists k :: 0 <= k < |Reservadas| && EqualsIgnoreCase(Reservadas[k], lexema)
  }

  lemma EqualsIgnoreCaseIsLowerEquality(a: string, b: string)
    requires forall i :: 0 <= i < |a| ==> 'a' <= a[i] <= 'z'
    ensures EqualsIgnoreCase(a, b) <==> a == ToLower(b)
  {
    if EqualsIgnoreCase(a, b) {
      forall i | 0 <= i < |a| ensures a[i] == ToLower(b)[i] {
        assert ToUpperAscii(a[i]) == ToUpperAscii(b[i]);
      }
    }
  }

  /** A lexeme is reserved exactly when its lower-case form is one of the eleven words. */
  lemma EsPalabraReservadaIffLower(lexema: string)
    ensures EsPalabraReservada(lexema) <==> ToLower(lexema) in Reservadas
  {
    forall k | 0 <= k < |Reservadas|
      ensures EqualsIgnoreCase(Reservadas[k], lexema) <==> Reservadas[k] == ToLower(lexema)
    {
      EqualsIgnoreCaseIsLowerEquality(Reservadas[k], lexema);
    }
  }

  /** "using", "namespace" and "DateTime" are not in the reserved set, whatever the case. */
  lemma NoReservadasDelParser()
    ensures !EsPalabraReservada("using")
    ensures !EsPalabraReservada("namespace")
    ensures !EsPalabraReservada("DateTime")
  {
    EsPalabraReservadaIffLower("using");
    assert ToLower("using") == "using";
    EsPalabraReservadaIffLower("namespace");
    assert ToLower("namespace") == "namespace";
    EsPalabraReservadaIffLower("DateTime");
    assert ToLower("DateTime") == "datetime";
  }

  // ---------------------------------------------------------------------------
  // One call of the scanner, as a function of the text and the cursor

  /** The scanner's position: index into the text, 1-based line and column. */
  datatype Cursor = Cursor(indice: nat, linea: int, columna: int)

  const Inicio := Cursor(0, 1, 1)

  /** The whitespace loop: '\n' starts the next line at column 1, other whitespace moves one column. */
  function SaltarEspacios(s: string, c: Cursor): (r: Cursor)
    requires c.indice <= |s|
    ensures c.indice <= r.indice <= |s|
    ensures r.indice == |s| || !IsWhiteSpace(s[r.indice])
    ensures forall k :: c.indice <= k < r.indice ==> IsWhiteSpace(s[k])
    decreases |s| - c.indice
  {
    if c.indice < |s| && IsWhiteSpace(s[c.indice]) then
      var sig :=
        if s[c.indice] == '\n' then Cursor(c.indice + 1, c.linea + 1, 1)
        else Cursor(c.indice + 1, c.linea, c.columna + 1);
      SaltarEspacios(s, sig)
    else
      c
  }

  /** End of the maximal run of identifier characters starting at `i`. */
  function FinIdentificador(s: string, i: nat): (e: nat)
    requires i <= |s|
    ensures i <= e <= |s|
    ensures forall k :: i <= k < e ==> IsIdentChar(s[k])
    ensures e == |s| || !IsIdentChar(s[e])
    decreases |s| - i
  {
    if i < |s| && IsIdentChar(s[i]) then FinIdentificador(s, i + 1) else i
  }

  /** End of the maximal run of digits starting at `i`. */
  function FinNumero(s: string, i: nat): (e: nat)
    requires i <= |s|
    ensures i <= e <= |s|
    ensures forall k :: i <= k < e ==> IsDigit(s[k])
    ensures e == |s| || !IsDigit(s[e])
    decreases |s| - i
  {
    if i < |s| && IsDigit(s[i]) then FinNumero(s, i + 1) else i
  }

  /** Index of the quote closing a string body that starts at `i`, or `|s|` when there is none.
      A backslash makes the following character part of the body. */
  function FinCadena(s: string, i: nat): (e: nat)
    requires i <= |s|
    ensures i <= e <= |s|
    ensures e < |s| ==> s[e] == '"'
    ensures e > i ==> s[i] != '"'
    decreases |s| - i
  {
    if i < |s| && s[i] != '"' then
      if s[i] == '\\' && i + 1 < |s| then FinCadena(s, i + 2) else FinCadena(s, i + 1)
    else
      i
  }

  /** `s[i..e]` is a string body: a run of units, each a character other than a quote or a
      backslash, a backslash with the character after it, or a backslash that ends the text. */
  predicate CuerpoCadena(s: string, i: nat, e: nat)
    requires i <= e <= |s|
    decreases e - i
  {
    || i == e
    || (s[i] != '"' && s[i] != '\\' && CuerpoCadena(s, i + 1, e))
    || (s[i] == '\\' && i + 2 <= e && CuerpoCadena(s, i + 2, e))
    || (s[i] == '\\' && i + 1 == e == |s|)
  }

  /** `FinCadena` stops at the first unescaped quote: what it skips is a string body, and the only
      string body from `i` that is followed by a quote is that one. */
  lemma {:induction false} FinCadenaPrimeraComilla(s: string, i: nat)
    requires i <= |s|
    ensures CuerpoCadena(s, i, FinCadena(s, i))
    ensures forall e :: i <= e < |s| && s[e] == '"' && CuerpoCadena(s, i, e) ==> e == FinCadena(s, i)
    decreases |s| - i
  {
    if i < |s| && s[i] != '"' {
      var j := if s[i] == '\\' && i + 1 < |s| then i + 2 else i + 1;
      FinCadenaPrimeraComilla(s, j);
      forall e | i <= e < |s| && s[e] == '"' && CuerpoCadena(s, i, e)
        ensures e == FinCadena(s, i)
      {
        assert e != i;
      }
    }
  }

  /** Category of a character that starts no identifier, number or string. */
  function TipoSimbolo(c: char): TokenType {
    if IsDelimitador(c) then Delimitador else if IsOperador(c) then Operador else Error
  }

  /** Classification of the lexeme that starts at `p`, a position that is not whitespace:
      the token and the cursor after it. */
  function Clasificar(s: string, p: Cursor): (r: (Token, Cursor))
    requires p.indice <= |s|
    ensures r.1.indice <= |s|
    ensures r.0.tipo == FinArchivo <==> p.indice == |s|
    ensures r.0.tipo == FinArchivo ==> r.1 == p
    ensures r.0.tipo != FinArchivo ==> p.indice < r.1.indice
  {
    var i := p.indice;
    if i == |s| then
      (Token(FinArchivo, "EOF", p.linea, p.columna), p)
    else if IsLetter(s[i]) || s[i] == '_' then
      var e := FinIdentificador(s, i);
      var lexema := s[i..e];
      var tipo := if EsPalabraReservada(lexema) then PalabraReservada else Identificador;
      (Token(tipo, lexema, p.linea, p.columna), Cursor(e, p.linea, p.columna + (e - i)))
    else if IsDigit(s[i]) then
      var e := FinNumero(s, i);
      (Token(Numero, s[i..e], p.linea, p.columna), Cursor(e, p.linea, p.columna + (e - i)))
    else if s[i] == '"' then
      var e := FinCadena(s, i + 1);
      if e < |s| then
        (Token(Cadena, s[i + 1..e], p.linea, p.columna), Cursor(e + 1, p.linea, p.columna + (e + 1 - i)))
      else
        (Token(Error, "Cadena no cerrada", p.linea, p.columna), Cursor(e, p.linea, p.columna + (e - i)))
    else
      (Token(TipoSimbolo(s[i]), [s[i]], p.linea, p.columna), Cursor(i + 1, p.linea, p.columna + 1))
  }

  /** What one call of `ObtenerSiguienteToken` returns, and the cursor it leaves behind:
      skip whitespace, then classify. */
  function Siguiente(s: string, c: Cursor): (r: (Token, Cursor))
    requires c.indice <= |s|
    ensures r.1.indice <= |s|
    ensures r.0.tipo == FinArchivo <==> SaltarEspacios(s, c).indice == |s|
    ensures r.0.tipo == FinArchivo ==> r.1 == SaltarEspacios(s, c)
    ensures r.0.tipo != FinArchivo ==> c.indice <= SaltarEspacios(s, c).indice < r.1.indice
  {
    Clasificar(s, SaltarEspacios(s, c))
  }

  /** The symbol table after the scanner returned `t`: identifiers are added, first entry wins. */
  function TablaTras(tabla: map<string, string>, t: Token): (r: map<string, string>)
    ensures r.Keys == if t.tipo == Identificador then tabla.Keys + {t.valor} else tabla.Keys
    ensures forall k :: k in tabla ==> r[k] == tabla[k]
    ensures t.tipo == Identificador && t.valor !in tabla ==> r[t.valor] == "Identificador"
  {
    if t.tipo == Identificador then Agregado(tabla, t.valor, "Identificador") else tabla
  }

  /** The tokens a caller collects by calling the scanner until it returns `FinArchivo`. */
  function TokensDesde(s: string, c: Cursor): (r: seq<Token>)
    requires c.indice <= |s|
    ensures |r| > 0 && r[|r| - 1].tipo == FinArchivo
    ensures forall k :: 0 <= k < |r| - 1 ==> r[k].tipo != FinArchivo
    decreases |s| - c.indice
  {
    var (t, q) := Siguiente(s, c);
    if t.tipo == FinArchivo then [t] else [t] + TokensDesde(s, q)
  }

  // ---------------------------------------------------------------------------
  // Properties of one call

  /** Skipping whitespace moves down one line per '\n' skipped. */
  lemma {:induction false} SaltarEspaciosLinea(s: string, c: Cursor)
    requires c.indice <= |s|
    ensures var r := SaltarEspacios(s, c);
      r.linea == c.linea + multiset(s[c.indice..r.indice])['\n']
    decreases |s| - c.indice
  {
    var r := SaltarEspacios(s, c);
    if c.indice < |s| && IsWhiteSpace(s[c.indice]) {
      var sig :=
        if s[c.indice] == '\n' then Cursor(c.indice + 1, c.linea + 1, 1)
        else Cursor(c.indice + 1, c.linea, c.columna + 1);
      assert SaltarEspacios(s, sig) == r;
      SaltarEspaciosLinea(s, sig);
      assert s[c.indice..r.indice] == [s[c.indice]] + s[c.indice + 1..r.indice];
      assert multiset(s[c.indice..r.indice]) == multiset([s[c.indice]]) + multiset(s[c.indice + 1..r.indice]);
    } else {
      assert s[c.indice..r.indice] == [];
    }
  }

  /** Skipping whitespace without a '\n' moves the column by the number of characters skipped. */
  lemma {:induction false} SaltarEspaciosColumna(s: string, c: Cursor)
    requires c.indice <= |s|
    ensures var r := SaltarEspacios(s, c);
      (forall k :: c.indice <= k < r.indice ==> s[k] != '\n') ==> r.columna == c.columna + (r.indice - c.indice)
    decreases |s| - c.indice
  {
    if c.indice < |s| && IsWhiteSpace(s[c.indice]) && s[c.indice] != '\n' {
      SaltarEspaciosColumna(s, Cursor(c.indice + 1, c.linea, c.columna + 1));
    }
  }

  /** After a '\n' is skipped, the column counts, from 1, the characters after the last one. */
  lemma {:induction false} SaltarEspaciosColumnaTrasSalto(s: string, c: Cursor, k: nat)
    requires c.indice <= |s|
    requires var r := SaltarEspacios(s, c);
      c.indice <= k < r.indice && s[k] == '\n' && forall j :: k < j < r.indice ==> s[j] != '\n'
    ensures SaltarEspacios(s, c).columna == SaltarEspacios(s, c).indice - k
    decreases |s| - c.indice
  {
    var r := SaltarEspacios(s, c);
    if s[c.indice] == '\n' {
      var sig := Cursor(c.indice + 1, c.linea + 1, 1);
      assert SaltarEspacios(s, sig) == r;
      if k == c.indice {
        SaltarEspaciosColumna(s, sig);
      } else {
        SaltarEspaciosColumnaTrasSalto(s, sig, k);
      }
    } else {
      var sig := Cursor(c.indice + 1, c.linea, c.columna + 1);
      assert SaltarEspacios(s, sig) == r;
      SaltarEspaciosColumnaTrasSalto(s, sig, k);
    }
  }

  /** Whitespace already skipped is skipped again to no effect. */
  lemma SiguienteTrasEspacios(s: string, c: Cursor)
    requires c.indice <= |s|
    ensures SaltarEspacios(s, SaltarEspacios(s, c)) == SaltarEspacios(s, c)
    ensures Siguiente(s, SaltarEspacios(s, c)) == Siguiente(s, c)
  {
  }

  /** At end of input the scanner returns `FinArchivo` "EOF" and stays put: calling it again
      returns the same token and the same cursor. */
  lemma FinArchivoEstable(s: string, c: Cursor)
    requires c.indice <= |s|
    requires Siguiente(s, c).0.tipo == FinArchivo
    ensures Siguiente(s, c).0.valor == "EOF"
    ensures Siguiente(s, Siguiente(s, c).1) == Siguiente(s, c)
  {
    var q := Siguiente(s, c).1;
    assert SaltarEspacios(s, q) == q;
  }

  /** Every token carries the position of its first character, and consuming it moves the
      column by exactly the number of characters consumed, on the same line. */
  lemma PosicionDelToken(s: string, c: Cursor)
    requires c.indice <= |s|
    ensures var p := SaltarEspacios(s, c);
      var (t, q) := Siguiente(s, c);
      && t.linea == p.linea && t.columna == p.columna
      && q.linea == p.linea && q.columna == p.columna + (q.indice - p.indice)
  {
  }

  /** A letter or '_' starts a maximal run of letters, digits and '_'; the run, case kept, is the
      value, and it is a reserved word exactly when it is one of the eleven ignoring case. */
  lemma ClasificaIdentificador(s: string, c: Cursor)
    requires c.indice <= |s|
    requires var i := SaltarEspacios(s, c).indice; i < |s| && (IsLetter(s[i]) || s[i] == '_')
    ensures var i := SaltarEspacios(s, c).indice;
      var (t, q) := Siguiente(s, c);
      && (t.tipo == PalabraReservada || t.tipo == Identificador)
      && t.valor == s[i..q.indice] && |t.valor| > 0
      && (forall k :: i <= k < q.indice ==> IsIdentChar(s[k]))
      && (q.indice == |s| || !IsIdentChar(s[q.indice]))
      && (t.tipo == PalabraReservada <==> ToLower(t.valor) in Reservadas)
  {
    var (t, q) := Siguiente(s, c);
    EsPalabraReservadaIffLower(t.valor);
  }

  /** A digit starts a maximal run of digits, returned as `Numero`; there is no decimal point. */
  lemma ClasificaNumero(s: string, c: Cursor)
    requires c.indice <= |s|
    requires var i := SaltarEspacios(s, c).indice; i < |s| && IsDigit(s[i])
    ensures var i := SaltarEspacios(s, c).indice;
      var (t, q) := Siguiente(s, c);
      && t.tipo == Numero && t.valor == s[i..q.indice] && |t.valor| > 0 && AllDigits(t.valor)
      && (q.indice == |s| || !IsDigit(s[q.indice]))
  {
  }

  /** A quote starts a string literal. Closed: the value is the raw text strictly between the
      quotes. Unclosed: an `Error` token "Cadena no cerrada" and the cursor at end of input. */
  lemma ClasificaCadena(s: string, c: Cursor)
    requires c.indice <= |s|
    requires var i := SaltarEspacios(s, c).indice; i < |s| && s[i] == '"'
    ensures var i := SaltarEspacios(s, c).indice;
      var (t, q) := Siguiente(s, c);
      && (t.tipo == Cadena || t.tipo == Error)
      && (t.tipo == Cadena ==> i + 2 <= q.indice && s[q.indice - 1] == '"' && t.valor == s[i + 1..q.indice - 1])
      && (t.tipo == Error ==> t.valor == "Cadena no cerrada" && q.indice == |s|)
    ensures var i := SaltarEspacios(s, c).indice;
      var (t, q) := Siguiente(s, c);
      var e := if t.tipo == Cadena then q.indice - 1 else |s|;
      && i + 1 <= e <= |s| && CuerpoCadena(s, i + 1, e)
      && (forall k :: i + 1 <= k < e && s[k] == '"' ==> !CuerpoCadena(s, i + 1, k))
      && (t.tipo == Error <==> forall k :: i + 1 <= k < |s| && s[k] == '"' ==> !CuerpoCadena(s, i + 1, k))
  {
    FinCadenaPrimeraComilla(s, SaltarEspacios(s, c).indice + 1);
  }

  /** A string body without backslashes ends at the first quote; without a quote it is unclosed. */
  lemma {:induction false} FinCadenaSinEscapes(s: string, i: nat, j: nat)
    requires i <= j <= |s|
    requires forall k :: i <= k < j ==> s[k] != '\\' && s[k] != '"'
    requires j == |s| || s[j] == '"'
    ensures FinCadena(s, i) == j
    decreases j - i
  {
    if i < j {
      FinCadenaSinEscapes(s, i + 1, j);
    }
  }

  /** Any other character is one token of one character: a delimiter, an operator or an error. */
  lemma ClasificaSimbolo(s: string, c: Cursor)
    requires c.indice <= |s|
    requires var i := SaltarEspacios(s, c).indice;
      i < |s| && !IsLetter(s[i]) && s[i] != '_' && !IsDigit(s[i]) && s[i] != '"'
    ensures var i := SaltarEspacios(s, c).indice;
      var (t, q) := Siguiente(s, c);
      && t.valor == [s[i]] && q.indice == i + 1
      && (t.tipo == Delimitador <==> IsDelimitador(s[i]))
      && (t.tipo == Operador <==> IsOperador(s[i]))
      && (t.tipo == Error <==> !IsDelimitador(s[i]) && !IsOperador(s[i]))
  {
  }

  /** A reserved-word token is always one of the eleven words; so the scanner never returns
      "using", "namespace" or "DateTime" as reserved words. */
  lemma ReservadaDelConjunto(s: string, c: Cursor)
    requires c.indice <= |s|
    ensures var t := Siguiente(s, c).0;
      t.tipo == PalabraReservada ==> ToLower(t.valor) in Reservadas
    ensures var t := Siguiente(s, c).0;
      t.tipo == PalabraReservada ==> t.valor != "using" && t.valor != "namespace" && t.valor != "DateTime"
  {
    var t := Siguiente(s, c).0;
    EsPalabraReservadaIffLower(t.valor);
    NoReservadasDelParser();
  }

  /** The value of a string token never starts with a quote. */
  lemma CadenaSinComillaInicial(s: string, c: Cursor)
    requires c.indice <= |s|
    ensures var t := Siguiente(s, c).0;
      t.tipo == Cadena && |t.valor| > 0 ==> t.valor[0] != '"'
  {
  }

  /** The symbol table only ever gains the value of a non-reserved identifier token, and only
      when that name was absent; no other entry changes. */
  lemma TablaSoloIdentificadores(s: string, c: Cursor, tabla: map<string, string>)
    requires c.indice <= |s|
    ensures var t := Siguiente(s, c).0;
      var r := TablaTras(tabla, t);
      && r.Keys == (if t.tipo == Identificador then tabla.Keys + {t.valor} else tabla.Keys)
      && (forall k :: k in tabla ==> r[k] == tabla[k])
      && (r != tabla ==> t.tipo == Identificador && !EsPalabraReservada(t.valor) && t.valor !in tabla
                          && r[t.valor] == "Identificador")
  {
  }

  /** A whole scan: one `FinArchivo` at the end, and no token is a reserved "namespace". */
  lemma {:induction false} TokensSinNamespace(s: string, c: Cursor)
    requires c.indice <= |s|
    ensures forall k :: 0 <= k < |TokensDesde(s, c)| ==>
      !(TokensDesde(s, c)[k].tipo == PalabraReservada && TokensDesde(s, c)[k].valor == "namespace")
    decreases |s| - c.indice
  {
    var (t, q) := Siguiente(s, c);
    ReservadaDelConjunto(s, c);
    if t.tipo != FinArchivo {
      TokensSinNamespace(s, q);
    }
  }

  // ---------------------------------------------------------------------------
  // Worked examples

  /** An unclosed string after two spaces: an error token at the opening quote's column,
      with the cursor at the end of the input. */
  lemma EjemploCadenaNoCerrada(s: string)
    requires s == "  \"abc"
    ensures Siguiente(s, Inicio) == (Token(Error, "Cadena no cerrada", 1, 3), Cursor(6, 1, 7))
  {
    assert |s| == 6 && s[0] == ' ' && s[1] == ' ' && s[2] == '"' && s[3] == 'a' && s[4] == 'b' && s[5] == 'c';
    assert SaltarEspacios(s, Cursor(2, 1, 3)) == Cursor(2, 1, 3);
    assert SaltarEspacios(s, Cursor(1, 1, 2)) == Cursor(2, 1, 3);
    assert SaltarEspacios(s, Inicio) == Cursor(2, 1, 3);
    FinCadenaSinEscapes(s, 3, 6);
  }

  /** An escaped quote stays in the raw value: the text `"a\"b"` gives the value `a\"b`. */
  lemma EjemploEscape()
    ensures Siguiente("\"a\\\"b\"", Inicio).0 == Token(Cadena, "a\\\"b", 1, 1)
  {
    var s := "\"a\\\"b\"";
    assert FinCadena(s, 5) == 5;
    assert FinCadena(s, 4) == 5;
    assert FinCadena(s, 2) == 5;
    assert FinCadena(s, 1) == 5;
  }

  // ---------------------------------------------------------------------------
  // The scanner object

  class AnalizadorLexico {
    const codigoFuente: string
    var indice: nat
    var linea: int
    var columna: int
    const tablaSimbolos: TablaSimbolos

    ghost predicate Valid()
      reads this
    {
      indice <= |codigoFuente|
    }

    function Posicion(): Cursor
      reads this
    {
      Cursor(indice, linea, columna)
    }

    constructor (codigo: string)
      ensures Valid() && codigoFuente == codigo && Posicion() == Inicio
      ensures fresh(tablaSimbolos) && tablaSimbolos.tabla == map[]
    {
      codigoFuente := codigo;
      indice, linea, columna := 0, 1, 1;
      tablaSimbolos := new TablaSimbolos();
    }

    /** Returns the next token and advances; adds unseen non-reserved identifiers to the table. */
    method ObtenerSiguienteToken() returns (token: Token)
      requires Valid()
      modifies this, tablaSimbolos
      ensures Valid()
      ensures (token, Posicion()) == Siguiente(codigoFuente, old(Posicion()))
      ensures tablaSimbolos.tabla == TablaTras(old(tablaSimbolos.tabla), token)
    {
      SaltarBlancos();
      var s := codigoFuente;
      if indice >= |s| {
        return Token(FinArchivo, "EOF", linea, columna);
      }
      var actual := s[indice];
      if IsLetter(actual) || actual == '_' {
        token := EscanearIdentificador();
      } else if IsDigit(actual) {
        token := EscanearNumero();
      } else if actual == '"' {
        token := EscanearCadena();
      } else {
        token := EscanearSimbolo();
      }
    }

    /** The whitespace loop at the head of `ObtenerSiguienteToken`. */
    method SaltarBlancos()
      requires Valid()
      modifies this`indice, this`linea, this`columna
      ensures Valid()
      ensures Posicion() == SaltarEspacios(codigoFuente, old(Posicion()))
    {
      var s := codigoFuente;
      while indice < |s| && IsWhiteSpace(s[indice])
        invariant indice <= |s|
        invariant SaltarEspacios(s, Posicion()) == SaltarEspacios(s, old(Posicion()))
      {
        if s[indice] == '\n' {
          linea := linea + 1;
          columna := 1;
        } else {
          columna := columna + 1;
        }
        indice := indice + 1;
      }
    }

    /** The single-character branch: a delimiter, an operator or an error. */
    method EscanearSimbolo() returns (token: Token)
      requires Valid() && indice < |codigoFuente|
      requires var c := codigoFuente[indice]; !IsLetter(c) && c != '_' && !IsDigit(c) && c != '"'
      modifies this`indice, this`columna
      ensures Valid()
      ensures (token, Posicion()) == Clasificar(codigoFuente, old(Posicion()))
    {
      var actual := codigoFuente[indice];
      var colToken := columna;
      indice := indice + 1;
      columna := columna + 1;
      if IsDelimitador(actual) {
        token := Token(Delimitador, [actual], linea, colToken);
      } else if IsOperador(actual) {
        token := Token(Operador, [actual], linea, colToken);
      } else {
        token := Token(Error, [actual], linea, colToken);
      }
    }

    /** The identifier branch: a maximal run of letters, digits and '_'. */
    method EscanearIdentificador() returns (token: Token)
      requires Valid() && indice < |codigoFuente|
      requires IsLetter(codigoFuente[indice]) || codigoFuente[indice] == '_'
      modifies this`indice, this`columna, tablaSimbolos
      ensures Valid()
      ensures (token, Posicion()) == Clasificar(codigoFuente, old(Posicion()))
      ensures tablaSimbolos.tabla == TablaTras(old(tablaSimbolos.tabla), token)
    {
      var s := codigoFuente;
      var inicio, colInicio := indice, columna;
      while indice < |s| && IsIdentChar(s[indice])
        invariant inicio <= indice <= |s|
        invariant FinIdentificador(s, indice) == FinIdentificador(s, inicio)
        invariant unchanged(tablaSimbolos)
        invariant columna == colInicio + (indice - inicio)
      {
        indice := indice + 1;
        columna := columna + 1;
      }
      var lexema := s[inicio..indice];
      if EsPalabraReservada(lexema) {
        token := Token(PalabraReservada, lexema, linea, colInicio);
      } else {
        if !tablaSimbolos.Existe(lexema) {
          tablaSimbolos.Agregar(lexema, "Identificador");
        }
        token := Token(Identificador, lexema, linea, colInicio);
      }
    }

    /** The number branch: a maximal run of digits. */
    method EscanearNumero() returns (token: Token)
      requires Valid() && indice < |codigoFuente| && IsDigit(codigoFuente[indice])
      modifies this`indice, this`columna
      ensures Valid()
      ensures (token, Posicion()) == Clasificar(codigoFuente, old(Posicion()))
      ensures token.tipo == Numero
    {
      var s := codigoFuente;
      var inicio, colInicio := indice, columna;
      while indice < |s| && IsDigit(s[indice])
        invariant inicio <= indice <= |s|
        invariant FinNumero(s, indice) == FinNumero(s, inicio)
        invariant columna == colInicio + (indice - inicio)
      {
        indice := indice + 1;
        columna := columna + 1;
      }
      token := Token(Numero, s[inicio..indice], linea, colInicio);
    }

    /** The body loop of the string branch: up to the closing quote or the end of the text,
        a backslash taking the character after it along. */
    method RecorrerCadena()
      requires Valid()
      modifies this`indice, this`columna
      ensures Valid()
      ensures indice == FinCadena(codigoFuente, old(indice))
      ensures columna == old(columna) + (indice - old(indice))
    {
      var s := codigoFuente;
      ghost var inicio := indice;
      while indice < |s| && s[indice] != '"'
        invariant inicio <= indice <= |s|
        invariant FinCadena(s, indice) == FinCadena(s, inicio)
        invariant columna == old(columna) + (indice - inicio)
      {
        if s[indice] == '\\' && indice + 1 < |s| {
          indice := indice + 1;
          columna := columna + 1;
        }
        indice := indice + 1;
        columna := columna + 1;
      }
    }

    /** The string branch: the raw text up to the closing quote, or an error when there is none. */
    method EscanearCadena() returns (token: Token)
      requires Valid() && indice < |codigoFuente| && codigoFuente[indice] == '"'
      modifies this`indice, this`columna
      ensures Valid()
      ensures (token, Posicion()) == Clasificar(codigoFuente, old(Posicion()))
      ensures token.tipo == Cadena || token.tipo == Error
    {
      var s := codigoFuente;
      var colInicio := columna;
      ghost var p := Posicion();
      assert !IsLetter(s[p.indice]) && s[p.indice] != '_' && !IsDigit(s[p.indice]);
      indice := indice + 1;
      columna := columna + 1;
      var inicio := indice;
      RecorrerCadena();
      if indice < |s| {
        var lexema := s[inicio..indice];
        indice := indice + 1;
        columna := columna + 1;
        token := Token(Cadena, lexema, linea, colInicio);
      } else {
        token := Token(Error, "Cadena no cerrada", linea, colInicio);
      }
    }
  }

  /** The caller's loop: call the scanner until it returns `FinArchivo`, keeping every token. */
  method Tokenizar(codigo: string) returns (tokens: seq<Token>)
    ensures tokens == TokensDesde(codigo, Inicio)
  {
    var lexico := new AnalizadorLexico(codigo);
    var token := lexico.ObtenerSiguienteToken();
    tokens := [token];
    while token.tipo != FinArchivo
      invariant lexico.Valid() && lexico.codigoFuente == codigo
      invariant fresh(lexico) && fresh(lexico.tablaSimbolos)
      invariant token.tipo != FinArchivo ==>
        tokens + TokensDesde(codigo, lexico.Posicion()) == TokensDesde(codigo, Inicio)
      invariant token.tipo == FinArchivo ==> tokens == TokensDesde(codigo, Inicio)
      decreases |codigo| - lexico.indice + (if token.tipo == FinArchivo then 0 else 1)
    {
      ghost var antes := lexico.Posicion();
      token := lexico.ObtenerSiguienteToken();
      tokens := tokens + [token];
      assert TokensDesde(codigo, antes) ==
        [token] + (if token.tipo == FinArchivo then [] else TokensDesde(codigo, lexico.Posicion()));
    }
  }
}
