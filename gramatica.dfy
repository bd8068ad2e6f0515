/** The recursive-descent grammar of the parser, as functions of the token list and the cursor.
    Each `Parse...` function gives what the method of the same name in `AnalizadorSintactico`
    returns and where it leaves the cursor: `Ok((node, cursor))`, or `Err(falla)` for the
    exception that aborts the parse. */
module Gramatica {
  import opened Wrappers
  import opened Numeros
  import opened Tokens
  import opened Ast

  /** Why a parse aborts. */
  datatype Falla =
      /** `Consume` found a token other than the one expected. */
    | Esperado(tipo: TokenType, valor: Option<string>, encontrado: Token)
      /** No statement starts with the current token. */
    | SentenciaNoReconocida
      /** The token list was indexed at or past its end. */
    | FueraDeRango(indice: nat)
      /** A method call was cast to an expression leaf. */
    | ConversionInvalida

  /** The message of `Consume`'s exception: it opens with the expected category. */
  function MensajeEsperado(tipo: TokenType, valor: Option<string>, t: Token): (r: string)
    ensures var p := "Se esperaba " + TypeName(tipo); |p| < |r| && r[..|p|] == p
  {
    ("Se esperaba " + TypeName(tipo))
    + (" '" + (if valor.Some? then valor.value else "")
       + "' pero se encontró '" + t.valor + "' en la línea " + IntToString(t.linea)
       + ", columna " + IntToString(t.columna) + ".")
  }

  /** The exception's message. */
  function Mensaje(f: Falla): string {
    match f
    case Esperado(tipo, valor, t) => MensajeEsperado(tipo, valor, t)
    case SentenciaNoReconocida => "Sentencia no reconocida en el contexto actual."
    case FueraDeRango(_) =>
      "Index was out of range. Must be non-negative and less than the size of the collection."
    case ConversionInvalida =>
      "Unable to cast object of type 'NodoLlamadaMetodo' to type 'NodoExpresion'."
  }

  /** A node (or token) and the cursor after it, or the exception. */
  type Paso<T> = Result<(T, nat), Falla>

  // ---------------------------------------------------------------------------
  // Cursor primitives

  /** The token kind matches and, when a value is given, so does the token's value. */
  predicate Coincide(t: Token, tipo: TokenType, valor: Option<string>) {
    t.tipo == tipo && (valor.None? || t.valor == valor.value)
  }

  /** `tokens[currentIndex]`. */
  function Actual(ts: seq<Token>, pos: nat): (r: Result<Token, Falla>)
    ensures r.Ok? <==> pos < |ts|
    ensures r.Ok? ==> r.value == ts[pos]
    ensures r.Err? ==> r.error == FueraDeRango(pos)
  {
    if pos < |ts| then Ok(ts[pos]) else Err(FueraDeRango(pos))
  }

  /** `Match`: peeks at the current token, never moves the cursor. */
  function Match(ts: seq<Token>, pos: nat, tipo: TokenType, valor: Option<string>): (r: Result<bool, Falla>)
    ensures r.Ok? <==> pos < |ts|
    ensures r.Ok? ==> (r.value <==> Coincide(ts[pos], tipo, valor))
  {
    var t :- Actual(ts, pos);
    Ok(Coincide(t, tipo, valor))
  }

  /** `Advance`: returns the current token and moves the cursor by one. */
  function Advance(ts: seq<Token>, pos: nat): (r: Paso<Token>)
    ensures r.Ok? <==> pos < |ts|
    ensures r.Ok? ==> r.value == (ts[pos], pos + 1)
  {
    var t :- Actual(ts, pos);
    Ok((t, pos + 1))
  }

  /** `Consume`: when `Match` holds, the current token and the cursor moved by one;
      otherwise the `Esperado` exception naming what was expected and what was found. */
  function Consume(ts: seq<Token>, pos: nat, tipo: TokenType, valor: Option<string>): (r: Paso<Token>)
    ensures r.Ok? <==> pos < |ts| && Coincide(ts[pos], tipo, valor)
    ensures r.Ok? ==> r.value == (ts[pos], pos + 1)
    ensures pos < |ts| && !Coincide(ts[pos], tipo, valor) ==> r == Err(Esperado(tipo, valor, ts[pos]))
  {
    var m :- Match(ts, pos, tipo, valor);
    if m then Advance(ts, pos) else Err(Esperado(tipo, valor, ts[pos]))
  }

  /** `LookAhead(k)`: the token `k` places ahead, or null past the end; the cursor stays. */
  function LookAhead(ts: seq<Token>, pos: nat, k: nat): (r: Option<Token>)
    ensures r.Some? <==> pos + k < |ts|
    ensures r.Some? ==> r.value == ts[pos + k]
  {
    if pos + k < |ts| then Some(ts[pos + k]) else None
  }

  /** The loop `while (!Match(tipo, valor)) Advance();`: the first matching position from `pos`,
      or the out-of-range exception when no token from `pos` on matches. */
  function SaltarHasta(ts: seq<Token>, pos: nat, tipo: TokenType, valor: Option<string>): (r: Result<nat, Falla>)
    requires pos <= |ts|
    ensures r.Ok? ==> pos <= r.value < |ts| && Coincide(ts[r.value], tipo, valor)
    ensures r.Err? ==> r.error == FueraDeRango(|ts|)
    decreases |ts| - pos
  {
    var m :- Match(ts, pos, tipo, valor);
    // `Advance` cannot fail here: `Match` has just read `ts[pos]`.
    if m then Ok(pos) else SaltarHasta(ts, pos + 1, tipo, valor)
  }

  /** The skip stops at the first matching token from `pos`, and fails only when no token from
      `pos` on matches. */
  lemma {:induction false} SaltarHastaPrimero(ts: seq<Token>, pos: nat, tipo: TokenType, valor: Option<string>)
    requires pos <= |ts|
    ensures SaltarHasta(ts, pos, tipo, valor).Ok? ==>
              forall k :: pos <= k < SaltarHasta(ts, pos, tipo, valor).value ==> !Coincide(ts[k], tipo, valor)
    ensures SaltarHasta(ts, pos, tipo, valor).Err? <==> forall k :: pos <= k < |ts| ==> !Coincide(ts[k], tipo, valor)
    decreases |ts| - pos
  {
    if pos < |ts| && !Coincide(ts[pos], tipo, valor) {
      SaltarHastaPrimero(ts, pos + 1, tipo, valor);
    }
  }

  /** `IsTipoDeclaracion`: the current token is the reserved word int, string, decimal or DateTime. */
  function IsTipoDeclaracion(ts: seq<Token>, pos: nat): (r: Result<bool, Falla>)
    ensures r.Ok? <==> pos < |ts|
    ensures r.Ok? ==> (r.value <==> ts[pos].tipo == PalabraReservada
                                     && ts[pos].valor in ["int", "string", "decimal", "DateTime"])
  {
    var t :- Actual(ts, pos);
    Ok(t.tipo == PalabraReservada
       && (t.valor == "int" || t.valor == "string" || t.valor == "decimal" || t.valor == "DateTime"))
  }

  /** The `(NodoExpresion)` cast: a leaf passes, anything else is an invalid cast. */
  function ComoExpresion(n: Nodo): (r: Result<Nodo, Falla>)
    ensures r.Ok? <==> n.Expresion?
    ensures r.Ok? ==> r.value == n
  {
    if n.Expresion? then Ok(n) else Err(ConversionInvalida)
  }

  // ---------------------------------------------------------------------------
  // Program, namespace, class, method

  /** `Parse`: the program node, which becomes the one element of `AST`. */
  function Parse(ts: seq<Token>): (r: Result<Nodo, Falla>)
    ensures r.Ok? ==> r.value.Programa?
  {
    var (programa, _) :- ParseProgram(ts, 0);
    Ok(programa)
  }

  /** The `using` directives: each is skipped up to and including its ';'. */
  function SaltarUsings(ts: seq<Token>, pos: nat): (r: Result<nat, Falla>)
    requires pos <= |ts|
    ensures r.Ok? ==> pos <= r.value < |ts|
    ensures r.Ok? ==> !Coincide(ts[r.value], PalabraReservada, Some("using"))
    ensures r.Ok? && pos < r.value ==> Coincide(ts[r.value - 1], Delimitador, Some(";"))
    decreases |ts| - pos
  {
    var esUsing :- Match(ts, pos, PalabraReservada, Some("using"));
    if !esUsing then Ok(pos)
    else
      var q :- SaltarHasta(ts, pos, Delimitador, Some(";"));
      // The ';' that stopped the skip is consumed.
      SaltarUsings(ts, q + 1)
  }

  function ParseProgram(ts: seq<Token>, pos: nat): (r: Paso<Nodo>)
    requires pos <= |ts|
    ensures r.Ok? ==> pos < r.value.1 <= |ts| && r.value.0.Programa?
  {
    var p :- SaltarUsings(ts, pos);
    var (espacio, q) :- ParseNamespace(ts, p);
    Ok((Programa(espacio), q))
  }

  function ParseNamespace(ts: seq<Token>, pos: nat): (r: Paso<NodoNamespace>)
    requires pos <= |ts|
    ensures r.Ok? ==> pos < r.value.1 <= |ts|
    ensures r.Ok? ==> Coincide(ts[pos], PalabraReservada, Some("namespace"))
    ensures r.Ok? ==> pos + 1 < |ts| && r.value.0.nombre == ts[pos + 1].valor
    ensures r.Ok? ==> Coincide(ts[r.value.1 - 1], Delimitador, Some("}"))
  {
    var (_, p1) :- Consume(ts, pos, PalabraReservada, Some("namespace"));
    var (nombre, p2) :- Consume(ts, p1, Identificador, None);
    var (_, p3) :- Consume(ts, p2, Delimitador, Some("{"));
    var (clases, p4) :- ParseClases(ts, p3, []);
    // The '}' that ended the class list is consumed.
    Ok((NodoNamespace(nombre.valor, clases), p4 + 1))
  }

  /** The namespace body: classes in source order until the current token is '}'. */
  function ParseClases(ts: seq<Token>, pos: nat, hechas: seq<NodoClase>): (r: Paso<seq<NodoClase>>)
    requires pos <= |ts|
    ensures r.Ok? ==> pos <= r.value.1 < |ts| && Coincide(ts[r.value.1], Delimitador, Some("}"))
    ensures r.Ok? ==> |hechas| <= |r.value.0| && r.value.0[..|hechas|] == hechas
    decreases |ts| - pos
  {
    var cierra :- Match(ts, pos, Delimitador, Some("}"));
    if cierra then Ok((hechas, pos))
    else
      var (clase, p) :- ParseClass(ts, pos);
      ParseClases(ts, p, hechas + [clase])
  }

  function ParseClass(ts: seq<Token>, pos: nat): (r: Paso<NodoClase>)
    requires pos <= |ts|
    ensures r.Ok? ==> pos < r.value.1 <= |ts|
    ensures r.Ok? ==> Coincide(ts[pos], PalabraReservada, Some("class"))
    ensures r.Ok? ==> pos + 1 < |ts| && r.value.0.nombre == ts[pos + 1].valor
    ensures r.Ok? ==> Coincide(ts[r.value.1 - 1], Delimitador, Some("}"))
  {
    var (_, p1) :- Consume(ts, pos, PalabraReservada, Some("class"));
    var (nombre, p2) :- Consume(ts, p1, Identificador, None);
    var (_, p3) :- Consume(ts, p2, Delimitador, Some("{"));
    var (metodos, p4) :- ParseMetodos(ts, p3, []);
    // The '}' that ended the method list is consumed.
    Ok((NodoClase(nombre.valor, metodos), p4 + 1))
  }

  /** The class body: methods in source order until the current token is '}'. */
  function ParseMetodos(ts: seq<Token>, pos: nat, hechos: seq<NodoMetodo>): (r: Paso<seq<NodoMetodo>>)
    requires pos <= |ts|
    ensures r.Ok? ==> pos <= r.value.1 < |ts| && Coincide(ts[r.value.1], Delimitador, Some("}"))
    ensures r.Ok? ==> |hechos| <= |r.value.0| && r.value.0[..|hechos|] == hechos
    decreases |ts| - pos
  {
    var cierra :- Match(ts, pos, Delimitador, Some("}"));
    if cierra then Ok((hechos, pos))
    else
      var (metodo, p) :- ParseMethod(ts, pos);
      ParseMetodos(ts, p, hechos + [metodo])
  }

  /** A method: modifiers and return type are skipped up to the first identifier, which names
      it; the parameters are skipped up to the first ')'; then the body block. */
  function ParseMethod(ts: seq<Token>, pos: nat): (r: Paso<NodoMetodo>)
    requires pos <= |ts|
    ensures r.Ok? ==> pos < r.value.1 <= |ts|
  {
    var q1 :- SaltarHasta(ts, pos, Identificador, None);
    // The identifier that stopped the skip is consumed as the name.
    var (_, p2) :- Consume(ts, q1 + 1, Delimitador, Some("("));
    var q2 :- SaltarHasta(ts, p2, Delimitador, Some(")"));
    // The ')' that stopped the skip is consumed.
    var (cuerpo, p4) :- ParseBlock(ts, q2 + 1);
    Ok((NodoMetodo(ts[q1].valor, cuerpo), p4))
  }

  // ---------------------------------------------------------------------------
  // Blocks, statements, expressions (mutually recursive). The second component of each
  // `decreases` orders the calls made without consuming a token first.

  function ParseBlock(ts: seq<Token>, pos: nat): (r: Paso<NodoBloque>)
    requires pos <= |ts|
    ensures r.Ok? ==> pos < r.value.1 <= |ts|
    ensures r.Ok? ==> Coincide(ts[pos], Delimitador, Some("{"))
    ensures r.Ok? ==> Coincide(ts[r.value.1 - 1], Delimitador, Some("}"))
    decreases |ts| - pos, 0
  {
    var (_, p1) :- Consume(ts, pos, Delimitador, Some("{"));
    var (instrucciones, p2) :- ParseInstrucciones(ts, p1, []);
    // The '}' that ended the statement list is consumed.
    Ok((NodoBloque(instrucciones), p2 + 1))
  }

  /** The block body: statements in source order until the current token is '}'. */
  function ParseInstrucciones(ts: seq<Token>, pos: nat, hechas: seq<Nodo>): (r: Paso<seq<Nodo>>)
    requires pos <= |ts|
    ensures r.Ok? ==> pos <= r.value.1 < |ts| && Coincide(ts[r.value.1], Delimitador, Some("}"))
    ensures r.Ok? ==> |hechas| <= |r.value.0| && r.value.0[..|hechas|] == hechas
    decreases |ts| - pos, 3
  {
    var cierra :- Match(ts, pos, Delimitador, Some("}"));
    if cierra then Ok((hechas, pos))
    else
      var (instruccion, p) :- ParseStatement(ts, pos);
      ParseInstrucciones(ts, p, hechas + [instruccion])
  }

  /** Statement dispatch on the current token, in this order: "if", "for", a type keyword,
      an identifier followed by "=", an identifier followed by "("; anything else aborts. */
  function ParseStatement(ts: seq<Token>, pos: nat): (r: Paso<Nodo>)
    requires pos <= |ts|
    ensures r.Ok? ==> pos < r.value.1 <= |ts|
    decreases |ts| - pos, 2
  {
    var esIf :- Match(ts, pos, PalabraReservada, Some("if"));
    if esIf then ParseIf(ts, pos)
    else
      // The current token exists from here on, so the later tests cannot fail.
      if Match(ts, pos, PalabraReservada, Some("for")) == Ok(true) then ParseFor(ts, pos)
      else if IsTipoDeclaracion(ts, pos) == Ok(true) then ParseDeclaracionConInicializacion(ts, pos)
      else
        var esId := Match(ts, pos, Identificador, None) == Ok(true);
        var siguiente := LookAhead(ts, pos, 1);
        if esId && siguiente.Some? && siguiente.value.valor == "=" then ParseAsignacion(ts, pos)
        else if esId && siguiente.Some? && siguiente.value.valor == "(" then ParseLlamadaMetodo(ts, pos)
        else Err(SentenciaNoReconocida)
  }

  function ParseIf(ts: seq<Token>, pos: nat): (r: Paso<Nodo>)
    requires pos <= |ts|
    ensures r.Ok? ==> pos < r.value.1 <= |ts|
    ensures r.Ok? ==> r.value.0.If? && r.value.0.condicion.Some? && r.value.0.sentenciaIf.Some?
    decreases |ts| - pos, 1
  {
    var (_, p1) :- Consume(ts, pos, PalabraReservada, Some("if"));
    var (_, p2) :- Consume(ts, p1, Delimitador, Some("("));
    var (condicion, p3) :- ParseExpresionCompleja(ts, p2);
    var (_, p4) :- Consume(ts, p3, Delimitador, Some(")"));
    var (sentenciaIf, p5) :- ParseStatement(ts, p4);
    ParseElse(ts, p5, condicion, sentenciaIf)
  }

  /** The optional else branch of an if statement. */
  function ParseElse(ts: seq<Token>, pos: nat, condicion: Nodo, sentenciaIf: Nodo): (r: Paso<Nodo>)
    requires pos <= |ts|
    ensures r.Ok? ==> pos <= r.value.1 <= |ts|
    ensures r.Ok? ==> r.value.0.If? && r.value.0 == If(Some(condicion), Some(sentenciaIf), r.value.0.sentenciaElse)
    decreases |ts| - pos, 1
  {
    var esElse :- Match(ts, pos, PalabraReservada, Some("else"));
    if esElse then
      // The "else" just matched is consumed.
      var (sentenciaElse, p) :- ParseStatement(ts, pos + 1);
      Ok((If(Some(condicion), Some(sentenciaIf), Some(sentenciaElse)), p))
    else
      Ok((If(Some(condicion), Some(sentenciaIf), None), pos))
  }

  function ParseFor(ts: seq<Token>, pos: nat): (r: Paso<Nodo>)
    requires pos <= |ts|
    ensures r.Ok? ==> pos < r.value.1 <= |ts| && r.value.0.For?
    decreases |ts| - pos, 1
  {
    var (_, p1) :- Consume(ts, pos, PalabraReservada, Some("for"));
    var (_, p2) :- Consume(ts, p1, Delimitador, Some("("));
    var (inicializacion, p3) :- ParseStatement(ts, p2);
    ParseForResto(ts, p3, inicializacion)
  }

  /** The rest of a for statement after its initializing statement. */
  function ParseForResto(ts: seq<Token>, pos: nat, inicializacion: Nodo): (r: Paso<Nodo>)
    requires pos <= |ts|
    ensures r.Ok? ==> pos < r.value.1 <= |ts| && r.value.0.For? && r.value.0.inicializacion == inicializacion
    decreases |ts| - pos, 1
  {
    var (condicion, p4) :- ParseExpresionCompleja(ts, pos);
    var (_, p5) :- Consume(ts, p4, Delimitador, Some(";"));
    var (iteracion, p6) :- ParseExpresionCompleja(ts, p5);
    var (_, p7) :- Consume(ts, p6, Delimitador, Some(")"));
    var (cuerpo, p8) :- ParseBlock(ts, p7);
    Ok((For(inicializacion, condicion, iteracion, cuerpo), p8))
  }

  /** A typed declaration: without '=' a declaration node (type, name); with '=' an assignment
      node that keeps only the name and the expression. */
  function ParseDeclaracionConInicializacion(ts: seq<Token>, pos: nat): (r: Paso<Nodo>)
    requires pos <= |ts|
    ensures r.Ok? ==> pos < r.value.1 <= |ts|
    decreases |ts| - pos, 1
  {
    var tipo :- Actual(ts, pos);
    var (_, p1) :- Consume(ts, pos, PalabraReservada, None);
    var (identificador, p2) :- Consume(ts, p1, Identificador, None);
    var igual :- Match(ts, p2, Operador, Some("="));
    if igual then
      // The '=' just matched is consumed.
      var (valor, p4) :- ParseExpresionCompleja(ts, p2 + 1);
      var expresion :- ComoExpresion(valor);
      var (_, p5) :- Consume(ts, p4, Delimitador, Some(";"));
      Ok((Asignacion(identificador.valor, Some(expresion)), p5))
    else
      var (_, p3) :- Consume(ts, p2, Delimitador, Some(";"));
      Ok((Declaracion(tipo.valor, identificador.valor), p3))
  }

  /** A method call when the current token is an identifier followed by "(", else one token. */
  function ParseExpresionCompleja(ts: seq<Token>, pos: nat): (r: Paso<Nodo>)
    requires pos <= |ts|
    ensures r.Ok? ==> pos < r.value.1 <= |ts|
    ensures r.Ok? ==> r.value.0.Expresion? || r.value.0.LlamadaMetodo?
    ensures r.Ok? && r.value.0.Expresion? ==> r.value == (Expresion(ts[pos].valor), pos + 1)
    decreases |ts| - pos, 1
  {
    var esId :- Match(ts, pos, Identificador, None);
    var siguiente := LookAhead(ts, pos, 1);
    if esId && siguiente.Some? && siguiente.value.valor == "(" then ParseLlamadaMetodo(ts, pos)
    else ParseExpresion(ts, pos)
  }

  /** A simple expression: exactly one token, of any kind, whose value becomes the leaf. */
  function ParseExpresion(ts: seq<Token>, pos: nat): (r: Paso<Nodo>)
    ensures r.Ok? <==> pos < |ts|
    ensures r.Ok? ==> r.value == (Expresion(ts[pos].valor), pos + 1)
  {
    var (token, p) :- Advance(ts, pos);
    Ok((Expresion(token.valor), p))
  }

  function ParseAsignacion(ts: seq<Token>, pos: nat): (r: Paso<Nodo>)
    requires pos <= |ts|
    ensures r.Ok? ==> pos + 3 < |ts|
    ensures r.Ok? ==> r.value == (Asignacion(ts[pos].valor, Some(Expresion(ts[pos + 2].valor))), pos + 4)
    decreases |ts| - pos, 1
  {
    var (identificador, p1) :- Consume(ts, pos, Identificador, None);
    var (_, p2) :- Consume(ts, p1, Operador, Some("="));
    var (valor, p3) :- ParseExpresionCompleja(ts, p2);
    var expresion :- ComoExpresion(valor);
    var (_, p4) :- Consume(ts, p3, Delimitador, Some(";"));
    Ok((Asignacion(identificador.valor, Some(expresion)), p4))
  }

  /** A call: name, "(", zero or more comma-separated arguments, ")" and then ";". */
  function ParseLlamadaMetodo(ts: seq<Token>, pos: nat): (r: Paso<Nodo>)
    requires pos <= |ts|
    ensures r.Ok? ==> pos < r.value.1 <= |ts|
    ensures r.Ok? ==> r.value.0.LlamadaMetodo? && r.value.0.nombre == ts[pos].valor
    ensures r.Ok? ==> Coincide(ts[r.value.1 - 1], Delimitador, Some(";"))
    decreases |ts| - pos, 0
  {
    var (nombre, p1) :- Consume(ts, pos, Identificador, None);
    var (_, p2) :- Consume(ts, p1, Delimitador, Some("("));
    var cierra :- Match(ts, p2, Delimitador, Some(")"));
    if cierra then
      CerrarLlamada(ts, p2, nombre.valor, [])
    else
      var (primero, p3) :- ParseExpresionCompleja(ts, p2);
      var (argumentos, p4) :- ParseArgumentos(ts, p3, [primero]);
      CerrarLlamada(ts, p4, nombre.valor, argumentos)
  }

  /** Further arguments, each after a ',', until the current token is not ','. */
  function ParseArgumentos(ts: seq<Token>, pos: nat, hechos: seq<Nodo>): (r: Paso<seq<Nodo>>)
    requires pos <= |ts|
    ensures r.Ok? ==> pos <= r.value.1 < |ts| && !Coincide(ts[r.value.1], Delimitador, Some(","))
    ensures r.Ok? ==> |hechos| <= |r.value.0| && r.value.0[..|hechos|] == hechos
    decreases |ts| - pos, 0
  {
    var coma :- Match(ts, pos, Delimitador, Some(","));
    if !coma then Ok((hechos, pos))
    else
      // The ',' just matched is consumed.
      var (argumento, p2) :- ParseExpresionCompleja(ts, pos + 1);
      ParseArgumentos(ts, p2, hechos + [argumento])
  }

  /** The end of a call: ")" and then ";" are both required. */
  function CerrarLlamada(ts: seq<Token>, pos: nat, nombre: string, argumentos: seq<Nodo>): (r: Paso<Nodo>)
    requires pos <= |ts|
    ensures r.Ok? <==> pos + 1 < |ts| && Coincide(ts[pos], Delimitador, Some(")"))
                       && Coincide(ts[pos + 1], Delimitador, Some(";"))
    ensures r.Ok? ==> r.value == (LlamadaMetodo(nombre, argumentos), pos + 2)
  {
    var (_, p1) :- Consume(ts, pos, Delimitador, Some(")"));
    var (_, p2) :- Consume(ts, p1, Delimitador, Some(";"));
    Ok((LlamadaMetodo(nombre, argumentos), p2))
  }

  // ---------------------------------------------------------------------------
  // Properties of the grammar

  /** Statement dispatch: the first of these tests that holds picks the routine, and a current
      token that passes none of them aborts with "Sentencia no reconocida". */
  lemma DespachoDeSentencia(ts: seq<Token>, pos: nat)
    requires pos < |ts|
    ensures Coincide(ts[pos], PalabraReservada, Some("if")) ==> ParseStatement(ts, pos) == ParseIf(ts, pos)
    ensures Coincide(ts[pos], PalabraReservada, Some("for")) ==> ParseStatement(ts, pos) == ParseFor(ts, pos)
    ensures IsTipoDeclaracion(ts, pos) == Ok(true) ==>
              ParseStatement(ts, pos) == ParseDeclaracionConInicializacion(ts, pos)
    ensures ts[pos].tipo == Identificador && pos + 1 < |ts| && ts[pos + 1].valor == "=" ==>
              ParseStatement(ts, pos) == ParseAsignacion(ts, pos)
    ensures ts[pos].tipo == Identificador && pos + 1 < |ts| && ts[pos + 1].valor == "(" ==>
              ParseStatement(ts, pos) == ParseLlamadaMetodo(ts, pos)
    ensures !(ts[pos].tipo == PalabraReservada && ts[pos].valor in ["if", "for", "int", "string", "decimal", "DateTime"])
            && !(ts[pos].tipo == Identificador && pos + 1 < |ts| && ts[pos + 1].valor in ["=", "("])
            ==> ParseStatement(ts, pos) == Err(SentenciaNoReconocida)
  {
  }

  /** A typed declaration without '=' gives the declaration node (type, name) and three tokens;
      with '=' and a simple value it gives an assignment node that has dropped the type. */
  lemma FormaDeDeclaracion(ts: seq<Token>, pos: nat)
    requires pos <= |ts|
    requires ParseDeclaracionConInicializacion(ts, pos).Ok?
    ensures pos + 2 < |ts| && ts[pos].tipo == PalabraReservada && ts[pos + 1].tipo == Identificador
    ensures var (n, p) := ParseDeclaracionConInicializacion(ts, pos).value;
      if Coincide(ts[pos + 2], Operador, Some("=")) then
        pos + 4 < |ts| && Coincide(ts[pos + 4], Delimitador, Some(";")) && p == pos + 5
        && n == Asignacion(ts[pos + 1].valor, Some(Expresion(ts[pos + 3].valor)))
      else
        Coincide(ts[pos + 2], Delimitador, Some(";")) && p == pos + 3
        && n == Declaracion(ts[pos].valor, ts[pos + 1].valor)
  {
  }

  /** A method is named by the first identifier from `pos`, which must be followed by '('; the
      parameter list is skipped up to the first ')' and the body is the block right after it. */
  lemma {:induction false} FormaDeMetodo(ts: seq<Token>, pos: nat) returns (q1: nat, q2: nat)
    requires pos <= |ts|
    requires ParseMethod(ts, pos).Ok?
    ensures SaltarHasta(ts, pos, Identificador, None) == Ok(q1)
    ensures forall k :: pos <= k < q1 ==> ts[k].tipo != Identificador
    ensures q1 + 1 < |ts| && Coincide(ts[q1 + 1], Delimitador, Some("("))
    ensures SaltarHasta(ts, q1 + 2, Delimitador, Some(")")) == Ok(q2)
    ensures forall k :: q1 + 2 <= k < q2 ==> !Coincide(ts[k], Delimitador, Some(")"))
    ensures q2 < |ts| && ParseBlock(ts, q2 + 1).Ok?
    ensures ParseMethod(ts, pos).value
            == (NodoMetodo(ts[q1].valor, ParseBlock(ts, q2 + 1).value.0), ParseBlock(ts, q2 + 1).value.1)
  {
    SaltarHastaPrimero(ts, pos, Identificador, None);
    if SaltarHasta(ts, pos, Identificador, None).Err? { assert false; }
    q1 := SaltarHasta(ts, pos, Identificador, None).value;
    if Consume(ts, q1 + 1, Delimitador, Some("(")).Err? { assert false; }
    SaltarHastaPrimero(ts, q1 + 2, Delimitador, Some(")"));
    if SaltarHasta(ts, q1 + 2, Delimitador, Some(")")).Err? { assert false; }
    q2 := SaltarHasta(ts, q1 + 2, Delimitador, Some(")")).value;
    if ParseBlock(ts, q2 + 1).Err? { assert false; }
  }

  /** An if statement reads "if", "(", a condition, ")" and a statement, and then hands the
      condition and the statement to the else part at the position after them. */
  lemma FormaDeIf(ts: seq<Token>, pos: nat)
    requires pos <= |ts|
    requires ParseIf(ts, pos).Ok?
    ensures pos + 1 < |ts| && Coincide(ts[pos], PalabraReservada, Some("if"))
            && Coincide(ts[pos + 1], Delimitador, Some("("))
    ensures var c := ParseExpresionCompleja(ts, pos + 2);
      c.Ok? && c.value.1 < |ts| && Coincide(ts[c.value.1], Delimitador, Some(")"))
      && var st := ParseStatement(ts, c.value.1 + 1);
      st.Ok? && ParseIf(ts, pos) == ParseElse(ts, st.value.1, c.value.0, st.value.0)
  {
  }

  /** The else part needs a current token: when it is "else" the next statement becomes the
      else branch, otherwise the if node has none and nothing is consumed. */
  lemma FormaDeElse(ts: seq<Token>, pos: nat, condicion: Nodo, sentenciaIf: Nodo)
    requires pos <= |ts|
    requires ParseElse(ts, pos, condicion, sentenciaIf).Ok?
    ensures pos < |ts|
    ensures var (n, p) := ParseElse(ts, pos, condicion, sentenciaIf).value;
      if Coincide(ts[pos], PalabraReservada, Some("else")) then
        var st := ParseStatement(ts, pos + 1);
        st.Ok? && n == If(Some(condicion), Some(sentenciaIf), Some(st.value.0)) && p == st.value.1
      else
        n == If(Some(condicion), Some(sentenciaIf), None) && p == pos
  {
  }

  /** A for statement reads "for", "(" and an initializing statement (which consumes its own ';'),
      and the rest of it is read from the position after that statement. */
  lemma {:induction false} FormaDeFor(ts: seq<Token>, pos: nat) returns (inicializacion: Nodo, p3: nat)
    requires pos <= |ts|
    requires ParseFor(ts, pos).Ok?
    ensures pos + 1 < |ts| && Coincide(ts[pos], PalabraReservada, Some("for"))
            && Coincide(ts[pos + 1], Delimitador, Some("("))
    ensures ParseStatement(ts, pos + 2) == Ok((inicializacion, p3)) && p3 <= |ts|
    ensures ParseFor(ts, pos) == ParseForResto(ts, p3, inicializacion)
  {
    if Consume(ts, pos, PalabraReservada, Some("for")).Err? { assert false; }
    if Consume(ts, pos + 1, Delimitador, Some("(")).Err? { assert false; }
    var i := ParseStatement(ts, pos + 2);
    if i.Err? { assert false; }
    inicializacion, p3 := i.value.0, i.value.1;
  }

  /** The rest of a for statement reads a condition, ';', an iteration expression, ')' and a
      block, and the node keeps all four parts. */
  lemma {:induction false} FormaDeForResto(ts: seq<Token>, pos: nat, inicializacion: Nodo)
    returns (condicion: Nodo, iteracion: Nodo, p4: nat, p6: nat)
    requires pos <= |ts|
    requires ParseForResto(ts, pos, inicializacion).Ok?
    ensures ParseExpresionCompleja(ts, pos) == Ok((condicion, p4)) && p4 < |ts|
    ensures Coincide(ts[p4], Delimitador, Some(";"))
    ensures ParseExpresionCompleja(ts, p4 + 1) == Ok((iteracion, p6)) && p6 < |ts|
    ensures Coincide(ts[p6], Delimitador, Some(")"))
    ensures ParseBlock(ts, p6 + 1).Ok?
    ensures ParseForResto(ts, pos, inicializacion).value
            == (For(inicializacion, condicion, iteracion, ParseBlock(ts, p6 + 1).value.0), ParseBlock(ts, p6 + 1).value.1)
  {
    var c := ParseExpresionCompleja(ts, pos);
    if c.Err? { assert false; }
    condicion, p4 := c.value.0, c.value.1;
    if Consume(ts, p4, Delimitador, Some(";")).Err? { assert false; }
    var it := ParseExpresionCompleja(ts, p4 + 1);
    if it.Err? { assert false; }
    iteracion, p6 := it.value.0, it.value.1;
    if Consume(ts, p6, Delimitador, Some(")")).Err? { assert false; }
    if ParseBlock(ts, p6 + 1).Err? { assert false; }
  }

  /** `Directivas(ts, pos, fin)`: from `pos` to `fin` lie whole `using` directives, each from its
      "using" up to and including the first ';' after it, and the token at `fin` is not "using". */
  ghost predicate Directivas(ts: seq<Token>, pos: nat, fin: nat)
    decreases |ts| - pos
  {
    pos < |ts|
    && if !Coincide(ts[pos], PalabraReservada, Some("using")) then fin == pos
       else
         var q := SaltarHasta(ts, pos, Delimitador, Some(";"));
         q.Ok? && Directivas(ts, q.value + 1, fin)
  }

  /** The skip of the directives stops exactly at the first token after the last of them. */
  lemma {:induction false} FormaDeUsings(ts: seq<Token>, pos: nat, fin: nat)
    requires pos <= |ts|
    ensures SaltarUsings(ts, pos) == Ok(fin) <==> Directivas(ts, pos, fin)
    decreases |ts| - pos
  {
    if pos < |ts| && Coincide(ts[pos], PalabraReservada, Some("using")) {
      var q := SaltarHasta(ts, pos, Delimitador, Some(";"));
      if q.Ok? {
        FormaDeUsings(ts, q.value + 1, fin);
      }
    }
  }

  /** `ClasesDesde(ts, pos, cs, fin)`: the classes `cs` are read one after another from `pos`,
      none of them starting at a '}', and the '}' that closes the list stands at `fin`. */
  ghost predicate ClasesDesde(ts: seq<Token>, pos: nat, cs: seq<NodoClase>, fin: nat)
    decreases |cs|
  {
    pos < |ts|
    && if cs == [] then fin == pos && Coincide(ts[pos], Delimitador, Some("}"))
       else
         var c := ParseClass(ts, pos);
         !Coincide(ts[pos], Delimitador, Some("}")) && c.Ok? && c.value.0 == cs[0]
         && ClasesDesde(ts, c.value.1, cs[1..], fin)
  }

  /** The class loop appends exactly the classes read in source order up to the closing '}'. */
  lemma {:induction false} FormaDeClases(ts: seq<Token>, pos: nat, hechas: seq<NodoClase>,
                                         cs: seq<NodoClase>, fin: nat)
    requires pos <= |ts|
    ensures ParseClases(ts, pos, hechas) == Ok((hechas + cs, fin)) <==> ClasesDesde(ts, pos, cs, fin)
    decreases |ts| - pos
  {
    if pos < |ts| && !Coincide(ts[pos], Delimitador, Some("}")) && ParseClass(ts, pos).Ok? {
      var (c, p) := ParseClass(ts, pos).value;
      assert ParseClases(ts, pos, hechas) == ParseClases(ts, p, hechas + [c]);
      if cs != [] {
        assert hechas + cs == (hechas + [c]) + cs[1..] <==> c == cs[0] by {
          if hechas + cs == (hechas + [c]) + cs[1..] {
            assert (hechas + cs)[|hechas|] == ((hechas + [c]) + cs[1..])[|hechas|];
          }
        }
        FormaDeClases(ts, p, hechas + [c], cs[1..], fin);
      } else {
        assert ParseClases(ts, p, hechas + [c]).Ok? ==> |ParseClases(ts, p, hechas + [c]).value.0| > |hechas|;
      }
    } else if cs != [] {
      assert |hechas + cs| > |hechas|;
    } else {
      assert hechas + cs == hechas;
    }
  }

  /** `MetodosDesde(ts, pos, ms, fin)`: the same reading for the methods of a class. */
  ghost predicate MetodosDesde(ts: seq<Token>, pos: nat, ms: seq<NodoMetodo>, fin: nat)
    decreases |ms|
  {
    pos < |ts|
    && if ms == [] then fin == pos && Coincide(ts[pos], Delimitador, Some("}"))
       else
         var m := ParseMethod(ts, pos);
         !Coincide(ts[pos], Delimitador, Some("}")) && m.Ok? && m.value.0 == ms[0]
         && MetodosDesde(ts, m.value.1, ms[1..], fin)
  }

  /** The method loop appends exactly the methods read in source order up to the closing '}'. */
  lemma {:induction false} FormaDeMetodos(ts: seq<Token>, pos: nat, hechos: seq<NodoMetodo>,
                                          ms: seq<NodoMetodo>, fin: nat)
    requires pos <= |ts|
    ensures ParseMetodos(ts, pos, hechos) == Ok((hechos + ms, fin)) <==> MetodosDesde(ts, pos, ms, fin)
    decreases |ts| - pos
  {
    if pos < |ts| && !Coincide(ts[pos], Delimitador, Some("}")) && ParseMethod(ts, pos).Ok? {
      var (m, p) := ParseMethod(ts, pos).value;
      assert ParseMetodos(ts, pos, hechos) == ParseMetodos(ts, p, hechos + [m]);
      if ms != [] {
        assert hechos + ms == (hechos + [m]) + ms[1..] <==> m == ms[0] by {
          if hechos + ms == (hechos + [m]) + ms[1..] {
            assert (hechos + ms)[|hechos|] == ((hechos + [m]) + ms[1..])[|hechos|];
          }
        }
        FormaDeMetodos(ts, p, hechos + [m], ms[1..], fin);
      } else {
        assert ParseMetodos(ts, p, hechos + [m]).Ok? ==> |ParseMetodos(ts, p, hechos + [m]).value.0| > |hechos|;
      }
    } else if ms != [] {
      assert |hechos + ms| > |hechos|;
    } else {
      assert hechos + ms == hechos;
    }
  }

  /** `InstruccionesDesde(ts, pos, xs, fin)`: the same reading for the statements of a block. */
  ghost predicate InstruccionesDesde(ts: seq<Token>, pos: nat, xs: seq<Nodo>, fin: nat)
    decreases |xs|
  {
    pos < |ts|
    && if xs == [] then fin == pos && Coincide(ts[pos], Delimitador, Some("}"))
       else
         var x := ParseStatement(ts, pos);
         !Coincide(ts[pos], Delimitador, Some("}")) && x.Ok? && x.value.0 == xs[0]
         && InstruccionesDesde(ts, x.value.1, xs[1..], fin)
  }

  /** The statement loop appends exactly the statements read in source order up to the '}'. */
  lemma {:induction false} FormaDeInstrucciones(ts: seq<Token>, pos: nat, hechas: seq<Nodo>,
                                                xs: seq<Nodo>, fin: nat)
    requires pos <= |ts|
    ensures ParseInstrucciones(ts, pos, hechas) == Ok((hechas + xs, fin)) <==> InstruccionesDesde(ts, pos, xs, fin)
    decreases |ts| - pos
  {
    if pos < |ts| && !Coincide(ts[pos], Delimitador, Some("}")) && ParseStatement(ts, pos).Ok? {
      var (x, p) := ParseStatement(ts, pos).value;
      assert ParseInstrucciones(ts, pos, hechas) == ParseInstrucciones(ts, p, hechas + [x]);
      if xs != [] {
        assert hechas + xs == (hechas + [x]) + xs[1..] <==> x == xs[0] by {
          if hechas + xs == (hechas + [x]) + xs[1..] {
            assert (hechas + xs)[|hechas|] == ((hechas + [x]) + xs[1..])[|hechas|];
          }
        }
        FormaDeInstrucciones(ts, p, hechas + [x], xs[1..], fin);
      } else {
        assert ParseInstrucciones(ts, p, hechas + [x]).Ok? ==> |ParseInstrucciones(ts, p, hechas + [x]).value.0| > |hechas|;
      }
    } else if xs != [] {
      assert |hechas + xs| > |hechas|;
    } else {
      assert hechas + xs == hechas;
    }
  }

  /** `ArgumentosDesde(ts, pos, xs, fin)`: each argument of `xs` is read after its own ',' from
      `pos` on, and the token at `fin` is not a ','. */
  ghost predicate ArgumentosDesde(ts: seq<Token>, pos: nat, xs: seq<Nodo>, fin: nat)
    decreases |xs|
  {
    pos < |ts|
    && if xs == [] then fin == pos && !Coincide(ts[pos], Delimitador, Some(","))
       else
         var x := ParseExpresionCompleja(ts, pos + 1);
         Coincide(ts[pos], Delimitador, Some(",")) && x.Ok? && x.value.0 == xs[0]
         && ArgumentosDesde(ts, x.value.1, xs[1..], fin)
  }

  /** The argument loop appends exactly the arguments read after each ',' in source order. */
  lemma {:induction false} FormaDeArgumentos(ts: seq<Token>, pos: nat, hechos: seq<Nodo>,
                                             xs: seq<Nodo>, fin: nat)
    requires pos <= |ts|
    ensures ParseArgumentos(ts, pos, hechos) == Ok((hechos + xs, fin)) <==> ArgumentosDesde(ts, pos, xs, fin)
    decreases |ts| - pos
  {
    if pos < |ts| && Coincide(ts[pos], Delimitador, Some(",")) && ParseExpresionCompleja(ts, pos + 1).Ok? {
      var (x, p) := ParseExpresionCompleja(ts, pos + 1).value;
      assert ParseArgumentos(ts, pos, hechos) == ParseArgumentos(ts, p, hechos + [x]);
      if xs != [] {
        assert hechos + xs == (hechos + [x]) + xs[1..] <==> x == xs[0] by {
          if hechos + xs == (hechos + [x]) + xs[1..] {
            assert (hechos + xs)[|hechos|] == ((hechos + [x]) + xs[1..])[|hechos|];
          }
        }
        FormaDeArgumentos(ts, p, hechos + [x], xs[1..], fin);
      } else {
        assert ParseArgumentos(ts, p, hechos + [x]).Ok? ==> |ParseArgumentos(ts, p, hechos + [x]).value.0| > |hechos|;
      }
    } else if xs != [] {
      assert |hechos + xs| > |hechos|;
    } else {
      assert hechos + xs == hechos;
    }
  }

  /** A block reads '{', its statements up to the '}' at `q`, and consumes that '}'. */
  lemma {:induction false} FormaDeBloque(ts: seq<Token>, pos: nat) returns (xs: seq<Nodo>, q: nat)
    requires pos <= |ts|
    requires ParseBlock(ts, pos).Ok?
    ensures pos < |ts| && Coincide(ts[pos], Delimitador, Some("{"))
    ensures ParseInstrucciones(ts, pos + 1, []) == Ok((xs, q)) && InstruccionesDesde(ts, pos + 1, xs, q)
    ensures q < |ts| && Coincide(ts[q], Delimitador, Some("}"))
    ensures ParseBlock(ts, pos) == Ok((NodoBloque(xs), q + 1))
  {
    if Consume(ts, pos, Delimitador, Some("{")).Err? { assert false; }
    var i := ParseInstrucciones(ts, pos + 1, []);
    if i.Err? { assert false; }
    xs, q := i.value.0, i.value.1;
    assert ParseBlock(ts, pos) == Ok((NodoBloque(xs), q + 1));
    FormaDeInstrucciones(ts, pos + 1, [], xs, q);
    assert [] + xs == xs;
  }

  /** A class reads "class", its name, '{', its methods up to the '}' at `q`, and that '}'. */
  lemma {:induction false} FormaDeClase(ts: seq<Token>, pos: nat) returns (ms: seq<NodoMetodo>, q: nat)
    requires pos <= |ts|
    requires ParseClass(ts, pos).Ok?
    ensures pos + 2 < |ts| && Coincide(ts[pos], PalabraReservada, Some("class"))
            && ts[pos + 1].tipo == Identificador && Coincide(ts[pos + 2], Delimitador, Some("{"))
    ensures ParseMetodos(ts, pos + 3, []) == Ok((ms, q)) && MetodosDesde(ts, pos + 3, ms, q)
    ensures q < |ts| && Coincide(ts[q], Delimitador, Some("}"))
    ensures ParseClass(ts, pos) == Ok((NodoClase(ts[pos + 1].valor, ms), q + 1))
  {
    if Consume(ts, pos, PalabraReservada, Some("class")).Err? { assert false; }
    if Consume(ts, pos + 1, Identificador, None).Err? { assert false; }
    if Consume(ts, pos + 2, Delimitador, Some("{")).Err? { assert false; }
    var m := ParseMetodos(ts, pos + 3, []);
    if m.Err? { assert false; }
    ms, q := m.value.0, m.value.1;
    assert ParseClass(ts, pos) == Ok((NodoClase(ts[pos + 1].valor, ms), q + 1));
    FormaDeMetodos(ts, pos + 3, [], ms, q);
    assert [] + ms == ms;
  }

  /** A namespace reads "namespace", its name, '{', its classes up to the '}' at `q`, and that '}'. */
  lemma {:induction false} FormaDeNamespace(ts: seq<Token>, pos: nat) returns (cs: seq<NodoClase>, q: nat)
    requires pos <= |ts|
    requires ParseNamespace(ts, pos).Ok?
    ensures pos + 2 < |ts| && Coincide(ts[pos], PalabraReservada, Some("namespace"))
            && ts[pos + 1].tipo == Identificador && Coincide(ts[pos + 2], Delimitador, Some("{"))
    ensures ParseClases(ts, pos + 3, []) == Ok((cs, q)) && ClasesDesde(ts, pos + 3, cs, q)
    ensures q < |ts| && Coincide(ts[q], Delimitador, Some("}"))
    ensures ParseNamespace(ts, pos) == Ok((NodoNamespace(ts[pos + 1].valor, cs), q + 1))
  {
    if Consume(ts, pos, PalabraReservada, Some("namespace")).Err? { assert false; }
    if Consume(ts, pos + 1, Identificador, None).Err? { assert false; }
    if Consume(ts, pos + 2, Delimitador, Some("{")).Err? { assert false; }
    var c := ParseClases(ts, pos + 3, []);
    if c.Err? { assert false; }
    cs, q := c.value.0, c.value.1;
    assert ParseNamespace(ts, pos) == Ok((NodoNamespace(ts[pos + 1].valor, cs), q + 1));
    FormaDeClases(ts, pos + 3, [], cs, q);
    assert [] + cs == cs;
  }

  /** A program is the `using` directives up to `p` followed by one namespace; `Parse` gives
      that program node, read from the first token. */
  lemma {:induction false} FormaDePrograma(ts: seq<Token>, pos: nat) returns (p: nat)
    requires pos <= |ts|
    requires ParseProgram(ts, pos).Ok?
    ensures SaltarUsings(ts, pos) == Ok(p) && Directivas(ts, pos, p)
    ensures ParseNamespace(ts, p).Ok?
    ensures ParseProgram(ts, pos) == Ok((Programa(ParseNamespace(ts, p).value.0), ParseNamespace(ts, p).value.1))
    ensures pos == 0 ==> Parse(ts) == Ok(Programa(ParseNamespace(ts, p).value.0))
  {
    var u := SaltarUsings(ts, pos);
    if u.Err? { assert false; }
    p := u.value;
    FormaDeUsings(ts, pos, p);
    if ParseNamespace(ts, p).Err? { assert false; }
  }

  /** A call reads its name and '('; with ')' next it has no arguments, otherwise a first
      argument and then the ones after each ','; ")" and ";" close it. */
  lemma {:induction false} FormaDeLlamada(ts: seq<Token>, pos: nat) returns (xs: seq<Nodo>, q: nat)
    requires pos <= |ts|
    requires ParseLlamadaMetodo(ts, pos).Ok?
    ensures q <= |ts|
    ensures pos + 2 < |ts| && ts[pos].tipo == Identificador && Coincide(ts[pos + 1], Delimitador, Some("("))
    ensures Coincide(ts[pos + 2], Delimitador, Some(")")) ==> xs == [] && q == pos + 2
    ensures !Coincide(ts[pos + 2], Delimitador, Some(")")) ==>
              var a := ParseExpresionCompleja(ts, pos + 2);
              a.Ok? && xs != [] && xs[0] == a.value.0 && ArgumentosDesde(ts, a.value.1, xs[1..], q)
    ensures ParseLlamadaMetodo(ts, pos) == CerrarLlamada(ts, q, ts[pos].valor, xs)
  {
    if Consume(ts, pos, Identificador, None).Err? { assert false; }
    if Consume(ts, pos + 1, Delimitador, Some("(")).Err? { assert false; }
    if pos + 2 >= |ts| { assert false; }
    if Coincide(ts[pos + 2], Delimitador, Some(")")) {
      xs, q := [], pos + 2;
    } else {
      var a := ParseExpresionCompleja(ts, pos + 2);
      if a.Err? { assert false; }
      var r := ParseArgumentos(ts, a.value.1, [a.value.0]);
      if r.Err? { assert false; }
      xs, q := r.value.0, r.value.1;
      FormaDeArgumentos(ts, a.value.1, [a.value.0], xs[1..], q);
      assert [a.value.0] + xs[1..] == xs;
    }
  }

  /** A method call on the right of '=' in an assignment parses, and then fails the cast to an
      expression leaf. */
  lemma AsignacionDeLlamadaFalla(ts: seq<Token>, pos: nat)
    requires pos + 3 < |ts|
    requires ts[pos].tipo == Identificador && Coincide(ts[pos + 1], Operador, Some("="))
    requires ts[pos + 2].tipo == Identificador && ts[pos + 3].valor == "("
    requires ParseLlamadaMetodo(ts, pos + 2).Ok?
    ensures ParseStatement(ts, pos) == Err(ConversionInvalida)
  {
  }

  /** The same holds for a call as the initializer of a typed declaration. */
  lemma DeclaracionDeLlamadaFalla(ts: seq<Token>, pos: nat)
    requires pos + 4 < |ts|
    requires IsTipoDeclaracion(ts, pos) == Ok(true)
    requires ts[pos + 1].tipo == Identificador && Coincide(ts[pos + 2], Operador, Some("="))
    requires ts[pos + 3].tipo == Identificador && ts[pos + 4].valor == "("
    requires ParseLlamadaMetodo(ts, pos + 3).Ok?
    ensures ParseStatement(ts, pos) == Err(ConversionInvalida)
  {
  }

  /** A call read as an expression is the whole call statement: it consumes the ';' after ')'. */
  lemma LlamadaEnExpresion(ts: seq<Token>, pos: nat)
    requires pos + 1 < |ts| && ts[pos].tipo == Identificador && ts[pos + 1].valor == "("
    ensures ParseExpresionCompleja(ts, pos) == ParseLlamadaMetodo(ts, pos)
    ensures ParseExpresionCompleja(ts, pos).Ok? ==>
              Coincide(ts[ParseExpresionCompleja(ts, pos).value.1 - 1], Delimitador, Some(";"))
  {
  }

  /** With no reserved "namespace" token from `pos` on, the program cannot parse. */
  lemma SinNamespaceNoHayPrograma(ts: seq<Token>, pos: nat)
    requires pos <= |ts|
    requires forall k :: pos <= k < |ts| ==> !Coincide(ts[k], PalabraReservada, Some("namespace"))
    ensures ParseProgram(ts, pos).Err?
  {
  }

  // ---------------------------------------------------------------------------
  // Examples

  /** The tokens of `namespace N { class C { void M() { int x = 1; } } }`, with "namespace"
      tokenized as a reserved word. */
  ghost predicate EsEjemplo(ts: seq<Token>)
  {
    |ts| == 20
    && ts[0] == Token(PalabraReservada, "namespace", 1, 1)
    && ts[1] == Token(Identificador, "N", 1, 11)
    && ts[2] == Token(Delimitador, "{", 1, 13)
    && ts[3] == Token(PalabraReservada, "class", 1, 15)
    && ts[4] == Token(Identificador, "C", 1, 21)
    && ts[5] == Token(Delimitador, "{", 1, 23)
    && ts[6] == Token(PalabraReservada, "void", 1, 25)
    && ts[7] == Token(Identificador, "M", 1, 30)
    && ts[8] == Token(Delimitador, "(", 1, 31)
    && ts[9] == Token(Delimitador, ")", 1, 32)
    && ts[10] == Token(Delimitador, "{", 1, 34)
    && ts[11] == Token(PalabraReservada, "int", 1, 36)
    && ts[12] == Token(Identificador, "x", 1, 40)
    && ts[13] == Token(Operador, "=", 1, 42)
    && ts[14] == Token(Numero, "1", 1, 44)
    && ts[15] == Token(Delimitador, ";", 1, 45)
    && ts[16] == Token(Delimitador, "}", 1, 47)
    && ts[17] == Token(Delimitador, "}", 1, 49)
    && ts[18] == Token(Delimitador, "}", 1, 51)
    && ts[19] == Token(FinArchivo, "EOF", 1, 52)
  }

  lemma EjemploSentencia(ts: seq<Token>)
    requires EsEjemplo(ts)
    ensures ParseStatement(ts, 11) == Ok((Asignacion("x", Some(Expresion("1"))), 16))
  {
    assert ParseExpresionCompleja(ts, 14) == Ok((Expresion("1"), 15));
  }

  /** The method body `{ int x = 1; }` is a block of one assignment: the type is dropped. */
  lemma EjemploBloque(ts: seq<Token>)
    requires EsEjemplo(ts)
    ensures ParseBlock(ts, 10) == Ok((NodoBloque([Asignacion("x", Some(Expresion("1")))]), 17))
  {
    var asignacion := Asignacion("x", Some(Expresion("1")));
    EjemploSentencia(ts);
    assert ParseInstrucciones(ts, 16, [asignacion]) == Ok(([asignacion], 16));
    assert ParseInstrucciones(ts, 11, []) == Ok(([asignacion], 16));
  }

  lemma EjemploMetodo(ts: seq<Token>)
    requires EsEjemplo(ts)
    ensures ParseMethod(ts, 6)
            == Ok((NodoMetodo("M", NodoBloque([Asignacion("x", Some(Expresion("1")))])), 17))
  {
    EjemploBloque(ts);
    assert SaltarHasta(ts, 7, Identificador, None) == Ok(7);
    assert SaltarHasta(ts, 6, Identificador, None) == Ok(7);
    assert Consume(ts, 8, Delimitador, Some("(")) == Ok((ts[8], 9));
    assert SaltarHasta(ts, 9, Delimitador, Some(")")) == Ok(9);
    assert ts[7].valor == "M";
  }

  lemma EjemploClase(ts: seq<Token>)
    requires EsEjemplo(ts)
    ensures ParseClass(ts, 3)
            == Ok((NodoClase("C", [NodoMetodo("M", NodoBloque([Asignacion("x", Some(Expresion("1")))]))]), 18))
  {
    var metodo := NodoMetodo("M", NodoBloque([Asignacion("x", Some(Expresion("1")))]));
    EjemploMetodo(ts);
    assert ParseMetodos(ts, 17, [metodo]) == Ok(([metodo], 17));
    assert ParseMetodos(ts, 6, []) == Ok(([metodo], 17));
    assert Consume(ts, 3, PalabraReservada, Some("class")) == Ok((ts[3], 4));
    assert Consume(ts, 4, Identificador, None) == Ok((ts[4], 5));
    assert Consume(ts, 5, Delimitador, Some("{")) == Ok((ts[5], 6));
  }

  /** The whole example parses to one namespace holding one class holding one method. */
  lemma EjemploPrograma(ts: seq<Token>)
    requires EsEjemplo(ts)
    ensures Parse(ts) == Ok(Programa(NodoNamespace("N", [NodoClase("C", [
              NodoMetodo("M", NodoBloque([Asignacion("x", Some(Expresion("1")))]))])])))
  {
    var clase := NodoClase("C", [NodoMetodo("M", NodoBloque([Asignacion("x", Some(Expresion("1")))]))]);
    EjemploClase(ts);
    assert ParseClases(ts, 18, [clase]) == Ok(([clase], 18));
    assert ParseClases(ts, 3, []) == Ok(([clase], 18));
    assert Consume(ts, 0, PalabraReservada, Some("namespace")) == Ok((ts[0], 1));
    assert Consume(ts, 1, Identificador, None) == Ok((ts[1], 2));
    assert Consume(ts, 2, Delimitador, Some("{")) == Ok((ts[2], 3));
    assert ParseNamespace(ts, 0) == Ok((NodoNamespace("N", [clase]), 19));
    assert SaltarUsings(ts, 0) == Ok(0);
  }

  /** A call as an argument carries its own ';': `g(f(););` parses to a call of g whose one
      argument is the call of f. */
  lemma EjemploLlamadaAnidada()
    ensures ParseStatement([Token(Identificador, "g", 1, 1), Token(Delimitador, "(", 1, 2),
                            Token(Identificador, "f", 1, 3), Token(Delimitador, "(", 1, 4),
                            Token(Delimitador, ")", 1, 5), Token(Delimitador, ";", 1, 6),
                            Token(Delimitador, ")", 1, 7), Token(Delimitador, ";", 1, 8)], 0)
            == Ok((LlamadaMetodo("g", [LlamadaMetodo("f", [])]), 8))
  {
    var ts := [Token(Identificador, "g", 1, 1), Token(Delimitador, "(", 1, 2),
               Token(Identificador, "f", 1, 3), Token(Delimitador, "(", 1, 4),
               Token(Delimitador, ")", 1, 5), Token(Delimitador, ";", 1, 6),
               Token(Delimitador, ")", 1, 7), Token(Delimitador, ";", 1, 8)];
    assert ParseExpresionCompleja(ts, 2) == Ok((LlamadaMetodo("f", []), 6));
    assert ParseArgumentos(ts, 6, [LlamadaMetodo("f", [])]) == Ok(([LlamadaMetodo("f", [])], 6));
  }

  /** Without that ';', `g(f());` stops at the second ')', where a ';' was expected. */
  lemma EjemploLlamadaSinPuntoYComa()
    ensures ParseStatement([Token(Identificador, "g", 1, 1), Token(Delimitador, "(", 1, 2),
                            Token(Identificador, "f", 1, 3), Token(Delimitador, "(", 1, 4),
                            Token(Delimitador, ")", 1, 5), Token(Delimitador, ")", 1, 6),
                            Token(Delimitador, ";", 1, 7)], 0)
            == Err(Esperado(Delimitador, Some(";"), Token(Delimitador, ")", 1, 6)))
  {
    var ts := [Token(Identificador, "g", 1, 1), Token(Delimitador, "(", 1, 2),
               Token(Identificador, "f", 1, 3), Token(Delimitador, "(", 1, 4),
               Token(Delimitador, ")", 1, 5), Token(Delimitador, ")", 1, 6),
               Token(Delimitador, ";", 1, 7)];
    assert ParseExpresionCompleja(ts, 2) == Err(Esperado(Delimitador, Some(";"), Token(Delimitador, ")", 1, 6)));
  }

  /** An unclosed namespace runs off the end of the token list. */
  lemma EjemploSinCierre()
    ensures Parse([Token(PalabraReservada, "namespace", 1, 1), Token(Identificador, "N", 1, 11),
                   Token(Delimitador, "{", 1, 13)]) == Err(FueraDeRango(3))
  {
    var ts := [Token(PalabraReservada, "namespace", 1, 1), Token(Identificador, "N", 1, 11),
               Token(Delimitador, "{", 1, 13)];
    assert ParseClases(ts, 3, []) == Err(FueraDeRango(3));
  }
}
