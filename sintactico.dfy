/** The parser object: a token list, a cursor into it, and the AST list `Parse` fills.
    Every method is proved to return what the grammar function of the same name in
    `Gramatica` gives for the cursor on entry, and to leave the cursor where that function
    says. A thrown exception is an `Err` result; where the cursor stands after one is left open. */
module Sintactico {
  import opened Wrappers
  import opened Tokens
  import opened Ast
  import G = Gramatica

  /** A method's result together with the cursor it leaves, in the grammar functions' shape. */
  ghost predicate Refleja<T>(r: Result<T, G.Falla>, cursor: nat, g: G.Paso<T>) {
    match g
    case Ok(v) => r == Ok(v.0) && cursor == v.1
    case Err(f) => r == Err(f)
  }

  /** The same for the skip loops, which return nothing but the cursor. */
  ghost predicate ReflejaSalto(r: Result<(), G.Falla>, cursor: nat, g: Result<nat, G.Falla>) {
    match g
    case Ok(p) => r.Ok? && cursor == p
    case Err(f) => r == Err(f)
  }

  class AnalizadorSintactico {
    const tokens: seq<Token>
    var currentIndex: nat
    /** Declared for syntax errors; nothing ever adds to it. */
    var errores: seq<string>
    /** Null until `Parse` succeeds, then the one-element list holding the program. */
    var ast: Option<seq<Nodo>>

    ghost predicate Valid()
      reads this
    {
      currentIndex <= |tokens|
    }

    constructor (tokens: seq<Token>)
      ensures Valid()
      ensures this.tokens == tokens && currentIndex == 0 && errores == [] && ast == None
    {
      this.tokens := tokens;
      currentIndex := 0;
      errores := [];
      ast := None;
    }

    /** Parses the program from the cursor; on success `ast` holds exactly the program node,
        otherwise the exception is returned and `ast` is left as it was. */
    method Parse() returns (excepcion: Option<G.Falla>)
      requires Valid()
      modifies this`currentIndex, this`ast
      ensures Valid() && old(currentIndex) <= currentIndex
      ensures G.ParseProgram(tokens, old(currentIndex)).Ok? ==>
                excepcion.None? && ast == Some([G.ParseProgram(tokens, old(currentIndex)).value.0])
      ensures G.ParseProgram(tokens, old(currentIndex)).Err? ==>
                excepcion == Some(G.ParseProgram(tokens, old(currentIndex)).error) && ast == old(ast)
    {
      var programa := ParseProgram();
      match programa
      case Ok(p) =>
        ast := Some([p]);
        excepcion := None;
      case Err(f) =>
        excepcion := Some(f);
    }

    method ParseProgram() returns (r: Result<Nodo, G.Falla>)
      requires Valid()
      modifies this`currentIndex
      ensures Valid() && old(currentIndex) <= currentIndex
      ensures Refleja(r, currentIndex, G.ParseProgram(tokens, old(currentIndex)))
    {
      ghost var inicio := currentIndex;
      var esUsing :- Match(PalabraReservada, Some("using"));
      while esUsing
        invariant Valid() && old(currentIndex) <= currentIndex < |tokens|
        invariant esUsing == G.Coincide(tokens[currentIndex], PalabraReservada, Some("using"))
        invariant G.SaltarUsings(tokens, inicio) == G.SaltarUsings(tokens, currentIndex)
        decreases |tokens| - currentIndex
      {
        var saltado :- SaltarHasta(Delimitador, Some(";"));
        var puntoYComa := Consume(Delimitador, Some(";"));
        esUsing :- Match(PalabraReservada, Some("using"));
      }
      var espacio :- ParseNamespace();
      r := Ok(Programa(espacio));
    }

    method ParseNamespace() returns (r: Result<NodoNamespace, G.Falla>)
      requires Valid()
      modifies this`currentIndex
      ensures Valid() && old(currentIndex) <= currentIndex
      ensures Refleja(r, currentIndex, G.ParseNamespace(tokens, old(currentIndex)))
    {
      var palabra :- Consume(PalabraReservada, Some("namespace"));
      var nombre :- Consume(Identificador, None);
      var llave :- Consume(Delimitador, Some("{"));
      ghost var inicio := currentIndex;
      var clases: seq<NodoClase> := [];
      var cierra :- Match(Delimitador, Some("}"));
      while !cierra
        invariant Valid() && old(currentIndex) <= currentIndex < |tokens|
        invariant cierra == G.Coincide(tokens[currentIndex], Delimitador, Some("}"))
        invariant G.ParseClases(tokens, inicio, []) == G.ParseClases(tokens, currentIndex, clases)
        decreases |tokens| - currentIndex
      {
        var clase :- ParseClass();
        clases := clases + [clase];
        cierra :- Match(Delimitador, Some("}"));
      }
      var llaveFinal := Consume(Delimitador, Some("}"));
      r := Ok(NodoNamespace(nombre.valor, clases));
    }

    method ParseClass() returns (r: Result<NodoClase, G.Falla>)
      requires Valid()
      modifies this`currentIndex
      ensures Valid() && old(currentIndex) <= currentIndex
      ensures Refleja(r, currentIndex, G.ParseClass(tokens, old(currentIndex)))
    {
      var palabra :- Consume(PalabraReservada, Some("class"));
      var nombre :- Consume(Identificador, None);
      var llave :- Consume(Delimitador, Some("{"));
      ghost var inicio := currentIndex;
      var metodos: seq<NodoMetodo> := [];
      var cierra :- Match(Delimitador, Some("}"));
      while !cierra
        invariant Valid() && old(currentIndex) <= currentIndex < |tokens|
        invariant cierra == G.Coincide(tokens[currentIndex], Delimitador, Some("}"))
        invariant G.ParseMetodos(tokens, inicio, []) == G.ParseMetodos(tokens, currentIndex, metodos)
        decreases |tokens| - currentIndex
      {
        var metodo :- ParseMethod();
        metodos := metodos + [metodo];
        cierra :- Match(Delimitador, Some("}"));
      }
      var llaveFinal := Consume(Delimitador, Some("}"));
      r := Ok(NodoClase(nombre.valor, metodos));
    }

    method ParseMethod() returns (r: Result<NodoMetodo, G.Falla>)
      requires Valid()
      modifies this`currentIndex
      ensures Valid() && old(currentIndex) <= currentIndex
      ensures Refleja(r, currentIndex, G.ParseMethod(tokens, old(currentIndex)))
    {
      var hastaNombre :- SaltarHasta(Identificador, None);
      ghost var q1 := currentIndex;
      var nombre := Consume(Identificador, None);
      var parentesis :- Consume(Delimitador, Some("("));
      var hastaCierre :- SaltarHasta(Delimitador, Some(")"));
      ghost var q2 := currentIndex;
      var cierre := Consume(Delimitador, Some(")"));
      var cuerpo :- ParseBlock();
      r := Ok(NodoMetodo(nombre.value.valor, cuerpo));
    }

    method ParseBlock() returns (r: Result<NodoBloque, G.Falla>)
      requires Valid()
      modifies this`currentIndex
      ensures Valid() && old(currentIndex) <= currentIndex
      ensures Refleja(r, currentIndex, G.ParseBlock(tokens, old(currentIndex)))
      decreases |tokens| - currentIndex, 0
    {
      var llave :- Consume(Delimitador, Some("{"));
      ghost var inicio := currentIndex;
      var instrucciones: seq<Nodo> := [];
      var cierra :- Match(Delimitador, Some("}"));
      while !cierra
        invariant Valid() && old(currentIndex) < currentIndex < |tokens|
        invariant cierra == G.Coincide(tokens[currentIndex], Delimitador, Some("}"))
        invariant G.ParseInstrucciones(tokens, inicio, [])
                  == G.ParseInstrucciones(tokens, currentIndex, instrucciones)
        decreases |tokens| - currentIndex
      {
        var instruccion :- ParseStatement();
        instrucciones := instrucciones + [instruccion];
        cierra :- Match(Delimitador, Some("}"));
      }
      var llaveFinal := Consume(Delimitador, Some("}"));
      r := Ok(NodoBloque(instrucciones));
    }

    method ParseStatement() returns (r: Result<Nodo, G.Falla>)
      requires Valid()
      modifies this`currentIndex
      ensures Valid() && old(currentIndex) <= currentIndex
      ensures Refleja(r, currentIndex, G.ParseStatement(tokens, old(currentIndex)))
      decreases |tokens| - currentIndex, 2
    {
      var esIf :- Match(PalabraReservada, Some("if"));
      if esIf {
        r := ParseIf();
        return;
      }
      // The current token exists from here on, so the remaining queries cannot fail.
      var esFor := Match(PalabraReservada, Some("for"));
      if esFor == Ok(true) {
        r := ParseFor();
        return;
      }
      var esTipo := IsTipoDeclaracion();
      if esTipo == Ok(true) {
        r := ParseDeclaracionConInicializacion();
        return;
      }
      var esId := Match(Identificador, None);
      if esId == Ok(true) {
        var siguiente := LookAhead(1);
        if siguiente.Some? && siguiente.value.valor == "=" {
          r := ParseAsignacion();
          return;
        } else if siguiente.Some? && siguiente.value.valor == "(" {
          r := ParseLlamadaMetodo();
          return;
        }
      }
      r := Err(G.SentenciaNoReconocida);
    }

    method ParseIf() returns (r: Result<Nodo, G.Falla>)
      requires Valid()
      modifies this`currentIndex
      ensures Valid() && old(currentIndex) <= currentIndex
      ensures Refleja(r, currentIndex, G.ParseIf(tokens, old(currentIndex)))
      decreases |tokens| - currentIndex, 1
    {
      var palabra :- Consume(PalabraReservada, Some("if"));
      var abre :- Consume(Delimitador, Some("("));
      var condicion :- ParseExpresionCompleja();
      var cierra :- Consume(Delimitador, Some(")"));
      var sentenciaIf :- ParseStatement();
      r := ParseElse(condicion, sentenciaIf);
    }

    /** The tail of `ParseIf`: an optional "else" and its statement. */
    method ParseElse(condicion: Nodo, sentenciaIf: Nodo) returns (r: Result<Nodo, G.Falla>)
      requires Valid()
      modifies this`currentIndex
      ensures Valid() && old(currentIndex) <= currentIndex
      ensures Refleja(r, currentIndex, G.ParseElse(tokens, old(currentIndex), condicion, sentenciaIf))
      decreases |tokens| - currentIndex, 1
    {
      var esElse :- Match(PalabraReservada, Some("else"));
      if esElse {
        var palabraElse := Consume(PalabraReservada, Some("else"));
        var sentenciaElse :- ParseStatement();
        return Ok(If(Some(condicion), Some(sentenciaIf), Some(sentenciaElse)));
      }
      r := Ok(If(Some(condicion), Some(sentenciaIf), None));
    }

    method ParseFor() returns (r: Result<Nodo, G.Falla>)
      requires Valid()
      modifies this`currentIndex
      ensures Valid() && old(currentIndex) <= currentIndex
      ensures Refleja(r, currentIndex, G.ParseFor(tokens, old(currentIndex)))
      decreases |tokens| - currentIndex, 1
    {
      var palabra :- Consume(PalabraReservada, Some("for"));
      var abre :- Consume(Delimitador, Some("("));
      var inicializacion :- ParseStatement();
      var condicion :- ParseExpresionCompleja();
      var separador :- Consume(Delimitador, Some(";"));
      var iteracion :- ParseExpresionCompleja();
      var cierra :- Consume(Delimitador, Some(")"));
      var cuerpo :- ParseBlock();
      r := Ok(For(inicializacion, condicion, iteracion, cuerpo));
    }

    method ParseDeclaracionConInicializacion() returns (r: Result<Nodo, G.Falla>)
      requires Valid()
      modifies this`currentIndex
      ensures Valid() && old(currentIndex) <= currentIndex
      ensures Refleja(r, currentIndex, G.ParseDeclaracionConInicializacion(tokens, old(currentIndex)))
      decreases |tokens| - currentIndex, 1
    {
      if currentIndex >= |tokens| {
        return Err(G.FueraDeRango(currentIndex));
      }
      var tipo := tokens[currentIndex].valor;
      var palabra :- Consume(PalabraReservada, None);
      var identificador :- Consume(Identificador, None);
      var igual :- Match(Operador, Some("="));
      if igual {
        var asigna := Consume(Operador, Some("="));
        var valor :- ParseExpresionCompleja();
        var expresion :- G.ComoExpresion(valor);
        var fin :- Consume(Delimitador, Some(";"));
        return Ok(Asignacion(identificador.valor, Some(expresion)));
      }
      var fin :- Consume(Delimitador, Some(";"));
      r := Ok(Declaracion(tipo, identificador.valor));
    }

    method ParseExpresionCompleja() returns (r: Result<Nodo, G.Falla>)
      requires Valid()
      modifies this`currentIndex
      ensures Valid() && old(currentIndex) <= currentIndex
      ensures Refleja(r, currentIndex, G.ParseExpresionCompleja(tokens, old(currentIndex)))
      decreases |tokens| - currentIndex, 1
    {
      var esId :- Match(Identificador, None);
      var siguiente := LookAhead(1);
      if esId && siguiente.Some? && siguiente.value.valor == "(" {
        r := ParseLlamadaMetodo();
      } else {
        r := ParseExpresion();
      }
    }

    method ParseExpresion() returns (r: Result<Nodo, G.Falla>)
      requires Valid()
      modifies this`currentIndex
      ensures Valid() && old(currentIndex) <= currentIndex
      ensures Refleja(r, currentIndex, G.ParseExpresion(tokens, old(currentIndex)))
    {
      var token :- Advance();
      r := Ok(Expresion(token.valor));
    }

    method ParseAsignacion() returns (r: Result<Nodo, G.Falla>)
      requires Valid()
      modifies this`currentIndex
      ensures Valid() && old(currentIndex) <= currentIndex
      ensures Refleja(r, currentIndex, G.ParseAsignacion(tokens, old(currentIndex)))
      decreases |tokens| - currentIndex, 1
    {
      var identificador :- Consume(Identificador, None);
      var igual :- Consume(Operador, Some("="));
      var valor :- ParseExpresionCompleja();
      var expresion :- G.ComoExpresion(valor);
      var fin :- Consume(Delimitador, Some(";"));
      r := Ok(Asignacion(identificador.valor, Some(expresion)));
    }

    method ParseLlamadaMetodo() returns (r: Result<Nodo, G.Falla>)
      requires Valid()
      modifies this`currentIndex
      ensures Valid() && old(currentIndex) <= currentIndex
      ensures Refleja(r, currentIndex, G.ParseLlamadaMetodo(tokens, old(currentIndex)))
      decreases |tokens| - currentIndex, 0
    {
      var nombre :- Consume(Identificador, None);
      var abre :- Consume(Delimitador, Some("("));
      var argumentos: seq<Nodo> := [];
      var vacia :- Match(Delimitador, Some(")"));
      if !vacia {
        var primero :- ParseExpresionCompleja();
        argumentos :- ParseArgumentos([primero]);
      }
      var cierra :- Consume(Delimitador, Some(")"));
      var fin :- Consume(Delimitador, Some(";"));
      r := Ok(LlamadaMetodo(nombre.valor, argumentos));
    }

    /** The loop of `ParseLlamadaMetodo` that reads ", argument" pairs after the first argument. */
    method ParseArgumentos(hechos: seq<Nodo>) returns (r: Result<seq<Nodo>, G.Falla>)
      requires Valid()
      modifies this`currentIndex
      ensures Valid() && old(currentIndex) <= currentIndex
      ensures Refleja(r, currentIndex, G.ParseArgumentos(tokens, old(currentIndex), hechos))
      decreases |tokens| - currentIndex, 0
    {
      var argumentos := hechos;
      var coma :- Match(Delimitador, Some(","));
      while coma
        invariant Valid() && old(currentIndex) <= currentIndex < |tokens|
        invariant coma == G.Coincide(tokens[currentIndex], Delimitador, Some(","))
        invariant G.ParseArgumentos(tokens, old(currentIndex), hechos)
                  == G.ParseArgumentos(tokens, currentIndex, argumentos)
        decreases |tokens| - currentIndex
      {
        var separador := Consume(Delimitador, Some(","));
        var argumento :- ParseExpresionCompleja();
        argumentos := argumentos + [argumento];
        coma :- Match(Delimitador, Some(","));
      }
      r := Ok(argumentos);
    }

    /** `IsTipoDeclaracion`: a query that leaves the cursor in place. */
    method IsTipoDeclaracion() returns (r: Result<bool, G.Falla>)
      requires Valid()
      ensures r == G.IsTipoDeclaracion(tokens, currentIndex)
    {
      if currentIndex >= |tokens| {
        return Err(G.FueraDeRango(currentIndex));
      }
      var token := tokens[currentIndex];
      r := Ok(token.tipo == PalabraReservada
              && (token.valor == "int" || token.valor == "string"
                  || token.valor == "decimal" || token.valor == "DateTime"));
    }

    /** The loop `while (!Match(tipo, valor)) Advance();`. */
    method SaltarHasta(tipo: TokenType, valor: Option<string>) returns (r: Result<(), G.Falla>)
      requires Valid()
      modifies this`currentIndex
      ensures Valid() && old(currentIndex) <= currentIndex
      ensures ReflejaSalto(r, currentIndex, G.SaltarHasta(tokens, old(currentIndex), tipo, valor))
    {
      ghost var inicio := currentIndex;
      var encontrado :- Match(tipo, valor);
      while !encontrado
        invariant Valid() && old(currentIndex) <= currentIndex < |tokens|
        invariant encontrado == G.Coincide(tokens[currentIndex], tipo, valor)
        invariant G.SaltarHasta(tokens, inicio, tipo, valor) == G.SaltarHasta(tokens, currentIndex, tipo, valor)
        decreases |tokens| - currentIndex
      {
        var saltado := Advance();
        encontrado :- Match(tipo, valor);
      }
      r := Ok(());
    }

    /** `Consume`: on a mismatch the cursor does not move. */
    method Consume(tipo: TokenType, valor: Option<string>) returns (r: Result<Token, G.Falla>)
      requires Valid()
      modifies this`currentIndex
      ensures Valid() && old(currentIndex) <= currentIndex
      ensures Refleja(r, currentIndex, G.Consume(tokens, old(currentIndex), tipo, valor))
      ensures r.Ok? <==> old(currentIndex) < |tokens| && G.Coincide(tokens[old(currentIndex)], tipo, valor)
      ensures r.Ok? ==> r.value == tokens[old(currentIndex)] && currentIndex == old(currentIndex) + 1
      ensures r.Err? ==> currentIndex == old(currentIndex)
    {
      var coincide :- Match(tipo, valor);
      if coincide {
        r := Advance();
      } else {
        r := Err(G.Esperado(tipo, valor, tokens[currentIndex]));
      }
    }

    /** `Match`: a query that leaves the cursor in place. */
    method Match(tipo: TokenType, valor: Option<string>) returns (r: Result<bool, G.Falla>)
      requires Valid()
      ensures r == G.Match(tokens, currentIndex, tipo, valor)
    {
      if currentIndex >= |tokens| {
        return Err(G.FueraDeRango(currentIndex));
      }
      var actual := tokens[currentIndex];
      r := Ok(actual.tipo == tipo && (valor.None? || actual.valor == valor.value));
    }

    method Advance() returns (r: Result<Token, G.Falla>)
      requires Valid()
      modifies this`currentIndex
      ensures Valid() && old(currentIndex) <= currentIndex
      ensures Refleja(r, currentIndex, G.Advance(tokens, old(currentIndex)))
    {
      if currentIndex >= |tokens| {
        return Err(G.FueraDeRango(currentIndex));
      }
      r := Ok(tokens[currentIndex]);
      currentIndex := currentIndex + 1;
    }

    /** `LookAhead`: a query that leaves the cursor in place. */
    method LookAhead(offset: nat) returns (r: Option<Token>)
      requires Valid()
      ensures r == G.LookAhead(tokens, currentIndex, offset)
    {
      if currentIndex + offset < |tokens| {
        r := Some(tokens[currentIndex + offset]);
      } else {
        r := None;
      }
    }
  }
}
