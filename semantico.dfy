/** The semantic visitor: one flat name-to-type table and an append-only list of error messages,
    threaded through a depth-first walk of the tree. `Analizado` gives the state after analysing
    a node; the class's methods are proved to reach exactly that state. */
module Semantico {
  import opened Wrappers
  import opened Numeros
  import opened Tokens
  import opened Ast
  import Lexico

  /** The analyzer's state: the symbol table (name to declared type) and the error list. */
  datatype Estado = Estado(tabla: map<string, string>, errores: seq<string>)

  const Inicial := Estado(map[], [])

  /** The text before the name in the two messages about a variable. */
  const PrefijoVariable := "Error semántico: La variable '"

  /** The text before the name in the type mismatch message. */
  const PrefijoTipo := "Error semántico: Tipo incompatible en la asignación de '"

  /** The message for a second declaration of `id`; the name is quoted after a fixed prefix. */
  function ErrorYaDeclarada(id: string): (r: string)
    ensures |PrefijoVariable| + |id| < |r| && r[|PrefijoVariable|..|PrefijoVariable| + |id|] == id
  {
    PrefijoVariable + (id + "' ya ha sido declarada.")
  }

  /** The message for an assignment to an undeclared `id`, with the name in the same place. */
  function ErrorNoDeclarada(id: string): (r: string)
    ensures |PrefijoVariable| + |id| < |r| && r[|PrefijoVariable|..|PrefijoVariable| + |id|] == id
  {
    PrefijoVariable + (id + "' no ha sido declarada.")
  }

  /** The message for an assignment whose inferred type differs from the declared one. */
  function ErrorIncompatible(id: string, declarado: string, obtenido: string): (r: string)
    ensures |PrefijoTipo| + |id| < |r| && r[|PrefijoTipo|..|PrefijoTipo| + |id|] == id
  {
    PrefijoTipo + (id + "'. Se esperaba '" + declarado + "', pero se obtuvo '" + obtenido + "'.")
  }

  /** The three messages never coincide, and each names its variable: an error list tells which
      check failed and for which name. */
  lemma MensajesDistintos(a: string, b: string, id: string, declarado: string, obtenido: string)
    ensures ErrorYaDeclarada(a) != ErrorNoDeclarada(b)
    ensures ErrorIncompatible(id, declarado, obtenido) != ErrorYaDeclarada(a)
    ensures ErrorIncompatible(id, declarado, obtenido) != ErrorNoDeclarada(a)
    ensures ErrorYaDeclarada(a) == ErrorYaDeclarada(b) ==> a == b
    ensures ErrorNoDeclarada(a) == ErrorNoDeclarada(b) ==> a == b
  {
    var ya, no := ErrorYaDeclarada(a), ErrorNoDeclarada(b);
    if |a| == |b| {
      assert ya[|PrefijoVariable| + |a| + 2] == 'y' && no[|PrefijoVariable| + |b| + 2] == 'n';
    }
    assert PrefijoTipo[17] == 'T' && PrefijoVariable[17] == 'L';
    assert ErrorIncompatible(id, declarado, obtenido)[17] == 'T';
    assert ya[17] == 'L' && ErrorNoDeclarada(a)[17] == 'L';
  }

  /** The value starts and ends with a double quote (one quote alone does both). */
  predicate EntreComillas(v: string) {
    |v| > 0 && v[0] == '"' && v[|v| - 1] == '"'
  }

  /** `EvaluarTipo`: a purely syntactic guess at the type of an expression node. */
  function EvaluarTipo(n: Option<Nodo>): (r: string)
    ensures r == "string" || r == "int" || r == "unknown"
    ensures r == "string" <==> n.Some? && n.value.Expresion? && EntreComillas(n.value.valor)
    ensures r == "int" <==> n.Some? && n.value.Expresion? && !EntreComillas(n.value.valor)
                            && TryParseInt32(n.value.valor).Some?
  {
    if n.Some? && n.value.Expresion? && |n.value.valor| > 0 then
      if EntreComillas(n.value.valor) then "string"
      else if TryParseInt32(n.value.valor).Some? then "int"
      else "unknown"
    else "unknown"
  }

  /** The visit of a declaration: the first declaration of a name records its type. */
  function Declarar(e: Estado, id: string, tipo: string): (r: Estado)
    ensures r.tabla.Keys == e.tabla.Keys + {id}
    ensures forall k :: k in e.tabla ==> r.tabla[k] == e.tabla[k]
  {
    if id !in e.tabla then Estado(e.tabla[id := tipo], e.errores)
    else Estado(e.tabla, e.errores + [ErrorYaDeclarada(id)])
  }

  /** The visit of an assignment: the name must be declared, and then the inferred type of the
      expression must equal the declared one. The table is never changed. */
  function Asignar(e: Estado, id: string, expresion: Option<Nodo>): (r: Estado)
    ensures r.tabla == e.tabla
  {
    if id !in e.tabla then Estado(e.tabla, e.errores + [ErrorNoDeclarada(id)])
    else
      var declarado := e.tabla[id];
      var obtenido := EvaluarTipo(expresion);
      if declarado != obtenido then Estado(e.tabla, e.errores + [ErrorIncompatible(id, declarado, obtenido)])
      else e
  }

  /** The state after `nodo.Aceptar(analizador)`: the dispatch picks the overload, and the
      Using, If and Return overloads visit their present children in field order. */
  function Analizado(e: Estado, n: Nodo): (r: Estado)
    ensures e.tabla.Keys <= r.tabla.Keys && |e.errores| <= |r.errores|
    decreases n, 1
  {
    match Aceptar(n)
    case None => e
    case Some(ParaUsing) => AnalizadoHijo(AnalizadoHijo(e, n, n.expresion), n, n.sentencia)
    case Some(ParaIf) =>
      AnalizadoHijo(AnalizadoHijo(AnalizadoHijo(e, n, n.condicion), n, n.sentenciaIf), n, n.sentenciaElse)
    case Some(ParaReturn) => AnalizadoHijo(e, n, n.expresion)
    case Some(ParaExpresion) => e
    case Some(ParaDeclaracion) => Declarar(e, n.identificador, n.tipo)
    case Some(ParaAsignacion) => Asignar(e, n.identificador, n.expresion)
  }

  /** A child that is null is skipped. */
  function AnalizadoHijo(e: Estado, padre: Nodo, hijo: Option<Nodo>): (r: Estado)
    requires hijo.Some? ==> hijo.value < padre
    ensures e.tabla.Keys <= r.tabla.Keys && |e.errores| <= |r.errores|
    decreases padre, 0
  {
    if hijo.Some? then Analizado(e, hijo.value) else e
  }

  // ---------------------------------------------------------------------------
  // Properties of the walk

  /** The names a walk declares: those of the declarations it reaches. */
  function Declarados(n: Nodo): set<string>
    decreases n, 1
  {
    match n
    case Using(a, b) => DeclaradosHijo(n, a) + DeclaradosHijo(n, b)
    case If(a, b, c) => DeclaradosHijo(n, a) + DeclaradosHijo(n, b) + DeclaradosHijo(n, c)
    case Return(a) => DeclaradosHijo(n, a)
    case Declaracion(_, id) => {id}
    case _ => {}
  }

  function DeclaradosHijo(padre: Nodo, hijo: Option<Nodo>): set<string>
    requires hijo.Some? ==> hijo.value < padre
    decreases padre, 0
  {
    if hijo.Some? then Declarados(hijo.value) else {}
  }

  /** Errors are only appended: the old list is a prefix of the new one. */
  lemma {:induction false} ErroresSoloCrecen(e: Estado, n: Nodo)
    ensures |e.errores| <= |Analizado(e, n).errores|
    ensures Analizado(e, n).errores[..|e.errores|] == e.errores
    decreases n
  {
    match n
    case Using(a, b) =>
      ErroresSoloCrecenHijo(e, n, a);
      ErroresSoloCrecenHijo(AnalizadoHijo(e, n, a), n, b);
    case If(a, b, c) =>
      ErroresSoloCrecenHijo(e, n, a);
      var e1 := AnalizadoHijo(e, n, a);
      ErroresSoloCrecenHijo(e1, n, b);
      ErroresSoloCrecenHijo(AnalizadoHijo(e1, n, b), n, c);
    case Return(a) =>
      ErroresSoloCrecenHijo(e, n, a);
    case _ =>
  }

  lemma {:induction false} ErroresSoloCrecenHijo(e: Estado, padre: Nodo, hijo: Option<Nodo>)
    requires hijo.Some? ==> hijo.value < padre
    ensures |e.errores| <= |AnalizadoHijo(e, padre, hijo).errores|
    ensures AnalizadoHijo(e, padre, hijo).errores[..|e.errores|] == e.errores
    decreases padre, 0
  {
    if hijo.Some? {
      ErroresSoloCrecen(e, hijo.value);
    }
  }

  /** The table only grows, by exactly the names the walk declares, and an entry once made
      keeps its first type. */
  lemma {:induction false} TablaTrasAnalisis(e: Estado, n: Nodo)
    ensures Analizado(e, n).tabla.Keys == e.tabla.Keys + Declarados(n)
    ensures forall k :: k in e.tabla ==> Analizado(e, n).tabla[k] == e.tabla[k]
    decreases n
  {
    match n
    case Using(a, b) =>
      TablaTrasHijo(e, n, a);
      TablaTrasHijo(AnalizadoHijo(e, n, a), n, b);
    case If(a, b, c) =>
      TablaTrasHijo(e, n, a);
      var e1 := AnalizadoHijo(e, n, a);
      TablaTrasHijo(e1, n, b);
      TablaTrasHijo(AnalizadoHijo(e1, n, b), n, c);
    case Return(a) =>
      TablaTrasHijo(e, n, a);
    case _ =>
  }

  lemma {:induction false} TablaTrasHijo(e: Estado, padre: Nodo, hijo: Option<Nodo>)
    requires hijo.Some? ==> hijo.value < padre
    ensures AnalizadoHijo(e, padre, hijo).tabla.Keys == e.tabla.Keys + DeclaradosHijo(padre, hijo)
    ensures forall k :: k in e.tabla ==> AnalizadoHijo(e, padre, hijo).tabla[k] == e.tabla[k]
    decreases padre, 0
  {
    if hijo.Some? {
      TablaTrasAnalisis(e, hijo.value);
    }
  }

  /** A declaration of an absent name adds it with its type and no error; of a present name,
      exactly one redeclaration error and the table stays as it was. */
  lemma DeclaracionUnica(e: Estado, tipo: string, id: string)
    ensures var r := Analizado(e, Declaracion(tipo, id));
      if id in e.tabla then r.tabla == e.tabla && r.errores == e.errores + [ErrorYaDeclarada(id)]
      else r.tabla == e.tabla[id := tipo] && r.errores == e.errores
  {
  }

  /** An assignment leaves the table alone. It adds exactly one error: "not declared" when the
      name is absent, a type mismatch naming both types when the inferred type differs, and no
      error otherwise. */
  lemma AsignacionUnica(e: Estado, id: string, expresion: Option<Nodo>)
    ensures var r := Analizado(e, Asignacion(id, expresion));
      r.tabla == e.tabla
      && (id !in e.tabla ==> r.errores == e.errores + [ErrorNoDeclarada(id)])
      && (id in e.tabla && e.tabla[id] != EvaluarTipo(expresion) ==>
            r.errores == e.errores + [ErrorIncompatible(id, e.tabla[id], EvaluarTipo(expresion))])
      && (id in e.tabla && e.tabla[id] == EvaluarTipo(expresion) ==> r.errores == e.errores)
  {
  }

  /** Printed integers in range are typed "int". */
  lemma EnteroEsInt(n: int)
    requires Int32Min <= n <= Int32Max
    ensures EvaluarTipo(Some(Expresion(IntToString(n)))) == "int"
  {
    ParseOfFormat(n);
  }

  /** `int.TryParse` skips white space around the digits, so a padded integer is typed "int" too. */
  lemma EnteroConEspacios(n: int)
    requires Int32Min <= n <= Int32Max
    ensures EvaluarTipo(Some(Expresion(" " + IntToString(n) + "\n"))) == "int"
  {
    ParseOfFormat(n);
    TryParseSinNulFinal(IntToString(n));
    ParseIgnoresWhite(" ", IntToString(n), "\n");
    TryParseSinNulFinal(" " + IntToString(n) + "\n");
  }

  /** `int.TryParse` also accepts NUL characters after the number, so such a leaf is typed "int". */
  lemma EnteroConNul(n: int)
    requires Int32Min <= n <= Int32Max
    ensures EvaluarTipo(Some(Expresion(IntToString(n) + "\0"))) == "int"
  {
    ParseOfFormat(n);
    ParseIgnoresTrailingNul(IntToString(n), "\0");
  }

  /** The lexer keeps a NUL inside a string literal: the text `"5\0"` gives the leaf `5\0`, which
      is typed "int". */
  lemma CadenaConNul()
    ensures Lexico.Siguiente("\"5\0\"", Lexico.Inicio).0 == Token(Cadena, "5\0", 1, 1)
    ensures EvaluarTipo(Some(Expresion("5\0"))) == "int"
  {
    var s := "\"5\0\"";
    assert Lexico.FinCadena(s, 3) == 3;
    assert Lexico.FinCadena(s, 2) == 3;
    assert Lexico.FinCadena(s, 1) == 3;
    EnteroConNul(5);
    assert IntToString(5) == "5";
  }

  /** A number token from the lexer is typed "int" exactly when its value fits in 32 bits. */
  lemma NumeroDelLexico(s: string, c: Lexico.Cursor)
    requires c.indice <= |s|
    requires Lexico.Siguiente(s, c).0.tipo == Numero
    ensures var v := Lexico.Siguiente(s, c).0.valor;
      |v| > 0 && AllDigits(v)
      && (EvaluarTipo(Some(Expresion(v))) == "int" <==> DigitsValue(v) <= Int32Max)
  {
    Lexico.ClasificaNumero(s, c);
    var v := Lexico.Siguiente(s, c).0.valor;
    ParseOfDigits(v);
  }

  /** A string token from the lexer has lost its quotes, so it is never typed "string". */
  lemma CadenaDelLexico(s: string, c: Lexico.Cursor)
    requires c.indice <= |s|
    requires Lexico.Siguiente(s, c).0.tipo == Cadena
    ensures EvaluarTipo(Some(Expresion(Lexico.Siguiente(s, c).0.valor))) != "string"
  {
    Lexico.CadenaSinComillaInicial(s, c);
  }

  // ---------------------------------------------------------------------------
  // The example programs

  /** `int x;` then `x = 5;`: no error, and the table maps x to int. */
  lemma EjemploDeclaradaYAsignada()
    ensures Analizado(Analizado(Inicial, Declaracion("int", "x")), Asignacion("x", Some(Expresion("5"))))
            == Estado(map["x" := "int"], [])
  {
    assert TryParseInt32("5") == Some(5) by {
      assert IsDigit("5"[0]);
      assert DigitsValue("5") == 5 by { assert "5"[..0] == []; }
    }
  }

  /** `int x;` then `x = "hola";` with the quotes kept in the leaf: one mismatch error. */
  lemma EjemploTipoIncompatible()
    ensures Analizado(Analizado(Inicial, Declaracion("int", "x")), Asignacion("x", Some(Expresion("\"hola\""))))
            == Estado(map["x" := "int"], [ErrorIncompatible("x", "int", "string")])
  {
    assert EvaluarTipo(Some(Expresion("\"hola\""))) == "string";
  }

  /** `x = 5;` with no declaration: one "not declared" error, the table stays empty. */
  lemma EjemploNoDeclarada()
    ensures Analizado(Inicial, Asignacion("x", Some(Expresion("5")))) == Estado(map[], [ErrorNoDeclarada("x")])
  {
  }

  /** `int x; string x;`: one redeclaration error, and x keeps its first type. */
  lemma EjemploRedeclarada()
    ensures Analizado(Analizado(Inicial, Declaracion("int", "x")), Declaracion("string", "x"))
            == Estado(map["x" := "int"], [ErrorYaDeclarada("x")])
  {
  }

  // ---------------------------------------------------------------------------
  // The visitor object

  class AnalizadorSemantico {
    var tablaSimbolos: map<string, string>
    var errores: seq<string>

    function Actual(): Estado
      reads this
    {
      Estado(tablaSimbolos, errores)
    }

    constructor ()
      ensures Actual() == Inicial
    {
      tablaSimbolos := map[];
      errores := [];
    }

    method Analizar(nodo: Nodo)
      modifies this
      ensures Actual() == Analizado(old(Actual()), nodo)
    {
      Aceptar(nodo);
    }

    /** `nodo.Aceptar(this)`: calls the one overload for the node's kind. */
    method Aceptar(nodo: Nodo)
      modifies this
      ensures Actual() == Analizado(old(Actual()), nodo)
      decreases nodo, 1
    {
      match Ast.Aceptar(nodo)
      case None =>
      case Some(ParaUsing) => VisitarUsing(nodo);
      case Some(ParaIf) => VisitarIf(nodo);
      case Some(ParaReturn) => VisitarReturn(nodo);
      case Some(ParaExpresion) => VisitarExpresion(nodo);
      case Some(ParaDeclaracion) => VisitarDeclaracion(nodo);
      case Some(ParaAsignacion) => VisitarAsignacion(nodo);
    }

    method VisitarDeclaracion(nodo: Nodo)
      requires nodo.Declaracion?
      modifies this
      ensures Actual() == Declarar(old(Actual()), nodo.identificador, nodo.tipo)
    {
      if nodo.identificador !in tablaSimbolos {
        tablaSimbolos := tablaSimbolos[nodo.identificador := nodo.tipo];
      } else {
        errores := errores + [ErrorYaDeclarada(nodo.identificador)];
      }
    }

    method VisitarAsignacion(nodo: Nodo)
      requires nodo.Asignacion?
      modifies this
      ensures Actual() == Asignar(old(Actual()), nodo.identificador, nodo.expresion)
    {
      if nodo.identificador !in tablaSimbolos {
        errores := errores + [ErrorNoDeclarada(nodo.identificador)];
        return;
      }
      var tipoDeclarado := tablaSimbolos[nodo.identificador];
      var tipoExpresion := EvaluarTipo(nodo.expresion);
      if tipoDeclarado != tipoExpresion {
        errores := errores + [ErrorIncompatible(nodo.identificador, tipoDeclarado, tipoExpresion)];
      }
    }

    method VisitarUsing(nodo: Nodo)
      requires nodo.Using?
      modifies this
      ensures Actual() == Analizado(old(Actual()), nodo)
      decreases nodo, 0
    {
      if nodo.expresion.Some? {
        Aceptar(nodo.expresion.value);
      }
      if nodo.sentencia.Some? {
        Aceptar(nodo.sentencia.value);
      }
    }

    method VisitarIf(nodo: Nodo)
      requires nodo.If?
      modifies this
      ensures Actual() == Analizado(old(Actual()), nodo)
      decreases nodo, 0
    {
      if nodo.condicion.Some? {
        Aceptar(nodo.condicion.value);
      }
      if nodo.sentenciaIf.Some? {
        Aceptar(nodo.sentenciaIf.value);
      }
      if nodo.sentenciaElse.Some? {
        Aceptar(nodo.sentenciaElse.value);
      }
    }

    method VisitarReturn(nodo: Nodo)
      requires nodo.Return?
      modifies this
      ensures Actual() == Analizado(old(Actual()), nodo)
      decreases nodo, 0
    {
      if nodo.expresion.Some? {
        Aceptar(nodo.expresion.value);
      }
    }

    /** Visiting a leaf changes nothing. */
    method VisitarExpresion(nodo: Nodo)
      requires nodo.Expresion?
      ensures Actual() == Analizado(Actual(), nodo)
    {
    }
  }
}
