/** The AST the parser builds and the semantic visitor walks.
    The six kinds the visitor interface names (Using, If, Return, Expresion, Declaracion,
    Asignacion) come with the fields of their classes; nullable children are `Option`s.
    The kinds the parser also builds (Programa, For, LlamadaMetodo and the containers
    Namespace, Clase, Metodo, Bloque) hold exactly the fields the parser sets. */
module Ast {
  import opened Wrappers

  datatype Nodo =
    | Using(expresion: Option<Nodo>, sentencia: Option<Nodo>)
    | If(condicion: Option<Nodo>, sentenciaIf: Option<Nodo>, sentenciaElse: Option<Nodo>)
    | Return(expresion: Option<Nodo>)
    | Expresion(valor: string)  // a leaf: an identifier or a literal, as one string
    | Declaracion(tipo: string, identificador: string)
    | Asignacion(identificador: string, expresion: Option<Nodo>)
    | Programa(espacio: NodoNamespace)
    | For(inicializacion: Nodo, condicionFor: Nodo, iteracion: Nodo, cuerpo: NodoBloque)
    | LlamadaMetodo(nombre: string, argumentos: seq<Nodo>)

  datatype NodoNamespace = NodoNamespace(nombre: string, clases: seq<NodoClase>)

  datatype NodoClase = NodoClase(nombre: string, metodos: seq<NodoMetodo>)

  datatype NodoMetodo = NodoMetodo(nombre: string, cuerpo: NodoBloque)

  datatype NodoBloque = NodoBloque(instrucciones: seq<Nodo>)

  /** The `Visitar` overloads of the semantic visitor interface, one per parameter type:
      exactly six. */
  datatype Sobrecarga =
    | ParaUsing
    | ParaIf
    | ParaReturn
    | ParaExpresion
    | ParaDeclaracion
    | ParaAsignacion

  /** `Aceptar`: the visitor overload a node dispatches to, called once. The kinds without an
      overload in the interface dispatch to none. */
  function Aceptar(n: Nodo): (v: Option<Sobrecarga>)
    ensures v == Some(ParaUsing) <==> n.Using?
    ensures v == Some(ParaIf) <==> n.If?
    ensures v == Some(ParaReturn) <==> n.Return?
    ensures v == Some(ParaExpresion) <==> n.Expresion?
    ensures v == Some(ParaDeclaracion) <==> n.Declaracion?
    ensures v == Some(ParaAsignacion) <==> n.Asignacion?
    ensures v.None? <==> n.Programa? || n.For? || n.LlamadaMetodo?
  {
    match n
    case Using(_, _) => Some(ParaUsing)
    case If(_, _, _) => Some(ParaIf)
    case Return(_) => Some(ParaReturn)
    case Expresion(_) => Some(ParaExpresion)
    case Declaracion(_, _) => Some(ParaDeclaracion)
    case Asignacion(_, _) => Some(ParaAsignacion)
    case Programa(_) => None
    case For(_, _, _, _) => None
    case LlamadaMetodo(_, _) => None
  }
}
