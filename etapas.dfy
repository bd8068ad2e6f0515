/** How the front-end stages fit together: the parser's input is the lexer's output. */
module Etapas {
  import Lexico
  import Gramatica

  /** The lexer never emits a reserved "namespace" token, and the parser demands one, so no
      source text gets through both stages: the parse of the lexer's output always fails. */
  lemma SalidaDelLexicoNoParsea(codigo: string)
    ensures Gramatica.Parse(Lexico.TokensDesde(codigo, Lexico.Inicio)).Err?
  {
    var ts := Lexico.TokensDesde(codigo, Lexico.Inicio);
    Lexico.TokensSinNamespace(codigo, Lexico.Inicio);
    Gramatica.SinNamespaceNoHayPrograma(ts, 0);
  }
}
