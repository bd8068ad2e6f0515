/** The lexer's insertion-only table of identifier names. */
module Simbolos {

  /** The table after adding `nombre -> info`: the first entry for a name wins. */
  function Agregado(tabla: map<string, string>, nombre: string, info: string): (r: map<string, string>)
    ensures nombre in r
    ensures nombre in tabla ==> r == tabla
    ensures nombre !in tabla ==> r[nombre] == info
    ensures r.Keys == tabla.Keys + {nombre}
    ensures forall k :: k in tabla ==> r[k] == tabla[k]
  {
    if nombre in tabla then tabla else tabla[nombre := info]
  }

  /** Adding a name a second time, with any info, leaves the table as the first addition made it. */
  lemma AgregadoIdempotente(tabla: map<string, string>, nombre: string, info: string, otra: string)
    ensures Agregado(Agregado(tabla, nombre, info), nombre, otra) == Agregado(tabla, nombre, info)
  {
  }

  class TablaSimbolos {
    var tabla: map<string, string>

    constructor ()
      ensures tabla == map[]
    {
      tabla := map[];
    }

    /** Adds `nombre -> info` unless `nombre` is already present. */
    method Agregar(nombre: string, info: string)
      modifies this
      ensures tabla == Agregado(old(tabla), nombre, info)
    {
      if nombre !in tabla {
        tabla := tabla[nombre := info];
      }
    }

    /** Membership query; reads the table and changes nothing. */
    function Existe(nombre: string): (r: bool)
      reads this
      ensures r <==> nombre in tabla.Keys
    {
      nombre in tabla
    }
  }
}
