/** The token record the lexer produces and the parser consumes, with its `ToString` format. */
module Tokens {
  import opened Numeros

  /** The eight token categories, in the order of the `TokenType` enum. */
  datatype TokenType =
    | Identificador
    | Numero
    | PalabraReservada
    | Operador
    | Delimitador
    | Cadena
    | Error
    | FinArchivo

  /** A classified lexeme and the 1-based line and column of its first character. */
  datatype Token = Token(tipo: TokenType, valor: string, linea: int, columna: int)

  /** The enum member's name, as an interpolated string prints it. */
  function TypeName(t: TokenType): (r: string)
    ensures |r| > 0
    ensures forall i :: 0 <= i < |r| ==> r[i] != ':'
  {
    match t
    case Identificador => "Identificador"
    case Numero => "Numero"
    case PalabraReservada => "PalabraReservada"
    case Operador => "Operador"
    case Delimitador => "Delimitador"
    case Cadena => "Cadena"
    case Error => "Error"
    case FinArchivo => "FinArchivo"
  }

  /** `Token.ToString`: `{Tipo}: {Valor} (Línea: {Linea}, Columna: {Columna})`, value printed verbatim. */
  function ToString(t: Token): (r: string)
    ensures |r| > |TypeName(t.tipo)| + 2 + |t.valor|
    ensures r[..|TypeName(t.tipo)| + 2] == TypeName(t.tipo) + ": "
    ensures r[|TypeName(t.tipo)| + 2..|TypeName(t.tipo)| + 2 + |t.valor|] == t.valor
    ensures r[|r| - 1] == ')'
  {
    TypeName(t.tipo) + ": " + t.valor + " (Línea: " + IntToString(t.linea)
      + ", Columna: " + IntToString(t.columna) + ")"
  }

  /** Distinct categories have distinct printed names. */
  lemma TypeNameInjective(a: TokenType, b: TokenType)
    requires TypeName(a) == TypeName(b)
    ensures a == b
  {
  }

  /** In the printed form the first ':' is the one right after the category name. */
  lemma ColonAt(t: Token, i: nat)
    requires i <= |TypeName(t.tipo)|
    ensures i < |ToString(t)|
    ensures ToString(t)[i] == ':' <==> i == |TypeName(t.tipo)|
  {
    var s, a := ToString(t), TypeName(t.tipo);
    assert s[..|a| + 2][i] == s[i];
  }

  /** The category can be read back from the printed form: it is everything before the first ':'. */
  lemma ToStringDeterminesType(t: Token, u: Token)
    requires ToString(t) == ToString(u)
    ensures t.tipo == u.tipo
  {
    var s, a, b := ToString(t), TypeName(t.tipo), TypeName(u.tipo);
    if |a| < |b| {
      ColonAt(t, |a|);
      ColonAt(u, |a|);
      assert false;
    } else if |b| < |a| {
      ColonAt(t, |b|);
      ColonAt(u, |b|);
      assert false;
    }
    assert a == s[..|a|] == b;
    TypeNameInjective(t.tipo, u.tipo);
  }
  /** A run of printed-number characters after a space is read back whole: if two texts that end
      in a space are followed by such runs and the results are equal, the runs are equal. */
  lemma NumeroTrasEspacio(x: string, d: string, y: string, e: string)
    requires x + d == y + e
    requires |x| > 0 && x[|x| - 1] == ' ' && |y| > 0 && y[|y| - 1] == ' '
    requires forall k :: 0 <= k < |d| ==> IsDigit(d[k]) || d[k] == '-'
    requires forall k :: 0 <= k < |e| ==> IsDigit(e[k]) || e[k] == '-'
    ensures x == y && d == e
  {
    var s := x + d;
    assert s[|x| - 1] == ' ' && s[|y| - 1] == ' ';
    assert forall k :: |y| <= k < |s| ==> s[k] == e[k - |y|] && s[k] != ' ';
    assert forall k :: |x| <= k < |s| ==> s[k] == d[k - |x|] && s[k] != ' ';
    assert |x| == |y|;
    assert x == (x + d)[..|x|];
    assert d == (x + d)[|x|..];
  }

  /** Distinct tokens print differently: reading from the right, the column and the line are the
      digit runs after the last two spaces, and what is left is the category and the value. */
  lemma ToStringInjective(t: Token, u: Token)
    requires ToString(t) == ToString(u)
    ensures t == u
  {
    ToStringDeterminesType(t, u);
    var q1 := TypeName(t.tipo) + ": " + t.valor;
    var q2 := TypeName(u.tipo) + ": " + u.valor;
    var p1, p2 := q1 + " (Línea: ", q2 + " (Línea: ";
    var x1, x2 := p1 + IntToString(t.linea) + ", Columna: ", p2 + IntToString(u.linea) + ", Columna: ";
    var s := ToString(t);
    assert s == x1 + IntToString(t.columna) + ")" == x2 + IntToString(u.columna) + ")";
    assert x1 + IntToString(t.columna) == s[..|s| - 1] == x2 + IntToString(u.columna);
    assert x1[|x1| - 1] == ' ' && x2[|x2| - 1] == ' ';
    NumeroTrasEspacio(x1, IntToString(t.columna), x2, IntToString(u.columna));
    IntToStringInjective(t.columna, u.columna);
    assert p1 + IntToString(t.linea) == x1[..|x1| - 11] == p2 + IntToString(u.linea);
    assert p1[|p1| - 1] == ' ' && p2[|p2| - 1] == ' ';
    NumeroTrasEspacio(p1, IntToString(t.linea), p2, IntToString(u.linea));
    IntToStringInjective(t.linea, u.linea);
    assert q1 == p1[..|p1| - 9] == q2;
    assert t.valor == q1[|TypeName(t.tipo)| + 2..] == u.valor;
  }
}
