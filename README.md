# Compilador front end, in Dafny

A model of the front end of AbelRyT/Compilador, a teaching compiler written in C#. The
front end reads a small C# subset and has three stages:

- **Lexer** (`AnalizadorLexico`). It scans the text one token per call and tracks the line and
  column. Identifiers go into an insertion-only symbol table (`TablaSimbolos`).
- **Parser** (`AnalizadorSintactico`). It is a recursive-descent parser over the token list, with
  a cursor. It builds a tree of the node kinds in `Nodo.cs`.
- **Semantic visitor** (`AnalizadorSemantico`). It is reached through each node's `Aceptar`. It
  keeps a flat table from variable names to declared types and an append-only list of error
  messages.

Every stage that changes state in the source is a Dafny `class` with the same fields. Each
method is proved to follow a pure specification function:

| class | specification function |
|---|---|
| lexer | `Lexico.Siguiente` (one scanner call) and `Lexico.TokensDesde` (a whole scan) |
| parser | the functions of module `Gramatica`, on the token list and the cursor |
| visitor | `Semantico.Analizado` |

The properties the source promises are proved as lemmas about those functions. Some lemmas cross
stages. The strongest one is `Etapas.SalidaDelLexicoNoParsea`. It shows that no text the lexer
scans can get through the parser. The lexer never emits "namespace" as a reserved word, but the
parser demands exactly that token.

Exceptions in the parser become `Result` values carrying a `Gramatica.Falla`. Nullable children
become `Option`. The `int` width of `int.TryParse` is written out as bounds.

Files:

| file | content |
|---|---|
| `wrappers.dfy` | `Option` and `Result` |
| `numeros.dfy` | `int` formatting and `int.TryParse` |
| `token.dfy` | the `Token` record |
| `tabla_simbolos.dfy` | the symbol table |
| `lexico.dfy` | the lexer |
| `nodo.dfy` | the tree and the `Aceptar` dispatch |
| `gramatica.dfy` | the grammar as functions |
| `sintactico.dfy` | the parser class |
| `semantico.dfy` | the visitor |
| `etapas.dfy` | lemmas about two stages together |

Behaviour the model keeps exactly as the source has it:

- **Quotes are stripped from string literals.** The lexer drops the quotes, but `EvaluarTipo` tests
  for them. So on lexer output `EvaluarTipo` never reports "string" (`Semantico.CadenaDelLexico`).
- **The parser expects words the lexer never reserves.** The parser expects "using", "namespace" and
  "DateTime" as reserved words. The lexer's reserved list has none of them.
- **`int x = 1;` loses its type.** It becomes an assignment node, not a declaration.
- **A call read as an expression takes the `;` after it.** This holds even when the call is an
  argument or a condition.
- **A call on the right of `=` fails the `(NodoExpresion)` cast.**
- **Reading past the end of the token list aborts the parse.**

## Model

| member | source | states |
|---|---|---|
| Numeros.NatToString | Compilador/Token.cs:19 | a natural prints as a non-empty run of digits without a leading zero |
| Numeros.IntToString | Compilador/Token.cs:19 | an int prints non-empty, as digits with a leading '-' exactly when it is negative |
| Numeros.TrimBounds | Compilador/AnalizadorSemantico.cs:102 | the white space `int.TryParse` skips is exactly the run of U+0009 to U+000D and spaces at each end of the text |
| Numeros.TrimOfSplit | Compilador/AnalizadorSemantico.cs:102 | a text made of white space, a core without white space at its ends, and white space is trimmed to that core |
| Numeros.ParseSignedDigits | Compilador/AnalizadorSemantico.cs:102 | an accepted number is a 32-bit value; the text is an optional sign followed by one or more digits, all of them digits, and the value is theirs, negated after a '-' |
| Numeros.ParseRecortado | Compilador/AnalizadorSemantico.cs:102 | an accepted text is white space, a core starting with a digit or sign and ending with a digit, and white space; the value is 32-bit |
| Numeros.TryParseInt32 | Compilador/AnalizadorSemantico.cs:102 | a successful `int.TryParse` returns a 32-bit value, and the text without its trailing NULs and its surrounding white space starts with a digit or sign and ends with a digit |
| Numeros.TryParseSinNulFinal | Compilador/AnalizadorSemantico.cs:102 | a text that does not end in NUL is read as white space, sign, digits and white space |
| Numeros.ParseIgnoresTrailingNul | Compilador/AnalizadorSemantico.cs:102 | NUL characters appended to a text do not change what `int.TryParse` reads |
| Numeros.ParseIgnoresWhite | Compilador/AnalizadorSemantico.cs:102 | white space added around a text does not change what is read between the white space |
| Numeros.IntToStringInjective | Compilador/Token.cs:19 | distinct ints print differently |
| Numeros.DigitsValueOfNatToString | Compilador/Token.cs:19 | reading back the digits a natural prints as gives the natural again |
| Numeros.ParseOfFormat | Compilador/AnalizadorSemantico.cs:102 | `int.TryParse` of a printed 32-bit int returns that int |
| Numeros.ParseOfDigits | Compilador/AnalizadorSemantico.cs:102 | an unsigned digit run parses exactly when its value is at most 2147483647, and then to that value |
| Tokens.TypeName | Compilador/TokenType.cs:3-13 | each token category prints as a non-empty name without ':' |
| Tokens.ToString | Compilador/Token.cs:17-20 | the printed token starts with the category name and ": ", then the value verbatim, and ends with ')' |
| Tokens.TypeNameInjective | Compilador/TokenType.cs:3-13 | distinct categories print differently |
| Tokens.ColonAt | Compilador/Token.cs:19 | the first ':' of the printed token comes right after the category name |
| Tokens.ToStringDeterminesType | Compilador/Token.cs:17-20 | two tokens that print the same have the same category |
| Tokens.NumeroTrasEspacio | Compilador/Token.cs:19 | a printed number that follows a space is read back whole from the right |
| Tokens.ToStringInjective | Compilador/Token.cs:17-20 | two tokens that print the same are the same token: category, value, line and column |
| Simbolos.Agregado | Compilador/TablaSimbolos.cs:13-19 | after an add the name is present; an absent name gets the given info; an existing entry and every other entry keep their value |
| Simbolos.AgregadoIdempotente | Compilador/TablaSimbolos.cs:13-19 | adding a name again, with any info, changes nothing |
| Simbolos.TablaSimbolos.constructor | Compilador/TablaSimbolos.cs:7-10 | the table starts empty |
| Simbolos.TablaSimbolos.Agregar | Compilador/TablaSimbolos.cs:13-19 | the new table is `Agregado` of the old one |
| Simbolos.TablaSimbolos.Existe | Compilador/TablaSimbolos.cs:22-25 | true exactly when the name is a key of the table |
| Lexico.ToLower | Compilador/AnalizadorLexico.cs:173 | the lower-case form has the same letters ignoring case, and no upper-case letter |
| Lexico.ToLowerIdempotent | Compilador/AnalizadorLexico.cs:173 | lower-casing twice is lower-casing once |
| Lexico.EsPalabraReservada | Compilador/AnalizadorLexico.cs:169-174 | a reserved lexeme has two to seven characters, all letters |
| Lexico.EqualsIgnoreCaseIsLowerEquality | Compilador/AnalizadorLexico.cs:173 | a lower-case word equals a lexeme ignoring case exactly when it equals the lexeme's lower-case form |
| Lexico.EsPalabraReservadaIffLower | Compilador/AnalizadorLexico.cs:169-174 | a lexeme is reserved exactly when its lower-case form is one of the eleven words |
| Lexico.NoReservadasDelParser | Compilador/AnalizadorLexico.cs:172 | "using", "namespace" and "DateTime" are not reserved words of the lexer |
| Lexico.SaltarEspacios | Compilador/AnalizadorLexico.cs:24-36 | whitespace skipping only moves forward, passes only whitespace and stops at a non-whitespace character or the end |
| Lexico.FinIdentificador | Compilador/AnalizadorLexico.cs:48-52 | the identifier run is maximal and holds only letters, digits and '_' |
| Lexico.FinNumero | Compilador/AnalizadorLexico.cs:74-78 | the number run is maximal and holds only digits |
| Lexico.FinCadena | Compilador/AnalizadorLexico.cs:91-101 | the string scan stops at a quote or at the end, and does not stop before a first character that is not a quote |
| Lexico.FinCadenaPrimeraComilla | Compilador/AnalizadorLexico.cs:91-101 | the string scan passes over a string body (plain characters, a backslash with the character after it, a backslash ending the text) and stops at the first quote that closes a body |
| Lexico.Clasificar | Compilador/AnalizadorLexico.cs:38-165 | `FinArchivo` exactly at the end of the text, where the cursor stays; any other token consumes at least one character |
| Lexico.Siguiente | Compilador/AnalizadorLexico.cs:21-166 | one call gives `FinArchivo` exactly when only whitespace is left; otherwise the token starts after the skipped whitespace and the cursor moves past it |
| Lexico.TokensDesde | Compilador/MainWindow.xaml.cs:156-160 | a whole scan ends with one `FinArchivo` and has no other |
| Lexico.SaltarEspaciosLinea | Compilador/AnalizadorLexico.cs:24-36 | the line grows by the number of '\n' skipped |
| Lexico.SaltarEspaciosColumna | Compilador/AnalizadorLexico.cs:31-34 | without a '\n', the column grows by the number of characters skipped |
| Lexico.SaltarEspaciosColumnaTrasSalto | Compilador/AnalizadorLexico.cs:26-30 | after the last '\n' skipped, the column counts, from 1, the characters after it |
| Lexico.SiguienteTrasEspacios | Compilador/AnalizadorLexico.cs:24-36 | skipping whitespace twice is skipping it once, so a call depends only on the position after the whitespace |
| Lexico.FinArchivoEstable | Compilador/AnalizadorLexico.cs:38-39 | at the end the token is `FinArchivo` "EOF", and calling again returns the same token and cursor |
| Lexico.PosicionDelToken | Compilador/AnalizadorLexico.cs:38-165 | a token carries the line and column of its first character; the column then moves by the characters consumed, on the same line |
| Lexico.ClasificaIdentificador | Compilador/AnalizadorLexico.cs:44-67 | a letter or '_' starts a maximal identifier run, kept with its case; it is reserved exactly when it is one of the eleven words ignoring case |
| Lexico.ClasificaNumero | Compilador/AnalizadorLexico.cs:70-82 | a digit starts a maximal run of digits, returned as `Numero` |
| Lexico.ClasificaCadena | Compilador/AnalizadorLexico.cs:85-113 | a closed string gives the raw text between the quotes, which is a string body not closed earlier; an unclosed one, exactly when no string body is followed by a quote, gives "Cadena no cerrada" with the cursor at the end |
| Lexico.FinCadenaSinEscapes | Compilador/AnalizadorLexico.cs:91-101 | without backslashes, the string body ends at the first quote |
| Lexico.ClasificaSimbolo | Compilador/AnalizadorLexico.cs:115-165 | any other character is a one-character token: a delimiter exactly for `(){}[];.,:`, an operator exactly for `=+-*/`, otherwise an error |
| Lexico.ReservadaDelConjunto | Compilador/AnalizadorLexico.cs:54-57 | a reserved-word token is one of the eleven words, so it is never "using", "namespace" or "DateTime" |
| Lexico.CadenaSinComillaInicial | Compilador/AnalizadorLexico.cs:85-108 | the value of a string token never starts with a quote |
| Lexico.TablaTras | Compilador/AnalizadorLexico.cs:60-64 | an identifier's name joins the table with info "Identificador" when absent; existing entries and other tokens leave it as it was |
| Lexico.TablaSoloIdentificadores | Compilador/AnalizadorLexico.cs:58-66 | the table only gains a non-reserved identifier that was absent, with info "Identificador"; no entry changes |
| Lexico.TokensSinNamespace | Compilador/AnalizadorLexico.cs:21-174 | no token of a whole scan is a reserved "namespace" |
| Lexico.EjemploCadenaNoCerrada | Compilador/AnalizadorLexico.cs:109-112 | an unclosed string after two spaces gives the error token at column 3, with the cursor at the end |
| Lexico.EjemploEscape | Compilador/AnalizadorLexico.cs:93-98 | an escaped quote does not close the string and stays in the raw value |
| Lexico.AnalizadorLexico.constructor | Compilador/AnalizadorLexico.cs:11-18 | the scanner starts at index 0, line 1, column 1, with an empty table |
| Lexico.AnalizadorLexico.ObtenerSiguienteToken | Compilador/AnalizadorLexico.cs:21-166 | returns the token and moves to the cursor that `Siguiente` gives; the table becomes the one `TablaTras` gives |
| Lexico.AnalizadorLexico.SaltarBlancos | Compilador/AnalizadorLexico.cs:24-36 | the loop leaves the cursor where `SaltarEspacios` does |
| Lexico.AnalizadorLexico.EscanearSimbolo | Compilador/AnalizadorLexico.cs:115-165 | the symbol branch returns what `Clasificar` gives |
| Lexico.AnalizadorLexico.EscanearIdentificador | Compilador/AnalizadorLexico.cs:44-67 | the identifier branch returns what `Clasificar` gives and updates the table |
| Lexico.AnalizadorLexico.EscanearNumero | Compilador/AnalizadorLexico.cs:70-82 | the number branch returns what `Clasificar` gives, a `Numero` |
| Lexico.AnalizadorLexico.RecorrerCadena | Compilador/AnalizadorLexico.cs:91-101 | the body loop stops where `FinCadena` does, moving the column by the characters passed |
| Lexico.AnalizadorLexico.EscanearCadena | Compilador/AnalizadorLexico.cs:85-113 | the string branch returns what `Clasificar` gives, a `Cadena` or an `Error` |
| Lexico.Tokenizar | Compilador/MainWindow.xaml.cs:153-160 | the caller's loop collects exactly `TokensDesde` of the text |
| Ast.Aceptar | Compilador/Nodo.cs:15-23 | each of the six node kinds dispatches to its own overload of the visitor; the other kinds dispatch to none |
| Gramatica.Actual | Compilador/AnalizadorSintactico.cs:281 | the current token when the cursor is inside the list, the out-of-range failure otherwise |
| Gramatica.Match | Compilador/AnalizadorSintactico.cs:279-283 | fails exactly past the end; otherwise true exactly when the kind and the given value match |
| Gramatica.Advance | Compilador/AnalizadorSintactico.cs:285-288 | returns the current token and moves the cursor by one; fails past the end |
| Gramatica.Consume | Compilador/AnalizadorSintactico.cs:271-277 | succeeds exactly when the current token matches, and then moves by one; on a mismatch the failure names the expected kind and value and the token found |
| Gramatica.LookAhead | Compilador/AnalizadorSintactico.cs:290-294 | the token k places ahead exactly when it exists, otherwise none |
| Gramatica.SaltarHasta | Compilador/AnalizadorSintactico.cs:96-99 | the skip loop stops at a matching token inside the list; otherwise it fails out of range at the end |
| Gramatica.MensajeEsperado | Compilador/AnalizadorSintactico.cs:276 | the `Consume` exception message opens with "Se esperaba " and the expected category |
| Gramatica.Mensaje | Compilador/AnalizadorSintactico.cs:154 | the exception message of each failure; an expected-token failure uses `MensajeEsperado` |
| Gramatica.SaltarHastaPrimero | Compilador/AnalizadorSintactico.cs:96-99 | the skip stops at the first match, and fails exactly when nothing from the cursor on matches |
| Gramatica.IsTipoDeclaracion | Compilador/AnalizadorSintactico.cs:263-269 | true exactly for the reserved words int, string, decimal and DateTime; fails past the end |
| Gramatica.ComoExpresion | Compilador/AnalizadorSintactico.cs:236 | the cast passes exactly an expression leaf, unchanged |
| Gramatica.Parse | Compilador/AnalizadorSintactico.cs:28-32 | a successful parse gives a program node (its content is `FormaDePrograma`) |
| Gramatica.SaltarUsings | Compilador/AnalizadorSintactico.cs:39-47 | the using loop stops inside the list at a token that is not a reserved "using", right after a ';' when it skipped anything (exactly: `FormaDeUsings`) |
| Gramatica.ParseProgram | Compilador/AnalizadorSintactico.cs:35-52 | a program node, with the cursor moved forward (its shape is `FormaDePrograma`) |
| Gramatica.ParseNamespace | Compilador/AnalizadorSintactico.cs:54-71 | starts at a reserved "namespace", takes its name from the next token and ends after a '}' (its shape is `FormaDeNamespace`) |
| Gramatica.ParseClases | Compilador/AnalizadorSintactico.cs:63-68 | the class loop stops at a '}' and keeps the classes already read, in order (what it adds is `FormaDeClases`) |
| Gramatica.ParseClass | Compilador/AnalizadorSintactico.cs:73-90 | starts at a reserved "class", takes its name from the next token and ends after a '}' (its shape is `FormaDeClase`) |
| Gramatica.ParseMetodos | Compilador/AnalizadorSintactico.cs:82-87 | the method loop stops at a '}' and keeps the methods already read, in order (what it adds is `FormaDeMetodos`) |
| Gramatica.ParseMethod | Compilador/AnalizadorSintactico.cs:92-112 | a method consumes at least one token (its shape is `FormaDeMetodo`) |
| Gramatica.ParseBlock | Compilador/AnalizadorSintactico.cs:114-128 | a block starts with '{' and ends after '}' (its shape is `FormaDeBloque`) |
| Gramatica.ParseInstrucciones | Compilador/AnalizadorSintactico.cs:120-125 | the statement loop stops at a '}' and keeps the statements already read, in order (what it adds is `FormaDeInstrucciones`) |
| Gramatica.ParseStatement | Compilador/AnalizadorSintactico.cs:130-155 | a statement consumes at least one token |
| Gramatica.ParseIf | Compilador/AnalizadorSintactico.cs:157-175 | an if node with its condition and then-branch present (its shape is `FormaDeIf`) |
| Gramatica.ParseElse | Compilador/AnalizadorSintactico.cs:164-174 | the if node keeps the condition and the then-branch it was given (its shape is `FormaDeElse`) |
| Gramatica.ParseFor | Compilador/AnalizadorSintactico.cs:177-182 | a for node, consuming at least one token (its shape is `FormaDeFor`) |
| Gramatica.ParseForResto | Compilador/AnalizadorSintactico.cs:183-194 | a for node that keeps the initializing statement it was given (its shape is `FormaDeForResto`) |
| Gramatica.ParseDeclaracionConInicializacion | Compilador/AnalizadorSintactico.cs:198-213 | a declaration consumes at least one token (its shape is `FormaDeDeclaracion`) |
| Gramatica.ParseExpresionCompleja | Compilador/AnalizadorSintactico.cs:216-221 | a leaf or a call; a leaf is the current token's value, one token long |
| Gramatica.ParseExpresion | Compilador/AnalizadorSintactico.cs:223-230 | the current token's value as a leaf, failing exactly past the end |
| Gramatica.ParseAsignacion | Compilador/AnalizadorSintactico.cs:232-239 | a successful assignment reads exactly four tokens and assigns the third token's value, as a leaf, to the name in the first |
| Gramatica.ParseLlamadaMetodo | Compilador/AnalizadorSintactico.cs:241-261 | a call node named by the current token, ending after a ';' (its shape is `FormaDeLlamada`) |
| Gramatica.ParseArgumentos | Compilador/AnalizadorSintactico.cs:249-253 | the argument loop stops at a token that is not ',' and keeps the arguments already read, in order (what it adds is `FormaDeArgumentos`) |
| Gramatica.CerrarLlamada | Compilador/AnalizadorSintactico.cs:255-260 | the call closes exactly on ')' followed by ';' |
| Gramatica.DespachoDeSentencia | Compilador/AnalizadorSintactico.cs:130-155 | each test picks its routine (if, for, a type word, name and '=', name and '('), and a token that passes none is "Sentencia no reconocida" |
| Gramatica.FormaDeMetodo | Compilador/AnalizadorSintactico.cs:92-112 | a method is named by the first identifier from the cursor, which is followed by '('; the body is the block right after the first ')' after it |
| Gramatica.FormaDeIf | Compilador/AnalizadorSintactico.cs:157-163 | an if reads "if", "(", a condition, ")" and a statement, and passes them to the else part at the position after them |
| Gramatica.FormaDeElse | Compilador/AnalizadorSintactico.cs:164-174 | the else part needs a current token; the node has an else branch exactly when that token is "else", and then it is the statement after it |
| Gramatica.FormaDeFor | Compilador/AnalizadorSintactico.cs:177-182 | a for reads "for", "(" and a statement, and the rest is read from the position after that statement |
| Gramatica.FormaDeForResto | Compilador/AnalizadorSintactico.cs:183-194 | the rest reads a condition, ";", an expression, ")" and a block, and the node holds the statement and those three parts |
| Gramatica.FormaDeUsings | Compilador/AnalizadorSintactico.cs:39-47 | the using loop stops at `fin` exactly when the tokens from the cursor to `fin` are whole directives, each from "using" up to and including the first ';' after it, and the token at `fin` is not "using" |
| Gramatica.FormaDeClases | Compilador/AnalizadorSintactico.cs:63-69 | the class loop returns the list read so far followed by `cs` and stops at `fin` exactly when the classes `cs` parse one after another from the cursor, none starting at '}', and a '}' stands at `fin` |
| Gramatica.FormaDeMetodos | Compilador/AnalizadorSintactico.cs:82-88 | the same exact characterization of the method loop: the methods in source order up to the '}' |
| Gramatica.FormaDeInstrucciones | Compilador/AnalizadorSintactico.cs:120-126 | the same exact characterization of the statement loop: the statements in source order up to the '}' |
| Gramatica.FormaDeArgumentos | Compilador/AnalizadorSintactico.cs:249-253 | the argument loop appends `xs` and stops at `fin` exactly when each argument of `xs` is read after its own ',' and the token at `fin` is not ',' |
| Gramatica.FormaDeBloque | Compilador/AnalizadorSintactico.cs:114-128 | a block reads '{', its statements in source order up to a '}', consumes that '}', and its node holds exactly those statements |
| Gramatica.FormaDeClase | Compilador/AnalizadorSintactico.cs:73-90 | a class reads "class", an identifier naming it, '{', its methods in source order up to a '}', and that '}' |
| Gramatica.FormaDeNamespace | Compilador/AnalizadorSintactico.cs:54-71 | a namespace reads "namespace", an identifier naming it, '{', its classes in source order up to a '}', and that '}' |
| Gramatica.FormaDePrograma | Compilador/AnalizadorSintactico.cs:28-52 | a program is the using directives followed by one namespace, which is the program node's child; `Parse` returns that node |
| Gramatica.FormaDeLlamada | Compilador/AnalizadorSintactico.cs:241-261 | a call reads its name and '('; with ')' next it has no arguments, otherwise a first expression and the arguments after each ','; then ')' and ';' close it with exactly those arguments |
| Gramatica.FormaDeDeclaracion | Compilador/AnalizadorSintactico.cs:198-213 | without '=' the node is a declaration of type and name; with '=' and a leaf value it is an assignment that has dropped the type |
| Gramatica.AsignacionDeLlamadaFalla | Compilador/AnalizadorSintactico.cs:232-239 | an assignment whose right side is a call that parses fails the cast |
| Gramatica.DeclaracionDeLlamadaFalla | Compilador/AnalizadorSintactico.cs:198-213 | a declaration initialized with a call that parses fails the cast |
| Gramatica.LlamadaEnExpresion | Compilador/AnalizadorSintactico.cs:216-221 | a name followed by '(' in an expression is the whole call statement, ';' included |
| Gramatica.SinNamespaceNoHayPrograma | Compilador/AnalizadorSintactico.cs:35-58 | without a reserved "namespace" token, the program does not parse |
| Gramatica.EjemploBloque | Compilador/AnalizadorSintactico.cs:198-210 | the block `{ int x = 1; }` holds one assignment and no declaration |
| Gramatica.EjemploPrograma | Compilador/AnalizadorSintactico.cs:28-128 | a hand-built token list for `namespace N { class C { void M() { int x = 1; } } }`, with "namespace" as a reserved word, parses to one namespace, class, method and assignment; the lexer itself never produces that list (`Etapas.SalidaDelLexicoNoParsea`) |
| Gramatica.EjemploLlamadaAnidada | Compilador/AnalizadorSintactico.cs:241-261 | `g(f(););` parses to a call of g with the call of f as its argument |
| Gramatica.EjemploLlamadaSinPuntoYComa | Compilador/AnalizadorSintactico.cs:255-256 | `g(f());` fails at the second ')', where a ';' was expected |
| Gramatica.EjemploSinCierre | Compilador/AnalizadorSintactico.cs:63 | an unclosed namespace reads past the end of the list |
| Sintactico.AnalizadorSintactico.constructor | Compilador/AnalizadorSintactico.cs:21-26 | the parser starts at cursor 0, with no errors and no tree |
| Sintactico.AnalizadorSintactico.Parse | Compilador/AnalizadorSintactico.cs:28-32 | on success the tree is the one program node that `Gramatica.ParseProgram` gives; on failure the exception is returned and the tree is left alone |
| Sintactico.AnalizadorSintactico.ParseProgram | Compilador/AnalizadorSintactico.cs:35-52 | result and cursor are those of `Gramatica.ParseProgram` |
| Sintactico.AnalizadorSintactico.ParseNamespace | Compilador/AnalizadorSintactico.cs:54-71 | result and cursor are those of `Gramatica.ParseNamespace` |
| Sintactico.AnalizadorSintactico.ParseClass | Compilador/AnalizadorSintactico.cs:73-90 | result and cursor are those of `Gramatica.ParseClass` |
| Sintactico.AnalizadorSintactico.ParseMethod | Compilador/AnalizadorSintactico.cs:92-112 | result and cursor are those of `Gramatica.ParseMethod` |
| Sintactico.AnalizadorSintactico.ParseBlock | Compilador/AnalizadorSintactico.cs:114-128 | result and cursor are those of `Gramatica.ParseBlock` |
| Sintactico.AnalizadorSintactico.ParseStatement | Compilador/AnalizadorSintactico.cs:130-155 | result and cursor are those of `Gramatica.ParseStatement` |
| Sintactico.AnalizadorSintactico.ParseIf | Compilador/AnalizadorSintactico.cs:157-175 | result and cursor are those of `Gramatica.ParseIf` |
| Sintactico.AnalizadorSintactico.ParseElse | Compilador/AnalizadorSintactico.cs:164-174 | result and cursor are those of `Gramatica.ParseElse` |
| Sintactico.AnalizadorSintactico.ParseFor | Compilador/AnalizadorSintactico.cs:177-195 | result and cursor are those of `Gramatica.ParseFor` |
| Sintactico.AnalizadorSintactico.ParseDeclaracionConInicializacion | Compilador/AnalizadorSintactico.cs:198-213 | result and cursor are those of `Gramatica.ParseDeclaracionConInicializacion` |
| Sintactico.AnalizadorSintactico.ParseExpresionCompleja | Compilador/AnalizadorSintactico.cs:216-221 | result and cursor are those of `Gramatica.ParseExpresionCompleja` |
| Sintactico.AnalizadorSintactico.ParseExpresion | Compilador/AnalizadorSintactico.cs:223-230 | result and cursor are those of `Gramatica.ParseExpresion` |
| Sintactico.AnalizadorSintactico.ParseAsignacion | Compilador/AnalizadorSintactico.cs:232-239 | result and cursor are those of `Gramatica.ParseAsignacion` |
| Sintactico.AnalizadorSintactico.ParseLlamadaMetodo | Compilador/AnalizadorSintactico.cs:241-261 | result and cursor are those of `Gramatica.ParseLlamadaMetodo` |
| Sintactico.AnalizadorSintactico.ParseArgumentos | Compilador/AnalizadorSintactico.cs:249-253 | result and cursor are those of `Gramatica.ParseArgumentos` |
| Sintactico.AnalizadorSintactico.IsTipoDeclaracion | Compilador/AnalizadorSintactico.cs:263-269 | the answer is `Gramatica.IsTipoDeclaracion` at the cursor, which does not move |
| Sintactico.AnalizadorSintactico.SaltarHasta | Compilador/AnalizadorSintactico.cs:96-99 | the cursor ends where `Gramatica.SaltarHasta` stops |
| Sintactico.AnalizadorSintactico.Consume | Compilador/AnalizadorSintactico.cs:271-277 | succeeds exactly on a matching current token, which it returns, moving the cursor by one; on failure the cursor stays |
| Sintactico.AnalizadorSintactico.Match | Compilador/AnalizadorSintactico.cs:279-283 | the answer is `Gramatica.Match` at the cursor |
| Sintactico.AnalizadorSintactico.Advance | Compilador/AnalizadorSintactico.cs:285-288 | result and cursor are those of `Gramatica.Advance` |
| Sintactico.AnalizadorSintactico.LookAhead | Compilador/AnalizadorSintactico.cs:290-294 | the answer is `Gramatica.LookAhead` at the cursor |
| Semantico.EntreComillas | Compilador/AnalizadorSemantico.cs:99 | the value starts and ends with a quote |
| Semantico.EvaluarTipo | Compilador/AnalizadorSemantico.cs:92-108 | "string" exactly for a leaf whose value starts and ends with a quote; "int" exactly for another leaf that `int.TryParse` accepts; "unknown" otherwise |
| Semantico.Declarar | Compilador/AnalizadorSemantico.cs:27-37 | the declared name is in the table afterwards and no existing entry changes |
| Semantico.Asignar | Compilador/AnalizadorSemantico.cs:40-54 | an assignment never changes the table |
| Semantico.Analizado | Compilador/AnalizadorSemantico.cs:21-89 | a walk never removes a name from the table and never shortens the error list (that the old errors stay a prefix is `ErroresSoloCrecen`) |
| Semantico.ErroresSoloCrecen | Compilador/AnalizadorSemantico.cs:21-89 | a walk only appends to the error list |
| Semantico.ErroresSoloCrecenHijo | Compilador/AnalizadorSemantico.cs:59-78 | visiting a child, or skipping a null one, only appends to the error list |
| Semantico.TablaTrasAnalisis | Compilador/AnalizadorSemantico.cs:21-89 | the table gains exactly the names the walk declares, and every entry keeps its first type |
| Semantico.TablaTrasHijo | Compilador/AnalizadorSemantico.cs:59-78 | the same for one child, or none when it is null |
| Semantico.DeclaracionUnica | Compilador/AnalizadorSemantico.cs:27-37 | a new name is added with its type and no error; a known name gives exactly one redeclaration error and leaves the table |
| Semantico.AsignacionUnica | Compilador/AnalizadorSemantico.cs:40-54 | an unknown name gives exactly the "not declared" error; a type mismatch gives exactly the mismatch error naming both types; otherwise nothing changes |
| Semantico.ErrorYaDeclarada | Compilador/AnalizadorSemantico.cs:35 | the redeclaration message quotes the variable's name after a fixed prefix |
| Semantico.ErrorNoDeclarada | Compilador/AnalizadorSemantico.cs:44 | the undeclared-variable message quotes the variable's name after the same prefix |
| Semantico.ErrorIncompatible | Compilador/AnalizadorSemantico.cs:52 | the type mismatch message quotes the variable's name after a fixed prefix |
| Semantico.MensajesDistintos | Compilador/AnalizadorSemantico.cs:35-52 | the three messages never coincide, and each of the two variable messages determines its variable's name |
| Semantico.EnteroConEspacios | Compilador/AnalizadorSemantico.cs:102 | an in-range int with white space around it is typed "int" |
| Semantico.EnteroConNul | Compilador/AnalizadorSemantico.cs:102 | an in-range int followed by a NUL is typed "int" |
| Semantico.CadenaConNul | Compilador/AnalizadorLexico.cs:91-104 | the lexer keeps a NUL inside a string literal, and the leaf `5\0` it gives is typed "int" |
| Semantico.EnteroEsInt | Compilador/AnalizadorSemantico.cs:102 | a printed 32-bit int is typed "int" |
| Semantico.NumeroDelLexico | Compilador/AnalizadorSemantico.cs:92-108 | a number token is a digit run, typed "int" exactly when its value fits in 32 bits |
| Semantico.CadenaDelLexico | Compilador/AnalizadorSemantico.cs:99-100 | a string token from the lexer is never typed "string" |
| Semantico.EjemploDeclaradaYAsignada | Compilador/AnalizadorSemantico.cs:27-54 | `int x;` then `x = 5;` gives no error and the table maps x to int |
| Semantico.EjemploTipoIncompatible | Compilador/AnalizadorSemantico.cs:50-53 | `int x;` then an assignment of a quoted leaf gives one mismatch error, int against string |
| Semantico.EjemploNoDeclarada | Compilador/AnalizadorSemantico.cs:42-45 | `x = 5;` alone gives the "no ha sido declarada" message and an empty table |
| Semantico.EjemploRedeclarada | Compilador/AnalizadorSemantico.cs:29-36 | `int x;` then `string x;` gives the "ya ha sido declarada" message, and x stays int |
| Semantico.AnalizadorSemantico.constructor | Compilador/AnalizadorSemantico.cs:15-19 | the visitor starts with an empty table and no errors |
| Semantico.AnalizadorSemantico.Analizar | Compilador/AnalizadorSemantico.cs:21-24 | the new state is `Analizado` of the old state and the node |
| Semantico.AnalizadorSemantico.Aceptar | Compilador/Nodo.cs:31-91 | the dispatch reaches the state `Analizado` gives |
| Semantico.AnalizadorSemantico.VisitarDeclaracion | Compilador/AnalizadorSemantico.cs:27-37 | the new state is `Declarar` of the old one |
| Semantico.AnalizadorSemantico.VisitarAsignacion | Compilador/AnalizadorSemantico.cs:40-54 | the new state is `Asignar` of the old one |
| Semantico.AnalizadorSemantico.VisitarUsing | Compilador/AnalizadorSemantico.cs:57-63 | visits the present children in field order, reaching `Analizado` |
| Semantico.AnalizadorSemantico.VisitarIf | Compilador/AnalizadorSemantico.cs:65-73 | visits the present children in field order, reaching `Analizado` |
| Semantico.AnalizadorSemantico.VisitarReturn | Compilador/AnalizadorSemantico.cs:75-79 | visits the expression when present, reaching `Analizado` |
| Semantico.AnalizadorSemantico.VisitarExpresion | Compilador/AnalizadorSemantico.cs:81-89 | visiting a leaf changes nothing |
| Etapas.SalidaDelLexicoNoParsea | Compilador/AnalizadorSintactico.cs:56 | the parse of any text's token list, as the lexer scans it, fails |

## Left out

- Character classes. `char.IsLetter` and `char.IsLetterOrDigit` are restricted to ASCII letters, and `char.IsDigit` to ASCII digits. Ignoring case is ASCII case folding. `char.IsWhiteSpace` is modelled over its full set.
- Numeros.TryParseInt32 assumes the invariant culture's signs '+' and '-'.
- Semantico.EntreComillas compares characters ordinally. The source's `StartsWith` and `EndsWith` compare in the current culture, which skips ignorable characters such as U+00AD (soft hyphen).
- MensajesDistintos: the type-mismatch message does not determine its three names, because a name may itself contain the text between them. Only the two messages about one variable determine the name.
- Lexico.Clasificar, Lexico.FinCadena and the scanning methods of Lexico.AnalizadorLexico: the text is a sequence of Unicode scalar values. C# strings are UTF-16 code units. So a character outside the Basic Multilingual Plane outside a string gives one `Error` token here, where the source gives two (one per lone surrogate, at columns c and c+1). Inside a string it moves the column by one here and by two in the source.
- Lexico.AnalizadorLexico: the line and column are unbounded integers. The source's 32-bit `int` would wrap only on texts of more than two billion characters.
- Lexico.AnalizadorLexico.RecorrerCadena: the string body loop is a separate method. The source inlines it in `ObtenerSiguienteToken`. The behaviour is the same.
- Node classes. The classes for program, namespace, class, method, block, for and call are not among the visitor's six kinds, and their `Aceptar` bodies are not part of this model. Their fields are those the parser sets. Ast.Aceptar treats them as dispatching to no overload, so Semantico.Analizado leaves the state unchanged for them.
- Parser exceptions. These become `Gramatica.Falla` values. The text of the `Consume` and "Sentencia no reconocida" messages is modelled exactly. The .NET messages for an index out of range and an invalid cast are approximations.
- Sintactico.AnalizadorSintactico: after a failure, the methods say nothing about the cursor, except `Consume`. The source abandons the parse at that point.
- Gramatica.ParseForResto: the part of a for statement after its initializing statement is a separate function. The source reads the whole statement in one `ParseFor`. The behaviour is the same.
- Sintactico.AnalizadorSintactico.ParseElse and ParseArgumentos: the else branch and the argument loop are separate methods. The source inlines them in `ParseIf` and `ParseLlamadaMetodo`. The behaviour is the same.
- Sintactico.AnalizadorSintactico.Parse returns the exception instead of throwing it. `Errores` is never written by the parser, so it stays empty.
- Semantico.EjemploTipoIncompatible uses a leaf with its quotes kept. No leaf the lexer produces keeps them.
- The Roslyn-based analysis, translation and code execution in `MainWindow.xaml.cs` are not part of this model. Only the token loop of that file is modelled, as `Lexico.Tokenizar`. These parts are I/O and calls into a foreign compiler.
- `AssignmentNode.cs` is not part of this model. It is an unused node variant, and no core file refers to it.
- `Token.ToString` prints `Línea`, with a non-ASCII character, verbatim as a Dafny string. No encoding is modelled.
