/**
 The tokens that the scanner hands to the parser, together with the semantic value
 that travels with each of them.

 `Kind` is the symbol number the parser works with, after `YYTRANSLATE`.
 */
module Tokens {

  /** A floating-point value is opaque here: it is represented by its lexeme. */
  datatype Token =
    | TokBoolean(ival: int)
    | TokInteger(ival: int)
    | TokHex(ival: int)
    | TokInteger64(llval: int)
    | TokHex64(llval: int)
    | TokFloat(fval: string)
    | TokString(sval: string)
    | TokName(sval: string)
    | TokEquals
    | TokNewline
    | TokArrayStart
    | TokArrayEnd
    | TokListStart
    | TokListEnd
    | TokComma
    | TokGroupStart
    | TokGroupEnd
    | TokSemicolon
    | TokGarbage
    | TokError

  type Symbol = int

  const END: Symbol := 0
  const STRING: Symbol := 9
  const NAME: Symbol := 10
  const EQUALS: Symbol := 11

  function Kind(t: Token): (k: Symbol)
    ensures 3 <= k < 23
  {
    match t
    case TokBoolean(_) => 3
    case TokInteger(_) => 4
    case TokHex(_) => 5
    case TokInteger64(_) => 6
    case TokHex64(_) => 7
    case TokFloat(_) => 8
    case TokString(_) => STRING
    case TokName(_) => NAME
    case TokEquals => EQUALS
    case TokNewline => 12
    case TokArrayStart => 13
    case TokArrayEnd => 14
    case TokListStart => 15
    case TokListEnd => 16
    case TokComma => 17
    case TokGroupStart => 18
    case TokGroupEnd => 19
    case TokSemicolon => 20
    case TokGarbage => 21
    case TokError => 22
  }

  /** The symbol the parser sees next: the end marker once the input is used up. */
  function Look(rest: seq<Token>): (k: Symbol)
    ensures 0 <= k < 23
  {
    if rest == [] then END else Kind(rest[0])
  }
}
