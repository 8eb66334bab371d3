/**
 The text that the library writes for a tree of settings.
 */
module WriterSpec {
  import opened Options
  import opened Settings
  import opened Lexemes
  import opened Numerals
  import opened Trees

  /** The fields of a configuration that the writer looks at. How a float prints is left open. */
  datatype Style = Style(
    semicolons: bool,
    colonForGroups: bool,
    colonForOthers: bool,
    braceOnOwnLine: bool,
    tabWidth: nat,
    defaultFormat: int,
    floatText: string -> string)

  function Repeat(c: char, n: nat): (s: string)
    ensures |s| == n && forall i :: 0 <= i < n ==> s[i] == c
  {
    if n == 0 then [] else [c] + Repeat(c, n - 1)
  }

  /** Tabs, or spaces: at least one space. */
  function Indent(y: Style, depth: nat): string
    requires depth > 1
  {
    if y.tabWidth == 0 then Repeat('\t', depth - 1)
    else Repeat(' ', if (depth - 1) * y.tabWidth >= 1 then (depth - 1) * y.tabWidth else 1)
  }

  function IndentFrom(y: Style, depth: nat): string {
    if depth > 1 then Indent(y, depth) else []
  }

  function EscapeChar(c: char): string {
    if c == '\"' || c == '\\' then ['\\', c]
    else if c == '\n' then "\\n"
    else if c == '\r' then "\\r"
    else if c == FORM_FEED then "\\f"
    else if c == '\t' then "\\t"
    else if c >= ' ' then [c]
    else "\\x" + [DigitOf(c as int / 16), DigitOf(c as int % 16)]
  }

  /** The characters of a string literal, up to the end of the C string. */
  function Escape(s: string): string {
    if s == [] || s[0] == '\0' then [] else EscapeChar(s[0]) + Escape(s[1..])
  }

  /** `config_setting_get_format`. */
  function FormatOf(y: Style, format: int): int {
    if format != 0 then format else y.defaultFormat
  }

  function ScalarText(y: Style, v: Scalar, format: int): string {
    match v
    case SBool(b) => if b != 0 then "true" else "false"
    case SInt(i) => if FormatOf(y, format) == FORMAT_HEX then WriteHex32(i) else WriteInt(i)
    case SInt64(l) => (if FormatOf(y, format) == FORMAT_HEX then WriteHex64(l) else WriteInt(l)) + "L"
    case SFloat(f) => y.floatText(f)
    case SString(s) => "\"" + Escape(match s case None => [] case Some(u) => u) + "\""
  }

  /** `__config_write_value`. */
  function ValueText(y: Style, v: Value, depth: nat): string
    decreases v, 1
  {
    match v
    case VNone => "???"
    case VScalar(data, format) => ScalarText(y, data, format)
    case VList(es) => "( " + ElemsText(y, es, depth) + ")"
    case VArray(es) => "[ " + ElemsText(y, es, depth) + "]"
    case VGroup(ms) => OpenText(y, depth) + MembersText(y, ms, depth) + CloseText(y, depth)
  }

  function OpenText(y: Style, depth: nat): string {
    if depth == 0 then []
    else (if y.braceOnOwnLine then "\n" + IndentFrom(y, depth) else []) + "{\n"
  }

  function CloseText(y: Style, depth: nat): string {
    if depth == 0 then [] else IndentFrom(y, depth) + "}"
  }

  /** The elements of an array or list: a comma after all but the last, a space after each. */
  function ElemsText(y: Style, es: seq<Tree>, depth: nat): string
    decreases es, 0
  {
    if es == [] then []
    else ElemText(y, es[0], depth) + (if |es| > 1 then ", " else " ") + ElemsText(y, es[1..], depth)
  }

  function ElemText(y: Style, e: Tree, depth: nat): string
    decreases e, 0
  {
    ValueText(y, e.value, depth + 1)
  }

  function MembersText(y: Style, ms: seq<Tree>, depth: nat): string
    decreases ms, 0
  {
    if ms == [] then [] else SettingText(y, ms[0], depth + 1) + MembersText(y, ms[1..], depth)
  }

  function AssignText(y: Style, t: Tree): string {
    match t.name
    case None => []
    case Some(name) => name + (if (if t.value.VGroup? then y.colonForGroups else y.colonForOthers) then " : " else " = ")
  }

  function EndText(y: Style, depth: nat): string {
    if depth == 0 then [] else (if y.semicolons then ";\n" else "\n")
  }

  /** `__config_write_setting`. */
  function SettingText(y: Style, t: Tree, depth: nat): string
    decreases t, 0
  {
    IndentFrom(y, depth) + AssignText(y, t) + ValueText(y, t.value, depth) + EndText(y, depth)
  }

  /** `config_write`: the root setting at depth 0. */
  function ConfigText(y: Style, root: Tree): string {
    SettingText(y, root, 0)
  }
}
