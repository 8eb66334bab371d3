/**
 Writing a configuration: the recursive procedures that print the tree below a setting to a
 stream.
 */
module Writer {
  import opened Sequences
  import opened Options
  import opened Settings
  import opened Lexemes
  import opened Numerals
  import opened Trees
  import opened Actions
  import opened WriterSpec

  class Stream {
    var text: string

    constructor ()
      ensures text == ""
    {
      text := "";
    }

    method Puts(s: string)
      modifies this
      ensures text == old(text) + s
    {
      text := text + s;
    }
  }

  lemma {:induction false} RepeatOneMore(c: char, n: nat)
    ensures Repeat(c, n) + [c] == Repeat(c, n + 1)
  {
    if n > 0 {
      RepeatOneMore(c, n - 1);
    }
  }

  /** `__config_indent`. */
  method WriteIndent(out: Stream, y: Style, depth: nat)
    requires depth > 1
    modifies out
    ensures out.text == old(out.text) + Indent(y, depth)
  {
    if y.tabWidth > 0 {
      out.Puts(Repeat(' ', if (depth - 1) * y.tabWidth >= 1 then (depth - 1) * y.tabWidth else 1));
    } else {
      for i := 0 to depth - 1
        invariant out.text == old(out.text) + Repeat('\t', i)
      {
        out.Puts("\t");
        RepeatOneMore('\t', i);
      }
    }
  }

  /** One character of a string literal. */
  method WriteChar(out: Stream, c: char)
    requires c != '\0'
    modifies out
    ensures out.text == old(out.text) + EscapeChar(c)
  {
    if c == '\"' || c == '\\' {
      out.Puts("\\");
      out.Puts([c]);
      assert "\\" + [c] == ['\\', c];
    } else if c == '\n' {
      out.Puts("\\n");
    } else if c == '\r' {
      out.Puts("\\r");
    } else if c == FORM_FEED {
      out.Puts("\\f");
    } else if c == '\t' {
      out.Puts("\\t");
    } else if c >= ' ' {
      out.Puts([c]);
    } else {
      out.Puts("\\x" + [DigitOf(c as int / 16), DigitOf(c as int % 16)]);
    }
  }

  /** The characters of a string literal, up to its NUL. */
  method WriteEscaped(out: Stream, s: string)
    modifies out
    ensures out.text == old(out.text) + Escape(s)
  {
    ghost var total := out.text + Escape(s);
    var p := 0;
    assert s[0..] == s;
    while p < |s| && s[p] != '\0'
      invariant p <= |s| && out.text + Escape(s[p..]) == total
    {
      assert s[p..][1..] == s[p + 1..];
      Moved(out.text, EscapeChar(s[p]), Escape(s[p + 1..]), total);
      WriteChar(out, s[p]);
      p := p + 1;
    }
  }

  /** A piece moves from what is still to be written to what has been written. */
  lemma Moved(done: string, piece: string, more: string, total: string)
    requires done + (piece + more) == total
    ensures done + piece + more == total
  {
  }

  /** The scalar cases of `__config_write_value`. */
  method WriteScalar(out: Stream, y: Style, v: Scalar, format: int)
    modifies out
    ensures out.text == old(out.text) + ScalarText(y, v, format)
  {
    match v
    case SBool(b) => out.Puts(if b != 0 then "true" else "false");
    case SInt(i) => out.Puts(if FormatOf(y, format) == FORMAT_HEX then WriteHex32(i) else WriteInt(i));
    case SInt64(l) =>
      out.Puts((if FormatOf(y, format) == FORMAT_HEX then WriteHex64(l) else WriteInt(l)) + "L");
    case SFloat(f) => out.Puts(y.floatText(f));
    case SString(s) =>
      out.Puts("\"");
      if s.Some? {
        WriteEscaped(out, s.value);
      }
      out.Puts("\"");
  }

  /** The text of the elements from position `j` on. */
  ghost function ElemsFrom(y: Style, es: seq<Tree>, j: nat, depth: nat): string
    requires j <= |es|
  {
    ElemsText(y, es[j..], depth)
  }

  ghost function MembersFrom(y: Style, es: seq<Tree>, j: nat, depth: nat): string
    requires j <= |es|
  {
    MembersText(y, es[j..], depth)
  }

  function Separator(last: bool): string {
    if last then " " else ", "
  }

  lemma NextElem(y: Style, es: seq<Tree>, j: nat, depth: nat)
    requires j < |es|
    ensures ElemsFrom(y, es, j, depth) ==
            ElemText(y, es[j], depth) + Separator(j + 1 == |es|) + ElemsFrom(y, es, j + 1, depth)
  {
    assert es[j..][1..] == es[j + 1..];
  }

  lemma NextMember(y: Style, es: seq<Tree>, j: nat, depth: nat)
    requires j < |es|
    ensures MembersFrom(y, es, j, depth) == SettingText(y, es[j], depth + 1) + MembersFrom(y, es, j + 1, depth)
  {
    assert es[j..][1..] == es[j + 1..];
  }

  lemma Whole(y: Style, es: seq<Tree>, depth: nat)
    ensures ElemsFrom(y, es, 0, depth) == ElemsText(y, es, depth) && ElemsFrom(y, es, |es|, depth) == ""
    ensures MembersFrom(y, es, 0, depth) == MembersText(y, es, depth) && MembersFrom(y, es, |es|, depth) == ""
  {
    assert es[0..] == es;
  }

  /** A comma after every element but the last, and a space. */
  method WriteSeparator(out: Stream, last: bool)
    modifies out
    ensures out.text == old(out.text) + Separator(last)
  {
    if !last {
      out.Puts(",");
    }
    out.Puts(" ");
    assert "," + " " == ", ";
  }

  /** An element and what separates it from the next. */
  method WriteElem(out: Stream, y: Style, st: Store, k: Id, last: bool, depth: nat)
    requires Ordered(st) && 0 <= k < |st|
    modifies out
    ensures out.text == old(out.text) + (ElemText(y, Abs(st, k), depth) + Separator(last))
    decreases |st| - k, 3
  {
    WriteValue(out, y, st, k, depth + 1);
    WriteSeparator(out, last);
  }

  /** The elements of an array or a list. */
  method WriteElems(out: Stream, y: Style, st: Store, i: Id, depth: nat)
    requires Ordered(st) && 0 <= i < |st|
    modifies out
    ensures out.text == old(out.text) + ElemsText(y, Children(st, i), depth)
    decreases |st| - i, 0
  {
    assert KidsIn(st, i);
    ghost var es := Children(st, i);
    ghost var total := out.text + ElemsText(y, es, depth);
    var kids := st[i].kids;
    Whole(y, es, depth);
    for j := 0 to |kids|
      invariant out.text + ElemsFrom(y, es, j, depth) == total
    {
      ghost var done := out.text;
      WriteElem(out, y, st, kids[j], j + 1 == |kids|, depth);
      NextElem(y, es, j, depth);
      ghost var piece := ElemText(y, es[j], depth) + Separator(j + 1 == |kids|);
      Moved(done, piece, ElemsFrom(y, es, j + 1, depth), total);
    }
  }

  /** The members of a group. */
  method WriteMembers(out: Stream, y: Style, st: Store, i: Id, depth: nat)
    requires Ordered(st) && 0 <= i < |st|
    modifies out
    ensures out.text == old(out.text) + MembersText(y, Children(st, i), depth)
    decreases |st| - i, 0
  {
    assert KidsIn(st, i);
    ghost var es := Children(st, i);
    ghost var total := out.text + MembersText(y, es, depth);
    var kids := st[i].kids;
    Whole(y, es, depth);
    for j := 0 to |kids|
      invariant out.text + MembersFrom(y, es, j, depth) == total
    {
      NextMember(y, es, j, depth);
      Moved(out.text, SettingText(y, es[j], depth + 1), MembersFrom(y, es, j + 1, depth), total);
      WriteSetting(out, y, st, kids[j], depth + 1);
    }
  }

  /** `__config_write_value`. */
  method WriteValue(out: Stream, y: Style, st: Store, i: Id, depth: nat)
    requires Ordered(st) && 0 <= i < |st|
    modifies out
    ensures out.text == old(out.text) + ValueText(y, Abs(st, i).value, depth)
    decreases |st| - i, 2
  {
    assert KidsIn(st, i) && Typed(st[i]);
    match st[i].stype
    case TypeNone => out.Puts("???");
    case TypeList =>
      out.Puts("( ");
      WriteElems(out, y, st, i, depth);
      out.Puts(")");
    case TypeArray =>
      out.Puts("[ ");
      WriteElems(out, y, st, i, depth);
      out.Puts("]");
    case TypeGroup => WriteGroup(out, y, st, i, depth);
    case _ => WriteScalar(out, y, st[i].data, st[i].format);
  }

  /** The group case. */
  method WriteGroup(out: Stream, y: Style, st: Store, i: Id, depth: nat)
    requires Ordered(st) && 0 <= i < |st|
    modifies out
    ensures out.text == old(out.text) + ValueText(y, VGroup(Children(st, i)), depth)
    decreases |st| - i, 1
  {
    Associates(out.text, OpenText(y, depth), MembersText(y, Children(st, i), depth), CloseText(y, depth));
    WriteOpen(out, y, depth);
    WriteMembers(out, y, st, i, depth);
    WriteClose(out, y, depth);
  }

  method WriteIndentFrom(out: Stream, y: Style, depth: nat)
    modifies out
    ensures out.text == old(out.text) + IndentFrom(y, depth)
  {
    if depth > 1 {
      WriteIndent(out, y, depth);
    }
  }

  method WriteOpen(out: Stream, y: Style, depth: nat)
    modifies out
    ensures out.text == old(out.text) + OpenText(y, depth)
  {
    if depth > 0 {
      if y.braceOnOwnLine {
        out.Puts("\n");
        WriteIndentFrom(out, y, depth);
      }
      out.Puts("{\n");
    }
  }

  method WriteClose(out: Stream, y: Style, depth: nat)
    modifies out
    ensures out.text == old(out.text) + CloseText(y, depth)
  {
    WriteIndentFrom(out, y, depth);
    if depth > 0 {
      out.Puts("}");
    }
  }

  /** The name of a setting and its assignment character. */
  method WriteName(out: Stream, y: Style, st: Store, i: Id)
    requires Ordered(st) && 0 <= i < |st|
    modifies out
    ensures out.text == old(out.text) + AssignText(y, Abs(st, i))
  {
    if st[i].name.Some? {
      out.Puts(st[i].name.value);
      var colon := if st[i].stype == TypeGroup then y.colonForGroups else y.colonForOthers;
      out.Puts(if colon then " : " else " = ");
    }
  }

  method WriteEnd(out: Stream, y: Style, depth: nat)
    modifies out
    ensures out.text == old(out.text) + EndText(y, depth)
  {
    if depth > 0 {
      if y.semicolons {
        out.Puts(";");
      }
      out.Puts("\n");
      assert ";" + "\n" == ";\n";
    }
  }

  /** `__config_write_setting`. */
  method WriteSetting(out: Stream, y: Style, st: Store, i: Id, depth: nat)
    requires Ordered(st) && 0 <= i < |st|
    modifies out
    ensures out.text == old(out.text) + SettingText(y, Abs(st, i), depth)
    decreases |st| - i, 3
  {
    WriteIndentFrom(out, y, depth);
    WriteName(out, y, st, i);
    WriteValue(out, y, st, i, depth);
    WriteEnd(out, y, depth);
  }

  /** `config_write`. */
  method ConfigWrite(st: Store, y: Style) returns (text: string)
    requires Ordered(st) && st != []
    ensures text == ConfigText(y, Abs(st, ROOT))
  {
    var out := new Stream();
    WriteSetting(out, y, st, ROOT, 0);
    text := out.text;
  }
}
