/**
 The written text, spelled out: indentation, assignment signs, separators, braces, numerals and
 escapes.
 */
module WrittenTexts {
  import opened Options
  import opened Settings
  import opened Numerals
  import opened Trees
  import opened WriterSpec

  /** `level` tabs, or `level` times the tab width in spaces; nothing at the outer two depths. */
  lemma IndentIs(y: Style, depth: nat)
    ensures var w := IndentFrom(y, depth);
            if depth <= 1 then w == ""
            else if y.tabWidth == 0 then |w| == depth - 1 && forall i :: 0 <= i < |w| ==> w[i] == '\t'
            else |w| == (depth - 1) * y.tabWidth && forall i :: 0 <= i < |w| ==> w[i] == ' '
  {
    if depth > 1 && y.tabWidth > 0 {
      assert (depth - 1) * y.tabWidth >= 1;
    }
  }

  // ----- scalars

  /** The numerals are the shortest ones, with the capital letters A to F. */
  lemma {:induction false} DigitsAreShortest(n: nat, b: Base)
    ensures n == 0 ==> Digits(n, b) == "0"
    ensures n > 0 ==> Digits(n, b)[0] != '0'
    ensures forall c :: c in Digits(n, b) ==> '0' <= c <= '9' || (b.Hexadecimal? && 'A' <= c <= 'F')
  {
    if Quotient(n, b) > 0 {
      DigitsAreShortest(Quotient(n, b), b);
    }
  }

  /** A sign only for a negative decimal; `0x` for hexadecimal; `L` after 64 bits. */
  lemma NumeralIs(y: Style, v: int, format: int)
    requires IsInt64(v)
    ensures var hex := (if format == 0 then y.defaultFormat else format) == 1;
            var plain := if v < 0 then "-" + Digits(-v, Decimal) else Digits(v, Decimal);
            && ScalarText(y, SInt64(v), format)
               == (if hex then "0x" + Digits(v % 0x1_0000_0000_0000_0000, Hexadecimal) else plain) + "L"
            && (IsInt32(v) ==>
                  ScalarText(y, SInt(v), format)
                  == if hex then "0x" + Digits(v % 0x1_0000_0000, Hexadecimal) else plain)
  {
  }

  lemma TruthIs(y: Style, b: int, format: int)
    ensures ScalarText(y, SBool(b), format) == if b == 0 then "false" else "true"
  {
  }

  /** Every character of a string but NUL, and how it is written. */
  lemma EscapeIs(c: char)
    requires c as int != 0
    ensures EscapeChar('\"') == "\\\"" && EscapeChar('\\') == "\\\\"
    ensures EscapeChar(10 as char) == "\\n" && EscapeChar(13 as char) == "\\r"
    ensures EscapeChar(12 as char) == "\\f" && EscapeChar(9 as char) == "\\t"
    ensures c as int >= 32 && c != '\"' && c != '\\' ==> EscapeChar(c) == [c]
    ensures c as int < 32 && c as int !in {9, 10, 12, 13} ==>
              EscapeChar(c) == "\\x" + [if c as int < 16 then '0' else '1'] + ["0123456789ABCDEF"[c as int % 16]]
  {
  }

  lemma {:induction false} EscapeAppends(u: string, v: string)
    requires '\0' !in u
    ensures Escape(u + v) == Escape(u) + Escape(v)
  {
    if u == [] {
      assert u + v == v;
    } else {
      assert (u + v)[1..] == u[1..] + v && (u + v)[0] == u[0];
      EscapeAppends(u[1..], v);
      Associates(EscapeChar(u[0]), Escape(u[1..]), Escape(v));
    }
  }

  lemma Associates(a: string, b: string, c: string)
    ensures (a + b) + c == a + (b + c)
  {
  }

  /** A string stops at its first NUL. */
  lemma EscapeStops(u: string, v: string)
    requires '\0' !in u
    ensures Escape(u + "\0" + v) == Escape(u)
  {
    assert u + "\0" + v == u + ("\0" + v);
    EscapeAppends(u, "\0" + v);
    assert Escape("\0" + v) == [];
  }

  // ----- aggregates

  function Joined(ws: seq<string>, sep: string): string {
    if ws == [] then ""
    else if |ws| == 1 then ws[0]
    else Joined(ws[..|ws| - 1], sep) + sep + ws[|ws| - 1]
  }

  /** The texts of the elements of an array or list, without anything between them. */
  function Elems(y: Style, es: seq<Tree>, depth: nat): (ws: seq<string>)
    ensures |ws| == |es| && forall j :: 0 <= j < |es| ==> ws[j] == ValueText(y, es[j].value, depth + 1)
  {
    seq(|es|, j requires 0 <= j < |es| => ValueText(y, es[j].value, depth + 1))
  }

  lemma {:induction false} JoinedFirst(ws: seq<string>, sep: string)
    requires |ws| > 1
    ensures Joined(ws, sep) == ws[0] + sep + Joined(ws[1..], sep)
  {
    if |ws| > 2 {
      JoinedFirst(ws[..|ws| - 1], sep);
      assert ws[..|ws| - 1][1..] == ws[1..][..|ws| - 2];
    }
  }

  lemma {:induction false} ElemsAreJoined(y: Style, es: seq<Tree>, depth: nat)
    requires es != []
    ensures ElemsText(y, es, depth) == Joined(Elems(y, es, depth), ", ") + " "
  {
    var ws := Elems(y, es, depth);
    if |es| == 1 {
      assert es[1..] == [] && ElemsText(y, es[1..], depth) == "";
    } else {
      ElemsAreJoined(y, es[1..], depth);
      assert Elems(y, es[1..], depth) == ws[1..];
      JoinedFirst(ws, ", ");
    }
  }

  /** Brackets for an array and parentheses for a list, with a comma and a blank between two elements. */
  lemma SequenceIs(y: Style, es: seq<Tree>, depth: nat)
    ensures es == [] ==> ValueText(y, VArray(es), depth) == "[ ]" && ValueText(y, VList(es), depth) == "( )"
    ensures var inner := Joined(Elems(y, es, depth), ", ");
            es != [] ==> && ValueText(y, VArray(es), depth) == "[ " + inner + " ]"
                         && ValueText(y, VList(es), depth) == "( " + inner + " )"
  {
    if es != [] {
      ElemsAreJoined(y, es, depth);
    }
  }

  /** The texts of the members of a group, one after the other. */
  function Members(y: Style, ms: seq<Tree>, depth: nat): (ws: seq<string>)
    ensures |ws| == |ms| && forall j :: 0 <= j < |ms| ==> ws[j] == SettingText(y, ms[j], depth + 1)
  {
    seq(|ms|, j requires 0 <= j < |ms| => SettingText(y, ms[j], depth + 1))
  }

  lemma {:induction false} MembersAreAppended(y: Style, ms: seq<Tree>, depth: nat)
    ensures MembersText(y, ms, depth) == Joined(Members(y, ms, depth), "")
  {
    var ws := Members(y, ms, depth);
    if |ms| == 1 {
      assert ms[1..] == [] && MembersText(y, ms[1..], depth) == "";
    } else if |ms| > 1 {
      MembersAreAppended(y, ms[1..], depth);
      assert Members(y, ms[1..], depth) == ws[1..];
      JoinedFirst(ws, "");
    }
  }

  /**
   A named setting below the root: its indentation, its name, the sign that the option for its type
   asks for, its value, and a line end after a semicolon if that option is on.
   */
  lemma SettingIs(y: Style, name: string, v: Value, depth: nat)
    requires depth > 0
    ensures SettingText(y, Tree(Some(name), v), depth)
            == IndentFrom(y, depth) + name
               + (if (if v.VGroup? then y.colonForGroups else y.colonForOthers) then " : " else " = ")
               + ValueText(y, v, depth) + (if y.semicolons then ";\n" else "\n")
  {
  }

  /** A group below the root: the texts of its members, one level deeper, between braces. */
  lemma GroupIs(y: Style, ms: seq<Tree>, depth: nat)
    requires depth > 0
    ensures ValueText(y, VGroup(ms), depth)
            == (if y.braceOnOwnLine then "\n" + IndentFrom(y, depth) else "") + "{\n"
               + Joined(Members(y, ms, depth), "") + IndentFrom(y, depth) + "}"
  {
    MembersAreAppended(y, ms, depth);
  }

  /** The root is not surrounded by anything. */
  lemma RootIs(y: Style, root: Tree, ms: seq<Tree>)
    requires root == Tree(None, VGroup(ms))
    ensures ConfigText(y, root) == Joined(Members(y, ms, 0), "")
  {
    MembersAreAppended(y, ms, 0);
    assert ValueText(y, root.value, 0) == OpenText(y, 0) + MembersText(y, ms, 0) + CloseText(y, 0);
    assert IndentFrom(y, 0) == [] && AssignText(y, root) == [] && EndText(y, 0) == [];
  }
}
