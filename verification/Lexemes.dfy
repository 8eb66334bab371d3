/**
 The shapes of the words in a configuration text: numerals, comments, include directives.
 */
module Lexemes {
  import opened Settings

  const FORM_FEED: char := 0x0C as char

  predicate IsBlank(c: char) {
    c == ' ' || c == '\t'
  }

  predicate IsHexDigit(c: char) {
    IsDigit(c) || 'a' <= c <= 'f' || 'A' <= c <= 'F'
  }

  predicate IsSign(c: char) {
    c == '-' || c == '+'
  }

  function ToLower(c: char): char {
    if 'A' <= c <= 'Z' then (c as int + 32) as char else c
  }

  /** `w` is the word `u` in any mixture of cases. */
  predicate IsWord(w: string, u: string) {
    |w| == |u| && forall i :: 0 <= i < |w| ==> ToLower(w[i]) == u[i]
  }

  predicate AllDigits(w: string) {
    w != [] && forall i :: 0 <= i < |w| ==> IsDigit(w[i])
  }

  predicate AllHex(w: string) {
    w != [] && forall i :: 0 <= i < |w| ==> IsHexDigit(w[i])
  }

  function DropSign(w: string): string {
    if w != [] && IsSign(w[0]) then w[1..] else w
  }

  /** `w` without one or two trailing letters L; `w` itself if there is none. */
  function DropLong(w: string): string {
    if |w| >= 2 && w[|w| - 1] == 'L' && w[|w| - 2] == 'L' then w[..|w| - 2]
    else if |w| >= 1 && w[|w| - 1] == 'L' then w[..|w| - 1]
    else w
  }

  /** The number of leading digits. */
  function Span(w: string): (k: nat)
    ensures k <= |w|
    ensures forall i :: 0 <= i < k ==> IsDigit(w[i])
    ensures k < |w| ==> !IsDigit(w[k])
  {
    if w != [] && IsDigit(w[0]) then 1 + Span(w[1..]) else 0
  }

  predicate IsInteger(w: string) {
    AllDigits(DropSign(w))
  }

  predicate IsInteger64(w: string) {
    DropLong(w) != w && AllDigits(DropSign(DropLong(w)))
  }

  predicate IsHex(w: string) {
    |w| >= 3 && w[0] == '0' && (w[1] == 'x' || w[1] == 'X') && AllHex(w[2..])
  }

  predicate IsHex64(w: string) {
    DropLong(w) != w && IsHex(DropLong(w))
  }

  /** An exponent part. */
  predicate IsExponent(w: string) {
    w != [] && (w[0] == 'e' || w[0] == 'E') && AllDigits(DropSign(w[1..]))
  }

  /** What may follow the point: digits and an optional exponent. */
  predicate IsFraction(f: string) {
    f[Span(f)..] == [] || IsExponent(f[Span(f)..])
  }

  /** Digits with a point and an optional exponent, or digits with an exponent. */
  predicate IsUnsignedFloat(u: string) {
    var k := Span(u);
    if k < |u| && u[k] == '.' then IsFraction(u[k + 1..])
    else k >= 1 && IsExponent(u[k..])
  }

  predicate IsFloat(w: string) {
    IsUnsignedFloat(DropSign(w))
  }

  predicate NoneOf(w: string, cs: string) {
    w != [] && forall i :: 0 <= i < |w| ==> w[i] !in cs
  }

  /** The number of leading blanks. */
  function Blanks(w: string): (k: nat)
    ensures k <= |w|
    ensures forall i :: 0 <= i < k ==> IsBlank(w[i])
    ensures k < |w| ==> !IsBlank(w[k])
  {
    if w != [] && IsBlank(w[0]) then 1 + Blanks(w[1..]) else 0
  }

  /** Blanks, `@include`, at least one blank and a quote. */
  predicate IsIncludeOpen(w: string) {
    var u := w[Blanks(w)..];
    && "@include" <= u
    && var v := u[8..]; v != [] && IsBlank(v[0]) && v[Blanks(v)..] == "\""
  }

  /** A comment to the end of the line, with the line end as trailing context. */
  predicate IsLineComment(w: string) {
    && |w| >= 2 && w[|w| - 1] == '\n'
    && (forall i :: 0 <= i < |w| - 1 ==> w[i] != '\n')
    && (w[0] == '#' || (|w| >= 3 && w[0] == '/' && w[1] == '/'))
  }
}
