/**
 Numbers as text: what `printf` writes and what `atoi`, `atoll`, `strtoul` and `strtoull` read
 back, on a machine with 32-bit `int` and 64-bit `long`.
 */
module Numerals {
  import opened Words
  import opened Settings
  import opened Lexemes

  const TWO64 := 0x1_0000_0000_0000_0000
  const INT64_MAX := 0x7FFF_FFFF_FFFF_FFFF
  const INT64_MIN := -0x8000_0000_0000_0000

  predicate IsInt32(v: int) {
    INT32_MIN <= v <= INT32_MAX
  }

  predicate IsInt64(v: int) {
    INT64_MIN <= v <= INT64_MAX
  }

  /** Conversion to a signed 32-bit integer. */
  function Wrap32(v: int): int {
    var u := v % TWO32;
    if u <= INT32_MAX then u else u - TWO32
  }

  /** Conversion to a signed 64-bit integer. */
  function Wrap64(v: int): int {
    var u := v % TWO64;
    if u <= INT64_MAX then u else u - TWO64
  }

  function Clamp64(v: int): int {
    if v > INT64_MAX then INT64_MAX else if v < INT64_MIN then INT64_MIN else v
  }

  /** A conversion keeps the low bits. */
  lemma WrapsModulo(v: int)
    ensures IsInt32(Wrap32(v)) && (v - Wrap32(v)) % TWO32 == 0
    ensures IsInt64(Wrap64(v)) && (v - Wrap64(v)) % TWO64 == 0
  {
  }

  /** The nearest 64-bit integer. */
  lemma ClampIsNearest(v: int, x: int)
    requires IsInt64(x)
    ensures IsInt64(Clamp64(v)) && (IsInt64(v) ==> Clamp64(v) == v)
    ensures if v <= Clamp64(v) then v <= Clamp64(v) <= x || x <= v else x <= Clamp64(v) <= v
  {
  }

  // ----- digits

  function DigitOf(d: nat): (c: char)
    requires d < 16
    ensures IsHexDigit(c) && (d < 10 ==> IsDigit(c))
  {
    if d < 10 then ('0' as int + d) as char else ('A' as int + d - 10) as char
  }

  function ValueOf(c: char): (d: nat)
    ensures IsHexDigit(c) ==> d < 16
    ensures IsDigit(c) ==> d < 10
  {
    if IsDigit(c) then c as int - '0' as int
    else if 'a' <= c <= 'f' then c as int - 'a' as int + 10
    else if 'A' <= c <= 'F' then c as int - 'A' as int + 10
    else 0
  }

  lemma ValueOfDigit(d: nat)
    requires d < 16
    ensures ValueOf(DigitOf(d)) == d
  {
  }

  /** The two bases that are used. */
  datatype Base = Decimal | Hexadecimal

  function Quotient(n: nat, b: Base): nat {
    if b.Decimal? then n / 10 else n / 16
  }

  function Remainder(n: nat, b: Base): (d: nat)
    ensures d < if b.Decimal? then 10 else 16
  {
    if b.Decimal? then n % 10 else n % 16
  }

  function Shifted(n: nat, b: Base): nat {
    if b.Decimal? then n * 10 else n * 16
  }

  /** The digits of `n`, without leading zeros. */
  function Digits(n: nat, b: Base): (w: string)
    ensures w != [] && forall i :: 0 <= i < |w| ==> IsHexDigit(w[i]) && (b.Decimal? ==> IsDigit(w[i]))
  {
    if Quotient(n, b) == 0 then [DigitOf(Remainder(n, b))]
    else Digits(Quotient(n, b), b) + [DigitOf(Remainder(n, b))]
  }

  /** The number that the digits `w` denote. */
  function Number(w: string, b: Base): nat {
    if w == [] then 0 else Shifted(Number(w[..|w| - 1], b), b) + ValueOf(w[|w| - 1])
  }

  lemma {:induction false} NumberOfDigits(n: nat, b: Base)
    ensures Number(Digits(n, b), b) == n
  {
    ValueOfDigit(Remainder(n, b));
    if Quotient(n, b) == 0 {
      assert [DigitOf(n)][..0] == [];
    } else {
      var w := Digits(Quotient(n, b), b);
      NumberOfDigits(Quotient(n, b), b);
      assert (w + [DigitOf(Remainder(n, b))])[..|w|] == w;
    }
  }

  /** The digits stand for their places, the last one for the units. */
  lemma NumberByPlaces()
    ensures Number("", Decimal) == 0 && Number("7", Decimal) == 7 && Number("407", Decimal) == 407
    ensures Number("1f", Hexadecimal) == 31 && Number("Ab0", Hexadecimal) == 0xAB0
  {
    assert "407"[..2] == "40" && "40"[..1] == "4" && "4"[..0] == "" && "7"[..0] == "";
    assert "1f"[..1] == "1" && "1"[..0] == "" && "Ab0"[..2] == "Ab" && "Ab"[..1] == "A" && "A"[..0] == "";
    assert Number("40", Decimal) == 40 && Number("Ab", Hexadecimal) == 0xAB;
  }

  // ----- writing

  function WriteInt(v: int): string {
    if v < 0 then "-" + Digits(-v, Decimal) else Digits(v, Decimal)
  }

  function WriteHex32(v: int): string {
    "0x" + Digits(v % TWO32, Hexadecimal)
  }

  function WriteHex64(v: int): string {
    "0x" + Digits(v % TWO64, Hexadecimal)
  }

  // ----- reading

  /** The value of an optional sign and the digits after it. */
  function SignedValue(w: string): int {
    if w != [] && w[0] == '-' then 0 - Number(w[1..], Decimal) else Number(DropSign(w), Decimal)
  }

  function Atoi(w: string): int {
    Wrap32(Clamp64(SignedValue(w)))
  }

  function Atoll(w: string): int {
    Clamp64(SignedValue(DropLong(w)))
  }

  /** `strtoul` and `strtoull` on a hexadecimal numeral: the largest value on overflow. */
  function Strtoul16(w: string): (u: nat)
    requires |w| >= 2
    ensures u < TWO64
  {
    var n := Number(w[2..], Hexadecimal);
    if n < TWO64 then n else TWO64 - 1
  }

  // ----- reading undoes writing

  lemma IntRoundTrip(v: int)
    requires IsInt32(v)
    ensures IsInteger(WriteInt(v)) && Atoi(WriteInt(v)) == v
  {
    SignedRoundTrip(v);
  }

  lemma SignedRoundTrip(v: int)
    ensures IsInteger(WriteInt(v)) && SignedValue(WriteInt(v)) == v
  {
    if v < 0 {
      NumberOfDigits(-v, Decimal);
      assert WriteInt(v)[1..] == Digits(-v, Decimal);
    } else {
      NumberOfDigits(v, Decimal);
      assert IsDigit(WriteInt(v)[0]);
    }
  }

  lemma Int64RoundTrip(v: int)
    requires IsInt64(v)
    ensures IsInteger64(WriteInt(v) + "L") && Atoll(WriteInt(v) + "L") == v
  {
    SignedRoundTrip(v);
    DropLongOfNumeral(WriteInt(v));
  }

  lemma DropLongOfNumeral(w: string)
    requires w != [] && w[|w| - 1] != 'L'
    ensures DropLong(w + "L") == w && DropLong(w) == w
  {
  }

  lemma HexRoundTrip(v: int)
    requires IsInt32(v)
    ensures IsHex(WriteHex32(v)) && Wrap32(Strtoul16(WriteHex32(v))) == v
  {
    NumberOfDigits(v % TWO32, Hexadecimal);
    assert WriteHex32(v)[2..] == Digits(v % TWO32, Hexadecimal);
  }

  lemma Hex64RoundTrip(v: int)
    requires IsInt64(v)
    ensures IsHex64(WriteHex64(v) + "L") && Wrap64(Strtoul16(DropLong(WriteHex64(v) + "L"))) == v
  {
    var w := HexText64(v);
    DropLongOfNumeral(w);
  }

  lemma HexText64(v: int) returns (w: string)
    requires IsInt64(v)
    ensures w == WriteHex64(v) && IsHex(w) && w[|w| - 1] != 'L' && Wrap64(Strtoul16(w)) == v
  {
    w := WriteHex64(v);
    NumberOfDigits(v % TWO64, Hexadecimal);
    assert w[2..] == Digits(v % TWO64, Hexadecimal);
    assert IsHexDigit(w[|w| - 1]);
  }
}
