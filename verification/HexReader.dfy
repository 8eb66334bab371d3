/**
 `fromhex`, the loop that replaces `strtoull` where that is broken, and when the two agree.
 */
module HexReader {
  import opened Lexemes
  import opened Numerals

  /** The value of a hexadecimal digit by its low bits: `c & 0xF`, or `9 + (c & 0x7)` for letters. */
  function LowBits(c: char): nat {
    if c < 'A' then c as int % 16 else 9 + c as int % 8
  }

  lemma LowBitsOfDigit(c: char)
    requires IsHexDigit(c)
    ensures LowBits(c) == Numerals.ValueOf(c)
  {
  }

  lemma ShiftIn(n: nat, d: nat)
    requires d < 16
    ensures (n % TWO64 * 16) % TWO64 + d == (n * 16 + d) % TWO64
  {
    var q := n / TWO64;
    assert n * 16 == TWO64 * (q * 16) + n % TWO64 * 16;
    var k, r := n % TWO64 * 16 / TWO64, n % TWO64 * 16 % TWO64;
    assert r % 16 == 0;
    assert n * 16 + d == TWO64 * (q * 16 + k) + (r + d);
  }

  /** One more digit of the numeral. */
  lemma NextDigit(s: string, p: nat)
    requires 2 <= p < |s| && IsHexDigit(s[p])
    ensures Number(s[2..p + 1], Hexadecimal) % TWO64 == Number(s[2..p], Hexadecimal) % TWO64 * 16 % TWO64 + LowBits(s[p])
  {
    LowBitsOfDigit(s[p]);
    var digits := s[2..p + 1];
    assert digits[..|digits| - 1] == s[2..p] && digits[|digits| - 1] == s[p];
    ShiftIn(Number(s[2..p], Hexadecimal), LowBits(s[p]));
  }

  /** A numeral whose end is no digit consists of the digits that the loop reads. */
  lemma WholeNumeral(s: string, w: string, p: nat)
    requires IsHex(w) && w <= s && (|w| < |s| ==> !IsHexDigit(s[|w|]))
    requires 2 <= p <= |s| && (forall i :: 2 <= i < p ==> IsHexDigit(s[i])) && (p < |s| ==> !IsHexDigit(s[p]))
    ensures w[2..] == s[2..p]
  {
    forall i | 2 <= i < |w|
      ensures IsHexDigit(s[i])
    {
      assert w[2..][i - 2] == w[i] == s[i];
    }
    assert |w| == p;
  }

  /** The digits between the prefix and whatever follows them. */
  method FromHex(s: string) returns (val: nat)
    requires |s| >= 2
    ensures s[0] != '0' || (s[1] != 'x' && s[1] != 'X') ==> val == 0
    ensures forall w :: IsHex(w) && w <= s && (|w| < |s| ==> !IsHexDigit(s[|w|])) ==>
              val == Number(w[2..], Hexadecimal) % TWO64
  {
    if s[0] != '0' || (s[1] != 'x' && s[1] != 'X') {
      return 0;
    }
    val := 0;
    var p := 2;
    while p < |s| && IsHexDigit(s[p])
      invariant 2 <= p <= |s| && forall i :: 2 <= i < p ==> IsHexDigit(s[i])
      invariant val == Number(s[2..p], Hexadecimal) % TWO64
    {
      NextDigit(s, p);
      val := val * 16 % TWO64 + LowBits(s[p]);
      p := p + 1;
    }
    forall w | IsHex(w) && w <= s && (|w| < |s| ==> !IsHexDigit(s[|w|]))
      ensures w[2..] == s[2..p]
    {
      WholeNumeral(s, w, p);
    }
  }

  /** The loop keeps the low 64 bits where `strtoull` saturates: they agree unless the number overflows. */
  lemma AgreesWithStrtoull(w: string)
    requires IsHex(w)
    ensures Number(w[2..], Hexadecimal) % TWO64 == Strtoul16(w) <==>
            Number(w[2..], Hexadecimal) < TWO64 || Number(w[2..], Hexadecimal) % TWO64 == TWO64 - 1
  {
  }

  /** `n`, shifted by `k` digits. */
  function ShiftedBy(n: nat, k: nat): nat {
    if k == 0 then n else Shifted(ShiftedBy(n, k - 1), Hexadecimal)
  }

  lemma {:induction false} TrailingZeros(w: string, k: nat)
    ensures Number(w + seq(k, _ => '0'), Hexadecimal) == ShiftedBy(Number(w, Hexadecimal), k)
  {
    var z := w + seq(k, _ => '0');
    if k == 0 {
      assert z == w;
    } else {
      assert z[..|z| - 1] == w + seq(k - 1, _ => '0') && z[|z| - 1] == '0';
      TrailingZeros(w, k - 1);
    }
  }

  /** They differ on 2^64: the loop gives 0, `strtoull` the largest value. */
  lemma SixteenZerosDiffer(w: string)
    requires w == "0x1" + seq(16, _ => '0')
    ensures IsHex(w) && Number(w[2..], Hexadecimal) == TWO64
    ensures Number(w[2..], Hexadecimal) % TWO64 == 0 && Strtoul16(w) == TWO64 - 1
  {
    var zeros := seq(16, _ => '0');
    assert w[2..] == "1" + zeros;
    TrailingZeros("1", 16);
    assert "1"[..0] == "" && Number("1", Hexadecimal) == 1;
    assert ShiftedBy(1, 4) == 0x10000 && ShiftedBy(1, 8) == 0x1_0000_0000;
    assert ShiftedBy(1, 12) == 0x1_0000_0000_0000 && ShiftedBy(1, 16) == TWO64;
  }
}
