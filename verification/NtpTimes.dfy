/**
 Timestamps: Unix times in seconds and microseconds, NTP times in seconds and binary fractions
 of a second since 1900, and the conversions between them.
 */
module NtpTimes {
  import opened Words

  const MILLION := 1_000_000

  /** The seconds from 1900 to 1970. */
  const EPOCH_DELTA := 0x83AA_7E80

  datatype TimeVal = TimeVal(sec: int, usec: int)

  datatype NtpTime = NtpTime(second: int, fraction: int)

  /** A 32-bit unsigned value. */
  predicate IsWord32(x: int) {
    0 <= x < TWO32
  }

  predicate ValidNtp(t: NtpTime) {
    IsWord32(t.second) && IsWord32(t.fraction)
  }

  /**
   A reading that can be converted: with 999999 microseconds the fraction would be 2^32, which
   does not fit its field.
   */
  predicate Convertible(tv: TimeVal) {
    0 <= tv.usec <= 999_998
  }

  /** Its seconds come back unchanged. */
  predicate Unsigned32(tv: TimeVal) {
    0 <= tv.sec < TWO32 && Convertible(tv)
  }

  function Micros(tv: TimeVal): int {
    tv.sec * MILLION + tv.usec
  }

  /** The quotients in doubles are exact or far from an integer, so that they are those of integers. */
  function ToNtp(tv: TimeVal): (t: NtpTime)
    requires Convertible(tv)
    ensures ValidNtp(t)
    ensures t.fraction > 0
  {
    NtpTime((tv.sec + EPOCH_DELTA) % TWO32, (tv.usec + 1) * TWO32 / MILLION)
  }

  function ToUnix(t: NtpTime): (tv: TimeVal)
    requires ValidNtp(t)
    ensures 0 <= tv.sec < TWO32 && 0 <= tv.usec < MILLION
  {
    TimeVal((t.second - EPOCH_DELTA) % TWO32, t.fraction * MILLION / TWO32)
  }

  /** 2^26 is invertible modulo 5^6: the product with 12659 is 54369991 times 15625 more than 1. */
  lemma Divides(k: int)
    ensures k * TWO32 % MILLION == 0 <==> k % 15_625 == 0
  {
    assert k * TWO32 == 64 * (k * 0x400_0000);
    if k * TWO32 % MILLION == 0 {
      var q := k * TWO32 / MILLION;
      assert k * 0x400_0000 == 15_625 * q;
      assert k == 15_625 * (q * INVERSE - QUOTIENT * k);
    }
    if k % 15_625 == 0 {
      var q := k / 15_625;
      assert k * TWO32 == MILLION * (q * 0x400_0000);
    }
  }

  const INVERSE := 12659
  const QUOTIENT := 54369991

  /** What the microseconds become on the way to NTP and back. */
  function Returned(usec: int): int {
    if (usec + 1) % 15_625 == 0 then usec + 1 else usec
  }

  /**
   Unix to NTP to Unix: the seconds return, also across the end of the NTP era in 2036, and the
   microseconds return too, except that they come back one larger exactly when 15625 divides
   the number after them.
   */
  lemma UnixRoundTrip(tv: TimeVal)
    requires Unsigned32(tv)
    ensures ToUnix(ToNtp(tv)) == TimeVal(tv.sec, Returned(tv.usec))
    ensures Returned(tv.usec) <= 999_999
  {
    var k := tv.usec + 1;
    var f := k * TWO32 / MILLION;
    var r := k * TWO32 % MILLION;
    assert f * MILLION == k * TWO32 - r;
    Divides(k);
    if r == 0 {
      assert f * MILLION / TWO32 == k;
    } else {
      assert (k - 1) * TWO32 <= f * MILLION < k * TWO32;
      assert f * MILLION / TWO32 == k - 1;
    }
  }

  /** Within one era a later second converts to a larger one. */
  lemma StrictlyLater(a: TimeVal, b: TimeVal)
    requires Convertible(a) && Convertible(b) && SameEra(a, b)
    ensures a.sec < b.sec <==> ToNtp(a).second < ToNtp(b).second
    ensures Micros(a) < Micros(b) <==>
              ToNtp(a).second < ToNtp(b).second
              || (ToNtp(a).second == ToNtp(b).second && ToNtp(a).fraction < ToNtp(b).fraction)
  {
    FractionGrows(a.usec, b.usec);
    FractionGrows(b.usec, a.usec);
  }

  predicate SameEra(a: TimeVal, b: TimeVal) {
    (a.sec + EPOCH_DELTA) / TWO32 == (b.sec + EPOCH_DELTA) / TWO32
  }

  /** Times have the same timestamp exactly when whole eras, and nothing else, lie between them. */
  lemma SameStamp(a: TimeVal, b: TimeVal)
    requires Convertible(a) && Convertible(b)
    ensures ToNtp(a) == ToNtp(b) <==> (a.sec - b.sec) % TWO32 == 0 && a.usec == b.usec
  {
    FractionGrows(a.usec, b.usec);
    FractionGrows(b.usec, a.usec);
    SameRemainder(a.sec + EPOCH_DELTA, b.sec + EPOCH_DELTA);
  }

  lemma SameRemainder(x: int, y: int)
    ensures x % TWO32 == y % TWO32 <==> (x - y) % TWO32 == 0
  {
  }

  lemma FractionGrows(u: int, v: int)
    requires 0 <= u < MILLION && 0 <= v < MILLION
    ensures u < v <==> (u + 1) * TWO32 / MILLION < (v + 1) * TWO32 / MILLION
  {
  }
}
