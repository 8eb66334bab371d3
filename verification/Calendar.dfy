/**
 What NTP and Unix seconds count: the days of the calendar since 1900 and since 1970.
 */
module Calendar {
  import opened Words
  import opened NtpTimes

  const SECONDS_PER_DAY := 86_400

  predicate IsLeap(year: int) {
    year % 4 == 0 && (year % 100 != 0 || year % 400 == 0)
  }

  function DaysOf(year: int): int {
    if IsLeap(year) then 366 else 365
  }

  /** The days from the first of January of one year to that of another. */
  function Days(from: int, until: int): int
    decreases until - from
  {
    if until <= from then 0 else Days(from, until - 1) + DaysOf(until - 1)
  }

  lemma {:induction false} DaysAdd(from: int, mid: int, until: int)
    requires from <= mid <= until
    ensures Days(from, until) == Days(from, mid) + Days(mid, until)
    decreases until - mid
  {
    if mid < until {
      DaysAdd(from, mid, until - 1);
    }
  }

  /** 1900 was no leap year, but 2000 was, so that until 2100 every fourth year is one. */
  lemma {:induction false} DaysSince1900(until: int)
    requires 1901 <= until <= 2100
    ensures Days(1900, until) == 365 * (until - 1900) + (until - 1901) / 4
    decreases until
  {
    if until > 1901 {
      DaysSince1900(until - 1);
    } else {
      assert Days(1900, 1900) == 0;
    }
  }

  /** NTP counts the seconds since 1900 where Unix counts those since 1970. */
  lemma NtpSeconds(tv: TimeVal)
    requires Convertible(tv)
    ensures ToNtp(tv).second == (Days(1900, 1970) * SECONDS_PER_DAY + tv.sec) % TWO32
  {
    DaysSince1900(1970);
  }

  lemma UnixSeconds(t: NtpTime)
    requires ValidNtp(t)
    ensures 0 <= ToUnix(t).sec < TWO32
    ensures (Days(1900, 1970) * SECONDS_PER_DAY + ToUnix(t).sec) % TWO32 == t.second
  {
    DaysSince1900(1970);
  }

  /** The midnight that begins the day number `d` after the first of January 1970. */
  lemma Midnight(d: int)
    ensures ToNtp(TimeVal(d * SECONDS_PER_DAY, 0)).second == (Days(1900, 1970) + d) * SECONDS_PER_DAY % TWO32
  {
    NtpSeconds(TimeVal(d * SECONDS_PER_DAY, 0));
  }

  /** The midnight that begins a year. */
  lemma NewYear(year: int)
    requires year >= 1970
    ensures ToNtp(TimeVal(Days(1970, year) * SECONDS_PER_DAY, 0)).second == Days(1900, year) * SECONDS_PER_DAY % TWO32
  {
    DaysAdd(1900, 1970, year);
    Midnight(Days(1970, year));
  }

  /** The first era of NTP ends in 2036, 37 days after the first of January. */
  lemma EraEnds()
    ensures Days(1900, 2036) + 37 == TWO32 / SECONDS_PER_DAY
  {
    DaysSince1900(2036);
  }

  /** The fraction stands for a time after that many microseconds, and not after one more. */
  lemma NtpFraction(tv: TimeVal)
    requires Convertible(tv)
    ensures tv.usec * TWO32 < ToNtp(tv).fraction * MILLION <= (tv.usec + 1) * TWO32
  {
    var k := (tv.usec + 1) * TWO32;
    assert k / MILLION * MILLION == k - k % MILLION;
  }

  /** The microseconds are the whole ones of the fraction. */
  lemma UnixMicroseconds(t: NtpTime)
    requires ValidNtp(t)
    ensures var usec := ToUnix(t).usec; usec * TWO32 <= t.fraction * MILLION < (usec + 1) * TWO32
  {
    var k := t.fraction * MILLION;
    assert k / TWO32 * TWO32 == k - k % TWO32;
  }
}
