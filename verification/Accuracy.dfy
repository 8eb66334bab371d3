/**
 The clock offset and the error bound that the client computes from an exchange, and how far
 they can be from the truth (section 5 of RFC 4330).
 */
module Accuracy {
  import opened NtpTimes
  import opened Packets

  /** The four timestamps of an exchange, in Unix time. */
  datatype CoreTs = CoreTs(originate: TimeVal, receive: TimeVal, transmit: TimeVal, destination: TimeVal)

  /** `get_timestamps_from_packet_in_epoch_time`, with the arrival time of the packet. */
  function Timestamps(p: Packet, arrival: TimeVal): CoreTs
    requires ValidPacket(p)
  {
    CoreTs(ToUnix(Hton(p.originate)), ToUnix(Hton(p.receive)), ToUnix(Hton(p.transmit)), arrival)
  }

  function Seconds(tv: TimeVal): real {
    tv.sec as real + tv.usec as real / 1000000.0
  }

  /** `calculate_clock_offset`, in exact arithmetic. */
  function ClockOffset(ts: CoreTs): real {
    ((Seconds(ts.receive) - Seconds(ts.originate)) + (Seconds(ts.transmit) - Seconds(ts.destination))) / 2.0
  }

  /** `calculate_error_bound`, in exact arithmetic. */
  function ErrorBound(ts: CoreTs): real {
    (Seconds(ts.destination) - Seconds(ts.originate)) - (Seconds(ts.transmit) - Seconds(ts.receive))
  }

  const MICRO := 1.0 / 1000000.0

  /**
   One exchange: the client sends at `t1` and receives at `t4` by its clock, the server receives
   at `t2` and sends at `t3` by its own, which leads by `theta` microseconds. Packets take time.
   */
  predicate Exchange(t1: TimeVal, t2: TimeVal, t3: TimeVal, t4: TimeVal, theta: int) {
    && Unsigned32(t1) && Unsigned32(t2) && Unsigned32(t3)
    && Micros(t2) - theta >= Micros(t1)
    && Micros(t4) >= Micros(t3) - theta
  }

  /** What the client computes from the reply to its request. */
  function Measured(t1: TimeVal, t2: TimeVal, t3: TimeVal, t4: TimeVal): CoreTs
    requires Unsigned32(t1) && Unsigned32(t2) && Unsigned32(t3)
  {
    Timestamps(CreateReplyPacket(CreatePacket(t1), t2, t3), t4)
  }

  lemma MeasuredIs(t1: TimeVal, t2: TimeVal, t3: TimeVal, t4: TimeVal)
    requires Unsigned32(t1) && Unsigned32(t2) && Unsigned32(t3)
    ensures Measured(t1, t2, t3, t4) ==
            CoreTs(TimeVal(t1.sec, Returned(t1.usec)), TimeVal(t2.sec, Returned(t2.usec)),
                   TimeVal(t3.sec, Returned(t3.usec)), t4)
  {
    HtonTwice(ToNtp(t1));
    HtonTwice(ToNtp(t2));
    HtonTwice(ToNtp(t3));
    UnixRoundTrip(t1);
    UnixRoundTrip(t2);
    UnixRoundTrip(t3);
  }

  function Abs(x: real): real {
    if x < 0.0 then -x else x
  }

  lemma SecondsOfMicros(tv: TimeVal)
    ensures Seconds(tv) == Micros(tv) as real * MICRO
  {
  }

  /** One microsecond more or less on the way back from NTP. */
  function Slip(tv: TimeVal): int {
    Returned(tv.usec) - tv.usec
  }

  lemma SlippedSeconds(tv: TimeVal)
    ensures Seconds(TimeVal(tv.sec, Returned(tv.usec))) == (Micros(tv) + Slip(tv)) as real * MICRO
    ensures 0 <= Slip(tv) <= 1
  {
    SecondsOfMicros(TimeVal(tv.sec, Returned(tv.usec)));
  }

  /** Offset and error bound in terms of the two path delays and the slips. */
  lemma OffsetIs(t1: TimeVal, t2: TimeVal, t3: TimeVal, t4: TimeVal, theta: int)
    requires Exchange(t1, t2, t3, t4, theta)
    ensures var there, back := Micros(t2) - theta - Micros(t1), Micros(t4) - Micros(t3) + theta;
            && ClockOffset(Measured(t1, t2, t3, t4)) - theta as real * MICRO ==
               (there - back + Slip(t2) + Slip(t3) - Slip(t1)) as real * MICRO / 2.0
            && ErrorBound(Measured(t1, t2, t3, t4)) ==
               (there + back + Slip(t2) - Slip(t1) - Slip(t3)) as real * MICRO
  {
    MeasuredIs(t1, t2, t3, t4);
    SlippedSeconds(t1);
    SlippedSeconds(t2);
    SlippedSeconds(t3);
    SecondsOfMicros(t4);
  }

  /** The offset is within half the error bound, and a microsecond, of the truth. */
  lemma OffsetIsAccurate(t1: TimeVal, t2: TimeVal, t3: TimeVal, t4: TimeVal, theta: int)
    requires Exchange(t1, t2, t3, t4, theta)
    ensures var m := Measured(t1, t2, t3, t4);
            Abs(ClockOffset(m) - theta as real * MICRO) <= ErrorBound(m) / 2.0 + MICRO
  {
    OffsetIs(t1, t2, t3, t4, theta);
    SlippedSeconds(t1);
    SlippedSeconds(t2);
    SlippedSeconds(t3);
  }

  /** Whatever lead is consistent with the exchange, the offset is as near to it as promised. */
  ghost predicate Tells(t1: TimeVal, t2: TimeVal, t3: TimeVal, t4: TimeVal, offset: real, errorBound: real) {
    forall theta :: Exchange(t1, t2, t3, t4, theta) ==> Abs(offset - theta as real * MICRO) <= errorBound / 2.0 + MICRO
  }

  lemma ReportIsAccurate(t1: TimeVal, t2: TimeVal, t3: TimeVal, t4: TimeVal)
    requires Unsigned32(t1) && Unsigned32(t2) && Unsigned32(t3)
    ensures var m := Measured(t1, t2, t3, t4); Tells(t1, t2, t3, t4, ClockOffset(m), ErrorBound(m))
  {
    var m := Measured(t1, t2, t3, t4);
    forall theta | Exchange(t1, t2, t3, t4, theta)
      ensures Abs(ClockOffset(m) - theta as real * MICRO) <= ErrorBound(m) / 2.0 + MICRO
    {
      OffsetIsAccurate(t1, t2, t3, t4, theta);
    }
  }

  /** The printed interval, offset plus or minus error bound, contains the true offset. */
  predicate Contains(t1: TimeVal, t2: TimeVal, t3: TimeVal, t4: TimeVal, theta: int)
    requires Exchange(t1, t2, t3, t4, theta)
  {
    var m := Measured(t1, t2, t3, t4);
    Abs(ClockOffset(m) - theta as real * MICRO) <= ErrorBound(m)
  }

  lemma LargeBoundsContain(t1: TimeVal, t2: TimeVal, t3: TimeVal, t4: TimeVal, theta: int)
    requires Exchange(t1, t2, t3, t4, theta) && ErrorBound(Measured(t1, t2, t3, t4)) >= 2.0 * MICRO
    ensures Contains(t1, t2, t3, t4, theta)
  {
    OffsetIsAccurate(t1, t2, t3, t4, theta);
  }

  /** The printed interval contains the true offset in every exchange with error bound `e` (in microseconds). */
  ghost predicate AlwaysContains(e: int) {
    forall t1, t2, t3, t4, theta ::
      Exchange(t1, t2, t3, t4, theta) && ErrorBound(Measured(t1, t2, t3, t4)) == e as real * MICRO ==>
        Contains(t1, t2, t3, t4, theta)
  }

  /**
   For each error bound that can be printed: its interval can be relied on exactly when it is
   at least two microseconds.
   */
  lemma ReliableIffTwoMicros(e: int)
    requires e >= -2
    ensures AlwaysContains(e) <==> e >= 2
  {
    if e >= 2 {
      forall t1, t2, t3, t4, theta |
        Exchange(t1, t2, t3, t4, theta) && ErrorBound(Measured(t1, t2, t3, t4)) == e as real * MICRO
        ensures Contains(t1, t2, t3, t4, theta)
      {
        LargeBoundsContain(t1, t2, t3, t4, theta);
      }
    } else {
      var t1, t2, t3, t4, theta := BadExchange(e);
      assert !Contains(t1, t2, t3, t4, theta);
    }
  }

  /** Delays and slips that make the interval miss. */
  lemma Misses(t1: TimeVal, t2: TimeVal, t3: TimeVal, t4: TimeVal, theta: int, e: int)
    requires Exchange(t1, t2, t3, t4, theta)
    requires var there, back := Micros(t2) - theta - Micros(t1), Micros(t4) - Micros(t3) + theta;
             && there + back + Slip(t2) - Slip(t1) - Slip(t3) == e
             && (there - back + Slip(t2) + Slip(t3) - Slip(t1) > 2 * e || there - back + Slip(t2) + Slip(t3) - Slip(t1) < -2 * e)
    ensures ErrorBound(Measured(t1, t2, t3, t4)) == e as real * MICRO
    ensures !Contains(t1, t2, t3, t4, theta)
  {
    OffsetIs(t1, t2, t3, t4, theta);
  }

  /** An exchange with a small error bound whose interval misses the true offset. */
  lemma BadExchange(e: int) returns (t1: TimeVal, t2: TimeVal, t3: TimeVal, t4: TimeVal, theta: int)
    requires -2 <= e < 2
    ensures Exchange(t1, t2, t3, t4, theta) && ErrorBound(Measured(t1, t2, t3, t4)) == e as real * MICRO
    ensures !Contains(t1, t2, t3, t4, theta)
  {
    t1, t2, t3, theta := TimeVal(0, 15_624), TimeVal(1, 0), TimeVal(1, 0), 984_376;
    if e == -2 {
      t3, t4 := TimeVal(1, 15_624), TimeVal(0, 31_248);
      Misses(t1, t2, t3, t4, theta, -2);
    } else if e == -1 {
      t4 := TimeVal(0, 15_624);
      Misses(t1, t2, t3, t4, theta, -1);
    } else if e == 0 {
      t4 := TimeVal(0, 15_625);
      Misses(t1, t2, t3, t4, theta, 0);
    } else {
      t1, t2, t3, t4, theta := TimeVal(0, 0), TimeVal(1, 15_624), TimeVal(1, 15_624), TimeVal(0, 1), 1_015_623;
      Misses(t1, t2, t3, t4, theta, 1);
    }
  }

  /** No exchange prints an error bound below minus two microseconds. */
  lemma BoundIsAtLeast(t1: TimeVal, t2: TimeVal, t3: TimeVal, t4: TimeVal, theta: int)
    requires Exchange(t1, t2, t3, t4, theta)
    ensures ErrorBound(Measured(t1, t2, t3, t4)) >= -2.0 * MICRO
  {
    OffsetIs(t1, t2, t3, t4, theta);
    SlippedSeconds(t1);
    SlippedSeconds(t2);
    SlippedSeconds(t3);
  }
}
