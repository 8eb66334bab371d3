/**
 The packets as they travel: 48 bytes in the layout of section 4 of RFC 4330.
 */
module Wire {
  import opened Words
  import opened NtpTimes
  import opened Packets
  import opened Calendar

  /** The bytes of a 32-bit word in the memory of a little-endian machine. */
  function InMemory(x: int): seq<int> {
    [x % 0x100, x / 0x100 % 0x100, x / 0x1_0000 % 0x100, x / 0x100_0000 % 0x100]
  }

  /** The bytes of a 32-bit word on the wire, the most significant first. */
  function OnTheWire(x: int): seq<int> {
    [x / 0x100_0000 % 0x100, x / 0x1_0000 % 0x100, x / 0x100 % 0x100, x % 0x100]
  }

  /** `htonl` puts the most significant byte first, and `ntohl` reads it so. */
  lemma SwapIsNetworkOrder(x: int)
    requires IsWord32(x)
    ensures InMemory(Swap(x)) == OnTheWire(x) && InMemory(x) == OnTheWire(Swap(x))
  {
    var a, b, c, d := x % 0x100, x / 0x100 % 0x100, x / 0x100 / 0x100 % 0x100, x / 0x100 / 0x100 / 0x100;
    BytesOf(x);
    SplitWord(d, c, b, a);
    SplitWord(a, b, c, d);
  }

  lemma SplitWord(a: int, b: int, c: int, d: int)
    requires IsByte(a) && IsByte(b) && IsByte(c) && IsByte(d)
    ensures OnTheWire(Word(a, b, c, d)) == [a, b, c, d] && InMemory(Word(a, b, c, d)) == [d, c, b, a]
  {
    var x := Word(a, b, c, d);
    assert x / 0x100 == (a * 0x100 + b) * 0x100 + c;
    assert x / 0x1_0000 == a * 0x100 + b;
    assert x / 0x100_0000 == a;
  }

  function TimeInMemory(t: NtpTime): seq<int> {
    InMemory(t.second) + InMemory(t.fraction)
  }

  function TimeOnTheWire(t: NtpTime): seq<int> {
    OnTheWire(t.second) + OnTheWire(t.fraction)
  }

  function Zeros(n: nat): (s: seq<int>)
    ensures |s| == n
  {
    seq(n, _ => 0)
  }

  function Header(p: Packet): (s: seq<int>)
    ensures |s| == 4
  {
    [p.liVnMode, p.stratum, p.poll, p.precision % 0x100]
  }

  /**
   What `sendto` takes from memory: four bytes, three words and a timestamp that stay zero, and
   the three timestamps.
   */
  function Sent(p: Packet): (s: seq<int>)
    ensures |s| == 48 && s[40..] == TimeInMemory(p.transmit)
  {
    Header(p) + Zeros(20) + TimeInMemory(p.originate) + TimeInMemory(p.receive) + TimeInMemory(p.transmit)
  }

  lemma SentTime(t: NtpTime)
    requires ValidNtp(t)
    ensures TimeInMemory(Hton(t)) == TimeOnTheWire(t)
  {
    SwapIsNetworkOrder(t.second);
    SwapIsNetworkOrder(t.fraction);
  }

  /** A request: version 4, mode 3, and the time since 1900 in the last field. */
  lemma RequestOnTheWire(now: TimeVal)
    requires Convertible(now)
    ensures var seconds := (Days(1900, 1970) * SECONDS_PER_DAY + now.sec) % TWO32;
            Sent(CreatePacket(now)) == [0x23] + Zeros(39) + OnTheWire(seconds) + OnTheWire(ToNtp(now).fraction)
  {
    SentTime(ToNtp(now));
    NtpSeconds(now);
    assert TimeInMemory(ZERO) == Zeros(8);
  }

  /**
   A reply: the version of the request, mode 4, stratum 2, the poll interval of the request,
   precision -5, its transmit time as it came, and the times of arrival and of sending.
   */
  lemma ReplyOnTheWire(req: Packet, li: int, version: int, mode: int, received: TimeVal, sent: TimeVal)
    requires ValidPacket(req) && Convertible(received) && Convertible(sent)
    requires req.liVnMode == li * 64 + version * 8 + mode && 0 <= li < 4 && 0 <= version < 8 && 0 <= mode < 8
    ensures Sent(CreateReplyPacket(req, received, sent)) ==
            [version * 8 + 4, 2, req.poll, 251] + Zeros(20) + Sent(req)[40..] + TimeOnTheWire(ToNtp(received)) + TimeOnTheWire(ToNtp(sent))
  {
    var p := CreateReplyPacket(req, received, sent);
    ReplyHeaderBytes(req, li, version, mode, received, sent);
    SentTime(ToNtp(received));
    SentTime(ToNtp(sent));
    SentIs(p, [version * 8 + 4, 2, req.poll, 251], Sent(req)[40..], TimeOnTheWire(ToNtp(received)), TimeOnTheWire(ToNtp(sent)));
  }

  lemma ReplyHeaderBytes(req: Packet, li: int, version: int, mode: int, received: TimeVal, sent: TimeVal)
    requires ValidPacket(req) && Convertible(received) && Convertible(sent)
    requires req.liVnMode == li * 64 + version * 8 + mode && 0 <= li < 4 && 0 <= version < 8 && 0 <= mode < 8
    ensures Header(CreateReplyPacket(req, received, sent)) == [version * 8 + 4, 2, req.poll, 251]
  {
    HeaderBits(req, li, version, mode);
  }

  lemma SentIs(p: Packet, header: seq<int>, a: seq<int>, b: seq<int>, c: seq<int>)
    requires Header(p) == header && TimeInMemory(p.originate) == a && TimeInMemory(p.receive) == b && TimeInMemory(p.transmit) == c
    ensures Sent(p) == header + Zeros(20) + a + b + c
  {
  }
}
