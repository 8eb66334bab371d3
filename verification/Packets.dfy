/**
 SNTP packets: the request of the client, the reply of the server, and the checks on both.
 */
module Packets {
  import opened Words
  import opened NtpTimes

  // ----- network byte order

  /** The number with the bytes `a` to `d`, the most significant first. */
  function Word(a: int, b: int, c: int, d: int): int {
    ((a * 0x100 + b) * 0x100 + c) * 0x100 + d
  }

  predicate IsByte(x: int) {
    0 <= x < 0x100
  }

  /** `htonl` and `ntohl` on a little-endian machine: the four bytes in reverse. */
  function Swap(x: int): (y: int)
    requires IsWord32(x)
    ensures IsWord32(y)
  {
    Word(x % 0x100, x / 0x100 % 0x100, x / 0x100 / 0x100 % 0x100, x / 0x100 / 0x100 / 0x100)
  }

  lemma SwapOfWord(a: int, b: int, c: int, d: int)
    requires IsByte(a) && IsByte(b) && IsByte(c) && IsByte(d)
    ensures IsWord32(Word(a, b, c, d)) && Swap(Word(a, b, c, d)) == Word(d, c, b, a)
  {
    var x := Word(a, b, c, d);
    assert x / 0x100 == (a * 0x100 + b) * 0x100 + c;
    assert x / 0x100 / 0x100 == a * 0x100 + b;
  }

  lemma SwapTwice(x: int)
    requires IsWord32(x)
    ensures Swap(Swap(x)) == x
  {
    var a, b, c, d := x / 0x100 / 0x100 / 0x100, x / 0x100 / 0x100 % 0x100, x / 0x100 % 0x100, x % 0x100;
    assert x == Word(a, b, c, d);
    SwapOfWord(a, b, c, d);
    SwapOfWord(d, c, b, a);
  }

  function Hton(t: NtpTime): (n: NtpTime)
    requires ValidNtp(t)
    ensures ValidNtp(n)
  {
    NtpTime(Swap(t.second), Swap(t.fraction))
  }

  lemma HtonTwice(t: NtpTime)
    requires ValidNtp(t)
    ensures Hton(Hton(t)) == t
  {
    SwapTwice(t.second);
    SwapTwice(t.fraction);
  }

  // ----- packets

  /** The timestamps are in network byte order. */
  datatype Packet = Packet(
    liVnMode: int,
    stratum: int,
    poll: int,
    precision: int,
    originate: NtpTime,
    receive: NtpTime,
    transmit: NtpTime)

  predicate ValidPacket(p: Packet) {
    && 0 <= p.liVnMode < 0x100 && 0 <= p.stratum < 0x100 && 0 <= p.poll < 0x100
    && ValidNtp(p.originate) && ValidNtp(p.receive) && ValidNtp(p.transmit)
  }

  function Mode(p: Packet): int {
    p.liVnMode % 8
  }

  function Version(p: Packet): int {
    p.liVnMode / 8 % 8
  }

  /** The first byte: two bits of leap indicator, three of version, three of mode. */
  lemma HeaderBits(p: Packet, li: int, version: int, mode: int)
    requires 0 <= li < 4 && 0 <= version < 8 && 0 <= mode < 8
    requires p.liVnMode == li * 64 + version * 8 + mode
    ensures Version(p) == version && Mode(p) == mode
  {
  }

  /** Every byte is such a first byte. */
  lemma SplitHeader(b: int) returns (li: int, version: int, mode: int)
    requires IsByte(b)
    ensures 0 <= li < 4 && 0 <= version < 8 && 0 <= mode < 8 && b == li * 64 + version * 8 + mode
  {
    li, version, mode := b / 64, b / 8 % 8, b % 8;
  }

  /** The bytes that begin a request of a client of version 1 to 4. */
  ghost predicate IsClientHeader(b: int) {
    exists li, version :: 0 <= li < 4 && 1 <= version <= 4 && b == li * 64 + version * 8 + 3
  }

  const ZERO := NtpTime(0, 0)

  /** The packet buffer before anything is received. */
  const NO_PACKET := Packet(0, 0, 0, 0, ZERO, ZERO, ZERO)

  /** `create_packet`, with the clock reading as a parameter: version 4, mode 3. */
  function CreatePacket(now: TimeVal): (p: Packet)
    requires Convertible(now)
    ensures ValidPacket(p)
  {
    Packet(4 * 8 + 3, 0, 0, 0, ZERO, ZERO, Hton(ToNtp(now)))
  }

  /** `check_packet`: 0 when the server answers. */
  function CheckPacket(p: Packet): int {
    if Mode(p) != 3 then 1
    else if Version(p) < 1 || Version(p) > 4 then 1
    else 0
  }

  /** `create_reply_packet`, with the time of the request and the clock reading as parameters. */
  function CreateReplyPacket(req: Packet, received: TimeVal, now: TimeVal): (p: Packet)
    requires ValidPacket(req) && Convertible(received) && Convertible(now)
    ensures ValidPacket(p)
  {
    Packet(Version(req) * 8 + 4, 2, req.poll, -5, req.transmit, Hton(ToNtp(received)), Hton(ToNtp(now)))
  }

  /** `run_sanity_checks`: 0 when the client trusts the reply. */
  function RunSanityChecks(req: Packet, rep: Packet): int {
    if req.transmit.second != rep.originate.second || req.transmit.fraction != rep.originate.fraction then 1
    else if rep.stratum < 0 || rep.stratum > 15 then 1
    else if rep.transmit.second == 0 && rep.transmit.fraction == 0 then 1
    else if Mode(rep) != 4 then 1
    else if Version(req) != Version(rep) then 1
    else 0
  }

  /** The server answers exactly the packets that begin like a request of a client. */
  lemma CheckedHeader(p: Packet)
    requires ValidPacket(p)
    ensures CheckPacket(p) == 0 <==> IsClientHeader(p.liVnMode)
  {
    var li, version, mode := SplitHeader(p.liVnMode);
    HeaderBits(p, li, version, mode);
    if IsClientHeader(p.liVnMode) {
      var l, v :| 0 <= l < 4 && 1 <= v <= 4 && p.liVnMode == l * 64 + v * 8 + 3;
      HeaderBits(p, l, v, 3);
    }
  }

  /** Which packets the client trusts as a reply, by their fields, whoever made them. */
  lemma TrustedIffFields(req: Packet, rep: Packet, reqLi: int, reqVersion: int, reqMode: int, li: int, version: int, mode: int)
    requires ValidPacket(req) && ValidPacket(rep)
    requires 0 <= reqLi < 4 && 0 <= reqVersion < 8 && 0 <= reqMode < 8
    requires 0 <= li < 4 && 0 <= version < 8 && 0 <= mode < 8
    requires req.liVnMode == reqLi * 64 + reqVersion * 8 + reqMode && rep.liVnMode == li * 64 + version * 8 + mode
    ensures RunSanityChecks(req, rep) == 0 <==>
            && rep.originate == req.transmit && rep.transmit != NtpTime(0, 0)
            && rep.stratum <= 15 && mode == 4 && version == reqVersion
    ensures RunSanityChecks(req, rep) in {0, 1}
  {
    HeaderBits(req, reqLi, reqVersion, reqMode);
    HeaderBits(rep, li, version, mode);
  }

  // ----- client and server agree

  /** A transmit timestamp is never zero, not even when the NTP seconds wrap to 0. */
  lemma TransmitIsNotZero(now: TimeVal)
    requires Convertible(now)
    ensures Hton(ToNtp(now)) != ZERO && Hton(ToNtp(now)).fraction != 0
  {
    OnlyZeroSwapsToZero(ToNtp(now).fraction);
  }

  lemma OnlyZeroSwapsToZero(x: int)
    requires IsWord32(x)
    ensures Swap(x) == 0 <==> x == 0
  {
    var a, b, c, d := x / 0x100 / 0x100 / 0x100, x / 0x100 / 0x100 % 0x100, x / 0x100 % 0x100, x % 0x100;
    BytesOf(x);
    OnlyZeroBytes(a, b, c, d);
    OnlyZeroBytes(d, c, b, a);
  }

  lemma BytesOf(x: int)
    requires IsWord32(x)
    ensures x == Word(x / 0x100 / 0x100 / 0x100, x / 0x100 / 0x100 % 0x100, x / 0x100 % 0x100, x % 0x100)
  {
  }

  lemma OnlyZeroBytes(a: int, b: int, c: int, d: int)
    requires IsByte(a) && IsByte(b) && IsByte(c) && IsByte(d)
    ensures Word(a, b, c, d) == 0 <==> a == b == c == d == 0
  {
  }

  /** Every request of a client is answered. */
  lemma RequestPasses(now: TimeVal)
    requires Convertible(now)
    ensures CheckPacket(CreatePacket(now)) == 0
  {
  }

  /**
   Which replies a client trusts: those of a server to a request with the same transmit
   timestamp and the same version as the request that was sent last.
   */
  lemma ReplyPassesIff(req: Packet, answered: Packet, received: TimeVal, sent: TimeVal)
    requires ValidPacket(req) && ValidPacket(answered) && Convertible(received) && Convertible(sent)
    ensures RunSanityChecks(req, CreateReplyPacket(answered, received, sent)) == 0 <==>
            answered.transmit == req.transmit && Version(answered) == Version(req)
  {
    TransmitIsNotZero(sent);
    ReplyHeader(answered, received, sent);
  }

  lemma ReplyHeader(answered: Packet, received: TimeVal, sent: TimeVal)
    requires ValidPacket(answered) && Convertible(received) && Convertible(sent)
    ensures var p := CreateReplyPacket(answered, received, sent);
            Mode(p) == 4 && Version(p) == Version(answered)
  {
    HeaderFields(Version(answered), 4);
  }

  lemma HeaderFields(version: int, mode: int)
    requires 0 <= version < 8 && 0 <= mode < 8
    ensures (version * 8 + mode) % 8 == mode && (version * 8 + mode) / 8 % 8 == version
  {
  }

  /** The reply to a request is trusted, whatever the three clock readings. */
  lemma ExchangeSucceeds(t1: TimeVal, t2: TimeVal, t3: TimeVal)
    requires Convertible(t1) && Convertible(t2) && Convertible(t3)
    ensures CheckPacket(CreatePacket(t1)) == 0
    ensures RunSanityChecks(CreatePacket(t1), CreateReplyPacket(CreatePacket(t1), t2, t3)) == 0
  {
    ReplyPassesIff(CreatePacket(t1), CreatePacket(t1), t2, t3);
  }

  /**
   Requests have the same transmit timestamp exactly when they were made at the same microsecond
   of a second, whole eras apart.
   */
  lemma SameTransmit(a: TimeVal, b: TimeVal)
    requires Convertible(a) && Convertible(b)
    ensures CreatePacket(a).transmit == CreatePacket(b).transmit <==> (a.sec - b.sec) % TWO32 == 0 && a.usec == b.usec
  {
    HtonTwice(ToNtp(a));
    HtonTwice(ToNtp(b));
    SameStamp(a, b);
  }
}
