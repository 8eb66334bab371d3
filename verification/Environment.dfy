/**
 What the client cannot control: its clock, which never runs backwards and does not stand still
 for ever, and the network, which may lose, delay, duplicate and reorder replies.
 */
module Environment {
  import opened NtpTimes
  import opened Packets

  function TimeOf(micros: int): (tv: TimeVal)
    ensures Micros(tv) == micros && 0 <= tv.usec < MILLION
  {
    TimeVal(micros / MILLION, micros % MILLION)
  }

  ghost predicate NotLater(reading: nat -> int, i: nat, j: nat) {
    i <= j ==> reading(i) <= reading(j)
  }

  ghost predicate Readable(reading: nat -> int, i: nat) {
    Convertible(TimeOf(reading(i)))
  }

  /** Readings are past 1970, later ones are not smaller, and all can be converted. */
  ghost predicate Steady(reading: nat -> int) {
    && reading(0) >= 0
    && (forall i: nat, j: nat {:trigger NotLater(reading, i, j)} :: NotLater(reading, i, j))
    && (forall i: nat {:trigger Readable(reading, i)} :: Readable(reading, i))
  }

  ghost predicate Passed(reading: nat -> int, beyond: int -> nat, t: int, i: nat) {
    i >= beyond(t) ==> reading(i) > t
  }

  /** From reading `beyond(t)` on, the clock is past `t`. */
  ghost predicate Proceeds(reading: nat -> int, beyond: int -> nat) {
    forall t, i: nat {:trigger Passed(reading, beyond, t, i)} :: Passed(reading, beyond, t, i)
  }

  /** The client's clock: `reading(i)` is what the call number `i` of `gettimeofday` returns, in microseconds. */
  class Clock {
    const reading: nat -> int
    ghost const beyond: int -> nat
    var calls: nat

    constructor (reading: nat -> int, ghost beyond: int -> nat)
      requires Steady(reading) && Proceeds(reading, beyond)
      ensures Valid() && calls == 0 && this.reading == reading && this.beyond == beyond
    {
      this.reading, this.beyond, calls := reading, beyond, 0;
    }

    ghost predicate Valid()
      reads this
    {
      Steady(reading) && Proceeds(reading, beyond)
    }

    /** No later reading is below this. */
    ghost function Now(): int
      reads this
    {
      reading(calls)
    }

    method GetTimeOfDay() returns (tv: TimeVal)
      requires Valid()
      modifies this
      ensures Valid() && calls == old(calls) + 1
      ensures tv == TimeOf(old(Now())) && Convertible(tv) && Micros(tv) <= Now() && tv.sec >= 0
    {
      tv := TimeOf(reading(calls));
      assert NotLater(reading, 0, calls) && NotLater(reading, calls, calls + 1) && Readable(reading, calls);
      calls := calls + 1;
    }
  }

  /** What a call of `recvfrom` brings. */
  datatype Arrival =
    | Nothing
    | Stray(pkt: Packet)
    | Reply(which: nat, received: TimeVal, sent: TimeVal)

  ghost predicate Plausible(arrivals: nat -> Arrival) {
    forall i: nat :: arrivals(i).Reply? ==> Unsigned32(arrivals(i).received) && Unsigned32(arrivals(i).sent)
  }

  /** Not only packets from other addresses arrive. */
  ghost predicate Settles(arrivals: nat -> Arrival, settled: nat -> nat) {
    forall i: nat :: settled(i) >= i && !arrivals(settled(i)).Stray?
  }

  /** What a server makes of a request, the time it came in and the time the reply goes out. */
  type Service = (Packet, TimeVal, TimeVal) -> Packet

  ghost predicate RepliesAt(serve: Service, req: Packet, received: TimeVal, sent: TimeVal) {
    ValidPacket(req) && Unsigned32(received) && Unsigned32(sent) ==>
      serve(req, received, sent) == CreateReplyPacket(req, received, sent)
  }

  /** The server builds its replies with `create_reply_packet`. */
  ghost predicate IsServer(serve: Service) {
    forall req, received, sent {:trigger RepliesAt(serve, req, received, sent)} :: RepliesAt(serve, req, received, sent)
  }

  /** There is such a service. */
  lemma ServerExists() returns (serve: Service)
    ensures IsServer(serve)
  {
    serve := (req: Packet, received: TimeVal, sent: TimeVal) =>
      if ValidPacket(req) && Convertible(received) && Convertible(sent) then CreateReplyPacket(req, received, sent)
      else NO_PACKET;
  }

  /**
   The network and the server behind it. Every reply from the address of the server was made by
   it for some request that has been sent; which one, and how often, is up to the network.
   */
  class Network {
    const sends: nat -> bool
    const arrivals: nat -> Arrival
    const serve: Service
    ghost const settled: nat -> nat
    var sendCalls: nat
    var receiveCalls: nat
    var requests: seq<Packet>

    constructor (sends: nat -> bool, arrivals: nat -> Arrival, serve: Service, ghost settled: nat -> nat)
      requires Plausible(arrivals) && Settles(arrivals, settled) && IsServer(serve)
      ensures Valid() && requests == []
    {
      this.sends, this.arrivals, this.serve, this.settled := sends, arrivals, serve, settled;
      sendCalls, receiveCalls, requests := 0, 0, [];
    }

    ghost predicate Valid()
      reads this
    {
      Plausible(arrivals) && Settles(arrivals, settled) && IsServer(serve) && forall p | p in requests :: ValidPacket(p)
    }

    /** `send_SNTP_packet`. */
    method Send(p: Packet) returns (ok: bool)
      requires Valid() && ValidPacket(p)
      modifies this
      ensures Valid() && receiveCalls == old(receiveCalls) && sendCalls == old(sendCalls) + 1
      ensures ok == sends(old(sendCalls))
      ensures requests == if ok then old(requests) + [p] else old(requests)
    {
      ok := sends(sendCalls);
      sendCalls := sendCalls + 1;
      if ok {
        requests := requests + [p];
      }
    }

    /** `recvfrom`; `answered` is the request that a reply was made for. */
    method Receive() returns (a: Arrival, p: Packet, ghost answered: nat)
      requires Valid() && requests != []
      modifies this
      ensures Valid() && requests == old(requests) && receiveCalls == old(receiveCalls) + 1
      ensures sendCalls == old(sendCalls)
      ensures a == arrivals(old(receiveCalls))
      ensures a.Reply? ==>
                answered == a.which % |requests| && Unsigned32(a.received) && Unsigned32(a.sent) &&
                p == serve(requests[answered], a.received, a.sent)
    {
      a := arrivals(receiveCalls);
      receiveCalls := receiveCalls + 1;
      answered := 0;
      match a
      case Nothing => p := NO_PACKET;
      case Stray(q) => p := q;
      case Reply(which, received, sent) =>
        answered := which % |requests|;
        p := serve(requests[which % |requests|], received, sent);
    }
  }
}
