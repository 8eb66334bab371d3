/**
 The SNTP server: one round of its loop, from a received packet to the reply or to ignoring it.
 */
module Servers {
  import opened Options
  import opened NtpTimes
  import opened Packets
  import opened Accuracy
  import opened Environment

  class Server {
    const clock: Clock

    constructor (clock: Clock)
      ensures this.clock == clock
    {
      this.clock := clock;
    }

    /**
     Receive, check, reply. Requests of clients of versions 1 to 4 are answered, with the time
     of their arrival and a later one; anything else, and a failed receive, is not.
     */
    method Round(arrived: Option<Packet>) returns (reply: Option<Packet>, ghost received: TimeVal, ghost sent: TimeVal)
      requires clock.Valid() && (arrived.Some? ==> ValidPacket(arrived.value))
      modifies clock
      ensures clock.Valid()
      ensures reply.Some? <==> arrived.Some? && IsClientHeader(arrived.value.liVnMode)
      ensures reply.Some? ==>
                && Convertible(received) && Convertible(sent) && Micros(received) <= Micros(sent)
                && old(clock.Now()) <= Micros(received) && Micros(sent) <= clock.Now()
                && reply.value == CreateReplyPacket(arrived.value, received, sent)
      ensures forall li, version ::
                arrived.Some? && 0 <= li < 4 && 1 <= version <= 4 && arrived.value.liVnMode == li * 64 + version * 8 + 3 ==>
                  reply.Some? && reply.value.liVnMode == version * 8 + 4
    {
      if arrived.Some? {
        CheckedHeader(arrived.value);
      }
      reply := None;
      received, sent := TimeVal(0, 0), TimeVal(0, 0);
      if arrived == None {
        return;
      }
      var requestTime := clock.GetTimeOfDay();
      if CheckPacket(arrived.value) != 0 {
        return;
      }
      var now := clock.GetTimeOfDay();
      received, sent := requestTime, now;
      reply := Some(CreateReplyPacket(arrived.value, requestTime, now));
      forall li, version |
        0 <= li < 4 && 1 <= version <= 4 && arrived.value.liVnMode == li * 64 + version * 8 + 3
        ensures reply.value.liVnMode == version * 8 + 4
      {
        HeaderBits(arrived.value, li, version, 3);
      }
    }
  }

  /**
   A whole exchange: the server answers the request of a client, and the client trusts the
   answer, whatever the clocks show.
   */
  method OneExchange(client: Clock, server: Server)
    returns (reply: Packet, ghost t1: TimeVal, ghost t2: TimeVal, ghost t3: TimeVal, t4: TimeVal)
    requires client.Valid() && server.clock.Valid() && client != server.clock
    modifies client, server.clock
    ensures Convertible(t1) && Convertible(t2) && Convertible(t3)
    ensures Micros(t1) <= Micros(t4) && Micros(t2) <= Micros(t3)
    ensures reply == CreateReplyPacket(CreatePacket(t1), t2, t3)
    ensures RunSanityChecks(CreatePacket(t1), reply) == 0
  {
    var made := client.GetTimeOfDay();
    t1 := made;
    var request := CreatePacket(made);
    RequestPasses(made);
    CheckedHeader(request);
    var answer;
    answer, t2, t3 := server.Round(Some(request));
    reply := answer.value;
    t4 := client.GetTimeOfDay();
    ExchangeSucceeds(t1, t2, t3);
  }
}
