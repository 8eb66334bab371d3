/**
 The SNTP client: the retry loop of a unicast query, and the loop that repeats the query.
 */
module Clients {
  import opened Words
  import opened NtpTimes
  import opened Packets
  import opened Accuracy
  import opened Environment

  /** A request: the reading it was made with, and the reading its timer was started with. */
  datatype Poll = Poll(made: TimeVal, timer: TimeVal, request: Packet)

  predicate Genuine(p: Poll) {
    && Convertible(p.made) && Convertible(p.timer) && Micros(p.made) <= Micros(p.timer)
    && p.request == CreatePacket(p.made)
  }

  predicate PauseKept(polls: seq<Poll>, wait: int, i: int) {
    0 < i < |polls| ==> polls[i].made.sec - polls[i - 1].timer.sec > wait
  }

  /** Requests follow each other with more than `wait` seconds between timer and next request. */
  ghost predicate Disciplined(polls: seq<Poll>, wait: int) {
    && (forall i {:trigger Genuine(polls[i])} :: 0 <= i < |polls| ==> Genuine(polls[i]))
    && (forall i {:trigger PauseKept(polls, wait, i)} :: PauseKept(polls, wait, i))
  }

  /** Timers of consecutive requests are more than `wait` seconds apart. */
  lemma TimersApart(polls: seq<Poll>, wait: int, i: int)
    requires Disciplined(polls, wait) && 0 < i < |polls|
    ensures Micros(polls[i].timer) - Micros(polls[i - 1].timer) > wait * MILLION
  {
    assert Genuine(polls[i]) && Genuine(polls[i - 1]) && PauseKept(polls, wait, i);
  }

  /** An earlier request was made in an earlier second. */
  lemma {:induction false} MadeEarlier(polls: seq<Poll>, wait: int, i: int, j: int)
    requires Disciplined(polls, wait) && wait >= 0 && 0 <= i < j < |polls|
    ensures polls[i].made.sec < polls[j].made.sec
    decreases j - i
  {
    if i + 1 < j {
      MadeEarlier(polls, wait, i, j - 1);
    }
    assert Genuine(polls[j - 1]) && PauseKept(polls, wait, j);
    assert polls[j].made.sec > polls[j - 1].timer.sec >= polls[j - 1].made.sec;
  }

  /** The requests that left the client, by their positions in the log of polls. */
  ghost predicate SentFrom(requests: seq<Packet>, polls: seq<Poll>, which: seq<nat>) {
    && |which| == |requests|
    && (forall i :: 0 <= i < |requests| ==>
          which[i] < |polls| && requests[i] == polls[which[i]].request)
    && (forall i, j :: 0 <= i < j < |which| ==> which[i] < which[j])
  }

  ghost predicate IsReading(reading: nat -> int, tv: TimeVal) {
    exists k: nat :: tv == TimeOf(reading(k))
  }

  ghost predicate MadeByClock(polls: seq<Poll>, reading: nat -> int) {
    forall i :: 0 <= i < |polls| ==> IsReading(reading, polls[i].made)
  }

  /** No more than 2^32 seconds, some 136 years, lie between the first and the last request. */
  predicate Recent(polls: seq<Poll>) {
    polls != [] ==> polls[|polls| - 1].made.sec - polls[0].made.sec < TWO32
  }

  /**
   A reply to a request is trusted as one to the last request exactly when the two were made
   whole eras of 2^32 seconds apart.
   */
  lemma TrustedIff(requests: seq<Packet>, polls: seq<Poll>, which: seq<nat>, wait: int, k: nat,
                   received: TimeVal, sent: TimeVal)
    requires Disciplined(polls, wait) && SentFrom(requests, polls, which) && k < |requests|
    requires ValidPacket(requests[k]) && Convertible(received) && Convertible(sent)
    ensures RunSanityChecks(requests[|requests| - 1], CreateReplyPacket(requests[k], received, sent)) == 0 <==>
            var a, b := polls[which[k]].made, polls[which[|requests| - 1]].made;
            (a.sec - b.sec) % TWO32 == 0 && a.usec == b.usec
  {
    var n := |requests| - 1;
    assert Genuine(polls[which[n]]) && Genuine(polls[which[k]]);
    ReplyPassesIff(requests[n], requests[k], received, sent);
    SameTransmit(polls[which[k]].made, polls[which[n]].made);
  }

  /**
   Freshness. A trusted reply to any of the requests that were ever sent answers the request
   that was sent last.
   */
  lemma TrustedReplyIsFresh(requests: seq<Packet>, polls: seq<Poll>, which: seq<nat>, wait: int, k: nat,
                            received: TimeVal, sent: TimeVal)
    requires Disciplined(polls, wait) && wait >= 0 && Recent(polls)
    requires SentFrom(requests, polls, which) && k < |requests|
    requires ValidPacket(requests[k]) && Convertible(received) && Convertible(sent)
    requires RunSanityChecks(requests[|requests| - 1], CreateReplyPacket(requests[k], received, sent)) == 0
    ensures k == |requests| - 1
  {
    var n := |requests| - 1;
    TrustedIff(requests, polls, which, wait, k, received, sent);
    if k < n {
      MadeEarlier(polls, wait, which[k], which[n]);
      NoEarlier(polls, wait, 0, which[k]);
      NoEarlier(polls, wait, which[n], |polls| - 1);
    }
  }

  lemma NoEarlier(polls: seq<Poll>, wait: int, i: int, j: int)
    requires Disciplined(polls, wait) && wait >= 0 && 0 <= i <= j < |polls|
    ensures polls[i].made.sec <= polls[j].made.sec
  {
    if i < j {
      MadeEarlier(polls, wait, i, j);
    }
  }

  /** The conditions can be met: a clock that ticks once a second. */
  lemma TickingClock() returns (reading: nat -> int, beyond: int -> nat)
    ensures Steady(reading) && Proceeds(reading, beyond)
    ensures forall i: nat :: reading(i) == i * MILLION
  {
    reading := (i: nat) => i * MILLION;
    beyond := (t: int) => if t < 0 then 0 else t + 1;
  }

  /** Two requests by such a clock, made at readings 0 and 2. */
  lemma TwoRecentRequests(reading: nat -> int) returns (polls: seq<Poll>)
    requires forall i: nat :: reading(i) == i * MILLION
    ensures |polls| == 2 && Disciplined(polls, 0) && MadeByClock(polls, reading) && Recent(polls)
  {
    assert TimeOf(reading(0)) == TimeVal(0, 0) && TimeOf(reading(2)) == TimeVal(2, 0);
    assert IsReading(reading, TimeVal(0, 0)) && IsReading(reading, TimeVal(2, 0));
    polls := OneMore([], TimeVal(0, 0), TimeVal(1, 0), 0, reading);
    polls := OneMore(polls, TimeVal(2, 0), TimeVal(3, 0), 0, reading);
  }

  /**
   Beyond such a span freshness fails. Of two requests that are 2^32 seconds apart, with any
   shorter pause between them, the reply to the first passes as one to the second.
   */
  lemma StaleReplyIsTrusted(reading: nat -> int, wait: int, received: TimeVal, sent: TimeVal)
    returns (polls: seq<Poll>, requests: seq<Packet>)
    requires (forall i: nat :: reading(i) == i * MILLION) && wait < TWO32 - 1
    requires Convertible(received) && Convertible(sent)
    ensures |polls| == |requests| == 2 && Disciplined(polls, wait) && MadeByClock(polls, reading)
    ensures SentFrom(requests, polls, [0, 1]) && ValidPacket(requests[0])
    ensures RunSanityChecks(requests[1], CreateReplyPacket(requests[0], received, sent)) == 0
  {
    assert TimeOf(reading(0)) == TimeVal(0, 0) && TimeOf(reading(TWO32)) == TimeVal(TWO32, 0);
    assert IsReading(reading, TimeVal(0, 0)) && IsReading(reading, TimeVal(TWO32, 0));
    polls := OneMore([], TimeVal(0, 0), TimeVal(1, 0), wait, reading);
    polls := OneMore(polls, TimeVal(TWO32, 0), TimeVal(TWO32 + 1, 0), wait, reading);
    assert Genuine(polls[0]) && Genuine(polls[1]);
    requests := [polls[0].request, polls[1].request];
    TrustedIff(requests, polls, [0, 1], wait, 0, received, sent);
  }

  lemma OneMore(polls: seq<Poll>, made: TimeVal, timer: TimeVal, wait: int, reading: nat -> int) returns (more: seq<Poll>)
    requires Disciplined(polls, wait) && MadeByClock(polls, reading) && IsReading(reading, made)
    requires Convertible(made) && Convertible(timer) && Micros(made) <= Micros(timer)
    requires polls != [] ==> made.sec - polls[|polls| - 1].timer.sec > wait
    ensures |more| == |polls| + 1 && more[..|polls|] == polls && more[|polls|].made == made && more[|polls|].timer == timer
    ensures Disciplined(more, wait) && MadeByClock(more, reading)
  {
    var p := Poll(made, timer, CreatePacket(made));
    PollAdded(polls, p, wait, reading);
    more := polls + [p];
  }

  lemma PollAdded(polls: seq<Poll>, p: Poll, wait: int, reading: nat -> int)
    requires Disciplined(polls, wait) && MadeByClock(polls, reading) && IsReading(reading, p.made)
    requires Genuine(p)
    requires polls != [] ==> p.made.sec - polls[|polls| - 1].timer.sec > wait
    ensures Disciplined(polls + [p], wait) && MadeByClock(polls + [p], reading)
  {
    forall i | 0 <= i < |polls + [p]|
      ensures Genuine((polls + [p])[i])
    {
      if i < |polls| {
        assert Genuine(polls[i]);
      }
    }
    forall i
      ensures PauseKept(polls + [p], wait, i)
    {
      assert PauseKept(polls, wait, i);
    }
  }

  lemma RequestAdded(requests: seq<Packet>, polls: seq<Poll>, which: seq<nat>, p: Poll)
    requires SentFrom(requests, polls, which)
    ensures SentFrom(requests, polls + [p], which)
    ensures SentFrom(requests + [p.request], polls + [p], which + [|polls|])
  {
  }

  /** What is computed from a reply to a request made at `made` is accurate. */
  lemma ReplyTells(made: TimeVal, received: TimeVal, sent: TimeVal, arrival: TimeVal, reply: Packet)
    requires Convertible(made) && Unsigned32(received) && Unsigned32(sent)
    requires reply == CreateReplyPacket(CreatePacket(made), received, sent)
    ensures Tells(made, received, sent, arrival, ClockOffset(Timestamps(reply, arrival)), ErrorBound(Timestamps(reply, arrival)))
  {
    if Unsigned32(made) {
      ReportIsAccurate(made, received, sent, arrival);
    }
  }

  // ----- how attempts end

  /**
   How one attempt ended: its request was not sent, or the packet number `at` of the network
   ended the wait, when `sent` requests had been sent.
   */
  datatype End = Unsent | Heard(at: nat, sent: nat)

  /** The wait ended on a reply to a request with the transmit timestamp of `request`. */
  predicate Good(requests: seq<Packet>, arrivals: nat -> Arrival, end: End, request: Packet) {
    && end.Heard? && 0 < end.sent <= |requests| && arrivals(end.at).Reply?
    && requests[arrivals(end.at).which % end.sent].transmit == request.transmit
  }

  /** None of the attempts, which began with the poll number `base`, ended so. */
  ghost predicate NoneGood(requests: seq<Packet>, arrivals: nat -> Arrival, ends: seq<End>, polls: seq<Poll>, base: nat)
    requires |polls| == base + |ends|
  {
    forall j :: 0 <= j < |ends| ==> !Good(requests, arrivals, ends[j], polls[base + j].request)
  }

  /** An attempt, whose request was the send number `call`, ended as the network has it. */
  ghost predicate EndOk(requests: seq<Packet>, receives: nat, sends: nat -> bool, arrivals: nat -> Arrival,
                        end: End, request: Packet, call: nat) {
    && (end.Unsent? <==> !sends(call))
    && (end.Heard? ==>
          && 0 < end.sent <= |requests| && requests[end.sent - 1] == request
          && end.at < receives && !arrivals(end.at).Stray?)
  }

  ghost predicate EndsOk(requests: seq<Packet>, receives: nat, sends: nat -> bool, arrivals: nat -> Arrival,
                         ends: seq<End>, polls: seq<Poll>, base: nat, calls: nat) {
    && |polls| == base + |ends|
    && forall j :: 0 <= j < |ends| ==> EndOk(requests, receives, sends, arrivals, ends[j], polls[base + j].request, calls + j)
  }

  /** One more attempt; what was sent and received since does not change how the others ended. */
  lemma EndAdded(requests: seq<Packet>, more: seq<Packet>, receives: nat, later: nat, sends: nat -> bool,
                 arrivals: nat -> Arrival, ends: seq<End>, end: End, polls: seq<Poll>, p: Poll, base: nat, calls: nat)
    requires EndsOk(requests, receives, sends, arrivals, ends, polls, base, calls)
    requires requests <= more && receives <= later
    requires EndOk(more, later, sends, arrivals, end, p.request, calls + |ends|)
    ensures EndsOk(more, later, sends, arrivals, ends + [end], polls + [p], base, calls)
    ensures NoneGood(requests, arrivals, ends, polls, base) ==>
              && NoneGood(more, arrivals, ends, polls, base)
              && (NoneGood(more, arrivals, ends + [end], polls + [p], base) <==> !Good(more, arrivals, end, p.request))
  {
    forall j | 0 <= j < |ends|
      ensures EndOk(more, later, sends, arrivals, ends[j], polls[base + j].request, calls + j)
      ensures Good(more, arrivals, ends[j], polls[base + j].request) == Good(requests, arrivals, ends[j], polls[base + j].request)
    {
      assert EndOk(requests, receives, sends, arrivals, ends[j], polls[base + j].request, calls + j);
    }
    assert (ends + [end])[|ends|] == end && (polls + [p])[base + |ends|] == p;
    assert forall j :: 0 <= j < |ends| ==> (ends + [end])[j] == ends[j] && (polls + [p])[base + j] == polls[base + j];
  }

  class Client {
    const clock: Clock
    const net: Network
    const pollWait: int
    const maxUnicastRetries: int
    var pollTimer: TimeVal
    ghost var polls: seq<Poll>
    ghost var which: seq<nat>

    ghost predicate Valid()
      reads this, clock, net
    {
      && clock.Valid() && net.Valid()
      && Disciplined(polls, pollWait)
      && (polls != [] ==> Micros(polls[|polls| - 1].timer) <= clock.Now())
      && SentFrom(net.requests, polls, which)
      && MadeByClock(polls, clock.reading)
    }

    /** A request may be made: the wait since the last one is over. */
    ghost predicate MayPoll()
      reads this, clock
    {
      polls != [] ==> TimeOf(clock.Now()).sec - polls[|polls| - 1].timer.sec > pollWait
    }

    constructor (clock: Clock, net: Network, pollWait: int, maxUnicastRetries: int)
      requires clock.Valid() && net.Valid() && net.requests == []
      ensures Valid() && polls == [] && this.clock == clock && this.net == net
      ensures this.pollWait == pollWait && this.maxUnicastRetries == maxUnicastRetries
    {
      this.clock, this.net, this.pollWait, this.maxUnicastRetries := clock, net, pollWait, maxUnicastRetries;
      pollTimer, polls, which := TimeVal(0, 0), [], [];
    }

    /** `get_elapsed_time`: whole seconds since `start`. */
    method ElapsedTime(start: TimeVal) returns (seconds: int)
      requires Valid()
      modifies clock
      ensures Valid() && clock.calls == old(clock.calls) + 1 && (old(MayPoll()) ==> MayPoll())
      ensures seconds == TimeOf(old(clock.Now())).sec - start.sec && old(clock.Now()) <= clock.Now()
    {
      var end := clock.GetTimeOfDay();
      seconds := end.sec - start.sec;
    }

    /** `create_packet`, `start_timer` and `send_SNTP_packet`. */
    method Ask() returns (ok: bool, request: Packet)
      requires Valid() && MayPoll()
      modifies this, clock, net
      ensures Valid() && |polls| == |old(polls)| + 1 && old(polls) <= polls
      ensures pollTimer == polls[|polls| - 1].timer && pollTimer.sec >= 0 && request == polls[|polls| - 1].request
      ensures net.requests == if ok then old(net.requests) + [request] else old(net.requests)
      ensures ok ==> LastWasSent()
      ensures ok == net.sends(old(net.sendCalls)) && net.sendCalls == old(net.sendCalls) + 1
      ensures net.receiveCalls == old(net.receiveCalls)
    {
      var made := clock.GetTimeOfDay();
      assert IsReading(clock.reading, made);
      request := CreatePacket(made);
      pollTimer := clock.GetTimeOfDay();
      ghost var poll := Poll(made, pollTimer, request);
      PollAdded(polls, poll, pollWait, clock.reading);
      RequestAdded(net.requests, polls, which, poll);
      ok := net.Send(request);
      if ok {
        which := which + [|polls|];
      }
      polls := polls + [poll];
    }

    /** `recieve_SNTP_packet`: a packet and the time of its arrival. */
    method ReceivePacket() returns (a: Arrival, reply: Packet, arrival: TimeVal, ghost answered: nat)
      requires Valid() && net.requests != []
      modifies clock, net
      ensures Valid() && net.requests == old(net.requests) && net.receiveCalls == old(net.receiveCalls) + 1
      ensures a == net.arrivals(old(net.receiveCalls)) && net.sendCalls == old(net.sendCalls)
      ensures a.Reply? ==> Answers(a, reply, answered) && Arrived(a, arrival)
    {
      a, reply, answered := net.Receive();
      arrival := TimeVal(0, 0);
      if !a.Nothing? {
        arrival := clock.GetTimeOfDay();
        assert IsReading(clock.reading, arrival);
      }
    }

    /** What the network delivered last, and a later reading of the clock than the last timer. */
    ghost predicate Arrived(a: Arrival, arrival: TimeVal)
      reads this, net
    {
      && net.receiveCalls > 0 && a == net.arrivals(net.receiveCalls - 1)
      && polls != [] && IsReading(clock.reading, arrival) && Micros(polls[|polls| - 1].timer) <= Micros(arrival)
    }

    /** The reply `p` was made for the request `answered`. */
    ghost predicate Answers(a: Arrival, p: Packet, answered: nat)
      requires a.Reply?
      reads net
    {
      && net.requests != [] && answered == a.which % |net.requests| && ValidPacket(net.requests[answered])
      && Unsigned32(a.received) && Unsigned32(a.sent)
      && p == net.serve(net.requests[answered], a.received, a.sent)
    }

    /** From the packet number `first` on, `a` was the first that did not come from elsewhere, and it was the last. */
    ghost predicate FirstToCount(first: nat, a: Arrival)
      reads this, net
    {
      && first < net.receiveCalls && a == net.arrivals(net.receiveCalls - 1) && !a.Stray?
      && forall k :: first <= k < net.receiveCalls - 1 ==> net.arrivals(k).Stray?
    }

    /**
     Listens until something arrives from the address of the server, or nothing does. A reply
     answers one of the requests that were sent.
     */
    method Listen() returns (error: bool, reply: Packet, arrival: TimeVal, ghost a: Arrival, ghost answered: nat)
      requires Valid() && net.requests != []
      modifies clock, net
      ensures Valid() && net.requests == old(net.requests) && net.sendCalls == old(net.sendCalls)
      ensures FirstToCount(old(net.receiveCalls), a) && (error <==> a.Nothing?)
      ensures !error ==> a.Reply? && Answers(a, reply, answered) && Arrived(a, arrival)
    {
      error, arrival, reply := false, TimeVal(0, 0), NO_PACKET;
      answered, a := 0, Nothing;
      var stray := true;
      ghost var last := net.settled(net.receiveCalls);
      while stray && !error
        invariant Valid() && net.requests == old(net.requests) && net.sendCalls == old(net.sendCalls)
        invariant net.receiveCalls >= old(net.receiveCalls)
        invariant if stray && !error then forall k :: old(net.receiveCalls) <= k < net.receiveCalls ==> net.arrivals(k).Stray?
                  else FirstToCount(old(net.receiveCalls), a) && (error <==> a.Nothing?)
        invariant stray && !error ==> net.receiveCalls <= last && !net.arrivals(last).Stray?
        invariant !stray && !error ==> a.Reply? && Answers(a, reply, answered) && Arrived(a, arrival)
        decreases stray && !error, last - net.receiveCalls
      {
        var got;
        got, reply, arrival, answered := ReceivePacket();
        a := got;
        if got.Nothing? {
          var elapsed := ElapsedTime(pollTimer);
          error := true;
        }
        stray := got.Stray?;
      }
    }

    /** The reply came last from the network and was made for the request that was sent last. */
    ghost predicate AnswersLast(a: Arrival, reply: Packet, arrival: TimeVal, answered: nat)
      reads this, net
    {
      && a.Reply? && Answers(a, reply, answered) && Arrived(a, arrival)
      && polls != [] && net.requests[|net.requests| - 1] == polls[|polls| - 1].request
      && (pollWait >= 0 && Recent(polls) ==> answered == |net.requests| - 1)
    }

    /** The last request has left the client. */
    ghost predicate LastWasSent()
      reads this, net
    {
      && polls != [] && net.requests != [] && net.requests[|net.requests| - 1] == polls[|polls| - 1].request
      && which != [] && which[|which| - 1] == |polls| - 1
    }

    /** A trusted reply is fresh. */
    lemma TrustedAnswersLast(request: Packet, a: Arrival, reply: Packet, arrival: TimeVal, answered: nat)
      requires Valid() && a.Reply? && Answers(a, reply, answered) && Arrived(a, arrival)
      requires LastWasSent() && request == polls[|polls| - 1].request
      requires RunSanityChecks(request, reply) == 0
      ensures AnswersLast(a, reply, arrival, answered)
    {
      assert RepliesAt(net.serve, net.requests[answered], a.received, a.sent);
      if pollWait >= 0 && Recent(polls) {
        TrustedReplyIsFresh(net.requests, polls, which, pollWait, answered, a.received, a.sent);
      }
    }

    /** A reply is trusted exactly when it was made for a request with this transmit timestamp. */
    lemma TrustedByTransmit(request: Packet, a: Arrival, reply: Packet, answered: nat)
      requires Valid() && a.Reply? && Answers(a, reply, answered)
      requires LastWasSent() && request == polls[|polls| - 1].request
      ensures RunSanityChecks(request, reply) == 0 <==> net.requests[answered].transmit == request.transmit
    {
      assert RepliesAt(net.serve, net.requests[answered], a.received, a.sent);
      assert Genuine(polls[|polls| - 1]) && Genuine(polls[which[answered]]);
      ReplyPassesIff(request, net.requests[answered], a.received, a.sent);
    }

    /** What the reply is trusted on, in terms of the last packet that came. */
    lemma GoodNow(a: Arrival, reply: Packet, answered: nat, request: Packet)
      requires net.receiveCalls > 0 && a == net.arrivals(net.receiveCalls - 1) && a.Reply? && Answers(a, reply, answered)
      ensures net.requests[answered].transmit == request.transmit <==>
              Good(net.requests, net.arrivals, Heard(net.receiveCalls - 1, |net.requests|), request)
    {
    }

    /**
     A trusted reply answers the last request, and the reply is trusted exactly when it was made
     for a request with the same transmit timestamp, as the one sent last is.
     */
    ghost predicate Judged(trusted: bool, request: Packet, a: Arrival, reply: Packet, arrival: TimeVal, answered: nat)
      requires a.Reply? && answered < |net.requests| && net.receiveCalls > 0
      reads this, net
    {
      && (trusted ==> AnswersLast(a, reply, arrival, answered))
      && (trusted <==> net.requests[answered].transmit == request.transmit)
      && (trusted <==> Good(net.requests, net.arrivals, Heard(net.receiveCalls - 1, |net.requests|), request))
      && (answered == |net.requests| - 1 ==> trusted)
    }

    lemma SanityJudges(request: Packet, a: Arrival, reply: Packet, arrival: TimeVal, answered: nat)
      requires Valid() && LastWasSent() && request == polls[|polls| - 1].request
      requires a.Reply? && Answers(a, reply, answered) && Arrived(a, arrival)
      ensures Judged(RunSanityChecks(request, reply) == 0, request, a, reply, arrival, answered)
    {
      TrustedByTransmit(request, a, reply, answered);
      GoodNow(a, reply, answered, request);
      if RunSanityChecks(request, reply) == 0 {
        TrustedAnswersLast(request, a, reply, arrival, answered);
      }
    }

    /** The sanity checks, and the debug output when they fail. */
    method Judge(request: Packet, reply: Packet, ghost a: Arrival, ghost arrival: TimeVal, ghost answered: nat)
      returns (code: int)
      requires Valid() && LastWasSent() && request == polls[|polls| - 1].request
      requires a.Reply? && Answers(a, reply, answered) && Arrived(a, arrival)
      modifies clock
      ensures Valid() && Judged(code == 0, request, a, reply, arrival, answered)
    {
      SanityJudges(request, a, reply, arrival, answered);
      code := RunSanityChecks(request, reply);
      if code != 0 {
        var elapsed := ElapsedTime(pollTimer);
      }
    }

    /** Waits for a reply to the last request and checks it; 0 when it is trusted. */
    method AwaitReply(request: Packet)
      returns (code: int, reply: Packet, arrival: TimeVal, ghost a: Arrival, ghost answered: nat)
      requires Valid() && LastWasSent() && request == polls[|polls| - 1].request
      modifies clock, net
      ensures Valid() && net.requests == old(net.requests) && net.sendCalls == old(net.sendCalls)
      ensures FirstToCount(old(net.receiveCalls), a)
      ensures code == 0 ==> AnswersLast(a, reply, arrival, answered)
      ensures code == 0 <==> Good(net.requests, net.arrivals, Heard(net.receiveCalls - 1, |net.requests|), request)
      ensures a.Reply? && answered == |net.requests| - 1 ==> code == 0
    {
      var error;
      error, reply, arrival, a, answered := Listen();
      code := 1;
      if !error {
        code := Judge(request, reply, a, arrival, answered);
      }
    }

    /** The last attempt, from the given counts of the network on, ended so; `good` says whether it was good. */
    ghost predicate Tried(requests: seq<Packet>, receives: nat, call: nat, end: End, good: bool)
      requires polls != []
      reads this, net
    {
      && requests <= net.requests && receives <= net.receiveCalls && net.sendCalls == call + 1
      && EndOk(net.requests, net.receiveCalls, net.sends, net.arrivals, end, polls[|polls| - 1].request, call)
      && (end.Heard? ==> end.at == net.receiveCalls - 1 && forall k :: receives <= k < end.at ==> net.arrivals(k).Stray?)
      && (good <==> Good(net.requests, net.arrivals, end, polls[|polls| - 1].request))
    }

    /** The same, and how the attempt ended. */
    method AwaitEnd(request: Packet)
      returns (code: int, reply: Packet, arrival: TimeVal, ghost a: Arrival, ghost answered: nat, ghost end: End)
      requires Valid() && LastWasSent() && request == polls[|polls| - 1].request
      requires 0 < net.sendCalls && net.sends(net.sendCalls - 1)
      modifies clock, net
      ensures Valid() && net.requests == old(net.requests)
      ensures code == 0 ==> AnswersLast(a, reply, arrival, answered)
      ensures Tried(net.requests, old(net.receiveCalls), old(net.sendCalls) - 1, end, code == 0)
    {
      code, reply, arrival, a, answered := AwaitReply(request);
      end := Heard(net.receiveCalls - 1, |net.requests|);
    }

    /** A request that could not be sent. */
    method Unanswered()
      requires Valid() && polls != [] && 0 < net.sendCalls && !net.sends(net.sendCalls - 1)
      modifies clock
      ensures Valid() && Tried(net.requests, net.receiveCalls, net.sendCalls - 1, Unsent, false)
    {
      var elapsed := ElapsedTime(pollTimer);
    }

    /** One request and its reply; 0 when a trusted reply has arrived. */
    method Attempt()
      returns (code: int, reply: Packet, arrival: TimeVal, ghost a: Arrival, ghost answered: nat, ghost end: End)
      requires Valid() && MayPoll()
      modifies this, clock, net
      ensures Valid() && |polls| == |old(polls)| + 1 && old(polls) <= polls
      ensures pollTimer == polls[|polls| - 1].timer && pollTimer.sec >= 0
      ensures code == 0 ==> AnswersLast(a, reply, arrival, answered)
      ensures Tried(old(net.requests), old(net.receiveCalls), old(net.sendCalls), end, code == 0)
    {
      var ok, request := Ask();
      end := Unsent;
      if ok {
        code, reply, arrival, a, answered, end := AwaitEnd(request);
      } else {
        Unanswered();
        code, reply, arrival, a, answered := 1, NO_PACKET, TimeVal(0, 0), Nothing, 0;
      }
    }

    /** The number of readings that can still be taken before `wait` seconds after `start` are over. */
    ghost function ReadingsLeft(start: TimeVal): nat
      reads clock
    {
      var end := clock.beyond((start.sec + pollWait + 1) * MILLION);
      if end > clock.calls then end - clock.calls else 0
    }

    /** The reading number `i` of the clock falls into the pause after the timer was started. */
    ghost predicate Paused(i: nat)
      reads this
    {
      TimeOf(clock.reading(i)).sec - pollTimer.sec <= pollWait
    }

    /** The test `get_elapsed_time(poll_timer) <= poll_wait` of both wait loops. */
    method StillWaiting() returns (yes: bool)
      requires Valid()
      modifies clock
      ensures Valid() && clock.calls == old(clock.calls) + 1
      ensures yes <==> Paused(old(clock.calls))
      ensures !yes && (polls != [] ==> pollTimer == polls[|polls| - 1].timer) ==> MayPoll()
      ensures yes ==> ReadingsLeft(pollTimer) < old(ReadingsLeft(pollTimer))
    {
      assert Passed(clock.reading, clock.beyond, (pollTimer.sec + pollWait + 1) * MILLION, clock.calls);
      var elapsed := ElapsedTime(pollTimer);
      yes := elapsed <= pollWait;
    }

    /** Either no wait is due, or the timer belongs to the last request. */
    ghost predicate Timed()
      reads this, clock
    {
      if pollTimer.sec == -1 then MayPoll() else polls != [] && pollTimer == polls[|polls| - 1].timer
    }

    /** One pass through the retry loop: the wait is not over, or a request is made. */
    method Pass()
      returns (waiting: bool, ok: bool, reply: Packet, arrival: TimeVal, ghost a: Arrival, ghost answered: nat, ghost end: End)
      requires Valid() && Timed()
      modifies this, clock, net
      ensures Valid() && Timed()
      ensures waiting <==> old(pollTimer.sec != -1 && Paused(clock.calls))
      ensures waiting ==> !ok && polls == old(polls) && pollTimer == old(pollTimer) && pollTimer.sec != -1
      ensures waiting ==> ReadingsLeft(pollTimer) < old(ReadingsLeft(pollTimer))
      ensures waiting ==> net.requests == old(net.requests) && net.sendCalls == old(net.sendCalls) && net.receiveCalls == old(net.receiveCalls)
      ensures !waiting ==> |polls| == |old(polls)| + 1 && old(polls) <= polls && pollTimer.sec >= 0
      ensures !waiting ==> Tried(old(net.requests), old(net.receiveCalls), old(net.sendCalls), end, ok)
      ensures ok ==> AnswersLast(a, reply, arrival, answered)
    {
      waiting, ok, reply, arrival, a, answered := false, false, NO_PACKET, TimeVal(0, 0), Nothing, 0;
      end := Unsent;
      if pollTimer.sec != -1 {
        waiting := StillWaiting();
        if waiting {
          return;
        }
      }
      var failed;
      failed, reply, arrival, a, answered, end := Attempt();
      ok := failed == 0;
    }

    /** The last attempt ended on a good reply, and none before it did. */
    ghost predicate OnlyLastGood(ends: seq<End>, base: nat)
      requires |polls| == base + |ends|
      reads this, net
    {
      && ends != [] && Good(net.requests, net.arrivals, ends[|ends| - 1], polls[|polls| - 1].request)
      && forall j :: 0 <= j < |ends| - 1 ==> !Good(net.requests, net.arrivals, ends[j], polls[base + j].request)
    }

    /** The retry loop after the attempts `ends`, of which the last one was `good` or none was. */
    ghost predicate Retrying(base: seq<Poll>, calls: nat, ends: seq<End>, good: bool)
      reads this, clock, net
    {
      && Valid() && Timed() && base <= polls && (ends != [] ==> pollTimer.sec >= 0)
      && net.sendCalls == calls + |ends|
      && EndsOk(net.requests, net.receiveCalls, net.sends, net.arrivals, ends, polls, |base|, calls)
      && if good then OnlyLastGood(ends, |base|) else NoneGood(net.requests, net.arrivals, ends, polls, |base|)
    }

    /** A pass, and how its attempt ended. */
    method NextPass(ghost base: seq<Poll>, ghost calls: nat, ghost ends: seq<End>)
      returns (waiting: bool, ok: bool, reply: Packet, arrival: TimeVal, ghost a: Arrival, ghost answered: nat,
               ghost ends': seq<End>)
      requires Retrying(base, calls, ends, false)
      modifies this, clock, net
      ensures Retrying(base, calls, ends', ok)
      ensures waiting ==> !ok && ends' == ends && pollTimer == old(pollTimer)
      ensures waiting ==> ReadingsLeft(pollTimer) < old(ReadingsLeft(pollTimer))
      ensures !waiting ==> |ends'| == |ends| + 1
      ensures ok ==> AnswersLast(a, reply, arrival, answered)
    {
      ghost var requests, receives, before, end := net.requests, net.receiveCalls, polls, Unsent;
      waiting, ok, reply, arrival, a, answered, end := Pass();
      ends' := ends;
      if !waiting {
        ghost var last := polls[|polls| - 1];
        EndAdded(requests, net.requests, receives, net.receiveCalls, net.sends, net.arrivals, ends, end, before, last,
                 |base|, calls);
        assert before + [last] == polls;
        ends' := ends + [end];
      }
    }

    /**
     What a query returns after the attempts `ends`: 4 when it has made as many as it may and none
     ended on a good reply, and otherwise 0, when the last one did and no other.
     */
    ghost predicate Outcome(code: int, ends: seq<End>, base: nat, calls: nat)
      reads this, net
    {
      && EndsOk(net.requests, net.receiveCalls, net.sends, net.arrivals, ends, polls, base, calls)
      && |ends| <= Most() && (maxUnicastRetries > 0 ==> ends != [])
      && (ends != [] ==> pollTimer == polls[|polls| - 1].timer)
      && (code == 4 <==> |ends| == Most() && NoneGood(net.requests, net.arrivals, ends, polls, base))
      && (code == 0 <==> OnlyLastGood(ends, base))
      && (code == 0 || code == 4)
    }

    /** A query makes at most as many attempts as there may be retries, and gives up only then. */
    lemma AttemptsMade(code: int, ends: seq<End>, base: nat, calls: nat)
      requires Outcome(code, ends, base, calls)
      ensures if maxUnicastRetries <= 0 then code == 4 && ends == []
              else 0 < |ends| <= maxUnicastRetries && (code == 4 ==> |ends| == maxUnicastRetries)
    {
    }

    /** Without a timer the first wait is skipped. */
    method UnsetTimer()
      requires Valid() && MayPoll()
      modifies this`pollTimer
      ensures Retrying(polls, net.sendCalls, [], false)
    {
      pollTimer := TimeVal(-1, pollTimer.usec);
    }

    /** The loop ends after a good reply, or when it has made as many requests as it may. */
    lemma Concludes(code: int, ends: seq<End>, base: seq<Poll>, calls: nat)
      requires Retrying(base, calls, ends, code == 0) && (code == 0 || code == 4)
      requires |ends| <= Most() && (code == 4 ==> |ends| == Most())
      ensures Outcome(code, ends, |base|, calls) && base <= polls
    {
      if ends != [] && NoneGood(net.requests, net.arrivals, ends, polls, |base|) {
        assert !Good(net.requests, net.arrivals, ends[|ends| - 1], polls[|base| + (|ends| - 1)].request);
      }
    }

    /** The retry loop of `unicast_mode`. */
    method RetryLoop()
      returns (code: int, reply: Packet, arrival: TimeVal, ghost a: Arrival, ghost answered: nat, ghost ends: seq<End>)
      requires Valid() && MayPoll()
      modifies this, clock, net
      ensures Valid() && old(polls) <= polls
      ensures Outcome(code, ends, |old(polls)|, old(net.sendCalls))
      ensures code == 0 ==> AnswersLast(a, reply, arrival, answered)
    {
      code, reply, arrival, a, answered, ends := 0, NO_PACKET, TimeVal(0, 0), Nothing, 0, [];
      var retryCount, validReply, waiting := 1, false, false;
      ghost var base := polls;
      UnsetTimer();
      while !validReply
        invariant Retrying(base, old(net.sendCalls), ends, validReply)
        invariant 1 <= retryCount <= Most() + 1
        invariant |ends| == retryCount - if validReply then 0 else 1
        invariant validReply ==> retryCount <= maxUnicastRetries
        invariant validReply ==> AnswersLast(a, reply, arrival, answered)
        decreases !validReply, Most() + 1 - retryCount, ReadingsLeft(pollTimer)
      {
        if retryCount > maxUnicastRetries {
          code := 4;
          Concludes(code, ends, base, old(net.sendCalls));
          return;
        }
        waiting, validReply, reply, arrival, a, answered, ends := NextPass(base, old(net.sendCalls), ends);
        if !waiting && !validReply {
          retryCount := retryCount + 1;
        }
      }
      Concludes(code, ends, base, old(net.sendCalls));
    }

    /**
     Offset and error bound are computed from a trusted reply, and they tell the lead of the
     server when the reply is known to answer the last request.
     */
    ghost predicate Reports(a: Arrival, reply: Packet, arrival: TimeVal, answered: nat, offset: real, errorBound: real)
      reads this, net
    {
      && AnswersLast(a, reply, arrival, answered) && ValidPacket(reply)
      && reply == CreateReplyPacket(net.requests[answered], a.received, a.sent)
      && offset == ClockOffset(Timestamps(reply, arrival)) && errorBound == ErrorBound(Timestamps(reply, arrival))
      && (pollWait >= 0 && Recent(polls) ==>
            Tells(polls[|polls| - 1].made, a.received, a.sent, arrival, offset, errorBound))
    }

    /**
     `unicast_mode`, once its socket and the address of the server are set up. It sends at most
     `max_unicast_retries` requests and keeps the pause between any two of them; what it reports
     is computed from the reply that came last, which answers the last request when the pause is
     not negative and the requests do not span 2^32 seconds; it is then as near to the lead of the
     server as an exchange allows.
     */
    method UnicastMode()
      returns (code: int, offset: real, errorBound: real, ghost reply: Packet, ghost arrival: TimeVal,
               ghost a: Arrival, ghost answered: nat, ghost ends: seq<End>)
      requires Valid() && MayPoll()
      modifies this, clock, net
      ensures Valid() && old(polls) <= polls
      ensures Outcome(code, ends, |old(polls)|, old(net.sendCalls))
      ensures code == 0 ==> Reports(a, reply, arrival, answered, offset, errorBound)
    {
      var got, arrived;
      code, got, arrived, a, answered, ends := RetryLoop();
      reply, arrival := got, arrived;
      offset, errorBound := Report(code, got, arrived, a, answered);
    }

    /** The timestamps of a trusted reply, and the offset and error bound that they give. */
    method Report(code: int, reply: Packet, arrival: TimeVal, ghost a: Arrival, ghost answered: nat)
      returns (offset: real, errorBound: real)
      requires Valid() && (code == 0 ==> AnswersLast(a, reply, arrival, answered))
      ensures code == 0 ==> Reports(a, reply, arrival, answered, offset, errorBound)
    {
      offset, errorBound := 0.0, 0.0;
      if code == 0 {
        assert RepliesAt(net.serve, net.requests[answered], a.received, a.sent);
        var ts := Timestamps(reply, arrival);
        offset := ClockOffset(ts);
        errorBound := ErrorBound(ts);
        LastIsTold(a, reply, arrival, answered);
      }
    }

    /** What is computed from a fresh reply is accurate. */
    lemma LastIsTold(a: Arrival, reply: Packet, arrival: TimeVal, answered: nat)
      requires Valid() && AnswersLast(a, reply, arrival, answered) && ValidPacket(reply)
      requires reply == CreateReplyPacket(net.requests[answered], a.received, a.sent)
      ensures pollWait >= 0 && Recent(polls) ==>
                Tells(polls[|polls| - 1].made, a.received, a.sent, arrival,
                      ClockOffset(Timestamps(reply, arrival)), ErrorBound(Timestamps(reply, arrival)))
    {
      assert Genuine(polls[|polls| - 1]);
      if pollWait >= 0 && Recent(polls) {
        ReplyTells(polls[|polls| - 1].made, a.received, a.sent, arrival, reply);
      }
    }

    /** `poll_timer` belongs to the last request. */
    ghost predicate TimerOfLast()
      reads this
    {
      polls != [] ==> maxUnicastRetries > 0 && pollTimer == polls[|polls| - 1].timer
    }

    /** The most requests that one query makes. */
    function Most(): nat {
      if maxUnicastRetries > 0 then maxUnicastRetries else 0
    }

    /** One query of the repetition, after the pause that all but the first wait for. */
    method Query(first: bool)
      requires Valid() && TimerOfLast() && (first ==> polls == [])
      modifies this, clock, net
      ensures Valid() && TimerOfLast()
      ensures old(polls) <= polls && |polls| - |old(polls)| <= Most()
      ensures maxUnicastRetries > 0 ==> |polls| > |old(polls)|
    {
      if !first {
        Pause();
      }
      var code, offset, errorBound;
      ghost var reply, arrival, a, answered, ends;
      code, offset, errorBound, reply, arrival, a, answered, ends := UnicastMode();
    }

    /**
     The timed repetition in `main`: `limit` queries. Over the whole run any two requests keep
     the pause.
     */
    method Repeat(limit: nat)
      requires Valid() && polls == []
      modifies this, clock, net
      ensures Valid() && Disciplined(polls, pollWait)
      ensures |polls| <= limit * Most() && (maxUnicastRetries > 0 ==> |polls| >= limit)
    {
      for counter := 0 to limit
        invariant Valid() && TimerOfLast() && (counter == 0 ==> polls == [])
        invariant |polls| <= counter * Most() && (maxUnicastRetries > 0 ==> |polls| >= counter)
      {
        Query(counter == 0);
      }
    }

    /** The busy wait of `main`. */
    method Pause()
      requires Valid() && TimerOfLast()
      modifies clock
      ensures Valid() && MayPoll()
      ensures clock.calls > old(clock.calls) && !Paused(clock.calls - 1)
      ensures forall i :: old(clock.calls) <= i < clock.calls - 1 ==> Paused(i)
    {
      var waiting := true;
      while waiting
        invariant Valid() && TimerOfLast() && (!waiting ==> MayPoll())
        invariant clock.calls >= old(clock.calls) && (!waiting ==> clock.calls > old(clock.calls) && !Paused(clock.calls - 1))
        invariant forall i :: old(clock.calls) <= i < clock.calls - (if waiting then 0 else 1) ==> Paused(i)
        decreases waiting, ReadingsLeft(pollTimer)
      {
        waiting := StillWaiting();
      }
    }
  }
}
