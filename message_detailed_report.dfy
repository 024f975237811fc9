/** `MessageDetailedReport`: global message counters and samples, with the
    messages created during the warm-up period left out of every count. */
module DetailedReport {
  import opened Common
  import opened Messages

  /** The sample lists of the report. */
  datatype Samples = Samples(latencies: seq<real>, hopCounts: seq<int>, msgBufferTime: seq<real>, rtt: seq<real>)

  /** The counts of what happened to messages on the way. */
  datatype Traffic = Traffic(dropped: nat, removed: nat, started: nat, aborted: nat, relayed: nat)

  /** The counts of created and delivered messages. */
  datatype Outcomes = Outcomes(created: nat, responseReqCreated: nat, delivered: nat, responseDelivered: nat)

  /** Every field of the report. */
  datatype Stats = Stats(
    warmupIds: set<string>,
    creationTimes: map<string, real>,
    samples: Samples,
    traffic: Traffic,
    outcomes: Outcomes)

  /** What the report promises about its own numbers: response requests are
      among the created messages, deliveries among the relays, response
      deliveries among the deliveries, and one sample per counted event. */
  predicate Consistent(s: Stats)
  {
    && s.outcomes.responseReqCreated <= s.outcomes.created
    && s.outcomes.responseDelivered <= s.outcomes.delivered <= s.traffic.relayed
    && |s.samples.latencies| == s.outcomes.delivered && |s.samples.hopCounts| == s.outcomes.delivered
    && |s.samples.rtt| == s.outcomes.responseDelivered
    && |s.samples.msgBufferTime| == s.traffic.dropped + s.traffic.removed
  }

  /** `init()`. */
  function Initial(): (s: Stats)
    ensures Consistent(s) && s.warmupIds == {} && s.outcomes.created == 0 && s.outcomes.delivered == 0
  {
    Stats({}, map[], Samples([], [], [], []), Traffic(0, 0, 0, 0, 0), Outcomes(0, 0, 0, 0))
  }

  /** A transfer counts as a delivery only at the real destination: the
      final target, reached at the last entry of the path. */
  predicate ReachesDestination(m: Message, finalTarget: bool)
    ensures ReachesDestination(m, finalTarget) ==> |m.mixlist| > 0 && m.mixindex == |m.mixlist| - 1
  {
    finalTarget && m.mixindex + 1 == |m.mixlist|
  }

  /** `messageDeleted`: exactly one of dropped/removed, and one buffer-time
      sample `now - receiveTime`. */
  function OnDeleted(s: Stats, m: Message, now: real, receiveTime: real, dropped: bool): (r: Stats)
    ensures Consistent(s) ==> Consistent(r)
    ensures m.id in s.warmupIds ==> r == s
    ensures m.id !in s.warmupIds ==>
      && r.traffic.dropped + r.traffic.removed == s.traffic.dropped + s.traffic.removed + 1
      && (dropped ==> r.traffic.dropped == s.traffic.dropped + 1)
      && (!dropped ==> r.traffic.removed == s.traffic.removed + 1)
      && r.samples.msgBufferTime == s.samples.msgBufferTime + [now - receiveTime]
      && r.traffic.(dropped := s.traffic.dropped, removed := s.traffic.removed) == s.traffic
      && r.samples.(msgBufferTime := s.samples.msgBufferTime) == s.samples
      && r.(traffic := s.traffic, samples := s.samples) == s
  {
    if m.id in s.warmupIds then s
    else
      var t := s.traffic;
      s.(traffic := if dropped then t.(dropped := t.dropped + 1) else t.(removed := t.removed + 1),
         samples := s.samples.(msgBufferTime := s.samples.msgBufferTime + [now - receiveTime]))
  }

  /** `messageTransferAborted`. */
  function OnAborted(s: Stats, m: Message): (r: Stats)
    ensures Consistent(s) ==> Consistent(r)
    ensures m.id in s.warmupIds ==> r == s
    ensures m.id !in s.warmupIds ==>
      r.traffic.aborted == s.traffic.aborted + 1 && r == s.(traffic := s.traffic.(aborted := r.traffic.aborted))
  {
    if m.id in s.warmupIds then s else s.(traffic := s.traffic.(aborted := s.traffic.aborted + 1))
  }

  /** `messageTransferStarted`. */
  function OnStarted(s: Stats, m: Message): (r: Stats)
    ensures Consistent(s) ==> Consistent(r)
    ensures m.id in s.warmupIds ==> r == s
    ensures m.id !in s.warmupIds ==>
      r.traffic.started == s.traffic.started + 1 && r == s.(traffic := s.traffic.(started := r.traffic.started))
  {
    if m.id in s.warmupIds then s else s.(traffic := s.traffic.(started := s.traffic.started + 1))
  }

  /** `messageTransferred`: every transfer is a relay; at the real destination
      it is also a delivery with its latency from `mixcreationtime` and its hop
      count, and for a response also a round trip from the request's creation
      time (`request`, present exactly for responses). */
  function OnTransferred(s: Stats, m: Message, now: real, finalTarget: bool, hopCount: int,
                         request: Option<real>): (r: Stats)
    ensures Consistent(s) ==> Consistent(r)
    ensures m.id in s.warmupIds ==> r == s
    ensures m.id !in s.warmupIds ==>
      var o := s.outcomes;
      && r.traffic == s.traffic.(relayed := s.traffic.relayed + 1)
      && (r.outcomes.delivered == o.delivered + 1 <==> ReachesDestination(m, finalTarget))
      && (r.outcomes.responseDelivered == o.responseDelivered + 1 <==> ReachesDestination(m, finalTarget) && request.Some?)
      && (request.None? ==> r.outcomes.responseDelivered == o.responseDelivered)
      && (!ReachesDestination(m, finalTarget) ==> r.samples == s.samples && r.outcomes == o)
      && (ReachesDestination(m, finalTarget) ==>
            && r.samples.latencies == s.samples.latencies + [now - m.mixcreationtime]
            && r.samples.hopCounts == s.samples.hopCounts + [hopCount])
      && (ReachesDestination(m, finalTarget) && request.Some? ==> r.samples.rtt == s.samples.rtt + [now - request.value])
      && (request.None? ==> r.samples.rtt == s.samples.rtt)
      && r.samples.msgBufferTime == s.samples.msgBufferTime
      && r.outcomes.created == o.created && r.outcomes.responseReqCreated == o.responseReqCreated
      && r.(traffic := s.traffic, samples := s.samples, outcomes := o) == s
  {
    if m.id in s.warmupIds then s
    else
      var t := s.traffic.(relayed := s.traffic.relayed + 1);
      if !ReachesDestination(m, finalTarget) then s.(traffic := t)
      else
        var sm := s.samples;
        var o := s.outcomes;
        s.(traffic := t,
           samples := sm.(latencies := sm.latencies + [now - m.mixcreationtime], hopCounts := sm.hopCounts + [hopCount],
                          rtt := if request.Some? then sm.rtt + [now - request.value] else sm.rtt),
           outcomes := o.(delivered := o.delivered + 1,
                          responseDelivered := if request.Some? then o.responseDelivered + 1 else o.responseDelivered))
  }

  /** `newMessage`: during the warm-up only the id is remembered; afterwards
      the creation time and the counts, a response request counted iff the
      message asks for a response. */
  function OnNewMessage(s: Stats, m: Message, now: real, warmup: bool): (r: Stats)
    ensures Consistent(s) ==> Consistent(r)
    ensures warmup ==> r == s.(warmupIds := s.warmupIds + {m.id})
    ensures !warmup ==>
      && r.outcomes.created == s.outcomes.created + 1
      && r.outcomes.responseReqCreated == s.outcomes.responseReqCreated + (if m.responseSize > 0 then 1 else 0)
      && r.outcomes.(created := s.outcomes.created, responseReqCreated := s.outcomes.responseReqCreated) == s.outcomes
      && r.creationTimes == s.creationTimes[m.id := now]
      && r.(creationTimes := s.creationTimes, outcomes := s.outcomes) == s
  {
    if warmup then s.(warmupIds := s.warmupIds + {m.id})
    else
      var o := s.outcomes;
      s.(creationTimes := s.creationTimes[m.id := now],
         outcomes := o.(created := o.created + 1,
                        responseReqCreated := if m.responseSize > 0 then o.responseReqCreated + 1 else o.responseReqCreated))
  }

  /** A listener call, as the message framework makes it. */
  datatype Event =
    | Deleted(m: Message, now: real, receiveTime: real, dropped: bool)
    | Aborted(m: Message)
    | Started(m: Message)
    | Transferred(m: Message, now: real, finalTarget: bool, hopCount: int, request: Option<real>)
    | Created(m: Message, now: real, warmup: bool)

  function Apply(s: Stats, e: Event): Stats
  {
    match e
    case Deleted(m, now, receiveTime, dropped) => OnDeleted(s, m, now, receiveTime, dropped)
    case Aborted(m) => OnAborted(s, m)
    case Started(m) => OnStarted(s, m)
    case Transferred(m, now, finalTarget, hopCount, request) => OnTransferred(s, m, now, finalTarget, hopCount, request)
    case Created(m, now, warmup) => OnNewMessage(s, m, now, warmup)
  }

  /** The report after a run of events, in order. */
  function Run(s: Stats, es: seq<Event>): Stats
    decreases |es|
  {
    if es == [] then s else Run(Apply(s, es[0]), es[1..])
  }

  /** Over any run the report stays consistent and never forgets a warm-up id. */
  lemma {:induction false} RunConsistent(s: Stats, es: seq<Event>)
    requires Consistent(s)
    ensures Consistent(Run(s, es))
    ensures s.warmupIds <= Run(s, es).warmupIds
    decreases |es|
  {
    if es != [] {
      RunConsistent(Apply(s, es[0]), es[1..]);
    }
  }

  /** A message created during the warm-up never shows up in a counter: no
      deletion, transfer or abort of it changes the report, however many. */
  lemma {:induction false} WarmupMessageInvisible(s: Stats, id: string, es: seq<Event>)
    requires id in s.warmupIds
    requires forall i :: 0 <= i < |es| ==> !es[i].Created? && es[i].m.id == id
    ensures Run(s, es) == s
    decreases |es|
  {
    if es != [] {
      assert Apply(s, es[0]) == s;
      WarmupMessageInvisible(s, id, es[1..]);
    }
  }

  class MessageDetailedReport {
    var warmupIds: set<string>
    var creationTimes: map<string, real>
    var latencies: seq<real>
    var hopCounts: seq<int>
    var msgBufferTime: seq<real>
    var rtt: seq<real>
    var nrofDropped: nat
    var nrofRemoved: nat
    var nrofStarted: nat
    var nrofAborted: nat
    var nrofRelayed: nat
    var nrofCreated: nat
    var nrofResponseReqCreated: nat
    var nrofResponseDelivered: nat
    var nrofDelivered: nat

    ghost function Snapshot(): Stats
      reads this
    {
      Stats(warmupIds, creationTimes, Samples(latencies, hopCounts, msgBufferTime, rtt),
            Traffic(nrofDropped, nrofRemoved, nrofStarted, nrofAborted, nrofRelayed),
            Outcomes(nrofCreated, nrofResponseReqCreated, nrofDelivered, nrofResponseDelivered))
    }

    ghost predicate Valid()
      reads this
    {
      Consistent(Snapshot())
    }

    constructor ()
      ensures Valid() && Snapshot() == Initial()
    {
      warmupIds := {};
      creationTimes := map[];
      latencies := [];
      hopCounts := [];
      msgBufferTime := [];
      rtt := [];
      nrofDropped := 0;
      nrofRemoved := 0;
      nrofStarted := 0;
      nrofAborted := 0;
      nrofRelayed := 0;
      nrofCreated := 0;
      nrofResponseReqCreated := 0;
      nrofResponseDelivered := 0;
      nrofDelivered := 0;
    }

    method MessageDeleted(m: Message, now: real, receiveTime: real, dropped: bool)
      requires Valid()
      modifies this
      ensures Valid() && Snapshot() == OnDeleted(old(Snapshot()), m, now, receiveTime, dropped)
    {
      if m.id in warmupIds {
        return;
      }
      if dropped {
        nrofDropped := nrofDropped + 1;
      } else {
        nrofRemoved := nrofRemoved + 1;
      }
      msgBufferTime := msgBufferTime + [now - receiveTime];
    }

    method MessageTransferAborted(m: Message)
      requires Valid()
      modifies this
      ensures Valid() && Snapshot() == OnAborted(old(Snapshot()), m)
    {
      if m.id in warmupIds {
        return;
      }
      nrofAborted := nrofAborted + 1;
    }

    method MessageTransferred(m: Message, now: real, finalTarget: bool, hopCount: int, request: Option<real>)
      requires Valid()
      modifies this
      ensures Valid() && Snapshot() == OnTransferred(old(Snapshot()), m, now, finalTarget, hopCount, request)
    {
      if m.id in warmupIds {
        return;
      }
      nrofRelayed := nrofRelayed + 1;
      if finalTarget && m.mixindex + 1 == |m.mixlist| {
        CountDelivery(now - m.mixcreationtime, hopCount);
        if request.Some? {
          CountResponseDelivery(now - request.value);
        }
      }
    }

    /** The delivery count and samples of `messageTransferred`. */
    method CountDelivery(latency: real, hopCount: int)
      modifies this
      ensures Snapshot() == old(Snapshot()).(
                samples := old(Snapshot()).samples.(latencies := old(latencies) + [latency],
                                                    hopCounts := old(hopCounts) + [hopCount]),
                outcomes := old(Snapshot()).outcomes.(delivered := old(nrofDelivered) + 1))
    {
      latencies := latencies + [latency];
      nrofDelivered := nrofDelivered + 1;
      hopCounts := hopCounts + [hopCount];
    }

    /** The round-trip sample and count of a delivered response. */
    method CountResponseDelivery(rtt: real)
      modifies this
      ensures Snapshot() == old(Snapshot()).(
                samples := old(Snapshot()).samples.(rtt := old(this.rtt) + [rtt]),
                outcomes := old(Snapshot()).outcomes.(responseDelivered := old(nrofResponseDelivered) + 1))
    {
      this.rtt := this.rtt + [rtt];
      nrofResponseDelivered := nrofResponseDelivered + 1;
    }

    method NewMessage(m: Message, now: real, warmup: bool)
      requires Valid()
      modifies this
      ensures Valid() && Snapshot() == OnNewMessage(old(Snapshot()), m, now, warmup)
    {
      if warmup {
        warmupIds := warmupIds + {m.id};
        return;
      }
      creationTimes := creationTimes[m.id := now];
      nrofCreated := nrofCreated + 1;
      if m.responseSize > 0 {
        nrofResponseReqCreated := nrofResponseReqCreated + 1;
      }
    }

    method MessageTransferStarted(m: Message)
      requires Valid()
      modifies this
      ensures Valid() && Snapshot() == OnStarted(old(Snapshot()), m)
    {
      if m.id in warmupIds {
        return;
      }
      nrofStarted := nrofStarted + 1;
    }
  }
}
