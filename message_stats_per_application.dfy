/** `MessageStatsReportPerApplication`: the message counters of the detailed
    report kept per application, the application of a message being its id
    with the digits taken out, plus a relay count per node type. */
module ApplicationReport {
  import opened Common
  import opened Messages

  // ----- keys -----

  /** `replaceAll("[0-9]+", "")`: every run of digits removed. */
  function StripDigits(s: string): (r: string)
    ensures |r| <= |s|
  {
    if s == [] then []
    else (if IsDigit(s[0]) then [] else [s[0]]) + StripDigits(s[1..])
  }

  /** `replaceAll("[^a-z]+", "")`: only the letters `a` to `z` kept. */
  function KeepLowercase(s: string): (r: string)
    ensures |r| <= |s|
  {
    if s == [] then []
    else (if IsLowercase(s[0]) then [s[0]] else []) + KeepLowercase(s[1..])
  }

  /** `getApplication`: the key of a message is its id without digits, so
      `M1`, `M2`, ... are one application `M`. */
  function GetApplication(id: string): (app: string)
    ensures forall i :: 0 <= i < |app| ==> !IsDigit(app[i])
    ensures StripDigits(app) == app
  {
    StripDigitsHasNoDigits(id);
    StripDigitsKeepsNonDigits(id);
    StripDigits(id)
  }

  /** `getNode`: the key of a host is its name without anything but `a`-`z`,
      so `p0`, `p1`, ... are one node type `p`. */
  function GetNode(name: string): (nodetype: string)
    ensures forall i :: 0 <= i < |nodetype| ==> IsLowercase(nodetype[i])
    ensures KeepLowercase(nodetype) == nodetype
  {
    KeepLowercaseIsLowercase(name);
    LowercaseFixed(KeepLowercase(name));
    KeepLowercase(name)
  }

  lemma {:induction false} StripDigitsAppend(a: string, b: string)
    ensures StripDigits(a + b) == StripDigits(a) + StripDigits(b)
  {
    if a == [] {
      assert a + b == b;
    } else {
      assert (a + b)[0] == a[0];
      assert (a + b)[1..] == a[1..] + b;
      StripDigitsAppend(a[1..], b);
      assert StripDigits(a + b) == (if IsDigit(a[0]) then [] else [a[0]]) + StripDigits(a[1..] + b);
    }
  }

  /** No key has a digit left in it. */
  lemma {:induction false} StripDigitsHasNoDigits(s: string)
    ensures forall i :: 0 <= i < |StripDigits(s)| ==> !IsDigit(StripDigits(s)[i])
  {
    if s != [] {
      StripDigitsHasNoDigits(s[1..]);
      var head := if IsDigit(s[0]) then [] else [s[0]];
      var tail := StripDigits(s[1..]);
      assert StripDigits(s) == head + tail;
      forall i | 0 <= i < |head + tail|
        ensures !IsDigit((head + tail)[i])
      {
        if i >= |head| {
          assert (head + tail)[i] == tail[i - |head|];
        }
      }
    }
  }

  /** The characters that are not digits are exactly the ones kept, in order:
      a string with no digits is its own key, and so is every key. */
  lemma StripDigitsKeepsNonDigits(s: string)
    ensures (forall i :: 0 <= i < |s| ==> !IsDigit(s[i])) ==> StripDigits(s) == s
    ensures StripDigits(StripDigits(s)) == StripDigits(s)
  {
    if forall i :: 0 <= i < |s| ==> !IsDigit(s[i]) {
      NoDigitsFixed(s);
    }
    StripDigitsHasNoDigits(s);
    NoDigitsFixed(StripDigits(s));
  }

  lemma {:induction false} NoDigitsFixed(s: string)
    requires forall i :: 0 <= i < |s| ==> !IsDigit(s[i])
    ensures StripDigits(s) == s
  {
    if s != [] {
      NoDigitsFixed(s[1..]);
    }
  }

  lemma {:induction false} KeepLowercaseAppend(a: string, b: string)
    ensures KeepLowercase(a + b) == KeepLowercase(a) + KeepLowercase(b)
  {
    if a == [] {
      assert a + b == b;
    } else {
      assert (a + b)[0] == a[0];
      assert (a + b)[1..] == a[1..] + b;
      KeepLowercaseAppend(a[1..], b);
      assert KeepLowercase(a + b) == (if IsLowercase(a[0]) then [a[0]] else []) + KeepLowercase(a[1..] + b);
    }
  }

  lemma {:induction false} LowercaseFixed(s: string)
    requires forall i :: 0 <= i < |s| ==> IsLowercase(s[i])
    ensures KeepLowercase(s) == s
  {
    if s != [] {
      LowercaseFixed(s[1..]);
    }
  }

  /** A node key holds nothing but the letters `a` to `z`. */
  lemma {:induction false} KeepLowercaseIsLowercase(s: string)
    ensures forall i :: 0 <= i < |KeepLowercase(s)| ==> IsLowercase(KeepLowercase(s)[i])
  {
    if s != [] {
      KeepLowercaseIsLowercase(s[1..]);
      var head := if IsLowercase(s[0]) then [s[0]] else [];
      var tail := KeepLowercase(s[1..]);
      assert KeepLowercase(s) == head + tail;
      forall i | 0 <= i < |head + tail|
        ensures IsLowercase((head + tail)[i])
      {
        if i >= |head| {
          assert (head + tail)[i] == tail[i - |head|];
        }
      }
    }
  }

  /** Every node key is its own key. */
  lemma NodeKeyIdempotent(name: string)
    ensures GetNode(GetNode(name)) == GetNode(name)
  {
    KeepLowercaseIsLowercase(name);
    LowercaseFixed(GetNode(name));
  }

  lemma {:induction false} DecimalVanishes(n: nat)
    ensures StripDigits(Decimal(n)) == []
  {
    var d := Decimal(n);
    assert forall i :: 0 <= i < |d| ==> IsDigit(d[i]);
    AllDigitsVanish(d);
  }

  lemma {:induction false} AllDigitsVanish(s: string)
    requires forall i :: 0 <= i < |s| ==> IsDigit(s[i])
    ensures StripDigits(s) == []
  {
    if s != [] {
      AllDigitsVanish(s[1..]);
    }
  }

  /** Messages numbered from one prefix share the prefix's application. */
  lemma NumberedIdsShareApplication(prefix: string, n: nat)
    ensures GetApplication(prefix + Decimal(n)) == GetApplication(prefix)
  {
    StripDigitsAppend(prefix, Decimal(n));
    DecimalVanishes(n);
  }

  /** Every relay step of a message is counted under the message's
      application with `r-` in front, whatever the hop index. */
  lemma RelayStepApplication(index: nat, id: string)
    ensures GetApplication(RelayId(index, id)) == "r-" + GetApplication(id)
  {
    StripDigitsAppend("r" + Decimal(index), "-" + id);
    StripDigitsAppend("r", Decimal(index));
    StripDigitsAppend("-", id);
    DecimalVanishes(index);
    assert "r" + Decimal(index) + "-" + id == ("r" + Decimal(index)) + ("-" + id);
  }

  /** All dummies of one host are one application, whatever their second. */
  lemma DummyApplication(hostName: string, t: nat)
    ensures GetApplication(FakeId(hostName, t)) == "f-" + GetApplication(hostName) + ":"
  {
    assert FakeId(hostName, t) == ("f-" + hostName + ":") + Decimal(t);
    StripDigitsAppend("f-" + hostName + ":", Decimal(t));
    DecimalVanishes(t);
    StripDigitsAppend("f-" + hostName, ":");
    StripDigitsAppend("f-", hostName);
  }

  // ----- the report state -----

  /** The sample lists, keyed by application. */
  datatype Samples = Samples(
    latencies: map<string, seq<real>>,
    hopCounts: map<string, seq<int>>,
    bufferTimes: map<string, seq<real>>,
    rtt: map<string, seq<real>>)

  /** The counts of what happened to messages on the way, keyed by
      application (`relayedPerNode` by node type). */
  datatype Traffic = Traffic(
    dropped: map<string, nat>,
    removed: map<string, nat>,
    started: map<string, nat>,
    aborted: map<string, nat>,
    relayed: map<string, nat>,
    relayedPerNode: map<string, nat>)

  /** The counts of created and delivered messages, keyed by application. */
  datatype Outcomes = Outcomes(
    created: map<string, nat>,
    responseReqCreated: map<string, nat>,
    delivered: map<string, nat>,
    responseDelivered: map<string, nat>)

  /** Every table of the report. */
  datatype AppStats = AppStats(
    warmupIds: set<string>,
    creationTimes: map<string, real>,
    samples: Samples,
    traffic: Traffic,
    outcomes: Outcomes)

  /** Per application (a missing key reads as 0): deliveries among the
      relays, response deliveries among the deliveries, response requests
      among the created messages. */
  ghost predicate Consistent(s: AppStats)
  {
    forall k :: ConsistentAt(s, k)
  }

  predicate ConsistentAt(s: AppStats, k: string)
  {
    && CountOf(s.outcomes.delivered, k) <= CountOf(s.traffic.relayed, k)
    && CountOf(s.outcomes.responseDelivered, k) <= CountOf(s.outcomes.delivered, k)
    && CountOf(s.outcomes.responseReqCreated, k) <= CountOf(s.outcomes.created, k)
  }

  /** `init()`: every table empty. */
  function Initial(): (s: AppStats)
    ensures Consistent(s) && s.warmupIds == {} && s.outcomes.created == map[] && s.outcomes.delivered == map[]
  {
    AppStats({}, map[], Samples(map[], map[], map[], map[]), Traffic(map[], map[], map[], map[], map[], map[]),
             Outcomes(map[], map[], map[], map[]))
  }

  /** `messageDeleted`: one more drop or removal for the application (a
      missing key becomes 1) and one more buffer-time sample `now - receiveTime`. */
  function OnDeleted(s: AppStats, m: Message, now: real, receiveTime: real, dropped: bool): (r: AppStats)
    ensures m.id in s.warmupIds ==> r == s
    ensures m.id !in s.warmupIds ==>
      var app := GetApplication(m.id);
      && (dropped ==> r.traffic == s.traffic.(dropped := AddCount(s.traffic.dropped, app)))
      && (!dropped ==> r.traffic == s.traffic.(removed := AddCount(s.traffic.removed, app)))
      && r.samples == s.samples.(bufferTimes := AppendSample(s.samples.bufferTimes, app, now - receiveTime))
      && r.(traffic := s.traffic, samples := s.samples) == s
  {
    if m.id in s.warmupIds then s
    else
      var app := GetApplication(m.id);
      var t := s.traffic;
      s.(traffic := if dropped then t.(dropped := AddCount(t.dropped, app)) else t.(removed := AddCount(t.removed, app)),
         samples := s.samples.(bufferTimes := AppendSample(s.samples.bufferTimes, app, now - receiveTime)))
  }

  /** `messageTransferAborted`: one more abort for the application. */
  function OnAborted(s: AppStats, m: Message): (r: AppStats)
    ensures m.id in s.warmupIds ==> r == s
    ensures m.id !in s.warmupIds ==>
      r == s.(traffic := s.traffic.(aborted := AddCount(s.traffic.aborted, GetApplication(m.id))))
  {
    if m.id in s.warmupIds then s
    else s.(traffic := s.traffic.(aborted := AddCount(s.traffic.aborted, GetApplication(m.id))))
  }

  /** `messageTransferStarted`: one more start for the application. */
  function OnStarted(s: AppStats, m: Message): (r: AppStats)
    ensures m.id in s.warmupIds ==> r == s
    ensures m.id !in s.warmupIds ==>
      r == s.(traffic := s.traffic.(started := AddCount(s.traffic.started, GetApplication(m.id))))
  {
    if m.id in s.warmupIds then s
    else s.(traffic := s.traffic.(started := AddCount(s.traffic.started, GetApplication(m.id))))
  }

  /** `messageTransferred`: a relay for the application and for the sender's
      node type; at the final target also a delivery with its latency from the
      recorded creation time and its hop count, and for a response (`request`,
      the request's creation time) a round trip. The latency looks the
      creation time up unchecked, so a message delivered outside the warm-up
      must have had its creation recorded. */
  function OnTransferred(s: AppStats, m: Message, fromName: string, now: real, finalTarget: bool,
                         hopCount: int, request: Option<real>): (r: AppStats)
    requires m.id !in s.warmupIds && finalTarget ==> m.id in s.creationTimes
    ensures m.id in s.warmupIds ==> r == s
    ensures m.id !in s.warmupIds ==>
      var app := GetApplication(m.id);
      && r.traffic == s.traffic.(relayed := AddCount(s.traffic.relayed, app),
                                 relayedPerNode := AddCount(s.traffic.relayedPerNode, GetNode(fromName)))
      && (!finalTarget ==> r.samples == s.samples && r.outcomes == s.outcomes)
      && (finalTarget ==>
            && r.outcomes.delivered == AddCount(s.outcomes.delivered, app)
            && r.samples.latencies == AppendSample(s.samples.latencies, app, now - s.creationTimes[m.id])
            && r.samples.hopCounts == AppendSample(s.samples.hopCounts, app, hopCount))
      && (finalTarget && request.Some? ==>
            && r.outcomes.responseDelivered == AddCount(s.outcomes.responseDelivered, app)
            && r.samples.rtt == AppendSample(s.samples.rtt, app, now - request.value))
      && (request.None? ==> r.outcomes.responseDelivered == s.outcomes.responseDelivered && r.samples.rtt == s.samples.rtt)
      && r.samples.bufferTimes == s.samples.bufferTimes
      && r.outcomes.created == s.outcomes.created && r.outcomes.responseReqCreated == s.outcomes.responseReqCreated
      && r.(traffic := s.traffic, samples := s.samples, outcomes := s.outcomes) == s
  {
    if m.id in s.warmupIds then s
    else
      var app := GetApplication(m.id);
      var t := s.traffic.(relayed := AddCount(s.traffic.relayed, app),
                          relayedPerNode := AddCount(s.traffic.relayedPerNode, GetNode(fromName)));
      if !finalTarget then s.(traffic := t)
      else
        var sm := s.samples;
        var o := s.outcomes;
        s.(traffic := t,
           samples := sm.(latencies := AppendSample(sm.latencies, app, now - s.creationTimes[m.id]),
                          hopCounts := AppendSample(sm.hopCounts, app, hopCount),
                          rtt := if request.Some? then AppendSample(sm.rtt, app, now - request.value) else sm.rtt),
           outcomes := o.(delivered := AddCount(o.delivered, app),
                          responseDelivered := if request.Some? then AddCount(o.responseDelivered, app)
                                               else o.responseDelivered))
  }

  /** The first message of an application sets its drop, removal, start,
      abort and relay counts to 0. */
  function ResetTraffic(t: Traffic, app: string): (r: Traffic)
    ensures r.relayedPerNode == t.relayedPerNode
  {
    t.(dropped := t.dropped[app := 0], removed := t.removed[app := 0], started := t.started[app := 0],
       aborted := t.aborted[app := 0], relayed := t.relayed[app := 0])
  }

  /** ... and its response-request, delivery and response-delivery counts to 0. */
  function ResetOutcomes(o: Outcomes, app: string): (r: Outcomes)
    ensures r.created == o.created
  {
    o.(responseReqCreated := o.responseReqCreated[app := 0], delivered := o.delivered[app := 0],
       responseDelivered := o.responseDelivered[app := 0])
  }

  /** `newMessage`: during the warm-up only the id is remembered. Afterwards
      the creation time is recorded and one more creation counted; a first
      message of its application opens the application (every other count
      0), a later one leaves the other counts; a response request is counted
      on top iff the message asks for a response. */
  function OnNewMessage(s: AppStats, m: Message, now: real, warmup: bool): (r: AppStats)
    ensures warmup ==> r == s.(warmupIds := s.warmupIds + {m.id})
    ensures !warmup ==>
      var app := GetApplication(m.id);
      var first := app !in s.outcomes.created;
      var o := if first then ResetOutcomes(s.outcomes, app) else s.outcomes;
      && r.creationTimes == s.creationTimes[m.id := now]
      && r.traffic == (if first then ResetTraffic(s.traffic, app) else s.traffic)
      && r.outcomes.created == AddCount(s.outcomes.created, app)
      && r.outcomes.delivered == o.delivered && r.outcomes.responseDelivered == o.responseDelivered
      && (m.responseSize > 0 ==> r.outcomes.responseReqCreated == AddCount(o.responseReqCreated, app))
      && (m.responseSize == 0 ==> r.outcomes.responseReqCreated == o.responseReqCreated)
      && r.warmupIds == s.warmupIds && r.samples == s.samples
  {
    if warmup then s.(warmupIds := s.warmupIds + {m.id})
    else
      var app := GetApplication(m.id);
      var first := app !in s.outcomes.created;
      var o := if first then ResetOutcomes(s.outcomes, app) else s.outcomes;
      s.(creationTimes := s.creationTimes[m.id := now],
         traffic := if first then ResetTraffic(s.traffic, app) else s.traffic,
         outcomes := o.(created := AddCount(o.created, app),
                        responseReqCreated := if m.responseSize > 0 then AddCount(o.responseReqCreated, app)
                                              else o.responseReqCreated))
  }

  /** The first creation of an application opens it: created 1, nothing
      delivered or relayed, and a response request iff one is asked for;
      a later creation adds one to created and to the requests iff asked. */
  lemma NewMessageCounts(s: AppStats, m: Message, now: real)
    ensures var r := OnNewMessage(s, m, now, false); var app := GetApplication(m.id);
      && CountOf(r.outcomes.created, app) == CountOf(s.outcomes.created, app) + 1
      && (app !in s.outcomes.created ==>
            && CountOf(r.outcomes.delivered, app) == 0 && CountOf(r.traffic.relayed, app) == 0
            && CountOf(r.traffic.dropped, app) == 0
            && CountOf(r.outcomes.responseReqCreated, app) == (if m.responseSize > 0 then 1 else 0))
      && (app in s.outcomes.created ==>
            CountOf(r.outcomes.responseReqCreated, app) ==
              CountOf(s.outcomes.responseReqCreated, app) + (if m.responseSize > 0 then 1 else 0))
  {
  }

  /** A change that leaves the counted tables alone keeps the report
      consistent. */
  lemma CountsUntouchedConsistent(s: AppStats, r: AppStats)
    requires Consistent(s)
    requires r.outcomes == s.outcomes && r.traffic.relayed == s.traffic.relayed
    ensures Consistent(r)
  {
    forall k
      ensures ConsistentAt(r, k)
    {
      assert ConsistentAt(s, k);
    }
  }

  /** `newMessage` keeps the report consistent, whatever an application had
      counted before its first creation. */
  lemma {:induction false} NewMessageConsistent(s: AppStats, m: Message, now: real, warmup: bool)
    requires Consistent(s)
    ensures Consistent(OnNewMessage(s, m, now, warmup))
  {
    var r := OnNewMessage(s, m, now, warmup);
    if warmup {
      CountsUntouchedConsistent(s, r);
    } else {
      var app := GetApplication(m.id);
      var first := app !in s.outcomes.created;
      var o := if first then ResetOutcomes(s.outcomes, app) else s.outcomes;
      forall k
        ensures ConsistentAt(r, k)
      {
        assert ConsistentAt(s, k);
        AddCountCounts(o.responseReqCreated, app, k);
        AddCountCounts(s.outcomes.created, app, k);
        if first && k != app {
          assert CountOf(o.delivered, k) == CountOf(s.outcomes.delivered, k);
          assert CountOf(o.responseDelivered, k) == CountOf(s.outcomes.responseDelivered, k);
          assert CountOf(o.responseReqCreated, k) == CountOf(s.outcomes.responseReqCreated, k);
          assert CountOf(r.traffic.relayed, k) == CountOf(s.traffic.relayed, k);
        }
      }
    }
  }

  /** `messageTransferred` keeps the report consistent: a delivery is always
      also a relay, and a response delivery always also a delivery. */
  lemma {:induction false} TransferredConsistent(s: AppStats, m: Message, fromName: string, now: real,
                                                 finalTarget: bool, hopCount: int, request: Option<real>)
    requires Consistent(s)
    requires m.id !in s.warmupIds && finalTarget ==> m.id in s.creationTimes
    ensures Consistent(OnTransferred(s, m, fromName, now, finalTarget, hopCount, request))
  {
    var r := OnTransferred(s, m, fromName, now, finalTarget, hopCount, request);
    if m.id in s.warmupIds {
      CountsUntouchedConsistent(s, r);
    } else {
      var app := GetApplication(m.id);
      forall k
        ensures ConsistentAt(r, k)
      {
        assert ConsistentAt(s, k);
        AddCountCounts(s.traffic.relayed, app, k);
        AddCountCounts(s.outcomes.delivered, app, k);
        AddCountCounts(s.outcomes.responseDelivered, app, k);
      }
    }
  }

  /** A listener call, as the message framework makes it. */
  datatype Event =
    | Deleted(m: Message, now: real, receiveTime: real, dropped: bool)
    | Aborted(m: Message)
    | Started(m: Message)
    | Transferred(m: Message, fromName: string, now: real, finalTarget: bool, hopCount: int, request: Option<real>)
    | Created(m: Message, now: real, warmup: bool)

  /** A call the report can take: a delivery outside the warm-up is of a
      message whose creation was recorded. */
  predicate Admissible(s: AppStats, e: Event)
  {
    e.Transferred? && e.m.id !in s.warmupIds && e.finalTarget ==> e.m.id in s.creationTimes
  }

  function Apply(s: AppStats, e: Event): AppStats
    requires Admissible(s, e)
  {
    match e
    case Deleted(m, now, receiveTime, dropped) => OnDeleted(s, m, now, receiveTime, dropped)
    case Aborted(m) => OnAborted(s, m)
    case Started(m) => OnStarted(s, m)
    case Transferred(m, fromName, now, finalTarget, hopCount, request) =>
      OnTransferred(s, m, fromName, now, finalTarget, hopCount, request)
    case Created(m, now, warmup) => OnNewMessage(s, m, now, warmup)
  }

  /** Every listener call keeps the report consistent and the warm-up ids. */
  lemma {:induction false} ApplyConsistent(s: AppStats, e: Event)
    requires Consistent(s) && Admissible(s, e)
    ensures Consistent(Apply(s, e)) && s.warmupIds <= Apply(s, e).warmupIds
  {
    match e
    case Deleted(m, now, receiveTime, dropped) =>
      CountsUntouchedConsistent(s, Apply(s, e));
    case Aborted(m) =>
      CountsUntouchedConsistent(s, Apply(s, e));
    case Started(m) =>
      CountsUntouchedConsistent(s, Apply(s, e));
    case Transferred(m, fromName, now, finalTarget, hopCount, request) =>
      TransferredConsistent(s, m, fromName, now, finalTarget, hopCount, request);
    case Created(m, now, warmup) =>
      NewMessageConsistent(s, m, now, warmup);
  }

  /** A message created during the warm-up is invisible: no deletion,
      abort, start or transfer of it changes any table. */
  lemma WarmupMessageInvisible(s: AppStats, e: Event)
    requires !e.Created? && e.m.id in s.warmupIds
    ensures Admissible(s, e) && Apply(s, e) == s
  {
  }

  class MessageStatsReportPerApplication {
    var warmupIds: set<string>
    var creationTimes: map<string, real>
    var latencieslist: map<string, seq<real>>
    var hopCountslist: map<string, seq<int>>
    var msgBufferTimelist: map<string, seq<real>>
    var rttlist: map<string, seq<real>>
    var nrofDroppedlist: map<string, nat>
    var nrofRemovedlist: map<string, nat>
    var nrofStartedlist: map<string, nat>
    var nrofAbortedlist: map<string, nat>
    var nrofRelayedlist: map<string, nat>
    var nrofRelayedPerNodelist: map<string, nat>
    var nrofCreatedlist: map<string, nat>
    var nrofResponseReqCreatedlist: map<string, nat>
    var nrofResponseDeliveredlist: map<string, nat>
    var nrofDeliveredlist: map<string, nat>

    ghost function Snapshot(): AppStats
      reads this
    {
      AppStats(warmupIds, creationTimes,
               Samples(latencieslist, hopCountslist, msgBufferTimelist, rttlist),
               Traffic(nrofDroppedlist, nrofRemovedlist, nrofStartedlist, nrofAbortedlist, nrofRelayedlist,
                       nrofRelayedPerNodelist),
               Outcomes(nrofCreatedlist, nrofResponseReqCreatedlist, nrofDeliveredlist, nrofResponseDeliveredlist))
    }

    ghost predicate Valid()
      reads this
    {
      Consistent(Snapshot())
    }

    constructor ()
      ensures Valid() && Snapshot() == Initial()
    {
      warmupIds := {};
      creationTimes := map[];
      latencieslist := map[];
      hopCountslist := map[];
      msgBufferTimelist := map[];
      rttlist := map[];
      nrofDroppedlist := map[];
      nrofRemovedlist := map[];
      nrofStartedlist := map[];
      nrofAbortedlist := map[];
      nrofRelayedlist := map[];
      nrofRelayedPerNodelist := map[];
      nrofCreatedlist := map[];
      nrofResponseReqCreatedlist := map[];
      nrofResponseDeliveredlist := map[];
      nrofDeliveredlist := map[];
    }

    method MessageDeleted(m: Message, now: real, receiveTime: real, dropped: bool)
      requires Valid()
      modifies this
      ensures Valid() && Snapshot() == OnDeleted(old(Snapshot()), m, now, receiveTime, dropped)
    {
      var app := GetApplication(m.id);
      if m.id in warmupIds {
        return;
      }
      ghost var s := Snapshot();
      if dropped {
        nrofDroppedlist := AddCount(nrofDroppedlist, app);
      } else {
        nrofRemovedlist := AddCount(nrofRemovedlist, app);
      }
      msgBufferTimelist := AppendSample(msgBufferTimelist, app, now - receiveTime);
      CountsUntouchedConsistent(s, Snapshot());
    }

    method MessageTransferAborted(m: Message)
      requires Valid()
      modifies this
      ensures Valid() && Snapshot() == OnAborted(old(Snapshot()), m)
    {
      if m.id in warmupIds {
        return;
      }
      ghost var s := Snapshot();
      nrofAbortedlist := AddCount(nrofAbortedlist, GetApplication(m.id));
      CountsUntouchedConsistent(s, Snapshot());
    }

    method MessageTransferred(m: Message, fromName: string, now: real, finalTarget: bool,
                              hopCount: int, request: Option<real>)
      requires Valid()
      requires m.id !in warmupIds && finalTarget ==> m.id in creationTimes
      modifies this
      ensures Valid()
      ensures Snapshot() == OnTransferred(old(Snapshot()), m, fromName, now, finalTarget, hopCount, request)
    {
      if m.id in warmupIds {
        return;
      }
      ghost var s := Snapshot();
      var app := GetApplication(m.id);
      var nodetype := GetNode(fromName);
      CountRelay(app, nodetype);
      if finalTarget {
        CountDelivery(app, now - creationTimes[m.id], hopCount);
        if request.Some? {
          CountResponseDelivery(app, now - request.value);
        }
      }
      TransferredConsistent(s, m, fromName, now, finalTarget, hopCount, request);
    }

    /** The relay counts of `messageTransferred`. */
    method CountRelay(app: string, nodetype: string)
      modifies this
      ensures Snapshot() == old(Snapshot()).(traffic := old(Snapshot()).traffic.(
                relayed := AddCount(old(nrofRelayedlist), app),
                relayedPerNode := AddCount(old(nrofRelayedPerNodelist), nodetype)))
    {
      nrofRelayedlist := AddCount(nrofRelayedlist, app);
      nrofRelayedPerNodelist := AddCount(nrofRelayedPerNodelist, nodetype);
    }

    /** The delivery count and samples of `messageTransferred`. */
    method CountDelivery(app: string, latency: real, hopCount: int)
      modifies this
      ensures Snapshot() == old(Snapshot()).(
                samples := old(Snapshot()).samples.(latencies := AppendSample(old(latencieslist), app, latency),
                                                    hopCounts := AppendSample(old(hopCountslist), app, hopCount)),
                outcomes := old(Snapshot()).outcomes.(delivered := AddCount(old(nrofDeliveredlist), app)))
    {
      latencieslist := AppendSample(latencieslist, app, latency);
      nrofDeliveredlist := AddCount(nrofDeliveredlist, app);
      hopCountslist := AppendSample(hopCountslist, app, hopCount);
    }

    /** The round-trip sample and count of a delivered response. */
    method CountResponseDelivery(app: string, rtt: real)
      modifies this
      ensures Snapshot() == old(Snapshot()).(
                samples := old(Snapshot()).samples.(rtt := AppendSample(old(rttlist), app, rtt)),
                outcomes := old(Snapshot()).outcomes.(responseDelivered := AddCount(old(nrofResponseDeliveredlist), app)))
    {
      rttlist := AppendSample(rttlist, app, rtt);
      nrofResponseDeliveredlist := AddCount(nrofResponseDeliveredlist, app);
    }

    method NewMessage(m: Message, now: real, warmup: bool)
      requires Valid()
      modifies this
      ensures Valid() && Snapshot() == OnNewMessage(old(Snapshot()), m, now, warmup)
    {
      ghost var s := Snapshot();
      if warmup {
        warmupIds := warmupIds + {m.id};
        NewMessageConsistent(s, m, now, warmup);
        return;
      }
      var app := GetApplication(m.id);
      creationTimes := creationTimes[m.id := now];
      CountCreation(app);
      if m.responseSize > 0 {
        nrofResponseReqCreatedlist := AddCount(nrofResponseReqCreatedlist, app);
      }
      NewMessageConsistent(s, m, now, warmup);
    }

    /** The creation count of `newMessage`, which opens the application's
        other counts on its first message. */
    method CountCreation(app: string)
      modifies this
      ensures var s := old(Snapshot()); var first := app !in s.outcomes.created;
        var o := if first then ResetOutcomes(s.outcomes, app) else s.outcomes;
        Snapshot() == s.(traffic := if first then ResetTraffic(s.traffic, app) else s.traffic,
                         outcomes := o.(created := AddCount(o.created, app)))
    {
      if app in nrofCreatedlist {
        nrofCreatedlist := nrofCreatedlist[app := nrofCreatedlist[app] + 1];
      } else {
        nrofCreatedlist := nrofCreatedlist[app := 1];
        OpenTraffic(app);
        OpenOutcomes(app);
      }
    }

    /** The drop, removal, start, abort and relay counts a first message of
        an application opens at 0. */
    method OpenTraffic(app: string)
      modifies this
      ensures Snapshot() == old(Snapshot()).(traffic := ResetTraffic(old(Snapshot()).traffic, app))
    {
      ghost var t := old(Snapshot()).traffic;
      nrofDroppedlist := nrofDroppedlist[app := 0];
      nrofRemovedlist := nrofRemovedlist[app := 0];
      assert Snapshot().traffic == t.(dropped := t.dropped[app := 0], removed := t.removed[app := 0]);
      nrofStartedlist := nrofStartedlist[app := 0];
      nrofAbortedlist := nrofAbortedlist[app := 0];
      nrofRelayedlist := nrofRelayedlist[app := 0];
    }

    /** The response-request, delivery and response-delivery counts a first
        message of an application opens at 0. */
    method OpenOutcomes(app: string)
      modifies this
      ensures Snapshot() == old(Snapshot()).(outcomes := ResetOutcomes(old(Snapshot()).outcomes, app))
    {
      nrofResponseReqCreatedlist := nrofResponseReqCreatedlist[app := 0];
      nrofResponseDeliveredlist := nrofResponseDeliveredlist[app := 0];
      nrofDeliveredlist := nrofDeliveredlist[app := 0];
    }

    method MessageTransferStarted(m: Message)
      requires Valid()
      modifies this
      ensures Valid() && Snapshot() == OnStarted(old(Snapshot()), m)
    {
      if m.id in warmupIds {
        return;
      }
      ghost var s := Snapshot();
      nrofStartedlist := AddCount(nrofStartedlist, GetApplication(m.id));
      CountsUntouchedConsistent(s, Snapshot());
    }
  }
}
