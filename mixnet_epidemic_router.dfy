/** `MixnetEpidemicRouter`: the mix router that floods every buffered message
    to every idle peer once `nrofbundle` messages are buffered, and keeps the
    buffer from going quiet with dummy messages. */
module EpidemicMixRouting {
  import opened Common
  import opened Messages
  import opened Addressing
  import opened Offers
  import opened Origination
  import opened DummyTraffic

  /** The relay-hop condition of the Epidemic and Spray-and-Wait routers:
      addressed here, hops left on the path, and not a dummy. */
  predicate AdvancesHop(m: Message, self: Addr, nrofmixes: nat)
  {
    m.to == self && m.mixindex < nrofmixes && 'f' !in m.id
  }

  class MixnetEpidemicRouter {
    const self: Addr
    /** `getHost().toString()`, which names the dummies. */
    const hostName: string
    const nrofmixes: nat
    const nrofbundle: int
    const maxTime: real
    const startrate: real
    const stoprate: real
    const range: HostRange
    /** `SimScenario.getEndTime()`. */
    const endTime: real

    /** The values `rng` has yet to hand out. */
    var rng: seq<nat>
    /** `getMessageCollection()`. */
    var buffer: seq<Message>
    var delayTimer: real

    ghost predicate Valid()
      reads this
    {
      endTime > 0.0 && range.lo <= range.hi && UniqueIds(buffer)
    }

    /** The timer starts at 0, the default of the Java field. */
    constructor (self: Addr, hostName: string, nrofmixes: nat, nrofbundle: int, maxTime: real,
                 startrate: real, stoprate: real, range: HostRange, endTime: real, rng: seq<nat>)
      requires endTime > 0.0 && range.lo <= range.hi
      ensures Valid()
      ensures this.self == self && this.hostName == hostName && this.nrofmixes == nrofmixes
      ensures this.nrofbundle == nrofbundle && this.maxTime == maxTime
      ensures this.startrate == startrate && this.stoprate == stoprate
      ensures this.range == range && this.endTime == endTime && this.rng == rng
      ensures buffer == [] && delayTimer == 0.0
    {
      this.self := self;
      this.hostName := hostName;
      this.nrofmixes := nrofmixes;
      this.nrofbundle := nrofbundle;
      this.maxTime := maxTime;
      this.startrate := startrate;
      this.stoprate := stoprate;
      this.range := range;
      this.endTime := endTime;
      this.rng := rng;
      buffer := [];
      delayTimer := 0.0;
    }

    /** `updateTimer`. */
    method UpdateTimer(now: real)
      requires now >= 0.0
      modifies this
      ensures delayTimer == TimerAfterAdmission(|buffer|, nrofbundle, now, endTime)
      ensures buffer == old(buffer) && rng == old(rng)
    {
      if |buffer| < nrofbundle {
        delayTimer := IntTime(now) as real;
      } else {
        delayTimer := endTime;
      }
    }

    /** `makeRoomFor(New)Message`, `addToMessages`, `updateTimer`. */
    method Admit(msg: Message, now: real, victims: set<string>)
      requires Valid() && now >= 0.0
      modifies this
      ensures Valid() && rng == old(rng)
      ensures buffer == Put(Evict(old(buffer), victims), msg)
      ensures delayTimer == TimerAfterAdmission(|buffer|, nrofbundle, now, endTime)
    {
      buffer := Put(Evict(buffer, victims), msg);
      UpdateTimer(now);
    }

    /** `createNewMessage`: relay steps and dummies skip the origination
        window; an id with neither `r` nor `f` goes through it and gets its
        path. Every admitted message restarts the timer. */
    method CreateNewMessage(msg: Message, now: real, victims: set<string>) returns (c: Creation)
      requires Valid() && now >= 0.0
      requires KindOf(msg.id) == Original ==> Unplanned(msg)
      modifies this
      ensures Valid()
      ensures KindOf(msg.id) != Original ==>
        c == Created(msg) && rng == old(rng) && buffer == Put(Evict(old(buffer), victims), msg)
        && delayTimer == TimerAfterAdmission(|buffer|, nrofbundle, now, endTime)
      ensures KindOf(msg.id) == Original ==>
        match OriginationOf(msg, now, endTime, startrate, stoprate, range, nrofmixes, old(rng))
        case OutsideWindow =>
          c == Refused && buffer == old(buffer) && delayTimer == old(delayTimer) && rng == old(rng)
        case PathStalled =>
          c == DrawStalled && buffer == old(buffer) && delayTimer == old(delayTimer)
        case Originated(m, rest) =>
          c == Created(m) && rng == rest && buffer == Put(Evict(old(buffer), victims), m)
          && delayTimer == TimerAfterAdmission(|buffer|, nrofbundle, now, endTime)
    {
      if 'r' in msg.id || 'f' in msg.id {
        Admit(msg, now, victims);
        return Created(msg);
      }
      var o := Originate(msg, now, endTime, startrate, stoprate, range, nrofmixes, rng);
      match o
      case OutsideWindow =>
        c := Refused;
      case PathStalled =>
        c := DrawStalled;
      case Originated(m, rest) =>
        rng := rest;
        Admit(m, now, victims);
        c := Created(m);
    }

    /** `messageTransferred`: a real message addressed here with hops left
        moves its index on and its relay step is created; anything else,
        including a message delivered here, is kept in the buffer. A path
        without an entry for the next hop makes `mixlist.get` throw, with
        nothing buffered and the timer as it was. */
    method MessageTransferred(m: Message, now: real, victims: set<string>) returns (res: Transfer)
      requires Valid() && now >= 0.0
      modifies this
      ensures Valid() && rng == old(rng)
      ensures AdvancesHop(m, self, nrofmixes) && !HasNextHop(m) ==>
        res == NoNextHop && buffer == old(buffer) && delayTimer == old(delayTimer)
      ensures AdvancesHop(m, self, nrofmixes) && HasNextHop(m) ==>
        res == Returned(m.(mixindex := m.mixindex + 1))
        && buffer == Put(Evict(old(buffer), victims), Successor(m, self))
      ensures !AdvancesHop(m, self, nrofmixes) ==> res == Returned(m) && buffer == Put(old(buffer), m)
      ensures res.Returned? ==> delayTimer == TimerAfterAdmission(|buffer|, nrofbundle, now, endTime)
    {
      buffer := Receive(buffer, m, self);
      if AdvancesHop(m, self, nrofmixes) {
        if !HasNextHop(m) {
          return NoNextHop;
        }
        res := Returned(m.(mixindex := m.mixindex + 1));
        var c := CreateNewMessage(Successor(m, self), now, victims);
      } else {
        if m.to != self {
          PutTwice(old(buffer), m);
        }
        buffer := Put(buffer, m);
        UpdateTimer(now);
        res := Returned(m);
      }
    }

    /** `createFakeMessage`: a dummy to some other mix host, admitted like
        any message that is not an original. */
    method CreateFakeMessage(now: real, victims: set<string>) returns (c: Creation)
      requires Valid() && now >= 0.0
      modifies this
      ensures Valid()
      ensures match DummyOf(range, self, hostName, now, old(rng))
        case NoDummy =>
          c == DrawStalled && buffer == old(buffer) && delayTimer == old(delayTimer)
        case Dummy(f, rest) =>
          c == Created(f) && rng == rest && buffer == Put(Evict(old(buffer), victims), f)
          && delayTimer == TimerAfterAdmission(|buffer|, nrofbundle, now, endTime)
    {
      var d := DrawToAddress(range, self, rng);
      if d.Exhausted? {
        return DrawStalled;
      }
      rng := d.rest;
      var fake := FakeMessage(self, hostName, d.addr, now);
      c := CreateNewMessage(fake, now, victims);
    }

    /** `checkTimer`: a dummy exactly when the timer has run for `maxTime`. */
    method CheckTimer(now: real, victims: set<string>) returns (fake: Option<Creation>)
      requires Valid() && now >= 0.0
      modifies this
      ensures Valid()
      ensures fake.Some? <==> TimerExpired(now, old(delayTimer), maxTime)
      ensures fake.None? ==> buffer == old(buffer) && delayTimer == old(delayTimer) && rng == old(rng)
      ensures fake.Some? ==>
        match DummyOf(range, self, hostName, now, old(rng))
        case NoDummy =>
          fake.value == DrawStalled && buffer == old(buffer) && delayTimer == old(delayTimer)
        case Dummy(f, rest) =>
          fake.value == Created(f) && rng == rest && buffer == Put(Evict(old(buffer), victims), f)
          && delayTimer == TimerAfterAdmission(|buffer|, nrofbundle, now, endTime)
    {
      if now - delayTimer >= maxTime {
        var c := CreateFakeMessage(now, victims);
        fake := Some(c);
      } else {
        fake := None;
      }
    }

    /** `tryOtherMessages`: every buffered message to every idle peer that
        lacks it, tried in that order. */
    method TryOtherMessages(links: seq<Link>, starts: Offer -> bool) returns (sent: Option<Offer>)
      ensures sent == FirstStarted(FloodOffers(links, buffer), starts)
      ensures sent.Some? ==>
        sent.value.msg in buffer && sent.value.link in links && !sent.value.link.peerTransferring
        && sent.value.msg.id !in sent.value.link.peerHolds && starts(sent.value)
    {
      var offers := CollectOffers(links, buffer);
      FloodOffersMembers(links, buffer);
      if offers == [] {
        return None;
      }
      sent := FirstStarted(offers, starts);
    }

    /** `update`: the timer first, then, when a transfer can start, nothing
        is being transferred and a bundle is buffered, the flood. */
    method Update(now: real, links: seq<Link>, transferring: bool, starts: Offer -> bool, victims: set<string>)
      returns (fake: Option<Creation>, sent: Option<Offer>)
      requires Valid() && now >= 0.0
      modifies this
      ensures Valid()
      ensures fake.Some? <==> TimerExpired(now, old(delayTimer), maxTime)
      ensures fake.None? ==> buffer == old(buffer) && delayTimer == old(delayTimer) && rng == old(rng)
      ensures fake.Some? ==>
        match DummyOf(range, self, hostName, now, old(rng))
        case NoDummy =>
          fake.value == DrawStalled && buffer == old(buffer) && delayTimer == old(delayTimer)
        case Dummy(f, rest) =>
          fake.value == Created(f) && rng == rest && buffer == Put(Evict(old(buffer), victims), f)
          && delayTimer == TimerAfterAdmission(|buffer|, nrofbundle, now, endTime)
      ensures sent ==
        if |buffer| == 0 || |links| == 0 || transferring || |buffer| < nrofbundle then None
        else FirstStarted(FloodOffers(links, buffer), starts)
    {
      fake := CheckTimer(now, victims);
      if |buffer| == 0 || |links| == 0 || transferring {
        return fake, None;
      }
      sent := None;
      if |buffer| >= nrofbundle {
        sent := TryOtherMessages(links, starts);
      }
    }
  }
}
