/** `MixnetSnWRouter`: the Epidemic mix router with Spray-and-Wait copy
    accounting; only messages with copies left to hand out are offered. */
module SprayAndWaitMixRouting {
  import opened Common
  import opened Messages
  import opened Addressing
  import opened Offers
  import opened Origination
  import opened DummyTraffic
  import opened EpidemicMixRouting

  /** The copies the receiving host is given: `ceil(n/2)` in binary mode,
      a single copy otherwise. */
  function ReceiverCopies(binary: bool, n: int): (c: int)
    ensures binary ==> n <= 2 * c <= n + 1
    ensures !binary ==> c == 1
  {
    if binary then CeilHalf(n) else 1
  }

  /** The copies the sending host keeps: Java's `n / 2` in binary mode,
      `n - 1` otherwise. */
  function SenderCopies(binary: bool, n: int): (c: int)
    ensures binary && n >= 0 ==> n - 1 <= 2 * c <= n
    ensures binary && n < 0 ==> n <= 2 * c <= n + 1
    ensures !binary ==> c == n - 1
  {
    if binary then TruncHalf(n) else n - 1
  }

  /** No copy is created or lost by a transfer: what the receiver is given
      and what the sender keeps add up to what the sender had. Binary mode
      needs a non-negative count, which it keeps by itself
      (`BinaryCopiesStayNonNegative`). */
  lemma CopiesConserved(binary: bool, n: int)
    requires binary ==> n >= 0
    ensures ReceiverCopies(binary, n) + SenderCopies(binary, n) == n
  {
    if binary {
      var q := n / 2;
      assert n == 2 * q || n == 2 * q + 1;
      if n == 2 * q {
        assert (n + 1) / 2 == q;
      } else {
        assert (n + 1) / 2 == q + 1;
      }
    }
  }

  /** Binary mode keeps counts non-negative and, from two copies on, splits
      them into two strictly smaller shares. */
  lemma BinaryCopiesStayNonNegative(n: int)
    requires n >= 0
    ensures ReceiverCopies(true, n) >= 0 && SenderCopies(true, n) >= 0
    ensures n >= 2 ==> 0 < ReceiverCopies(true, n) < n && 0 < SenderCopies(true, n) < n
  {
  }

  /** In binary mode an odd negative count would lose a copy, which is why
      conservation asks for a non-negative one. */
  lemma BinaryConservationNeedsNonNegative()
    ensures ReceiverCopies(true, -3) + SenderCopies(true, -3) == -2
  {
  }

  /** The reference list of `getMessagesWithCopiesLeft`: the buffered messages
      with more than one copy, in buffer order. */
  function WithCopiesLeft(buf: seq<Message>): (list: seq<Message>)
    ensures |list| <= |buf|
  {
    if buf == [] then []
    else
      var last := buf[|buf| - 1];
      WithCopiesLeft(buf[..|buf| - 1]) + (if last.copies > 1 then [last] else [])
  }

  lemma {:induction false} WithCopiesLeftMembers(buf: seq<Message>)
    ensures forall m :: m in WithCopiesLeft(buf) <==> m in buf && m.copies > 1
    ensures |WithCopiesLeft(buf)| <= |buf|
  {
    if buf != [] {
      WithCopiesLeftMembers(buf[..|buf| - 1]);
      assert buf == buf[..|buf| - 1] + [buf[|buf| - 1]];
    }
  }

  /** Filtering commutes with concatenation: the relative order of the
      buffer is kept. */
  lemma {:induction false} WithCopiesLeftAppend(a: seq<Message>, b: seq<Message>)
    ensures WithCopiesLeft(a + b) == WithCopiesLeft(a) + WithCopiesLeft(b)
    decreases |b|
  {
    if b == [] {
      assert a + b == a;
    } else {
      assert (a + b)[..|a + b| - 1] == a + b[..|b| - 1];
      WithCopiesLeftAppend(a, b[..|b| - 1]);
    }
  }

  /** What `update` ends with after the timer: no attempt, a deliverable
      message started by `exchangeDeliverableMessages`, or the result of
      `tryOtherMessages`. */
  datatype Attempt = NoAttempt | DeliveredDirectly | Offered(sent: Option<Offer>)

  class MixnetSnWRouter {
    const self: Addr
    /** `getHost().toString()`, which names the dummies. */
    const hostName: string
    const nrofmixes: nat
    const nrofbundle: int
    const maxTime: real
    const startrate: real
    const stoprate: real
    const range: HostRange
    /** `SimScenario.getEndTime()`. */
    const endTime: real
    const initialNrofCopies: int
    const isBinary: bool

    /** The values `rng` has yet to hand out. */
    var rng: seq<nat>
    /** `getMessageCollection()`; a message's `copies` is its
        `SprayAndWaitRouter.copies` property. */
    var buffer: seq<Message>
    var delayTimer: real
    var copiesLeft: seq<Message>

    ghost predicate Valid()
      reads this
    {
      endTime > 0.0 && range.lo <= range.hi && UniqueIds(buffer)
    }

    /** The timer starts at 0, the default of the Java field. */
    constructor (self: Addr, hostName: string, nrofmixes: nat, nrofbundle: int, maxTime: real,
                 startrate: real, stoprate: real, range: HostRange, endTime: real,
                 initialNrofCopies: int, isBinary: bool, rng: seq<nat>)
      requires endTime > 0.0 && range.lo <= range.hi
      ensures Valid()
      ensures this.self == self && this.hostName == hostName && this.nrofmixes == nrofmixes
      ensures this.nrofbundle == nrofbundle && this.maxTime == maxTime
      ensures this.startrate == startrate && this.stoprate == stoprate
      ensures this.range == range && this.endTime == endTime && this.rng == rng
      ensures this.initialNrofCopies == initialNrofCopies && this.isBinary == isBinary
      ensures buffer == [] && delayTimer == 0.0 && copiesLeft == []
    {
      this.self := self;
      this.hostName := hostName;
      this.nrofmixes := nrofmixes;
      this.nrofbundle := nrofbundle;
      this.maxTime := maxTime;
      this.startrate := startrate;
      this.stoprate := stoprate;
      this.range := range;
      this.endTime := endTime;
      this.initialNrofCopies := initialNrofCopies;
      this.isBinary := isBinary;
      this.rng := rng;
      buffer := [];
      delayTimer := 0.0;
      copiesLeft := [];
    }

    /** `updateTimer`. */
    method UpdateTimer(now: real)
      requires now >= 0.0
      modifies this
      ensures delayTimer == TimerAfterAdmission(|buffer|, nrofbundle, now, endTime)
      ensures buffer == old(buffer) && rng == old(rng) && copiesLeft == old(copiesLeft)
    {
      if |buffer| < nrofbundle {
        delayTimer := IntTime(now) as real;
      } else {
        delayTimer := endTime;
      }
    }

    /** `makeRoomFor(New)Message`, the initial copy count, `addToMessages`,
        `updateTimer`. */
    method Admit(msg: Message, now: real, victims: set<string>)
      requires Valid() && now >= 0.0
      modifies this
      ensures Valid() && rng == old(rng) && copiesLeft == old(copiesLeft)
      ensures buffer == Put(Evict(old(buffer), victims), msg.(copies := initialNrofCopies))
      ensures delayTimer == TimerAfterAdmission(|buffer|, nrofbundle, now, endTime)
    {
      buffer := Put(Evict(buffer, victims), msg.(copies := initialNrofCopies));
      UpdateTimer(now);
    }

    /** `createNewMessage`, as in the Epidemic router; every admitted message,
        original, dummy or relay step, starts with `initialNrofCopies`. */
    method CreateNewMessage(msg: Message, now: real, victims: set<string>) returns (c: Creation)
      requires Valid() && now >= 0.0
      requires KindOf(msg.id) == Original ==> Unplanned(msg)
      modifies this
      ensures Valid() && copiesLeft == old(copiesLeft)
      ensures c.Created? ==> c.msg.copies == initialNrofCopies && buffer == Put(Evict(old(buffer), victims), c.msg)
      ensures KindOf(msg.id) != Original ==>
        c == Created(msg.(copies := initialNrofCopies)) && rng == old(rng)
        && delayTimer == TimerAfterAdmission(|buffer|, nrofbundle, now, endTime)
      ensures KindOf(msg.id) == Original ==>
        match OriginationOf(msg, now, endTime, startrate, stoprate, range, nrofmixes, old(rng))
        case OutsideWindow =>
          c == Refused && buffer == old(buffer) && delayTimer == old(delayTimer) && rng == old(rng)
        case PathStalled =>
          c == DrawStalled && buffer == old(buffer) && delayTimer == old(delayTimer)
        case Originated(m, rest) =>
          c == Created(m.(copies := initialNrofCopies)) && rng == rest
          && delayTimer == TimerAfterAdmission(|buffer|, nrofbundle, now, endTime)
    {
      if 'r' in msg.id || 'f' in msg.id {
        Admit(msg, now, victims);
        return Created(msg.(copies := initialNrofCopies));
      }
      var o := Originate(msg, now, endTime, startrate, stoprate, range, nrofmixes, rng);
      match o
      case OutsideWindow =>
        c := Refused;
      case PathStalled =>
        c := DrawStalled;
      case Originated(m, rest) =>
        rng := rest;
        Admit(m, now, victims);
        c := Created(m.(copies := initialNrofCopies));
    }

    /** `messageTransferred`: the received message gets the receiver's share
        of the copies; then the relay hop or the re-buffering of the Epidemic
        router follows, and so does the throw of `mixlist.get` for a path
        without an entry for the next hop. */
    method MessageTransferred(m: Message, now: real, victims: set<string>) returns (res: Transfer)
      requires Valid() && now >= 0.0
      modifies this
      ensures Valid() && rng == old(rng) && copiesLeft == old(copiesLeft)
      ensures res.Returned? ==> res.msg.copies == ReceiverCopies(isBinary, m.copies)
      ensures AdvancesHop(m, self, nrofmixes) && !HasNextHop(m) ==>
        res == NoNextHop && buffer == old(buffer) && delayTimer == old(delayTimer)
      ensures AdvancesHop(m, self, nrofmixes) && HasNextHop(m) ==>
        res == Returned(m.(copies := ReceiverCopies(isBinary, m.copies), mixindex := m.mixindex + 1))
        && buffer == Put(Evict(old(buffer), victims), Successor(m, self).(copies := initialNrofCopies))
      ensures !AdvancesHop(m, self, nrofmixes) ==>
        res == Returned(m.(copies := ReceiverCopies(isBinary, m.copies)))
        && buffer == Put(old(buffer), m.(copies := ReceiverCopies(isBinary, m.copies)))
      ensures res.Returned? ==> delayTimer == TimerAfterAdmission(|buffer|, nrofbundle, now, endTime)
    {
      var received := m.(copies := ReceiverCopies(isBinary, m.copies));
      buffer := Receive(buffer, received, self);
      if AdvancesHop(m, self, nrofmixes) {
        if !HasNextHop(m) {
          return NoNextHop;
        }
        res := Returned(received.(mixindex := received.mixindex + 1));
        var c := CreateNewMessage(Successor(m, self), now, victims);
      } else {
        if received.to != self {
          PutTwice(old(buffer), received);
        }
        buffer := Put(buffer, received);
        UpdateTimer(now);
        res := Returned(received);
      }
    }

    /** `transferDone`: the sender keeps its share of the copies of its own
        buffered message; a message dropped since the transfer started is
        left alone. */
    method TransferDone(m: Message)
      requires Valid()
      modifies this
      ensures Valid() && rng == old(rng) && delayTimer == old(delayTimer) && copiesLeft == old(copiesLeft)
      ensures Find(old(buffer), m.id).None? ==> buffer == old(buffer)
      ensures Find(old(buffer), m.id).Some? ==>
        buffer == SetCopies(old(buffer), m.id, SenderCopies(isBinary, Find(old(buffer), m.id).value.copies))
    {
      var own := Find(buffer, m.id);
      if own.None? {
        return;
      }
      buffer := SetCopies(buffer, m.id, SenderCopies(isBinary, own.value.copies));
      assert forall i :: 0 <= i < |buffer| ==> buffer[i].id == old(buffer)[i].id;
    }

    /** `getMessagesWithCopiesLeft`. */
    method GetMessagesWithCopiesLeft() returns (list: seq<Message>)
      ensures list == WithCopiesLeft(buffer)
      ensures forall x :: x in list <==> x in buffer && x.copies > 1
    {
      list := [];
      for i := 0 to |buffer|
        invariant list == WithCopiesLeft(buffer[..i])
      {
        assert buffer[..i + 1][..i] == buffer[..i];
        if buffer[i].copies > 1 {
          list := list + [buffer[i]];
        }
      }
      assert buffer[..|buffer|] == buffer;
      WithCopiesLeftMembers(buffer);
    }

    /** `createFakeMessage`. */
    method CreateFakeMessage(now: real, victims: set<string>) returns (c: Creation)
      requires Valid() && now >= 0.0
      modifies this
      ensures Valid() && copiesLeft == old(copiesLeft)
      ensures match DummyOf(range, self, hostName, now, old(rng))
        case NoDummy =>
          c == DrawStalled && buffer == old(buffer) && delayTimer == old(delayTimer)
        case Dummy(f, rest) =>
          c == Created(f.(copies := initialNrofCopies)) && rng == rest
          && buffer == Put(Evict(old(buffer), victims), c.msg)
          && delayTimer == TimerAfterAdmission(|buffer|, nrofbundle, now, endTime)
    {
      var d := DrawToAddress(range, self, rng);
      if d.Exhausted? {
        return DrawStalled;
      }
      rng := d.rest;
      var fake := FakeMessage(self, hostName, d.addr, now);
      c := CreateNewMessage(fake, now, victims);
    }

    /** `checkTimer`. */
    method CheckTimer(now: real, victims: set<string>) returns (fake: Option<Creation>)
      requires Valid() && now >= 0.0
      modifies this
      ensures Valid() && copiesLeft == old(copiesLeft)
      ensures fake.Some? <==> TimerExpired(now, old(delayTimer), maxTime)
      ensures fake.None? ==> buffer == old(buffer) && delayTimer == old(delayTimer) && rng == old(rng)
      ensures fake.Some? ==>
        match DummyOf(range, self, hostName, now, old(rng))
        case NoDummy =>
          fake.value == DrawStalled && buffer == old(buffer) && delayTimer == old(delayTimer)
        case Dummy(f, rest) =>
          fake.value == Created(f.(copies := initialNrofCopies)) && rng == rest
          && buffer == Put(Evict(old(buffer), victims), fake.value.msg)
          && delayTimer == TimerAfterAdmission(|buffer|, nrofbundle, now, endTime)
    {
      if now - delayTimer >= maxTime {
        var c := CreateFakeMessage(now, victims);
        fake := Some(c);
      } else {
        fake := None;
      }
    }

    /** `tryOtherMessages`: the messages with copies left, to every idle peer
        that lacks them. */
    method TryOtherMessages(links: seq<Link>, starts: Offer -> bool) returns (sent: Option<Offer>)
      ensures sent == FirstStarted(FloodOffers(links, copiesLeft), starts)
      ensures sent.Some? ==>
        sent.value.msg in copiesLeft && sent.value.link in links && !sent.value.link.peerTransferring
        && sent.value.msg.id !in sent.value.link.peerHolds && starts(sent.value)
    {
      var offers := CollectOffers(links, copiesLeft);
      FloodOffersMembers(links, copiesLeft);
      if offers == [] {
        return None;
      }
      sent := FirstStarted(offers, starts);
    }

    /** `update`: the timer; then, when a transfer can start and none is
        running, `copiesLeft` is rebuilt, and with a bundle buffered the
        deliverable messages go first and the others only if none went. */
    method Update(now: real, links: seq<Link>, transferring: bool, deliverable: bool,
                  starts: Offer -> bool, victims: set<string>)
      returns (fake: Option<Creation>, attempt: Attempt)
      requires Valid() && now >= 0.0
      modifies this
      ensures Valid()
      ensures fake.Some? <==> TimerExpired(now, old(delayTimer), maxTime)
      ensures fake.None? ==> buffer == old(buffer) && delayTimer == old(delayTimer) && rng == old(rng)
      ensures fake.Some? ==>
        match DummyOf(range, self, hostName, now, old(rng))
        case NoDummy =>
          fake.value == DrawStalled && buffer == old(buffer) && delayTimer == old(delayTimer)
        case Dummy(f, rest) =>
          fake.value == Created(f.(copies := initialNrofCopies)) && rng == rest
          && buffer == Put(Evict(old(buffer), victims), fake.value.msg)
          && delayTimer == TimerAfterAdmission(|buffer|, nrofbundle, now, endTime)
      ensures |buffer| == 0 || |links| == 0 || transferring ==>
        attempt == NoAttempt && copiesLeft == old(copiesLeft)
      ensures !(|buffer| == 0 || |links| == 0 || transferring) ==>
        copiesLeft == WithCopiesLeft(buffer)
        && attempt == if |buffer| < nrofbundle then NoAttempt
                      else if deliverable then DeliveredDirectly
                      else Offered(FirstStarted(FloodOffers(links, copiesLeft), starts))
    {
      fake := CheckTimer(now, victims);
      if |buffer| == 0 || |links| == 0 || transferring {
        return fake, NoAttempt;
      }
      copiesLeft := GetMessagesWithCopiesLeft();
      attempt := NoAttempt;
      if |buffer| >= nrofbundle {
        if deliverable {
          return fake, DeliveredDirectly;
        }
        var sent := TryOtherMessages(links, starts);
        attempt := Offered(sent);
      }
    }
  }
}
