/** `MixnetRouter`: the mix router that forwards a message only to the host
    it is addressed to, and only once `nrofbundle` buffered messages share
    that next hop. */
module MixnetRouting {
  import opened Common
  import opened Messages
  import opened Addressing
  import opened Offers
  import opened Origination

  /** What `transferDone` does with the message just sent. `NoSuchMessage` is
      the `SimError` that `deleteMessage` raises for an id not buffered. */
  datatype Completion = Kept | RemovedSilently | DeletedReported | NoSuchMessage

  /** The buffered messages whose next hop has a bundle: `nodeCount[to] >= nrofbundle`. */
  function Bundled(buffer: seq<Message>, nodeCount: map<Addr, nat>, nrofbundle: int): (s: set<Message>)
    ensures forall m :: m in s ==> m in buffer
  {
    set m | m in buffer && CountOf(nodeCount, m.to) >= nrofbundle
  }

  /** The threshold is inclusive: a count equal to `nrofbundle` releases the
      message, one below it does not. */
  lemma BundleThresholdInclusive(buffer: seq<Message>, nodeCount: map<Addr, nat>, nrofbundle: int, m: Message)
    requires m in buffer
    ensures CountOf(nodeCount, m.to) == nrofbundle ==> m in Bundled(buffer, nodeCount, nrofbundle)
    ensures CountOf(nodeCount, m.to) == nrofbundle - 1 ==> m !in Bundled(buffer, nodeCount, nrofbundle)
  {
  }

  class MixnetRouter {
    const self: Addr
    const nrofmixes: nat
    const broadcast: int
    const nrofbundle: int
    const startrate: real
    const stoprate: real
    const range: HostRange
    /** `SimScenario.getEndTime()`. */
    const endTime: real

    /** The values `rng` has yet to hand out. */
    var rng: seq<nat>
    /** `getMessageCollection()`. */
    var buffer: seq<Message>
    var nodeCount: map<Addr, nat>
    var pending: set<Message>

    ghost predicate Valid()
      reads this
    {
      endTime > 0.0 && range.lo <= range.hi && UniqueIds(buffer)
    }

    constructor (self: Addr, nrofmixes: nat, broadcast: int, nrofbundle: int, startrate: real, stoprate: real,
                 range: HostRange, endTime: real, rng: seq<nat>)
      requires endTime > 0.0 && range.lo <= range.hi
      ensures Valid()
      ensures this.self == self && this.nrofmixes == nrofmixes && this.broadcast == broadcast
      ensures this.nrofbundle == nrofbundle && this.startrate == startrate && this.stoprate == stoprate
      ensures this.range == range && this.endTime == endTime && this.rng == rng
      ensures buffer == [] && nodeCount == map[] && pending == {}
    {
      this.self := self;
      this.nrofmixes := nrofmixes;
      this.broadcast := broadcast;
      this.nrofbundle := nrofbundle;
      this.startrate := startrate;
      this.stoprate := stoprate;
      this.range := range;
      this.endTime := endTime;
      this.rng := rng;
      buffer := [];
      nodeCount := map[];
      pending := {};
    }

    /** `addToHostCount`: one more buffered message for the next hop `msg.to`. */
    method AddToHostCount(msg: Message)
      modifies this
      ensures nodeCount == AddCount(old(nodeCount), msg.to)
      ensures nodeCount[msg.to] == CountOf(old(nodeCount), msg.to) + 1
      ensures forall a :: a in old(nodeCount) && a != msg.to ==> nodeCount[a] == old(nodeCount)[a]
      ensures rng == old(rng) && buffer == old(buffer) && pending == old(pending)
    {
      nodeCount := AddCount(nodeCount, msg.to);
    }

    /** `makeRoomForNewMessage`, `addToMessages`, `addToHostCount`. The room
        made is not checked, so the message is always added. */
    method Admit(msg: Message, victims: set<string>)
      requires Valid()
      modifies this
      ensures Valid()
      ensures buffer == Put(Evict(old(buffer), victims), msg)
      ensures nodeCount == AddCount(old(nodeCount), msg.to)
      ensures rng == old(rng) && pending == old(pending)
    {
      buffer := Put(Evict(buffer, victims), msg);
      AddToHostCount(msg);
    }

    /** `createNewMessage`. A relay step (an id with an `r`) was planned
        upstream and is admitted as it is; any other message is refused
        outside the origination window, otherwise given its path and its
        first target and admitted. */
    method CreateNewMessage(msg: Message, now: real, victims: set<string>) returns (c: Creation)
      requires Valid()
      requires KindOf(msg.id) != Relay ==> Unplanned(msg)
      modifies this
      ensures Valid() && pending == old(pending)
      ensures KindOf(msg.id) == Relay ==>
        c == Created(msg) && rng == old(rng)
        && buffer == Put(Evict(old(buffer), victims), msg) && nodeCount == AddCount(old(nodeCount), msg.to)
      ensures KindOf(msg.id) != Relay ==>
        match OriginationOf(msg, now, endTime, startrate, stoprate, range, nrofmixes, old(rng))
        case OutsideWindow =>
          c == Refused && buffer == old(buffer) && nodeCount == old(nodeCount) && rng == old(rng)
        case PathStalled =>
          c == DrawStalled && buffer == old(buffer) && nodeCount == old(nodeCount)
        case Originated(m, rest) =>
          c == Created(m) && rng == rest
          && buffer == Put(Evict(old(buffer), victims), m) && nodeCount == AddCount(old(nodeCount), m.to)
    {
      if 'r' in msg.id {
        Admit(msg, victims);
        return Created(msg);
      }
      var o := Originate(msg, now, endTime, startrate, stoprate, range, nrofmixes, rng);
      match o
      case OutsideWindow =>
        c := Refused;
      case PathStalled =>
        c := DrawStalled;
      case Originated(m, rest) =>
        rng := rest;
        Admit(m, victims);
        c := Created(m);
    }

    /** `messageTransferred`: the framework buffers the message unless this
        host is its target. If it is, and the path has hops left, the index
        moves on and the relay step for the next hop is created here; a path
        without an entry for that hop makes `mixlist.get` throw, with nothing
        buffered or counted. */
    method MessageTransferred(m: Message, now: real, victims: set<string>) returns (res: Transfer)
      requires Valid()
      modifies this
      ensures Valid() && pending == old(pending) && rng == old(rng)
      ensures m.to == self && m.mixindex < nrofmixes && !HasNextHop(m) ==>
        res == NoNextHop && buffer == old(buffer) && nodeCount == old(nodeCount)
      ensures m.to == self && m.mixindex < nrofmixes && HasNextHop(m) ==>
        && res == Returned(m.(mixindex := m.mixindex + 1))
        && buffer == Put(Evict(old(buffer), victims), Successor(m, self))
        && nodeCount == AddCount(old(nodeCount), Successor(m, self).to)
      ensures !(m.to == self && m.mixindex < nrofmixes) ==>
        res == Returned(m) && buffer == Receive(old(buffer), m, self) && nodeCount == old(nodeCount)
    {
      buffer := Receive(buffer, m, self);
      if m.to == self && m.mixindex < nrofmixes {
        if !HasNextHop(m) {
          return NoNextHop;
        }
        res := Returned(m.(mixindex := m.mixindex + 1));
        var next := Successor(m, self);
        var c := CreateNewMessage(next, now, victims);
      } else {
        res := Returned(m);
      }
    }

    /** `transferDone`: with `broadcast == 0` the sender keeps no copy; the
        removal is reported to the listeners only for a message past its
        last relay (`mixindex >= nrofmixes`). */
    method TransferDone(m: Message) returns (done: Completion)
      requires Valid()
      modifies this
      ensures Valid() && nodeCount == old(nodeCount) && pending == old(pending) && rng == old(rng)
      ensures broadcast != 0 ==> done == Kept && buffer == old(buffer)
      ensures broadcast == 0 && m.mixindex < nrofmixes ==>
        done == RemovedSilently && buffer == RemoveId(old(buffer), m.id)
      ensures broadcast == 0 && m.mixindex >= nrofmixes ==>
        if Find(old(buffer), m.id).None? then done == NoSuchMessage && buffer == old(buffer)
        else done == DeletedReported && buffer == RemoveId(old(buffer), m.id)
      ensures forall x :: x in buffer <==> x in old(buffer) && (done.Kept? || done.NoSuchMessage? || x.id != m.id)
    {
      if broadcast != 0 {
        return Kept;
      }
      if m.mixindex < nrofmixes {
        buffer := RemoveId(buffer, m.id);
        return RemovedSilently;
      }
      if Find(buffer, m.id).None? {
        return NoSuchMessage;
      }
      buffer := RemoveId(buffer, m.id);
      done := DeletedReported;
    }

    /** `updatePendingMessages`: every buffered message whose next hop has a
        bundle joins the pending set, which only grows. */
    method UpdatePendingMessages()
      modifies this
      ensures pending == old(pending) + Bundled(buffer, nodeCount, nrofbundle)
      ensures old(pending) <= pending
      ensures buffer == old(buffer) && nodeCount == old(nodeCount) && rng == old(rng)
    {
      for i := 0 to |buffer|
        invariant buffer == old(buffer) && nodeCount == old(nodeCount) && rng == old(rng)
        invariant pending == old(pending) + Bundled(buffer[..i], nodeCount, nrofbundle)
      {
        assert forall x :: x in buffer[..i + 1] <==> x in buffer[..i] || x == buffer[i];
        if CountOf(nodeCount, buffer[i].to) >= nrofbundle {
          pending := pending + {buffer[i]};
        }
      }
      assert buffer[..|buffer|] == buffer;
    }

    /** `removeFromPendingMessages`: nothing on a null send; otherwise the
        sent message leaves the pending set and its next hop's count drops
        by one, stopping at zero. */
    method RemoveFromPendingMessages(sent: Option<Offer>)
      modifies this
      ensures sent.None? ==> pending == old(pending) && nodeCount == old(nodeCount)
      ensures sent.Some? ==>
        pending == old(pending) - {sent.value.msg}
        && nodeCount == SaturatingDecrement(old(nodeCount), sent.value.msg.to)
      ensures buffer == old(buffer) && rng == old(rng)
    {
      if sent.Some? {
        var m := sent.value.msg;
        pending := pending - {m};
        nodeCount := SaturatingDecrement(nodeCount, m.to);
      }
    }

    /** `tryOtherMessages`: offer each pending message to the idle peer it is
        addressed to, if that peer lacks it; a started transfer is taken off
        the pending set. */
    method TryOtherMessages(links: seq<Link>, starts: Offer -> bool) returns (sent: Option<Offer>)
      modifies this
      ensures sent.None? <==> forall o :: AddressedOffer(links, old(pending), o) ==> !starts(o)
      ensures sent.Some? ==> AddressedOffer(links, old(pending), sent.value) && starts(sent.value)
      ensures sent.None? ==> pending == old(pending) && nodeCount == old(nodeCount)
      ensures sent.Some? ==>
        pending == old(pending) - {sent.value.msg}
        && nodeCount == SaturatingDecrement(old(nodeCount), sent.value.msg.to)
      ensures buffer == old(buffer) && rng == old(rng)
    {
      var offers := CollectAddressedOffers(links, pending);
      if offers == [] {
        return None;
      }
      sent := FirstStarted(offers, starts);
      if sent.None? {
        forall o | AddressedOffer(links, pending, o) ensures !starts(o) {
          var i :| 0 <= i < |offers| && offers[i] == o;
        }
      }
      RemoveFromPendingMessages(sent);
    }

    /** `update`: nothing while the framework cannot start a transfer (empty
        buffer or no connection) or is transferring; otherwise refresh the
        pending set and try it. */
    method Update(links: seq<Link>, transferring: bool, starts: Offer -> bool) returns (sent: Option<Offer>)
      modifies this
      ensures buffer == old(buffer) && rng == old(rng)
      ensures (|old(buffer)| == 0 || |links| == 0 || transferring) ==>
        sent.None? && pending == old(pending) && nodeCount == old(nodeCount)
      ensures !(|old(buffer)| == 0 || |links| == 0 || transferring) ==>
        var ready := old(pending) + Bundled(old(buffer), old(nodeCount), nrofbundle);
        && (sent.None? <==> forall o :: AddressedOffer(links, ready, o) ==> !starts(o))
        && (sent.None? ==> pending == ready && nodeCount == old(nodeCount))
        && (sent.Some? ==> AddressedOffer(links, ready, sent.value) && starts(sent.value)
                           && pending == ready - {sent.value.msg}
                           && nodeCount == SaturatingDecrement(old(nodeCount), sent.value.msg.to))
    {
      if |buffer| == 0 || |links| == 0 || transferring {
        return None;
      }
      UpdatePendingMessages();
      sent := TryOtherMessages(links, starts);
    }
  }
}
