/** The branch of `createNewMessage` that all three routers share for a
    message this host originates: the origination window, then the path. */
module Origination {
  import opened Common
  import opened Messages
  import opened Addressing

  /** `prop = simTime / endTime`; the message is refused when
      `prop > stoprate || prop < startrate`. */
  predicate InWindow(now: real, endTime: real, startrate: real, stoprate: real)
    requires endTime > 0.0
    ensures stoprate < startrate ==> !InWindow(now, endTime, startrate, stoprate)
  {
    !(now / endTime > stoprate || now / endTime < startrate)
  }

  /** Both bounds of the window are inclusive. */
  lemma WindowIsInclusive(now: real, endTime: real, startrate: real, stoprate: real)
    requires endTime > 0.0
    ensures InWindow(now, endTime, startrate, stoprate) <==> startrate <= now / endTime <= stoprate
  {
  }

  /** With `startrate == stoprate` exactly one instant of the run is
      accepted: the one at that fraction of `endTime`. */
  lemma DegenerateWindowAdmitsItsPoint(now: real, endTime: real, rate: real)
    requires endTime > 0.0
    ensures InWindow(now, endTime, rate, rate) <==> now == rate * endTime
  {
    if now == rate * endTime {
      assert now / endTime == rate;
    }
    if now / endTime == rate {
      assert now == (now / endTime) * endTime;
    }
  }

  /** What `createNewMessage` does with a message: admits it (`true`),
      refuses it (`false`), or, in the model only, stalls on a relay or
      dummy-target draw the source would never finish. */
  datatype Creation = Created(msg: Message) | Refused | DrawStalled

  datatype Origination =
    | Originated(msg: Message, rest: seq<nat>)
    | OutsideWindow
    | PathStalled

  /** The reference outcome: refusal outside the window; otherwise the message
      with its path, its target `mixlist[mixindex]` (the first relay, or the
      destination when `nrofmixes == 0`) and its creation time. */
  function OriginationOf(msg: Message, now: real, endTime: real, startrate: real, stoprate: real,
                         range: HostRange, nrofmixes: nat, rng: seq<nat>): (o: Origination)
    requires endTime > 0.0 && range.lo <= range.hi
    ensures o.OutsideWindow? <==> !InWindow(now, endTime, startrate, stoprate)
    ensures o.Originated? ==>
      && WellFormedPath(range, msg.from, msg.to, nrofmixes, o.msg.mixlist)
      && o.msg.to == o.msg.mixlist[0] && o.msg.mixcreationtime == now
      && o.msg == msg.(mixlist := o.msg.mixlist, to := o.msg.to, mixcreationtime := now)
  {
    PathOfShape(range, msg.from, msg.to, nrofmixes, rng);
    if !InWindow(now, endTime, startrate, stoprate) then OutsideWindow
    else
      match PathOf(range, msg.from, msg.to, nrofmixes, rng)
      case Stalled => PathStalled
      case Planned(path, rest) =>
        Originated(msg.(mixlist := path, to := path[0], mixcreationtime := now), rest)
  }

  /** The origination branch of `createNewMessage`: the window test on the
      fraction of the run elapsed, the path, then the first target. */
  method Originate(msg: Message, now: real, endTime: real, startrate: real, stoprate: real,
                   range: HostRange, nrofmixes: nat, rng: seq<nat>) returns (o: Origination)
    requires endTime > 0.0 && range.lo <= range.hi
    requires Unplanned(msg)
    ensures o == OriginationOf(msg, now, endTime, startrate, stoprate, range, nrofmixes, rng)
    ensures o.OutsideWindow? <==> !(startrate <= now / endTime <= stoprate)
    ensures o.Originated? ==>
      && WellFormedPath(range, msg.from, msg.to, nrofmixes, o.msg.mixlist)
      && o.msg.mixindex == 0 && o.msg.to == o.msg.mixlist[0]
      && o.msg.mixcreationtime == now
      && o.msg.id == msg.id && o.msg.from == msg.from && o.msg.size == msg.size
      && o.msg.responseSize == msg.responseSize && o.msg.copies == msg.copies
  {
    var prop := now / endTime;
    if prop > stoprate || prop < startrate {
      return OutsideWindow;
    }
    var p := BuildPath(range, msg.from, msg.to, nrofmixes, rng);
    if p.Stalled? {
      return PathStalled;
    }
    var planned := msg.(mixlist := msg.mixlist + p.path);
    assert planned.mixlist == p.path;
    o := Originated(planned.(to := planned.mixlist[planned.mixindex], mixcreationtime := now), p.rest);
  }

  /** An originated message reaches its real destination after exactly
      `nrofmixes` relay steps, with index `nrofmixes` and its creation time
      unchanged; with `nrofmixes == 0` it is addressed to the destination at once. */
  lemma OriginatedLineageEndsAtDestination(msg: Message, now: real, endTime: real, startrate: real,
                                           stoprate: real, range: HostRange, nrofmixes: nat, rng: seq<nat>)
    requires endTime > 0.0 && range.lo <= range.hi
    requires Unplanned(msg)
    requires OriginationOf(msg, now, endTime, startrate, stoprate, range, nrofmixes, rng).Originated?
    ensures var m := OriginationOf(msg, now, endTime, startrate, stoprate, range, nrofmixes, rng).msg;
      && |m.mixlist| == nrofmixes + 1
      && AfterHops(m, nrofmixes).to == msg.to
      && AfterHops(m, nrofmixes).mixindex == nrofmixes
      && AfterHops(m, nrofmixes).mixcreationtime == now
      && (forall k :: 0 <= k <= nrofmixes ==> AfterHops(m, k).to == m.mixlist[k])
  {
    var m := OriginationOf(msg, now, endTime, startrate, stoprate, range, nrofmixes, rng).msg;
    PathOfShape(range, msg.from, msg.to, nrofmixes, rng);
    forall k | 0 <= k <= nrofmixes ensures AfterHops(m, k).to == m.mixlist[k] {
      LineageAdvances(m, k);
    }
    LineageAdvances(m, nrofmixes);
  }
}
