/** The quiescence timer of the Epidemic and Spray-and-Wait mix routers,
    which emits a dummy ("fake") message when the buffer has stayed below
    the bundle threshold for `maxTime`. */
module DummyTraffic {
  import opened Common
  import opened Messages
  import opened Addressing

  /** `SimClock.getIntTime()`: the clock cast to `int`, which for the
      non-negative simulation clock is its floor. */
  function IntTime(now: real): (t: nat)
    requires now >= 0.0
    ensures t as real <= now < t as real + 1.0
  {
    now.Floor
  }

  /** `updateTimer`: with fewer than `nrofbundle` buffered messages the timer
      restarts at the current whole second; otherwise it is pushed to the end
      of the run. */
  function TimerAfterAdmission(bufferSize: nat, nrofbundle: int, now: real, endTime: real): (t: real)
    requires now >= 0.0
    ensures bufferSize < nrofbundle ==> t <= now < t + 1.0 && t == t.Floor as real
    ensures bufferSize >= nrofbundle ==> t == endTime
  {
    if bufferSize < nrofbundle then IntTime(now) as real else endTime
  }

  /** `checkTimer`'s test: the timer has run for at least `maxTime`. */
  predicate TimerExpired(now: real, delayTimer: real, maxTime: real)
  {
    now - delayTimer >= maxTime
  }

  /** After an admission that leaves the buffer short of a bundle, the next
      dummy is due exactly `maxTime` after the current whole second. */
  lemma DummyDueAfterQuietPeriod(bufferSize: nat, nrofbundle: int, now: real, endTime: real,
                                 later: real, maxTime: real)
    requires now >= 0.0 && bufferSize < nrofbundle
    ensures TimerExpired(later, TimerAfterAdmission(bufferSize, nrofbundle, now, endTime), maxTime)
            <==> later >= now.Floor as real + maxTime
  {
  }

  /** Once a bundle is buffered no dummy is emitted before `endTime + maxTime`,
      that is, with a positive `maxTime`, not during the run. */
  lemma FullBufferSuppressesDummies(bufferSize: nat, nrofbundle: int, now: real, endTime: real,
                                    later: real, maxTime: real)
    requires now >= 0.0 && bufferSize >= nrofbundle
    requires maxTime > 0.0 && later <= endTime
    ensures !TimerExpired(later, TimerAfterAdmission(bufferSize, nrofbundle, now, endTime), maxTime)
  {
  }

  /** The dummy built by `createFakeMessage`: from this host, to the drawn
      address, id `"f-" + host + ":" + intTime`, size 0, no path. */
  function FakeMessage(self: Addr, hostName: string, to: Addr, now: real): (m: Message)
    requires now >= 0.0
    ensures m.from == self && m.to == to && m.size == 0
    ensures m.mixlist == [] && m.mixindex == 0
    ensures KindOf(m.id) != Original
  {
    FakeIdKind(hostName, IntTime(now));
    NewMessage(self, to, FakeId(hostName, IntTime(now)), 0)
  }

  /** Dummies sent from one host in the same whole second share their id, so
      the second replaces the first in the buffer. */
  lemma FakeIdsPerSecond(self: Addr, hostName: string, to1: Addr, to2: Addr, now1: real, now2: real)
    requires 0.0 <= now1 && 0.0 <= now2 && now1.Floor == now2.Floor
    ensures FakeMessage(self, hostName, to1, now1).id == FakeMessage(self, hostName, to2, now2).id
  {
  }

  /** A dummy and the random stream left after drawing its target, or
      `NoDummy` when the draw stalls. */
  datatype Dummy = Dummy(msg: Message, rest: seq<nat>) | NoDummy

  /** `createFakeMessage` before the message is admitted: the target is drawn
      from the mix range avoiding this host, and the dummy addressed to it. */
  function DummyOf(range: HostRange, self: Addr, hostName: string, now: real, rng: seq<nat>): (d: Dummy)
    requires range.lo <= range.hi && now >= 0.0
    ensures d.Dummy? ==>
      && d.msg.to != self && Drawable(range, d.msg.to)
      && d.msg.from == self && d.msg.size == 0 && d.msg.id == FakeId(hostName, now.Floor)
      && KindOf(d.msg.id) != Original && Unplanned(d.msg)
    ensures d.NoDummy? <==> DrawAvoiding(range, {self}, rng).Exhausted?
  {
    DrawAvoidingAdmissible(range, {self}, rng);
    match DrawAvoiding(range, {self}, rng)
    case Exhausted => NoDummy
    case Drawn(to, rest) => Dummy(FakeMessage(self, hostName, to, now), rest)
  }
}
