/** Relay selection: drawing host addresses from the `mixhosts` range by
    rejection sampling, and planning the relay path of a new message.

    `java.util.Random` is modelled as the stream of raw values it will hand
    out; `nextInt(k)` reduces the next one into `[0, k)`. A drawing method
    consumes the stream and returns what is left of it. */
module Addressing {
  import opened Common
  import opened Messages

  /** The `mixhosts` setting: `mixHostRange[0]` and `mixHostRange[1]`. */
  datatype HostRange = HostRange(lo: int, hi: int)

  /** `Random.nextInt(bound)`. */
  function NextInt(raw: nat, bound: nat): (r: nat)
    requires bound > 0
    ensures r < bound
  {
    raw % bound
  }

  /** The addresses `drawHostAddress` can return. */
  predicate Drawable(range: HostRange, a: Addr)
  {
    if range.lo == range.hi then a == range.lo else range.lo <= a < range.hi
  }

  /** One draw: an address and the rest of the random stream, or `Exhausted`
      when the stream runs dry (or, for a redraw loop, when the source would
      spin forever). */
  datatype Draw = Drawn(addr: Addr, rest: seq<nat>) | Exhausted

  /** `drawHostAddress`: `lo` without consuming randomness when `lo == hi`,
      otherwise `lo + nextInt(hi - lo)`, so `hi` itself is never drawn.
      `nextInt` throws on a non-positive bound, hence `lo <= hi`. */
  function DrawHostAddress(range: HostRange, rng: seq<nat>): (d: Draw)
    requires range.lo <= range.hi
    ensures range.lo == range.hi ==> d == Drawn(range.lo, rng)
    ensures range.lo < range.hi ==> (d.Exhausted? <==> rng == [])
    ensures range.lo < range.hi && d.Drawn? ==> range.lo <= d.addr < range.hi && d.rest == rng[1..]
  {
    if range.lo == range.hi then Drawn(range.lo, rng)
    else if rng == [] then Exhausted
    else Drawn(range.lo + NextInt(rng[0], range.hi - range.lo), rng[1..])
  }

  /** Every address of a proper range is drawn by some random value. */
  lemma DrawHostAddressCovers(range: HostRange, a: Addr)
    requires range.lo < range.hi && range.lo <= a < range.hi
    ensures DrawHostAddress(range, [a - range.lo]) == Drawn(a, [])
  {
  }

  /** Rejection sampling, the reference definition of the do-while loops:
      draw until the address is not excluded. Whenever every drawable
      address of the range is excluded the source loops forever; here that
      is `Exhausted`, whatever the stream. */
  function DrawAvoiding(range: HostRange, excluded: set<Addr>, rng: seq<nat>): (d: Draw)
    requires range.lo <= range.hi
    ensures (forall a :: Drawable(range, a) ==> a in excluded) ==> d.Exhausted?
    decreases |rng|, 1
  {
    Resolve(range, excluded, DrawHostAddress(range, rng))
  }

  /** What rejection sampling makes of a first draw `d`. */
  function Resolve(range: HostRange, excluded: set<Addr>, d: Draw): (r: Draw)
    requires range.lo <= range.hi
    ensures (forall a :: Drawable(range, a) ==> a in excluded) && (d.Drawn? ==> Drawable(range, d.addr)) ==>
      r.Exhausted?
    decreases if d.Drawn? && range.lo < range.hi then |d.rest| + 1 else 0, 0
  {
    match d
    case Exhausted => Exhausted
    case Drawn(a, rest) =>
      if a !in excluded then d
      else if range.lo == range.hi then Exhausted
      else DrawAvoiding(range, excluded, rest)
  }

  /** A result of rejection sampling is a drawable, non-excluded address, and
      the stream left over is a suffix of the one given. */
  lemma {:induction false} DrawAvoidingAdmissible(range: HostRange, excluded: set<Addr>, rng: seq<nat>)
    requires range.lo <= range.hi
    ensures var d := DrawAvoiding(range, excluded, rng);
      d.Drawn? ==> Drawable(range, d.addr) && d.addr !in excluded
                   && |d.rest| <= |rng| && d.rest == rng[|rng| - |d.rest|..]
    decreases |rng|
  {
    var first := DrawHostAddress(range, rng);
    if first.Drawn? && first.addr in excluded && range.lo < range.hi {
      DrawAvoidingAdmissible(range, excluded, first.rest);
    }
  }

  /** The raw value `raw` draws an excluded address. */
  predicate LandsExcluded(range: HostRange, excluded: set<Addr>, raw: nat)
    requires range.lo < range.hi
  {
    range.lo + NextInt(raw, range.hi - range.lo) in excluded
  }

  /** Rejection sampling over a proper range gives up exactly when every value
      left in the stream lands on an excluded address. */
  lemma {:induction false} DrawAvoidingStalls(range: HostRange, excluded: set<Addr>, rng: seq<nat>)
    requires range.lo < range.hi
    ensures DrawAvoiding(range, excluded, rng).Exhausted? <==>
            forall i :: 0 <= i < |rng| ==> LandsExcluded(range, excluded, rng[i])
    decreases |rng|
  {
    if rng != [] {
      var a := range.lo + NextInt(rng[0], range.hi - range.lo);
      assert DrawHostAddress(range, rng) == Drawn(a, rng[1..]);
      DrawAvoidingStalls(range, excluded, rng[1..]);
      if a in excluded {
        assert DrawAvoiding(range, excluded, rng) == DrawAvoiding(range, excluded, rng[1..]);
        assert forall i :: 1 <= i < |rng| ==> rng[i] == rng[1..][i - 1];
      } else {
        assert !LandsExcluded(range, excluded, rng[0]);
      }
    }
  }

  /** Every admissible address can come out of rejection sampling. */
  lemma DrawAvoidingReaches(range: HostRange, excluded: set<Addr>, a: Addr)
    requires range.lo < range.hi && range.lo <= a < range.hi && a !in excluded
    ensures DrawAvoiding(range, excluded, [a - range.lo]) == Drawn(a, [])
  {
    assert DrawHostAddress(range, [a - range.lo]) == Drawn(a, []);
  }

  /** The do-while loop shared by both `drawToAddress` overloads. */
  method RedrawWhileExcluded(range: HostRange, excluded: set<Addr>, rng: seq<nat>) returns (d: Draw)
    requires range.lo <= range.hi
    ensures d == DrawAvoiding(range, excluded, rng)
  {
    d := DrawHostAddress(range, rng);
    while d.Drawn? && d.addr in excluded && range.lo < range.hi
      invariant DrawAvoiding(range, excluded, rng) == Resolve(range, excluded, d)
      decreases if d.Drawn? then |d.rest| + 1 else 0
    {
      d := DrawHostAddress(range, d.rest);
    }
    if d.Drawn? && d.addr in excluded {
      d := Exhausted;
    }
  }

  /** `drawToAddress(hostRange, from)`: never returns `from`. */
  method DrawToAddress(range: HostRange, from: Addr, rng: seq<nat>) returns (d: Draw)
    requires range.lo <= range.hi
    ensures d == DrawAvoiding(range, {from}, rng)
    ensures d.Drawn? ==> Drawable(range, d.addr) && d.addr != from
  {
    d := RedrawWhileExcluded(range, {from}, rng);
    DrawAvoidingAdmissible(range, {from}, rng);
  }

  /** `drawToAddress(hostRange, from, realTo)`: never returns `from` or `realTo`. */
  method DrawToAddressExcluding(range: HostRange, from: Addr, realTo: Addr, rng: seq<nat>) returns (d: Draw)
    requires range.lo <= range.hi
    ensures d == DrawAvoiding(range, {from, realTo}, rng)
    ensures d.Drawn? ==> Drawable(range, d.addr) && d.addr != from && d.addr != realTo
  {
    d := RedrawWhileExcluded(range, {from, realTo}, rng);
    DrawAvoidingAdmissible(range, {from, realTo}, rng);
  }

  // ----- path planning -----

  /** A planned path and the random stream left after it, or a stalled draw. */
  datatype Plan = Planned(path: seq<Addr>, rest: seq<nat>) | Stalled

  function Prepend(a: Addr, p: Plan): Plan
  {
    match p
    case Stalled => Stalled
    case Planned(path, rest) => Planned([a] + path, rest)
  }

  function Join(prefix: seq<Addr>, p: Plan): Plan
  {
    match p
    case Stalled => Stalled
    case Planned(path, rest) => Planned(prefix + path, rest)
  }

  /** The `k` relays drawn one after another, each avoiding the previous hop
      (`last`) and the real destination. */
  function PlanRelays(range: HostRange, last: Addr, dest: Addr, k: nat, rng: seq<nat>): (p: Plan)
    requires range.lo <= range.hi
    ensures p.Planned? ==> |p.path| == k
    decreases k
  {
    if k == 0 then Planned([], rng)
    else
      match DrawAvoiding(range, {last, dest}, rng)
      case Exhausted => Stalled
      case Drawn(a, rest) => Prepend(a, PlanRelays(range, a, dest, k - 1, rest))
  }

  /** One draw of `PlanRelays`: a stalled draw stalls the plan, otherwise
      the drawn relay heads the rest of it. */
  lemma PlanRelaysStep(range: HostRange, last: Addr, dest: Addr, k: nat, rng: seq<nat>, d: Draw)
    requires range.lo <= range.hi && k > 0 && d == DrawAvoiding(range, {last, dest}, rng)
    ensures d.Exhausted? ==> PlanRelays(range, last, dest, k, rng) == Stalled
    ensures d.Drawn? ==>
      PlanRelays(range, last, dest, k, rng) == Prepend(d.addr, PlanRelays(range, d.addr, dest, k - 1, d.rest))
  {
  }

  /** Moving a relay from the plan onto the prefix keeps the joined plan. */
  lemma JoinPrepend(prefix: seq<Addr>, a: Addr, p: Plan)
    ensures Join(prefix, Prepend(a, p)) == Join(prefix + [a], p)
  {
    if p.Planned? {
      assert prefix + ([a] + p.path) == prefix + [a] + p.path;
    }
  }

  /** The whole `mixlist`: the relays, then the real destination. */
  function PathOf(range: HostRange, origin: Addr, dest: Addr, nrofmixes: nat, rng: seq<nat>): Plan
    requires range.lo <= range.hi
  {
    match PlanRelays(range, origin, dest, nrofmixes, rng)
    case Stalled => Stalled
    case Planned(relays, rest) => Planned(relays + [dest], rest)
  }

  /** The shape every planned path has: `nrofmixes` drawable relays, each
      different from the hop before it (the origin for the first) and from the
      destination, then the destination. */
  predicate WellFormedPath(range: HostRange, origin: Addr, dest: Addr, nrofmixes: nat, path: seq<Addr>)
  {
    && |path| == nrofmixes + 1
    && path[nrofmixes] == dest
    && (forall i :: 0 <= i < nrofmixes ==> Drawable(range, path[i]) && path[i] != dest)
    && (nrofmixes > 0 ==> path[0] != origin)
    && (forall i :: 0 < i < nrofmixes ==> path[i] != path[i - 1])
  }

  lemma {:induction false} PlanRelaysShape(range: HostRange, last: Addr, dest: Addr, k: nat, rng: seq<nat>)
    requires range.lo <= range.hi
    ensures var p := PlanRelays(range, last, dest, k, rng);
      p.Planned? ==> WellFormedPath(range, last, dest, k, p.path + [dest])
    decreases k
  {
    if k > 0 {
      var d := DrawAvoiding(range, {last, dest}, rng);
      DrawAvoidingAdmissible(range, {last, dest}, rng);
      if d.Drawn? {
        PlanRelaysShape(range, d.addr, dest, k - 1, d.rest);
        var tail := PlanRelays(range, d.addr, dest, k - 1, d.rest);
        if tail.Planned? {
          var path := [d.addr] + tail.path + [dest];
          assert path == [d.addr] + (tail.path + [dest]);
          forall i | 0 < i < k ensures path[i] != path[i - 1] {
            assert path[i] == (tail.path + [dest])[i - 1];
            if i > 1 {
              assert path[i - 1] == (tail.path + [dest])[i - 2];
            }
          }
        }
      }
    }
  }

  /** Every planned path is well formed. */
  lemma PathOfShape(range: HostRange, origin: Addr, dest: Addr, nrofmixes: nat, rng: seq<nat>)
    requires range.lo <= range.hi
    ensures var p := PathOf(range, origin, dest, nrofmixes, rng);
      p.Planned? ==> WellFormedPath(range, origin, dest, nrofmixes, p.path)
  {
    PlanRelaysShape(range, origin, dest, nrofmixes, rng);
  }

  /** The `for (mix = 1; mix <= nrofmixes; mix++)` loop of `createNewMessage`
      followed by `mixlist.add(msg.getTo())`. */
  method BuildPath(range: HostRange, origin: Addr, dest: Addr, nrofmixes: nat, rng: seq<nat>) returns (p: Plan)
    requires range.lo <= range.hi
    ensures p == PathOf(range, origin, dest, nrofmixes, rng)
    ensures p.Planned? ==> WellFormedPath(range, origin, dest, nrofmixes, p.path)
  {
    var relays: seq<Addr> := [];
    var lastHost := origin;
    var cur := rng;
    for mix := 1 to nrofmixes + 1
      invariant PlanRelays(range, origin, dest, nrofmixes, rng)
                == Join(relays, PlanRelays(range, lastHost, dest, nrofmixes - (mix - 1), cur))
    {
      var d := DrawToAddressExcluding(range, lastHost, dest, cur);
      PlanRelaysStep(range, lastHost, dest, nrofmixes - (mix - 1), cur, d);
      if d.Exhausted? {
        p := Stalled;
        return;
      }
      JoinPrepend(relays, d.addr, PlanRelays(range, d.addr, dest, nrofmixes - mix, d.rest));
      relays := relays + [d.addr];
      lastHost := d.addr;
      cur := d.rest;
    }
    p := Planned(relays + [dest], cur);
    PathOfShape(range, origin, dest, nrofmixes, rng);
  }
}
