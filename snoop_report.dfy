/** `SnoopReport`: a connection listener that remembers when each pair of
    hosts came into contact and, when the pair separates, counts the contact
    duration into a histogram of `granularity`-wide buckets. */
module SnoopReporting {
  import opened Common

  /** A `DTNHost` as this report sees it: compared by its network address
      (`compareTo`) and printed by its name (`toString`). */
  datatype Host = Host(address: int, name: string)

  /** Two host values denote one host exactly when their addresses agree,
      as addresses are unique in a scenario. */
  predicate AddressIdentifies(x: Host, y: Host)
  {
    x.address == y.address ==> x == y
  }

  /** The `endTime` of a contact that has not ended yet. */
  const NotEnded: real := -1.0

  /** `ConnectionInfo`: the two hosts of a contact and its start and end. */
  datatype ConnectionInfo = ConnectionInfo(h1: Host, h2: Host, startTime: real, endTime: real)

  /** `new ConnectionInfo(h1, h2)`: started now, not ended. */
  function OpenInfo(h1: Host, h2: Host, now: real): (ci: ConnectionInfo)
    ensures ci.h1 == h1 && ci.h2 == h2 && ci.startTime == now && ci.endTime == NotEnded
  {
    ConnectionInfo(h1, h2, now, NotEnded)
  }

  /** `connectionEnd`: the contact ends at the current clock. */
  function ConnectionEnd(ci: ConnectionInfo, now: real): (r: ConnectionInfo)
    ensures r.h1 == ci.h1 && r.h2 == ci.h2 && r.startTime == ci.startTime && r.endTime == now
  {
    ci.(endTime := now)
  }

  /** `getConnectionTime`: up to the end, or up to the current clock while
      the contact is still open. */
  function ConnectionTime(ci: ConnectionInfo, now: real): (d: real)
    ensures ci.startTime <= now && (ci.endTime == NotEnded || ci.startTime <= ci.endTime) ==> d >= 0.0
  {
    if ci.endTime == NotEnded then now - ci.startTime else ci.endTime - ci.startTime
  }

  /** Whether the contact is closed or not at `now`, its duration measured
      at `now` after `connectionEnd` is the time since it started. */
  lemma EndedDuration(ci: ConnectionInfo, now: real)
    requires now >= 0.0
    ensures ConnectionTime(ConnectionEnd(ci, now), now) == now - ci.startTime
    ensures ci.endTime == NotEnded ==> ConnectionTime(ci, now) == ConnectionTime(ConnectionEnd(ci, now), now)
  {
  }

  /** `ConnectionInfo.equals`: the same two hosts, in either order; the
      times play no part. */
  predicate SameHosts(a: ConnectionInfo, b: ConnectionInfo)
  {
    (a.h1 == b.h1 && a.h2 == b.h2) || (a.h1 == b.h2 && a.h2 == b.h1)
  }

  /** Two infos are equal exactly when they join the same unordered pair
      of hosts. */
  lemma SameHostsIsUnorderedPair(a: ConnectionInfo, b: ConnectionInfo)
    ensures SameHosts(a, b) <==> multiset{a.h1, a.h2} == multiset{b.h1, b.h2}
  {
  }

  /** `equals` is an equivalence that ignores the order of the hosts and
      the times. */
  lemma SameHostsEquivalence(a: ConnectionInfo, b: ConnectionInfo, c: ConnectionInfo)
    ensures SameHosts(a, a)
    ensures SameHosts(a, b) ==> SameHosts(b, a)
    ensures SameHosts(a, b) && SameHosts(b, c) ==> SameHosts(a, c)
    ensures SameHosts(a, ConnectionInfo(a.h2, a.h1, b.startTime, b.endTime))
  {
  }

  /** `hashCode`'s host string: the host with the smaller address first,
      the two names joined by a dash. */
  function HostString(ci: ConnectionInfo): string
  {
    if ci.h1.address < ci.h2.address then ci.h1.name + "-" + ci.h2.name
    else ci.h2.name + "-" + ci.h1.name
  }

  const TwoTo31: int := 0x8000_0000
  const TwoTo32: int := 0x1_0000_0000

  /** Java's `int` wrap-around: the representative of `x` modulo 2^32 in
      [-2^31, 2^31). */
  function ToInt32(x: int): (r: int)
    ensures -TwoTo31 <= r < TwoTo31
    ensures (r - x) % TwoTo32 == 0
  {
    (x + TwoTo31) % TwoTo32 - TwoTo31
  }

  /** `String.hashCode`: `h = 31 * h + c` over the characters in `int`
      arithmetic. A Dafny `char` is a Unicode scalar value, where Java sums
      UTF-16 code units, so the two differ for characters above U+FFFF. */
  function JavaStringHash(s: string): (h: int)
    ensures -TwoTo31 <= h < TwoTo31
  {
    if s == [] then 0 else ToInt32(31 * JavaStringHash(s[..|s| - 1]) + s[|s| - 1] as int)
  }

  /** `ConnectionInfo.hashCode`: a Java `int` that does not depend on the
      order in which two hosts of different addresses are given. */
  function HashCode(ci: ConnectionInfo): (h: int)
    ensures -TwoTo31 <= h < TwoTo31
    ensures ci.h1.address != ci.h2.address ==>
      h == JavaStringHash(HostString(ConnectionInfo(ci.h2, ci.h1, ci.startTime, ci.endTime)))
  {
    JavaStringHash(HostString(ci))
  }

  /** The host string, and so the hash, does not depend on the order in
      which the hosts were given, provided distinct hosts have distinct
      addresses. */
  lemma {:induction false} HostStringSymmetric(a: ConnectionInfo, b: ConnectionInfo)
    requires SameHosts(a, b) && AddressIdentifies(a.h1, a.h2)
    ensures HostString(a) == HostString(b)
  {
    if a.h1 == b.h2 && a.h2 == b.h1 && a.h1 != a.h2 {
      assert a.h1.address != a.h2.address;
    }
  }

  /** `equals` and `hashCode` agree: equal infos hash equally, which is what
      the `HashMap` of connections relies on. */
  lemma {:induction false} EqualInfosHashEqually(a: ConnectionInfo, b: ConnectionInfo)
    requires SameHosts(a, b) && AddressIdentifies(a.h1, a.h2)
    ensures HashCode(a) == HashCode(b)
  {
    HostStringSymmetric(a, b);
  }

  /** The connection table, a `HashMap<ConnectionInfo, ConnectionInfo>`
      keyed by `equals`, as the list of its values. No two entries are
      equal. */
  ghost predicate DistinctPairs(table: seq<ConnectionInfo>)
  {
    forall i, j :: 0 <= i < j < |table| ==> !SameHosts(table[i], table[j])
  }

  /** The position of the entry equal to `key`, if there is one. */
  function Find(table: seq<ConnectionInfo>, key: ConnectionInfo): (r: Option<nat>)
    ensures r.Some? ==> r.value < |table| && SameHosts(table[r.value], key)
    ensures r.None? <==> forall i :: 0 <= i < |table| ==> !SameHosts(table[i], key)
  {
    if table == [] then None
    else if SameHosts(table[0], key) then Some(0)
    else match Find(table[1..], key)
      case None => None
      case Some(i) => Some(i + 1)
  }

  /** Only the hosts of the key matter to `Find`, in either order. */
  lemma {:induction false} FindIgnoresOrder(table: seq<ConnectionInfo>, key: ConnectionInfo, other: ConnectionInfo)
    requires SameHosts(key, other)
    ensures Find(table, key) == Find(table, other)
  {
    if table != [] && !SameHosts(table[0], key) {
      FindIgnoresOrder(table[1..], key, other);
    }
  }

  /** `connections.put(ci, ci)`: an equal entry is replaced by the new
      value, otherwise the new value is added. */
  function PutConnection(table: seq<ConnectionInfo>, ci: ConnectionInfo): (r: seq<ConnectionInfo>)
    ensures Find(table, ci).None? ==> r == table + [ci]
    ensures Find(table, ci).Some? ==> r == table[Find(table, ci).value := ci]
  {
    match Find(table, ci)
    case None => table + [ci]
    case Some(i) => table[i := ci]
  }

  /** `put` keeps the keys distinct, holds the new value under its key, and
      leaves every entry for another pair of hosts in place. */
  lemma PutConnectionStores(table: seq<ConnectionInfo>, ci: ConnectionInfo)
    requires DistinctPairs(table)
    ensures DistinctPairs(PutConnection(table, ci))
    ensures |PutConnection(table, ci)| == |table| + (if Find(table, ci).None? then 1 else 0)
    ensures forall x :: x in table && !SameHosts(x, ci) ==> x in PutConnection(table, ci)
    ensures forall x :: x in PutConnection(table, ci) ==> x == ci || x in table
    ensures Find(PutConnection(table, ci), ci).Some?
    ensures PutConnection(table, ci)[Find(PutConnection(table, ci), ci).value] == ci
  {
    var r := PutConnection(table, ci);
    match Find(table, ci)
    case None =>
      assert r[|table|] == ci;
      FindFirstOnly(r, |table|, ci);
    case Some(k) =>
      forall i, j | 0 <= i < j < |r|
        ensures !SameHosts(r[i], r[j])
      {
        if i == k {
          SameHostsEquivalence(table[k], ci, r[j]);
          SameHostsEquivalence(table[k], r[j], ci);
        } else if j == k {
          SameHostsEquivalence(r[i], ci, table[k]);
        }
      }
      forall x | x in table && !SameHosts(x, ci)
        ensures x in r
      {
        var i :| 0 <= i < |table| && table[i] == x;
        assert r[i] == x;
      }
      FindFirstOnly(r, k, ci);
  }

  /** In a table with distinct keys at most one entry is equal to `key`. */
  lemma SameKeySamePosition(table: seq<ConnectionInfo>, i: nat, j: nat, key: ConnectionInfo)
    requires DistinctPairs(table) && i < |table| && j < |table|
    requires SameHosts(table[i], key) && SameHosts(table[j], key)
    ensures i == j
  {
    SameHostsEquivalence(table[j], key, table[i]);
    SameHostsEquivalence(table[i], key, table[j]);
  }

  /** In a table with distinct keys, an entry equal to `key` is the one
      `Find` returns. */
  lemma FindFirstOnly(table: seq<ConnectionInfo>, k: nat, key: ConnectionInfo)
    requires DistinctPairs(table) && k < |table| && SameHosts(table[k], key)
    ensures Find(table, key) == Some(k)
  {
    var r := Find(table, key);
    SameKeySamePosition(table, r.value, k, key);
  }

  /** `connections.remove(ci)`: the value stored under the key, if any,
      and the table without it. */
  datatype Removal = Removal(removed: Option<ConnectionInfo>, rest: seq<ConnectionInfo>)

  function RemoveConnection(table: seq<ConnectionInfo>, key: ConnectionInfo): (r: Removal)
    ensures Find(table, key).None? ==> r.removed.None? && r.rest == table
    ensures Find(table, key).Some? ==>
      r.removed == Some(table[Find(table, key).value])
      && r.rest == table[..Find(table, key).value] + table[Find(table, key).value + 1..]
  {
    match Find(table, key)
    case None => Removal(None, table)
    case Some(i) => Removal(Some(table[i]), table[..i] + table[i + 1..])
  }

  /** Dropping position `k` shifts every later entry down by one. */
  lemma OmitShifts(table: seq<ConnectionInfo>, k: nat, rest: seq<ConnectionInfo>)
    requires k < |table| && rest == table[..k] + table[k + 1..]
    ensures |rest| == |table| - 1
    ensures forall i :: 0 <= i < k ==> rest[i] == table[i]
    ensures forall i :: k < i < |table| ==> rest[i - 1] == table[i]
  {
  }

  /** `remove` returns an entry equal to the key and leaves no entry equal
      to it, and the keys stay distinct. */
  lemma RemoveConnectionDrops(table: seq<ConnectionInfo>, key: ConnectionInfo)
    requires DistinctPairs(table)
    ensures DistinctPairs(RemoveConnection(table, key).rest)
    ensures RemoveConnection(table, key).removed.Some? ==> SameHosts(RemoveConnection(table, key).removed.value, key)
    ensures Find(RemoveConnection(table, key).rest, key).None?
  {
    match Find(table, key)
    case None =>
    case Some(k) =>
      var rest := table[..k] + table[k + 1..];
      OmitShifts(table, k, rest);
      forall i | 0 <= i < |rest|
        ensures !SameHosts(rest[i], key)
      {
        var t := if i < k then i else i + 1;
        assert rest[t - (t - i)] == table[t];
        if SameHosts(table[t], key) {
          SameKeySamePosition(table, t, k, key);
        }
      }
  }

  /** `remove` drops nothing but the entry equal to the key. */
  lemma RemoveConnectionKeepsOthers(table: seq<ConnectionInfo>, key: ConnectionInfo)
    ensures forall x :: x in table && !SameHosts(x, key) ==> x in RemoveConnection(table, key).rest
    ensures forall x :: x in RemoveConnection(table, key).rest ==> x in table
  {
    match Find(table, key)
    case None =>
    case Some(k) =>
      var rest := table[..k] + table[k + 1..];
      OmitShifts(table, k, rest);
      forall x | x in table && !SameHosts(x, key)
        ensures x in rest
      {
        var i :| 0 <= i < |table| && table[i] == x;
        if i < k {
          assert rest[i] == x;
        } else {
          assert rest[i - 1] == x;
        }
      }
  }

  /** A connection added and then removed comes back unchanged, and so does
      the table, whichever order the hosts are given in on removal. */
  lemma {:induction false} PutThenRemove(table: seq<ConnectionInfo>, ci: ConnectionInfo, key: ConnectionInfo)
    requires DistinctPairs(table) && Find(table, ci).None? && SameHosts(ci, key)
    ensures RemoveConnection(PutConnection(table, ci), key) == Removal(Some(ci), table)
  {
    var r := PutConnection(table, ci);
    PutConnectionStores(table, ci);
    FindIgnoresOrder(r, ci, key);
    FindFirstOnly(r, |table|, ci);
    assert r[..|table|] == table;
  }

  /** No stored contact started after `now`: the clock only moves forward. */
  ghost predicate StartedBy(table: seq<ConnectionInfo>, now: real)
  {
    forall i :: 0 <= i < |table| ==> table[i].startTime <= now
  }

  /** The contact histogram `nrofContacts`, a `Vector<Integer>` whose slots
      may be `null`. */
  type Histogram = seq<Option<nat>>

  /** A slot read with `null` as zero; slots past the end read as zero. */
  function Slot(v: Histogram, i: nat): nat
  {
    if i < |v| && v[i].Some? then v[i].value else 0
  }

  /** The number of contacts counted in the histogram. */
  function Total(v: Histogram): nat
  {
    if v == [] then 0 else Slot(v, 0) + Total(v[1..])
  }

  /** `Vector.setSize(n)` when growing: pads with `null`. */
  function Grow(v: Histogram, n: nat): (r: Histogram)
    requires |v| <= n
    ensures |r| == n && r[..|v|] == v
    ensures forall i :: |v| <= i < n ==> r[i].None?
  {
    v + Nulls(n - |v|)
  }

  /** `n` null slots. */
  function Nulls(n: nat): (r: Histogram)
    ensures |r| == n
  {
    seq(n, _ => None)
  }

  /** The bucket of a contact of length `time`: `(int)(time / granularity)`,
      which for a non-negative quotient is its floor. */
  function BucketOf(time: real, granularity: real): nat
    requires time >= 0.0 && granularity > 0.0
  {
    (time / granularity).Floor
  }

  /** Bucket `index` holds the durations whose quotient by the granularity
      lies in `[index, index + 1)`. */
  lemma BucketBounds(time: real, granularity: real)
    requires time >= 0.0 && granularity > 0.0
    ensures BucketOf(time, granularity) as real <= time / granularity
    ensures time / granularity < BucketOf(time, granularity) as real + 1.0
  {
  }

  /** The slot at `index` of a histogram long enough for it, plus one. */
  function Bump(v: Histogram, index: nat): (r: Histogram)
    requires index < |v|
    ensures |r| == |v|
  {
    v[index := Some(Slot(v, index) + 1)]
  }

  /** `increaseTimeCount` as written: the vector grows to `index + 2` only
      when `index` is past its end. */
  function CountAtAsWritten(v: Histogram, index: nat): (r: Histogram)
    ensures |r| == if index >= |v| then index + 2 else |v|
  {
    Bump(if index >= |v| then Grow(v, index + 2) else v, index)
  }

  /** `increaseTimeCount` as its comment intends: the vector grows to
      `index + 2` whenever `index` would otherwise be its last slot, so the
      last slot is never counted into. */
  function CountAt(v: Histogram, index: nat): (r: Histogram)
    ensures |r| == if index + 1 >= |v| then index + 2 else |v|
  {
    Bump(if index + 1 >= |v| then Grow(v, index + 2) else v, index)
  }

  /** The invariant the comment in `increaseTimeCount` promises: the
      histogram is empty or its last slot is `null`. */
  predicate LastSlotEmpty(v: Histogram)
  {
    v == [] || v[|v| - 1].None?
  }

  /** Padding with `null` slots adds no contacts. */
  lemma {:induction false} GrowKeepsTotal(v: Histogram, n: nat)
    requires |v| <= n
    ensures Total(Grow(v, n)) == Total(v)
    decreases |v|
  {
    if v == [] {
      NullsCountNothing(n);
    } else {
      GrowKeepsTotal(v[1..], n - 1);
      assert Grow(v, n)[1..] == Grow(v[1..], n - 1);
    }
  }

  lemma {:induction false} NullsCountNothing(n: nat)
    ensures Total(Nulls(n)) == 0
  {
    if n > 0 {
      NullsCountNothing(n - 1);
      assert Nulls(n)[1..] == Nulls(n - 1);
    }
  }

  /** Adding one at a slot adds one contact to the total. */
  lemma {:induction false} BumpAddsOne(v: Histogram, index: nat)
    requires index < |v|
    ensures Total(Bump(v, index)) == Total(v) + 1
  {
    if index > 0 {
      BumpAddsOne(v[1..], index - 1);
      assert Bump(v, index)[1..] == Bump(v[1..], index - 1);
    } else {
      assert Bump(v, index)[1..] == v[1..];
    }
  }

  /** Either version counts exactly one contact into bucket `index`, reads
      every other bucket as before, and adds one to the total. */
  lemma CountAtSlots(v: Histogram, index: nat, j: nat)
    ensures Slot(CountAt(v, index), j) == Slot(v, j) + (if j == index then 1 else 0)
    ensures Slot(CountAtAsWritten(v, index), j) == Slot(v, j) + (if j == index then 1 else 0)
    ensures Total(CountAt(v, index)) == Total(v) + 1
    ensures Total(CountAtAsWritten(v, index)) == Total(v) + 1
  {
    if index + 1 >= |v| {
      GrowKeepsTotal(v, index + 2);
      BumpAddsOne(Grow(v, index + 2), index);
      if j < |v| {
        assert Grow(v, index + 2)[j] == v[j];
      }
    } else {
      BumpAddsOne(v, index);
    }
    if index >= |v| {
      GrowKeepsTotal(v, index + 2);
      BumpAddsOne(Grow(v, index + 2), index);
    } else {
      BumpAddsOne(v, index);
    }
  }

  /** The corrected version keeps its last slot `null`, whatever it counts. */
  lemma CountAtKeepsLastSlotEmpty(v: Histogram, index: nat)
    requires LastSlotEmpty(v)
    ensures LastSlotEmpty(CountAt(v, index))
  {
    var r := CountAt(v, index);
    if index + 1 >= |v| {
      assert r[index + 1] == Grow(v, index + 2)[index + 1];
    } else {
      assert r[|v| - 1] == v[|v| - 1];
    }
  }

  /** As written, the last slot can be counted into: starting empty, a
      contact in bucket 0 grows the histogram to two slots, and a contact in
      bucket 1 then fills the second, the last. */
  lemma AsWrittenFillsLastSlot()
    ensures LastSlotEmpty(CountAtAsWritten([], 0))
    ensures CountAtAsWritten([], 0) == [Some(1), None]
    ensures CountAtAsWritten([Some(1), None], 1) == [Some(1), Some(1)]
    ensures !LastSlotEmpty(CountAtAsWritten(CountAtAsWritten([], 0), 1))
  {
    assert Grow([], 2) == [None, None];
  }

  /** `SnoopReport`'s state: the open connections, the contact histogram
      and the warm-up message ids. */
  class SnoopReport {
    const granularity: real
    var connections: seq<ConnectionInfo>
    var nrofContacts: Histogram
    var warmupIds: set<string>

    ghost predicate Valid()
      reads this
    {
      granularity > 0.0 && DistinctPairs(connections) && LastSlotEmpty(nrofContacts)
    }

    /** The constructor and `init`: `granularity` from the settings, 1.0 by
        default; no connections and an empty histogram. */
    constructor (setting: Option<real>)
      requires setting.Some? ==> setting.value > 0.0
      ensures Valid()
      ensures granularity == if setting.Some? then setting.value else 1.0
      ensures connections == [] && nrofContacts == [] && warmupIds == {}
    {
      granularity := if setting.Some? then setting.value else 1.0;
      connections := [];
      nrofContacts := [];
      warmupIds := {};
    }

    /** `hostsConnected` / `addConnection`: records the contact as starting
        now. `wasNew` is the (disabled) assertion that no equal entry was
        stored; when it fails the new entry replaces the old one. */
    method HostsConnected(h1: Host, h2: Host, now: real) returns (wasNew: bool)
      requires Valid()
      modifies this
      ensures Valid()
      ensures wasNew <==> Find(old(connections), OpenInfo(h1, h2, now)).None?
      ensures connections == PutConnection(old(connections), OpenInfo(h1, h2, now))
      ensures nrofContacts == old(nrofContacts) && warmupIds == old(warmupIds)
    {
      var ci := OpenInfo(h1, h2, now);
      wasNew := Find(connections, ci).None?;
      PutConnectionStores(connections, ci);
      connections := PutConnection(connections, ci);
    }

    /** `removeConnection`: takes out the entry for the two hosts, in either
        order, and returns it. */
    method TakeConnection(h1: Host, h2: Host, now: real) returns (ci: Option<ConnectionInfo>)
      requires Valid()
      modifies this
      ensures Valid()
      ensures ci == RemoveConnection(old(connections), OpenInfo(h1, h2, now)).removed
      ensures connections == RemoveConnection(old(connections), OpenInfo(h1, h2, now)).rest
      ensures ci.Some? ==> ci.value in old(connections) && SameHosts(ci.value, OpenInfo(h1, h2, now))
      ensures nrofContacts == old(nrofContacts) && warmupIds == old(warmupIds)
    {
      var key := OpenInfo(h1, h2, now);
      RemoveConnectionDrops(connections, key);
      var r := RemoveConnection(connections, key);
      connections := r.rest;
      ci := r.removed;
    }

    /** `increaseTimeCount`, with the last slot kept free. */
    method IncreaseTimeCount(time: real)
      requires Valid() && time >= 0.0
      modifies this
      ensures Valid()
      ensures nrofContacts == CountAt(old(nrofContacts), BucketOf(time, granularity))
      ensures connections == old(connections) && warmupIds == old(warmupIds)
    {
      var index := BucketOf(time, granularity);
      ghost var v := nrofContacts;
      ghost var grown := if index + 1 >= |v| then Grow(v, index + 2) else v;
      if index + 1 >= |nrofContacts| {
        nrofContacts := Grow(nrofContacts, index + 2);
      }
      assert nrofContacts == grown && index < |grown|;
      var cur := nrofContacts[index];
      if cur.None? {
        nrofContacts := nrofContacts[index := Some(1)];
      } else {
        nrofContacts := nrofContacts[index := Some(cur.value + 1)];
      }
      assert nrofContacts == Bump(grown, index);
      CountAtKeepsLastSlotEmpty(v, index);
    }

    /** `hostsDisconnected`: an unknown pair leaves the histogram alone;
        otherwise the entry is removed and its duration, ended now, counted
        into exactly one bucket. */
    method HostsDisconnected(h1: Host, h2: Host, now: real)
      requires Valid() && now >= 0.0
      requires StartedBy(connections, now)
      modifies this
      ensures Valid()
      ensures connections == RemoveConnection(old(connections), OpenInfo(h1, h2, now)).rest
      ensures warmupIds == old(warmupIds)
      ensures match RemoveConnection(old(connections), OpenInfo(h1, h2, now)).removed
        case None => nrofContacts == old(nrofContacts)
        case Some(ci) =>
          nrofContacts == CountAt(old(nrofContacts), BucketOf(now - ci.startTime, granularity))
    {
      ghost var k := Find(connections, OpenInfo(h1, h2, now));
      var ci := TakeConnection(h1, h2, now);
      if ci.None? {
        return;
      }
      assert ci.value == old(connections)[k.value];
      CountEnded(ci.value, now);
    }

    /** The found branch of `hostsDisconnected`: the contact is ended now
        and its duration counted. */
    method CountEnded(ci: ConnectionInfo, now: real)
      requires Valid() && now >= 0.0 && ci.startTime <= now
      modifies this
      ensures Valid()
      ensures nrofContacts == CountAt(old(nrofContacts), BucketOf(now - ci.startTime, granularity))
      ensures connections == old(connections) && warmupIds == old(warmupIds)
    {
      var ended := ConnectionEnd(ci, now);
      EndedDuration(ci, now);
      var duration := ConnectionTime(ended, now);
      assert duration == now - ci.startTime;
      IncreaseTimeCount(duration);
    }

    /** `newMessage`: during warm-up the id is remembered. */
    method NewMessage(id: string, isWarmup: bool)
      modifies this
      ensures warmupIds == if isWarmup then old(warmupIds) + {id} else old(warmupIds)
      ensures connections == old(connections) && nrofContacts == old(nrofContacts)
    {
      if isWarmup {
        warmupIds := warmupIds + {id};
      }
    }
  }
}
