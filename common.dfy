/** Value types and Java integer idioms shared by the routers and the reports. */
module Common {

  datatype Option<T> = None | Some(value: T)

  /** `map.getOrDefault(k, 0)` on a table of counts. */
  function CountOf<K>(m: map<K, nat>, k: K): nat
  {
    if k in m then m[k] else 0
  }

  /** `m.put(k, m.getOrDefault(k, 0) + 1)`, also written as the
      "containsKey ? get + 1 : 1" pattern: a missing key becomes 1. */
  function AddCount<K>(m: map<K, nat>, k: K): (r: map<K, nat>)
    ensures k in r
  {
    m[k := CountOf(m, k) + 1]
  }

  /** Read through `CountOf`, `AddCount` adds one under `k` and nothing
      anywhere else. */
  lemma AddCountCounts<K>(m: map<K, nat>, k: K, j: K)
    ensures CountOf(AddCount(m, k), j) == CountOf(m, j) + (if j == k then 1 else 0)
    ensures AddCount(m, k).Keys == m.Keys + {k}
  {
  }

  /** `m.put(k, getOrDefault(k, 0) < 1 ? 0 : get(k) - 1)`: a decrement that
      stops at zero and always leaves `k` present. */
  function SaturatingDecrement<K>(m: map<K, nat>, k: K): (r: map<K, nat>)
    ensures r.Keys == m.Keys + {k}
    ensures CountOf(m, k) == 0 ==> r[k] == 0
    ensures CountOf(m, k) > 0 ==> r[k] + 1 == m[k]
    ensures forall j :: j in m && j != k ==> r[j] == m[j]
  {
    m[k := if CountOf(m, k) < 1 then 0 else m[k] - 1]
  }

  /** Appends one sample to the list kept under `k`, creating the list if absent. */
  function AppendSample<K, V>(m: map<K, seq<V>>, k: K, v: V): (r: map<K, seq<V>>)
    ensures k in r
  {
    m[k := (if k in m then m[k] else []) + [v]]
  }

  /** `AppendSample` puts `v` at the end of the list under `k` (a new list
      when there was none) and leaves every other list as it was. */
  lemma AppendSampleAppends<K, V>(m: map<K, seq<V>>, k: K, v: V, j: K)
    ensures AppendSample(m, k, v).Keys == m.Keys + {k}
    ensures j == k ==> AppendSample(m, k, v)[j] == (if k in m then m[k] else []) + [v]
    ensures j != k && j in m ==> AppendSample(m, k, v)[j] == m[j]
  {
  }

  /** `(int) Math.ceil(n / 2.0)`: the ceiling of n/2 (exact, as n/2.0 is). */
  function CeilHalf(n: int): (r: int)
    ensures 2 * r - 1 <= n <= 2 * r
  {
    (n + 1) / 2
  }

  /** Java's `n / 2` on an `int`, which truncates toward zero. */
  function TruncHalf(n: int): (r: int)
    ensures 0 <= n ==> 2 * r <= n <= 2 * r + 1
    ensures n < 0 ==> 2 * r - 1 <= n <= 2 * r
  {
    if n >= 0 then n / 2 else -((-n) / 2)
  }

  predicate IsDigit(c: char)
  {
    '0' <= c <= '9'
  }

  predicate IsLowercase(c: char)
  {
    'a' <= c <= 'z'
  }

  function DigitChar(d: nat): (c: char)
    requires d < 10
    ensures IsDigit(c)
  {
    ('0' as int + d) as char
  }

  /** `Integer.toString(n)` for a non-negative `n`: a non-empty run of digits. */
  function Decimal(n: nat): (s: string)
    ensures |s| > 0
    ensures forall i :: 0 <= i < |s| ==> IsDigit(s[i])
    decreases n
  {
    if n < 10 then [DigitChar(n)] else Decimal(n / 10) + [DigitChar(n % 10)]
  }
}
