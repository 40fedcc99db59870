/** Types that every other module shares. */
module Prelude {

  datatype Option<+T> = None | Some(value: T)

  /** Instants and durations are counted in nanoseconds, as Go's time package does. */
  const SECOND: int := 1_000_000_000
  const MINUTE: int := 60 * SECOND
  const DAY: int := 86_400 * SECOND

  lemma UnitsAgree()
    ensures 60 * 60 * 24 * SECOND == 24 * 60 * MINUTE == DAY == 86_400_000_000_000
  {
  }

  /** The hexadecimal text of a TLSA association (usage 3, selector 1, matching type 1). */
  type Hash = string

  /** Both maps have the same at this key, or neither has anything. */
  predicate SameEntry<V(==)>(a: map<string, V>, b: map<string, V>, k: string) {
    (k in a <==> k in b) && (k in a ==> a[k] == b[k])
  }

  /** What is not among the keys that may have changed has not changed. */
  lemma StaysThere<V>(a: map<string, V>, b: map<string, V>, ks: set<string>, k: string)
    requires a - ks == b - ks && k !in ks
    ensures (k in a <==> k in b) && (k in a ==> a[k] == b[k])
  {
    assert k in a ==> k in a - ks && (a - ks)[k] == a[k];
    assert k in b ==> k in b - ks && (b - ks)[k] == b[k];
  }

  lemma RemovalsMerge<V>(a: map<string, V>, b: map<string, V>, ks: set<string>, more: set<string>)
    requires a - ks == b - ks && ks <= more
    ensures a - more == b - more
  {
    assert a - more == (a - ks) - more;
    assert b - more == (b - ks) - more;
  }

  /** What there is before the i-th of some further states. */
  function Before<S>(s: S, more: seq<S>, i: nat): S
    requires i <= |more|
  {
    if i == 0 then s else more[i - 1]
  }

  lemma MulMonotone(a: int, b: int, c: int)
    requires a <= b && c > 0
    ensures a * c <= b * c
  {
  }
}
