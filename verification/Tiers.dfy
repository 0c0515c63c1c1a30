/** One cache tier as a map of entries with an expiry, and the two lifetimes the gateway gives them. */
module Tiers {
  import opened Wrappers

  /** One hour in milliseconds: every in-process entry lives this long. */
  const L1_TTL: nat := 3_600_000
  /** One hour in milliseconds: the lifetime every caller passes for the shared tier. */
  const L2_TTL: nat := 3_600_000

  datatype Entry<+V> = Entry(value: V, expiresAt: nat)

  /** The in-process cache drops an entry at its expiry instant. */
  function L1Get<K, V>(l1: map<K, Entry<V>>, k: K, now: nat): Option<V> {
    if k in l1 && now < l1[k].expiresAt then Some(l1[k].value) else None
  }

  /** The shared store still answers at the expiry instant itself. */
  function L2Get<K, V>(l2: map<K, Entry<V>>, k: K, now: nat): Option<V> {
    if k in l2 && now <= l2[k].expiresAt then Some(l2[k].value) else None
  }

  function Put<K, V>(m: map<K, Entry<V>>, k: K, v: V, now: nat, ttl: nat): map<K, Entry<V>> {
    m[k := Entry(v, now + ttl)]
  }
}
