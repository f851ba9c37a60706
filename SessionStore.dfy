/**
 * The key/value store with per-key time-to-live that holds the refresh tokens (Redis behind
 * `StringRedisTemplate`). A record lives until its expiry instant; from then on every read
 * behaves as if it had been deleted. As in Redis, a key expires only once the current time
 * is past its expiry instant, so at that instant it still reads. Values are token strings, modelled as `Token`.
 */
module SessionStore {
  import opened Wrappers
  import opened Jwt

  /** A stored value and the instant (milliseconds) at which its time-to-live runs out. */
  datatype Entry = Entry(value: Token, expiresAt: int)

  type Store = map<string, Entry>

  /** True when `key` holds a record that has not yet expired at `now`. */
  predicate Live(m: Store, key: string, now: int)
  {
    key in m && now <= m[key].expiresAt
  }

  /** `opsForValue().get(key)`: the live value, or null. */
  function Get(m: Store, key: string, now: int): Option<Token>
  {
    if Live(m, key, now) then Some(m[key].value) else None
  }

  /** `opsForValue().set(key, value, ttl, MILLISECONDS)`: an unconditional overwrite. */
  function Set(m: Store, key: string, value: Token, ttl: int, now: int): Store
  {
    m[key := Entry(value, now + ttl)]
  }

  /** `delete(key)`: removes the record; the flag says whether a live one existed. */
  function Delete(m: Store, key: string, now: int): (r: (Store, bool))
    ensures key !in r.0
    ensures r.1 <==> Live(m, key, now)
  {
    (m - {key}, Live(m, key, now))
  }

  /** Last write wins: a read after `Set` sees the written value until the TTL runs out. */
  lemma GetAfterSet(m: Store, key: string, value: Token, ttl: int, now: int, later: int)
    ensures Get(Set(m, key, value, ttl, now), key, later) ==
      (if later <= now + ttl then Some(value) else None)
  {
  }

  /** Once its TTL has run out, a written record reads exactly as if it had been deleted. */
  lemma ExpiredReadsAsDeleted(m: Store, key: string, value: Token, ttl: int, now: int, at: int)
    requires at > now + ttl
    ensures Get(Set(m, key, value, ttl, now), key, at) == Get(Delete(m, key, now).0, key, at) == None
  {
  }

  /** `Set` and `Delete` leave every other key as it was. */
  lemma OtherKeysUntouched(m: Store, key: string, other: string, value: Token, ttl: int, now: int, at: int)
    requires other != key
    ensures Get(Set(m, key, value, ttl, now), other, at) == Get(m, other, at)
    ensures Get(Delete(m, key, now).0, other, at) == Get(m, other, at)
  {
  }

  /** After `Delete` the key reads as absent, and deleting again reports that nothing existed. */
  lemma DeleteIdempotent(m: Store, key: string, now: int, at: int)
    ensures Get(Delete(m, key, now).0, key, at) == None
    ensures Delete(Delete(m, key, now).0, key, at) == (Delete(m, key, now).0, false)
  {
    assert (m - {key}) - {key} == m - {key};
  }
}
