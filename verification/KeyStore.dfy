/**
 * Redis as internal/cache/redis.go uses it: a map of keys whose entries may carry an expiry. Time is
 * the server's clock; an entry is gone from the moment its time to live has elapsed.
 */
module KeyStore {
  import opened Common

  datatype Entry<+V> = Entry(value: V, expiry: Option<int>)

  predicate Live<K, V>(m: map<K, Entry<V>>, key: K, now: int) {
    key in m && (m[key].expiry.Some? ==> now < m[key].expiry.value)
  }

  /** Get: a missing and an expired key both read as a miss. */
  function Read<K, V>(m: map<K, Entry<V>>, key: K, now: int): Option<V> {
    if Live(m, key, now) then Some(m[key].value) else None
  }

  /** Set: a time to live that is not positive means no expiry. */
  function Write<K, V>(m: map<K, Entry<V>>, key: K, value: V, now: int, ttl: int): map<K, Entry<V>> {
    m[key := Entry(value, if ttl > 0 then Some(now + ttl) else None)]
  }

  /** INCR followed by EXPIRE in one transaction; EXPIRE with no time left deletes the key. */
  function Bump<K>(m: map<K, Entry<int>>, key: K, now: int, window: int): map<K, Entry<int>> {
    if window > 0 then m[key := Entry(Bumped(m, key, now), Some(now + window))] else m - {key}
  }

  /** The answer of that INCR. */
  function Bumped<K>(m: map<K, Entry<int>>, key: K, now: int): int {
    Read(m, key, now).GetOr(0) + 1
  }

  /** A key reads as what was last written to it, until its time to live is over; other keys are not touched. */
  lemma WriteThenRead<K, V>(m: map<K, Entry<V>>, key: K, value: V, now: int, ttl: int, other: K, later: int)
    ensures Read(Write(m, key, value, now, ttl), key, later) == if ttl > 0 && now + ttl <= later then None else Some(value)
    ensures other != key ==> Read(Write(m, key, value, now, ttl), other, later) == Read(m, other, later)
  {
  }

  class Client<K(==), V> {
    var store: map<K, Entry<V>>

    constructor ()
      ensures store == map[]
    {
      store := map[];
    }

    method Get(key: K, now: int) returns (value: Option<V>)
      ensures value == Read(store, key, now)
    {
      if key in store {
        var entry := store[key];
        if entry.expiry == None || now < entry.expiry.value {
          return Some(entry.value);
        }
      }
      return None;
    }

    method Set(key: K, value: V, now: int, ttl: int)
      modifies this
      ensures store == Write(old(store), key, value, now, ttl)
    {
      var expiry := if ttl > 0 then Some(now + ttl) else None;
      store := store[key := Entry(value, expiry)];
    }

    method Delete(keys: seq<K>)
      modifies this
      ensures store == old(store) - (set k | k in keys)
    {
      for i := 0 to |keys|
        invariant store == old(store) - (set k | k in keys[..i])
      {
        store := store - {keys[i]};
        assert keys[..i + 1] == keys[..i] + [keys[i]];
      }
      assert keys[..|keys|] == keys;
    }
  }

  /** IncrWithWindow: the expiry is renewed by every call, not only by the first. */
  method IncrWithWindow<K>(c: Client<K, int>, key: K, now: int, window: int) returns (count: int)
    modifies c
    ensures count == Bumped(old(c.store), key, now)
    ensures c.store == Bump(old(c.store), key, now, window)
  {
    var current := c.Get(key, now);
    count := (if current.Some? then current.value else 0) + 1;
    if window > 0 {
      c.Set(key, count, now, window);
    } else {
      c.Delete([key]);
      assert (set k | k in [key]) == {key};
    }
  }
}
