/** The expiring key-value store the authentication core shares between
    requests: string keys, a value and an absolute expiry per key, and an
    integer clock in seconds. A key whose expiry the clock has reached reads
    as absent, exactly like a key that was never written. */
module KvStore {
  import opened Outcomes

  datatype Entry<V> = Entry(value: V, expiresAt: int)

  /** A snapshot of the store: what it holds and what time it is. */
  datatype State<V> = State(entries: map<string, Entry<V>>, now: int)

  /** `GET key`: the value, while the entry has not expired. */
  function Lookup<V>(s: State<V>, key: string): (r: Option<V>)
    ensures r.Some? <==> key in s.entries && s.now < s.entries[key].expiresAt
    ensures r.Some? ==> r.value == s.entries[key].value
  {
    if key in s.entries && s.now < s.entries[key].expiresAt then Some(s.entries[key].value) else None
  }

  /** `SETEX key ttl value`: overwrite the value and restart the expiry. */
  function Put<V>(s: State<V>, key: string, ttl: int, v: V): (s': State<V>)
    requires ttl > 0
    ensures Lookup(s', key) == Some(v)
    ensures key in s'.entries && s'.entries[key].expiresAt == s.now + ttl
    ensures forall k :: k != key ==> Lookup(s', k) == Lookup(s, k)
    ensures s'.now == s.now
  {
    State(s.entries[key := Entry(v, s.now + ttl)], s.now)
  }

  /** `DEL key`: afterwards the key reads as absent; nothing else changes. */
  function Remove<V>(s: State<V>, key: string): (s': State<V>)
    ensures Lookup(s', key) == None
    ensures forall k :: k != key ==> Lookup(s', k) == Lookup(s, k)
    ensures s'.now == s.now
  {
    State(s.entries - {key}, s.now)
  }

  /** The passing of `dt` seconds. */
  function Elapse<V>(s: State<V>, dt: nat): (s': State<V>)
    ensures s'.now == s.now + dt
    ensures forall k :: Lookup(s', k).Some? ==> Lookup(s', k) == Lookup(s, k)
  {
    State(s.entries, s.now + dt)
  }

  /** A value written with `SETEX` stays readable for exactly `ttl` seconds,
      as long as nobody writes or deletes the key in between. */
  lemma PutLivesForTtl<V>(s: State<V>, key: string, ttl: int, v: V, dt: nat)
    requires ttl > 0
    ensures Lookup(Elapse(Put(s, key, ttl, v), dt), key) == (if dt < ttl then Some(v) else None)
  {
  }

  /** The store behind the Redis client: its fields are updated in place by
      the request handlers. */
  class Store<V> {
    var entries: map<string, Entry<V>>
    var now: int

    function Snapshot(): State<V>
      reads this
    {
      State(entries, now)
    }

    constructor (start: int)
      ensures Snapshot() == State(map[], start)
    {
      entries := map[];
      now := start;
    }

    /** `GET key` */
    function Get(key: string): (r: Option<V>)
      reads this
      ensures r == Lookup(Snapshot(), key)
    {
      if key in entries && now < entries[key].expiresAt then Some(entries[key].value) else None
    }

    /** `SETEX key ttl value` */
    method SetEx(key: string, ttl: int, v: V)
      requires ttl > 0
      modifies this
      ensures Snapshot() == Put(old(Snapshot()), key, ttl, v)
    {
      entries := entries[key := Entry(v, now + ttl)];
    }

    /** `DEL key` */
    method Delete(key: string)
      modifies this
      ensures Snapshot() == Remove(old(Snapshot()), key)
    {
      entries := entries - {key};
    }

    /** The clock moves forward; entries whose expiry it reaches disappear. */
    method Tick(dt: nat)
      modifies this
      ensures Snapshot() == Elapse(old(Snapshot()), dt)
    {
      now := now + dt;
    }
  }
}
