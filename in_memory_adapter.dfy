/** The reference persistent store: a table from keys to entries that carry an
    absolute expiry time, with lazy deletion on read, explicit deletion, and a
    sweep that purges every expired entry. The wall clock is a parameter
    (`now`, milliseconds since the epoch, so never negative); the periodic
    timer that drives the sweep is not modelled, the sweep is a method the
    caller invokes. */
module InMemoryAdapter {
  import opened Values

  /** A stored value and its expiry time; `expiresAt == 0` means "never". */
  datatype Entry = Entry(data: Value, expiresAt: nat)

  /** An entry is expired at `now` when it has an expiry time that is not in the future. */
  predicate Expired(e: Entry, now: nat) {
    e.expiresAt > 0 && e.expiresAt <= now
  }

  /** The expiry time `set` records: `now + ttlMs` for a positive TTL, else "never". */
  function ExpiryFor(ttlMs: int, now: nat): (t: nat)
    ensures ttlMs > 0 ==> t > now && t - now == ttlMs
    ensures ttlMs <= 0 ==> t == 0
  {
    if ttlMs > 0 then now + ttlMs else 0
  }

  // ---- The table as a value: what each operation reads and leaves behind ----

  /** What `get` returns: the data of a present, unexpired entry, else null. */
  function Lookup(m: map<string, Entry>, key: string, now: nat): Value {
    if key in m && !Expired(m[key], now) then m[key].data else Null
  }

  /** The table after `get`: an expired entry for `key` is dropped, nothing else changes. */
  function AfterGet(m: map<string, Entry>, key: string, now: nat): map<string, Entry> {
    if key in m && Expired(m[key], now) then m - {key} else m
  }

  /** The table after `set`. */
  function Put(m: map<string, Entry>, key: string, v: Value, ttlMs: int, now: nat): map<string, Entry> {
    m[key := Entry(v, ExpiryFor(ttlMs, now))]
  }

  /** The table after a sweep at `now`: exactly the unexpired entries remain, unchanged. */
  function Purged(m: map<string, Entry>, now: nat): (m': map<string, Entry>)
    ensures forall k :: k in m' <==> k in m && !Expired(m[k], now)
    ensures forall k :: k in m' ==> m'[k] == m[k]
  {
    map k | k in m && !Expired(m[k], now) :: m[k]
  }

  class InMemoryStore {
    var store: map<string, Entry>
    /** Set once the sweep timer has been stopped. The store keeps working
        afterwards; not reusing a closed store is left to callers. */
    var closed: bool

    constructor ()
      ensures store == map[] && !closed
    {
      store := map[];
      closed := false;
    }

    /** The stored value if present and unexpired, else null; an expired
        entry met here is deleted. */
    method Get(key: string, now: nat) returns (v: Value)
      modifies this`store
      ensures v == Lookup(old(store), key, now)
      ensures store == AfterGet(old(store), key, now)
    {
      if key !in store {
        return Null;
      }
      var entry := store[key];
      if Expired(entry, now) {
        store := store - {key};
        return Null;
      }
      return entry.data;
    }

    /** Stores `value` under `key`, replacing any earlier entry, with expiry
        `now + ttlMs` for a positive TTL and no expiry otherwise. */
    method Set(key: string, value: Value, ttlMs: int, now: nat)
      modifies this`store
      ensures store == Put(old(store), key, value, ttlMs, now)
      ensures key in store && store[key].data == value
      ensures forall k :: k != key ==> (k in store <==> k in old(store)) && (k in store ==> store[k] == old(store)[k])
    {
      store := store[key := Entry(value, ExpiryFor(ttlMs, now))];
    }

    /** Removes any entry for `key`; an absent key is not an error. */
    method Del(key: string)
      modifies this`store
      ensures store == old(store) - {key}
      ensures key !in store
    {
      store := store - {key};
    }

    /** The sweep: walks the entries and deletes every one that has expired at `now`. */
    method CleanupExpired(now: nat)
      modifies this`store
      ensures store == Purged(old(store), now)
    {
      var pending := store.Keys;
      while pending != {}
        invariant pending <= old(store).Keys
        invariant forall k :: k in store <==> k in old(store) && (k in pending || !Expired(old(store)[k], now))
        invariant forall k :: k in store ==> store[k] == old(store)[k]
        decreases pending
      {
        var key :| key in pending;
        var entry := store[key];
        if Expired(entry, now) {
          store := store - {key};
        }
        pending := pending - {key};
      }
    }

    /** Stops the sweep timer. */
    method Close()
      modifies this`closed
      ensures closed
    {
      closed := true;
    }
  }

  // ---- Properties of the table operations ----

  /** `set` followed by `get` of the same key: the value is seen until the
      TTL elapses and null from then on; with no positive TTL it is always seen. */
  lemma SetThenGet(m: map<string, Entry>, key: string, v: Value, ttlMs: int, t: nat, now: nat)
    ensures ttlMs > 0 ==> Lookup(Put(m, key, v, ttlMs, t), key, now) == (if now < t + ttlMs then v else Null)
    ensures ttlMs <= 0 ==> Lookup(Put(m, key, v, ttlMs, t), key, now) == v
  {
  }

  /** `set` of one key does not change what `get` returns for any other key. */
  lemma SetLeavesOtherKeys(m: map<string, Entry>, key: string, v: Value, ttlMs: int, t: nat, other: string, now: nat)
    requires other != key
    ensures Lookup(Put(m, key, v, ttlMs, t), other, now) == Lookup(m, other, now)
  {
  }

  /** After `del`, `get` of that key returns null and every other key reads as before. */
  lemma DelThenGet(m: map<string, Entry>, key: string, other: string, now: nat)
    ensures Lookup(m - {key}, key, now) == Null
    ensures other != key ==> Lookup(m - {key}, other, now) == Lookup(m, other, now)
  {
  }

  /** The lazy deletion in `get` removes at most the one key read, only when
      that entry had expired, and is invisible to every later read. */
  lemma GetDeletesOnlyExpired(m: map<string, Entry>, key: string, now: nat, other: string, later: nat)
    requires now <= later
    ensures AfterGet(m, key, now) == m || (key in m && Expired(m[key], now) && AfterGet(m, key, now) == m - {key})
    ensures Lookup(AfterGet(m, key, now), other, later) == Lookup(m, other, later)
  {
  }

  /** A sweep at a fixed `now` is idempotent. */
  lemma PurgeIdempotent(m: map<string, Entry>, now: nat)
    ensures Purged(Purged(m, now), now) == Purged(m, now)
  {
    var once := Purged(m, now);
    var twice := Purged(once, now);
    assert twice.Keys == once.Keys;
  }

  /** A sweep at `now` never changes what `get` returns at `now` or later. */
  lemma PurgePreservesLookup(m: map<string, Entry>, now: nat, key: string, later: nat)
    requires now <= later
    ensures Lookup(Purged(m, now), key, later) == Lookup(m, key, later)
  {
  }
}
