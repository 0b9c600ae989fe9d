/**
 The bounded cache with expiry that both the mesh routes and the login flags are kept in.
 An entry is good up to and including its expiry. A full cache drops its expired entries
 when something is stored, and everything if that was not enough.
 */
module ExpiringCache {
  import opened Common

  datatype Entry<+V> = Entry(value: V, expiresAt: Time)

  predicate Expired<V>(entry: Entry<V>, now: Time) {
    now > entry.expiresAt
  }

  /** What a lookup at `now` finds. */
  function Lookup<V>(entries: map<string, Entry<V>>, key: string, now: Time): Option<V> {
    if key in entries && !Expired(entries[key], now) then Some(entries[key].value) else None
  }

  function Unexpired<V>(entries: map<string, Entry<V>>, now: Time): map<string, Entry<V>> {
    map key | key in entries && !Expired(entries[key], now) :: entries[key]
  }

  /** What is kept when something is stored. */
  function Kept<V>(entries: map<string, Entry<V>>, now: Time, maxEntries: nat): map<string, Entry<V>> {
    if |entries| < maxEntries then entries
    else if |Unexpired(entries, now)| < maxEntries then Unexpired(entries, now)
    else map[]
  }

  /** Storing never exceeds the bound, invents nothing, and drops an unexpired entry only by dropping all of them. */
  lemma KeptIsBounded<V>(entries: map<string, Entry<V>>, now: Time, maxEntries: nat)
    requires maxEntries > 0
    ensures |Kept(entries, now, maxEntries)| < maxEntries
    ensures forall key | key in Kept(entries, now, maxEntries) ::
              key in entries && Kept(entries, now, maxEntries)[key] == entries[key]
    ensures Kept(entries, now, maxEntries) != map[] ==>
              forall key | key in entries && !Expired(entries[key], now) :: key in Kept(entries, now, maxEntries)
  {
  }

  /** The cache after something is stored. */
  function Stored<V>(entries: map<string, Entry<V>>, key: string, value: V, now: Time, timeToLive: Time,
      maxEntries: nat)
    : map<string, Entry<V>>
  {
    Kept(entries, now, maxEntries)[key := Entry(value, now + timeToLive)]
  }

  lemma UnexpiredAreFewer<V>(entries: map<string, Entry<V>>, now: Time)
    ensures |Unexpired(entries, now)| <= |entries|
  {
    assert Unexpired(entries, now).Keys <= entries.Keys;
    var dropped := entries.Keys - Unexpired(entries, now).Keys;
    assert entries.Keys == Unexpired(entries, now).Keys + dropped;
  }

  /**
   What was stored is found from then on until its time is over and not a moment longer. Whatever
   else would have been found still is if and only if there are fewer unexpired entries than the
   cache may hold; otherwise nothing else is.
   */
  lemma StoredIsFound<V>(entries: map<string, Entry<V>>, key: string, value: V, now: Time, timeToLive: Time,
      maxEntries: nat, other: string, later: Time)
    requires maxEntries > 0 && other != key
    ensures var after := Stored(entries, key, value, now, timeToLive, maxEntries);
            && Lookup(after, key, later) == (if later <= now + timeToLive then Some(value) else None)
            && (Lookup(after, other, later).Some? ==> Lookup(after, other, later) == Lookup(entries, other, later))
            && (|entries| < maxEntries ==> Lookup(after, other, later) == Lookup(entries, other, later))
            && (later >= now ==>
                  var kept := |Unexpired(entries, now)| < maxEntries;
                  Lookup(after, other, later) == if kept then Lookup(entries, other, later) else None)
  {
    KeptIsBounded(entries, now, maxEntries);
    UnexpiredAreFewer(entries, now);
  }

  lemma UpdateSize<V>(entries: map<string, Entry<V>>, key: string, entry: Entry<V>)
    ensures |entries[key := entry]| <= |entries| + 1
  {
    assert entries[key := entry].Keys == entries.Keys + {key};
  }

  class Cache<V> {
    const timeToLive: Time
    const maxEntries: nat
    var entries: map<string, Entry<V>>

    ghost predicate Valid()
      reads this
    {
      |entries| <= maxEntries && maxEntries > 0
    }

    constructor (timeToLive: Time, maxEntries: nat)
      requires maxEntries > 0
      ensures Valid() && entries == map[] && this.timeToLive == timeToLive && this.maxEntries == maxEntries
    {
      this.timeToLive := timeToLive;
      this.maxEntries := maxEntries;
      entries := map[];
    }

    method Get(key: string, now: Time) returns (found: Option<V>)
      ensures found == Lookup(entries, key, now)
      ensures found.Some? ==> key in entries && now <= entries[key].expiresAt
    {
      if key !in entries || now > entries[key].expiresAt {
        return None;
      }
      found := Some(entries[key].value);
    }

    /** The lookup of the login flags also drops the entry it found expired. */
    method GetOrDrop(key: string, now: Time) returns (found: Option<V>)
      requires Valid()
      modifies this
      ensures Valid() && found == Lookup(old(entries), key, now)
      ensures entries == if key in old(entries) && found.None? then old(entries) - {key} else old(entries)
    {
      if key !in entries {
        return None;
      }
      if now > entries[key].expiresAt {
        Invalidate(key);
        return None;
      }
      found := Some(entries[key].value);
    }

    method Invalidate(key: string)
      requires Valid()
      modifies this
      ensures Valid() && entries == old(entries) - {key}
      ensures forall now :: Lookup(entries, key, now).None?
      ensures forall other, now | other != key :: Lookup(entries, other, now) == Lookup(old(entries), other, now)
    {
      entries := entries - {key};
      assert entries.Keys == old(entries).Keys - {key};
    }

    method Put(key: string, value: V, sweepAt: Time, storeAt: Time)
      requires Valid()
      modifies this
      ensures Valid() && entries == Kept(old(entries), sweepAt, maxEntries)[key := Entry(value, storeAt + timeToLive)]
    {
      if |entries| >= maxEntries {
        Sweep(sweepAt);
        if |entries| >= maxEntries {
          entries := map[];
        }
      }
      KeptIsBounded(old(entries), sweepAt, maxEntries);
      UpdateSize(entries, key, Entry(value, storeAt + timeToLive));
      entries := entries[key := Entry(value, storeAt + timeToLive)];
    }

    /** Drops the expired entries one by one. */
    method Sweep(now: Time)
      modifies this
      ensures entries == Unexpired(old(entries), now)
    {
      var keys := entries.Keys;
      while keys != {}
        invariant keys <= old(entries).Keys
        invariant entries == map key | key in old(entries) && (key in keys || !Expired(old(entries)[key], now)) ::
            old(entries)[key]
      {
        var key :| key in keys;
        keys := keys - {key};
        if now > entries[key].expiresAt {
          entries := entries - {key};
        }
      }
    }
  }
}
