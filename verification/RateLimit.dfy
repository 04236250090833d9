/**
 * The rate limiter's storage: entries are dropped lazily, eagerly and in sweeps, yet it answers
 * like a plain expiring map.
 */
module RateLimit {
  import opened Wrappers

  // Times and durations are nanoseconds.
  const SWEEP_INTERVAL := 1_000_000_000

  datatype Entry = Entry(value: array<bv8>, expiresAt: Option<int>)

  /** An entry of the plain map: bytes instead of a buffer. */
  datatype PlainEntry = PlainEntry(value: seq<bv8>, expiresAt: Option<int>)

  predicate Expired(expiresAt: Option<int>, now: int) {
    expiresAt.Some? && expiresAt.value <= now
  }

  /** What the plain map, from which nothing is ever swept, answers at a time. */
  ghost function Answer(plain: map<string, PlainEntry>, key: string, now: int): Option<seq<bv8>> {
    if key in plain && (plain[key].expiresAt.None? || now < plain[key].expiresAt.value) then Some(plain[key].value)
    else None
  }

  /** Every entry that expires does so after the bound. */
  predicate ExpireAfter(entries: map<string, Entry>, bound: int) {
    forall k {:trigger entries[k]} | k in entries && entries[k].expiresAt.Some? :: entries[k].expiresAt.value > bound
  }

  class Storage {
    var entries: map<string, Entry>
    var nextSweep: Option<int>
    // Every Set, Delete and Reset so far, but no expiry.
    ghost var plain: map<string, PlainEntry>
    // The latest time any operation has used, and whether they all came in order.
    ghost var latest: int
    ghost var ordered: bool
    ghost var Repr: set<object>

    ghost predicate Valid()
      reads this, Repr
    {
      && this in Repr
      && (forall k | k in entries ::
            entries[k].value in Repr && k in plain
                && plain[k] == PlainEntry(entries[k].value[..], entries[k].expiresAt))
      && (forall k | k in plain && k !in entries :: Expired(plain[k].expiresAt, latest))
      && "" !in plain
      && (nextSweep.Some? ==> nextSweep.value <= latest + SWEEP_INTERVAL)
      && (ordered && nextSweep.Some? ==> ExpireAfter(entries, nextSweep.value - SWEEP_INTERVAL))
      && (ordered && nextSweep.None? ==> entries == map[])
    }

    constructor (now: int)
      ensures Valid() && fresh(Repr) && plain == map[] && latest == now && ordered
    {
      entries, nextSweep := map[], None;
      plain, latest, ordered, Repr := map[], now, true, {this};
    }

    ghost method Uses(now: int)
      requires Valid()
      modifies this`latest, this`ordered
      ensures Valid()
      ensures latest == (if now < old(latest) then old(latest) else now)
                && ordered == (old(ordered) && now >= old(latest))
    {
      ordered := ordered && now >= latest;
      latest := if now < latest then latest else now;
    }

    /**
     * Get. Requests read the clock before they take the lock, so `now` may lie behind the latest time; then exactly an
     * entry that was dropped before, because it has expired since, is missed.
     */
    method Get(key: string, now: int) returns (r: array?<bv8>)
      requires Valid()
      modifies this
      ensures Valid() && Repr == old(Repr) && plain == old(plain)
      ensures latest == (if now < old(latest) then old(latest) else now)
                && ordered == (old(ordered) && now >= old(latest))
      ensures r != null ==> fresh(r) && r !in Repr && Answer(plain, key, now) == Some(r[..])
      ensures r == null ==> Answer(plain, key, now) == None || Answer(plain, key, latest) == None
      ensures (r == null && Answer(plain, key, now).Some?) <==>
                (key in plain && !Expired(plain[key].expiresAt, now) && key !in old(entries))
      ensures now >= old(latest) ==> (r == null <==> Answer(plain, key, now) == None)
      ensures key != "" && key in plain && Expired(plain[key].expiresAt, now) ==> key !in entries
      ensures key !in old(entries) ==> r == null
    {
      Uses(now);
      if key == "" {
        return null;
      }
      var found := key in entries;
      if found && entries[key].expiresAt.Some? && entries[key].expiresAt.value <= now {
        entries := entries - {key};
        found := false;
      }
      if !found {
        return null;
      }
      r := Clone(entries[key].value);
    }

    method Set(key: string, value: array<bv8>, expiration: int, now: int)
      requires Valid() && value !in Repr
      modifies this
      ensures Valid() && fresh(Repr - old(Repr)) && value !in Repr
      ensures key == "" || value.Length == 0 ==> plain == old(plain)
      ensures key != "" && value.Length != 0 ==>
                && plain == old(plain)[key := PlainEntry(value[..], if expiration > 0 then Some(now + expiration)
                    else None)]
                && key in entries
                && (ordered ==> ExpireAfter(entries, now - 1_000_000_000))
                && (old(nextSweep).None? || now >= old(nextSweep).value ==> ExpireAfter(entries, now))
      ensures key != "" && value.Length != 0 ==>
                latest == (if now < old(latest) then old(latest) else now)
                    && ordered == (old(ordered) && now >= old(latest))
    {
      if key == "" || value.Length == 0 {
        return;
      }
      Uses(now);
      var copy := Clone(value);
      var entry := Entry(copy, if expiration > 0 then Some(now + expiration) else None);
      SweepExpired(now);
      Insert(key, entry);
    }

    method Insert(key: string, entry: Entry)
      requires Valid() && key != "" && entry.value !in Repr
      requires nextSweep.Some? && (entry.expiresAt.Some? && ordered ==>
                 entry.expiresAt.value > nextSweep.value - SWEEP_INTERVAL)
      modifies this`entries, this`plain, this`Repr
      ensures Valid() && Repr == old(Repr) + {entry.value}
      ensures entries == old(entries)[key := entry]
      ensures plain == old(plain)[key := PlainEntry(entry.value[..], entry.expiresAt)]
    {
      entries := entries[key := entry];
      plain := plain[key := PlainEntry(entry.value[..], entry.expiresAt)];
      Repr := Repr + {entry.value};
    }

    method Delete(key: string)
      requires Valid()
      modifies this
      ensures Valid() && Repr == old(Repr)
      ensures plain == old(plain) - {key} && latest == old(latest) && ordered == old(ordered)
      ensures forall at :: Answer(plain, key, at) == None
    {
      entries := entries - {key};
      plain := plain - {key};
    }

    method Reset()
      requires Valid()
      modifies this
      ensures Valid() && Repr == old(Repr)
      ensures plain == map[] && entries == map[] && latest == old(latest) && ordered == old(ordered)
    {
      entries := map[];
      nextSweep := None;
      plain := map[];
    }

    method DropExpired(now: int)
      modifies this`entries
      ensures forall k | k in entries ::
                k in old(entries) && entries[k] == old(entries)[k] && !Expired(entries[k].expiresAt, now)
      ensures forall k | k in old(entries) && k !in entries :: Expired(old(entries)[k].expiresAt, now)
    {
      var rest := entries.Keys;
      while rest != {}
        invariant rest <= entries.Keys
        invariant forall k | k in entries :: k in old(entries) && entries[k] == old(entries)[k]
        invariant forall k | k in old(entries) && k !in entries :: Expired(old(entries)[k].expiresAt, now)
        invariant forall k | k in entries && k !in rest :: !Expired(entries[k].expiresAt, now)
        decreases |rest|
      {
        var key :| key in rest;
        rest := rest - {key};
        if entries[key].expiresAt.Some? && entries[key].expiresAt.value <= now {
          entries := entries - {key};
        }
      }
    }

    /** sweepExpired: at most once per interval every expired entry goes. */
    method SweepExpired(now: int)
      requires Valid() && now <= latest && (ordered ==> now == latest)
      modifies this`entries, this`nextSweep
      ensures Valid()
      ensures if old(nextSweep).Some? && now < old(nextSweep).value
              then nextSweep == old(nextSweep) && entries == old(entries)
              else nextSweep == Some(now + 1_000_000_000)
      ensures forall k | k in entries :: k in old(entries) && entries[k] == old(entries)[k]
      ensures forall k | k in old(entries) && !Expired(old(entries)[k].expiresAt, now) :: k in entries
      ensures old(nextSweep).None? || now >= old(nextSweep).value ==>
                ExpireAfter(entries, now)
    {
      if nextSweep.Some? && now < nextSweep.value {
        return;
      }
      DropExpired(now);
      nextSweep := Some(now + SWEEP_INTERVAL);
    }
  }

  /** bytes.Clone. */
  method Clone(value: array<bv8>) returns (copy: array<bv8>)
    ensures fresh(copy) && copy[..] == value[..]
  {
    copy := new bv8[value.Length](i requires 0 <= i < value.Length reads value => value[i]);
  }

  /** Neither the buffer given to Set nor one returned by Get reaches what is stored. */
  method StoredBytesAreOutOfReach(storage: Storage, key: string, value: array<bv8>, other: bv8, now: int)
    returns (again: array?<bv8>)
    requires storage.Valid() && value !in storage.Repr && key != "" && value.Length > 0 && now >= storage.latest
    modifies storage, value
    ensures again != null && again[..] == old(value[..])
  {
    ghost var bytes := value[..];
    storage.Set(key, value, 0, now);
    value[0] := other;
    var stored := storage.Get(key, now);
    if stored != null && stored.Length > 0 {
      stored[0] := other;
    }
    again := storage.Get(key, now);
  }

  /** The limit of reading the clock early: a request that read it before another one dropped the entry misses it. */
  method LateGetMisses(value: array<bv8>) returns (storage: Storage, r: array?<bv8>)
    requires value.Length > 0
    ensures storage.Valid() && r == null && Answer(storage.plain, "key", 5) == Some(value[..])
  {
    storage := new Storage(0);
    storage.Set("key", value, 10, 0);
    r := storage.Get("key", 20);
    r := storage.Get("key", 5);
  }
}
