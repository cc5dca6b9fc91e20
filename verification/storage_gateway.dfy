/** The browser-storage gateway with expiry: every item is stored under the gateway's
    prefix together with its expiry, creation and update instants; reads drop expired
    items; the namespace can be cleared or swept of expired and unreadable entries. The
    backing storage is a map from full keys to entries, shared with keys of other
    namespaces; the clock is a parameter. */
module StorageGateway {
  import opened Wrappers
  import Text

  /** 24 hours, in milliseconds. */
  const DefaultTtl: int := 24 * 60 * 60 * 1000

  const DefaultPrefix: string := "belezeiro_"

  datatype StorageItem<T> = StorageItem(data: T, expiresAt: int, createdAt: int, updatedAt: int)

  /** The text stored under a key, by how the gateway treats it. */
  datatype Entry<T> =
    /** The JSON of an item with a numeric expiry. */
    | Stored(item: StorageItem<T>)
    /** Text that is not JSON: a read finds nothing and the sweep removes it. */
    | Unparsable
    /** The empty string: a read finds nothing and the sweep skips it. */
    | EmptyText
    /** The JSON `null`: a read finds nothing; the sweep fails to read an expiry from it
        and removes it. */
    | JsonNull
    /** Other JSON with no numeric expiry (`42`, `false`, `{}`): its expiry compares
        false, so the sweep keeps it. */
    | NoExpiry

  datatype ItemWithMetadata<T> = ItemWithMetadata(data: T, expiresAt: int, remainingTime: int)

  /** `getFullKey`: the prefix, then the key. */
  function FullKey(prefix: string, key: string): (k: string)
    ensures Text.IsPrefix(prefix, k) && k[|prefix|..] == key
  {
    assert (prefix + key)[..|prefix|] == prefix;
    prefix + key
  }

  /** `isExpired`: strictly past the expiry; at the expiry instant the item is still good. */
  function IsExpired<T>(item: StorageItem<T>, now: int): (b: bool)
    ensures now <= item.expiresAt ==> !b
    ensures now > item.expiresAt ==> b
  {
    now > item.expiresAt
  }

  /** `getRawItem`: the readable item under the full key, if any. */
  function RawItemIn<T>(st: map<string, Entry<T>>, full: string): (r: Option<StorageItem<T>>)
    ensures r.Some? <==> full in st && st[full].Stored?
    ensures r.Some? ==> st[full] == Stored(r.value)
  {
    if full in st && st[full].Stored? then Some(st[full].item) else None
  }

  /** What `get` returns: the data of a readable item that has not expired. */
  function LiveIn<T>(st: map<string, Entry<T>>, full: string, now: int): (r: Option<T>)
    ensures r.Some? <==> RawItemIn(st, full).Some? && !IsExpired(RawItemIn(st, full).value, now)
    ensures r.Some? ==> r.value == RawItemIn(st, full).value.data
  {
    match RawItemIn(st, full)
    case None => None
    case Some(item) => if IsExpired(item, now) then None else Some(item.data)
  }

  /** The storage after a read at `now`: an expired readable item under the key is gone. */
  function Cleared<T>(st: map<string, Entry<T>>, full: string, now: int): (r: map<string, Entry<T>>)
    ensures LiveIn(r, full, now) == LiveIn(st, full, now)
    ensures RawItemIn(r, full).Some? ==> !IsExpired(RawItemIn(r, full).value, now)
  {
    if RawItemIn(st, full).Some? && IsExpired(RawItemIn(st, full).value, now) then st - {full} else st
  }

  /** The storage after `save`: a fresh expiry and update instant, and the creation instant
      of any readable item already there (expired or not). */
  function Saved<T>(st: map<string, Entry<T>>, full: string, data: T, ttl: int, now: int): map<string, Entry<T>> {
    var createdAt := match RawItemIn(st, full) case Some(prev) => prev.createdAt case None => now;
    st[full := Stored(StorageItem(data, now + ttl, createdAt, now))]
  }

  /** A saved item reads back until its expiry and not after; it keeps the creation
      instant of the item it replaced; nothing else changes. */
  lemma SaveThenRead<T>(st: map<string, Entry<T>>, full: string, data: T, ttl: int, now: int, t: int)
    ensures LiveIn(Saved(st, full, data, ttl, now), full, t) == if t <= now + ttl then Some(data) else None
    ensures RawItemIn(Saved(st, full, data, ttl, now), full).value.updatedAt == now
    ensures RawItemIn(st, full).Some? ==>
              RawItemIn(Saved(st, full, data, ttl, now), full).value.createdAt == RawItemIn(st, full).value.createdAt
    ensures forall k :: k != full ==> (k in Saved(st, full, data, ttl, now) <==> k in st)
    ensures forall k :: k != full && k in st ==> Saved(st, full, data, ttl, now)[k] == st[k]
  {
  }

  /** An entry `cleanupExpired` removes: in the namespace, and expired, not JSON, or the
      JSON `null`. */
  predicate Stale<T>(prefix: string, k: string, e: Entry<T>, now: int) {
    Text.IsPrefix(prefix, k) && (e.Unparsable? || e.JsonNull? || (e.Stored? && IsExpired(e.item, now)))
  }

  function WithoutStale<T>(st: map<string, Entry<T>>, prefix: string, now: int): map<string, Entry<T>> {
    map k | k in st && !Stale(prefix, k, st[k], now) :: st[k]
  }

  function StaleKeys<T>(st: map<string, Entry<T>>, prefix: string, now: int): set<string> {
    set k | k in st && Stale(prefix, k, st[k], now)
  }

  /** Sweeping leaves every key of another namespace alone, keeps empty texts and JSON
      without an expiry, and does not change what any read at the same instant returns. */
  lemma SweepIsInvisible<T>(st: map<string, Entry<T>>, prefix: string, now: int, key: string)
    ensures LiveIn(WithoutStale(st, prefix, now), FullKey(prefix, key), now) == LiveIn(st, FullKey(prefix, key), now)
    ensures forall k :: !Text.IsPrefix(prefix, k) ==> (k in WithoutStale(st, prefix, now) <==> k in st)
    ensures forall k :: k in st && (st[k].EmptyText? || st[k].NoExpiry?) ==>
                          k in WithoutStale(st, prefix, now) && WithoutStale(st, prefix, now)[k] == st[k]
    ensures forall k :: k in st && Text.IsPrefix(prefix, k) && (st[k].Unparsable? || st[k].JsonNull?) ==>
                          k !in WithoutStale(st, prefix, now)
  {
  }

  function WithoutNamespace<T>(st: map<string, Entry<T>>, prefix: string): map<string, Entry<T>> {
    map k | k in st && !Text.IsPrefix(prefix, k) :: st[k]
  }

  /** After clearing, no key of the namespace reads back and every other key is as it was. */
  lemma ClearAllEmptiesNamespace<T>(st: map<string, Entry<T>>, prefix: string, now: int, key: string)
    ensures LiveIn(WithoutNamespace(st, prefix), FullKey(prefix, key), now).None?
    ensures forall k :: k in st && !Text.IsPrefix(prefix, k) ==>
                         k in WithoutNamespace(st, prefix) && WithoutNamespace(st, prefix)[k] == st[k]
  {
  }

  class StorageGateway<T(==)> {
    const ttl: int
    const prefix: string
    /** The shared storage, by full key. */
    var storage: map<string, Entry<T>>

    /** Absent options take the defaults: 24 hours and "belezeiro_". */
    constructor (ttl: Option<int>, prefix: Option<string>, storage: map<string, Entry<T>>)
      ensures this.ttl == ttl.GetOr(DefaultTtl) && this.prefix == prefix.GetOr(DefaultPrefix)
      ensures this.storage == storage
    {
      this.ttl := ttl.GetOr(DefaultTtl);
      this.prefix := prefix.GetOr(DefaultPrefix);
      this.storage := storage;
    }

    function RawItem(key: string): Option<StorageItem<T>>
      reads this
    {
      RawItemIn(storage, FullKey(prefix, key))
    }

    function Live(key: string, now: int): Option<T>
      reads this
    {
      LiveIn(storage, FullKey(prefix, key), now)
    }

    /** `save`: writes the item under the full key. */
    method Save(key: string, data: T, now: int) returns (ok: bool)
      modifies this
      ensures ok
      ensures storage == Saved(old(storage), FullKey(prefix, key), data, ttl, now)
    {
      var createdAt := match RawItem(key) case Some(prev) => prev.createdAt case None => now;
      storage := storage[FullKey(prefix, key) := Stored(StorageItem(data, now + ttl, createdAt, now))];
      ok := true;
    }

    /** `remove`. */
    method Remove(key: string) returns (ok: bool)
      modifies this
      ensures ok && storage == old(storage) - {FullKey(prefix, key)}
    {
      storage := storage - {FullKey(prefix, key)};
      ok := true;
    }

    /** `get`: the data of a live item; an expired item is removed on the way. */
    method Get(key: string, now: int) returns (r: Option<T>)
      modifies this
      ensures r == old(Live(key, now))
      ensures storage == Cleared(old(storage), FullKey(prefix, key), now)
    {
      var item := RawItem(key);
      if item.None? {
        return None;
      }
      if IsExpired(item.value, now) {
        var _ := Remove(key);
        return None;
      }
      r := Some(item.value.data);
    }

    /** `getWithMetadata`: as `get`, with the expiry and the time left. */
    method GetWithMetadata(key: string, now: int) returns (r: Option<ItemWithMetadata<T>>)
      modifies this
      ensures r.Some? <==> old(Live(key, now)).Some?
      ensures r.Some? ==> r.value.data == old(Live(key, now)).value
                          && r.value.expiresAt == old(RawItem(key)).value.expiresAt
                          && r.value.remainingTime == r.value.expiresAt - now >= 0
      ensures storage == Cleared(old(storage), FullKey(prefix, key), now)
    {
      var item := RawItem(key);
      if item.None? {
        return None;
      }
      if IsExpired(item.value, now) {
        var _ := Remove(key);
        return None;
      }
      r := Some(ItemWithMetadata(item.value.data, item.value.expiresAt, item.value.expiresAt - now));
    }

    /** `exists`: whether `get` finds something. */
    method Exists(key: string, now: int) returns (b: bool)
      modifies this
      ensures b <==> old(Live(key, now)).Some?
      ensures storage == Cleared(old(storage), FullKey(prefix, key), now)
    {
      var r := Get(key, now);
      b := r.Some?;
    }

    /** `update`: merges the partial data into the live data (`spread` is the object
      spread `{...existing, ...partial}` of the data type) or, when there is none, saves
      the partial data as it is. */
    method Update(key: string, partial: T, spread: (T, T) -> T, now: int) returns (ok: bool)
      modifies this
      ensures ok
      ensures storage == Saved(Cleared(old(storage), FullKey(prefix, key), now), FullKey(prefix, key),
                               match old(Live(key, now)) case Some(d) => spread(d, partial) case None => partial,
                               ttl, now)
    {
      var existing := Get(key, now);
      if existing.None? {
        ok := Save(key, partial, now);
      } else {
        ok := Save(key, spread(existing.value, partial), now);
      }
    }

    /** `refreshTTL`: saves the live data again, which restarts its expiry; false when
      there is none. */
    method RefreshTtl(key: string, now: int) returns (ok: bool)
      modifies this
      ensures ok <==> old(Live(key, now)).Some?
      ensures ok ==> storage == Saved(old(storage), FullKey(prefix, key), old(Live(key, now)).value, ttl, now)
      ensures ok ==> RawItem(key).value.createdAt == old(RawItem(key)).value.createdAt
      ensures !ok ==> storage == Cleared(old(storage), FullKey(prefix, key), now)
    {
      var data := Get(key, now);
      if data.None? {
        return false;
      }
      ok := Save(key, data.value, now);
    }

    /** `getRemainingTime`: the time left of a live item. */
    function GetRemainingTime(key: string, now: int): (r: Option<int>)
      reads this
      ensures r.None? <==> Live(key, now).None?
      ensures r.Some? ==> r.value >= 0 && r.value == RawItem(key).value.expiresAt - now
    {
      match RawItem(key)
      case None => None
      case Some(item) => if IsExpired(item, now) then None else Some(item.expiresAt - now)
    }

    /** `clearAll`: collects the keys of the namespace, then removes them. */
    method ClearAll() returns (ok: bool)
      modifies this
      ensures ok && storage == WithoutNamespace(old(storage), prefix)
    {
      var keysToRemove: set<string> := {};
      var unvisited := storage.Keys;
      while unvisited != {}
        invariant unvisited <= storage.Keys && storage == old(storage)
        invariant keysToRemove == set k | k in storage.Keys - unvisited && Text.IsPrefix(prefix, k)
        decreases unvisited
      {
        var k :| k in unvisited;
        if Text.IsPrefix(prefix, k) {
          keysToRemove := keysToRemove + {k};
        }
        unvisited := unvisited - {k};
      }
      assert keysToRemove == set k | k in old(storage) && Text.IsPrefix(prefix, k);
      var pending := keysToRemove;
      while pending != {}
        invariant pending <= keysToRemove
        invariant storage == map k | k in old(storage) && k !in keysToRemove - pending :: old(storage)[k]
        decreases pending
      {
        var k :| k in pending;
        storage := storage - {k};
        pending := pending - {k};
      }
      ok := true;
    }

    /** `cleanupExpired`: removes the entries of the namespace that are expired, do not
      parse, or are the JSON `null`, and counts them. */
    method CleanupExpired(now: int) returns (count: nat)
      modifies this
      ensures storage == WithoutStale(old(storage), prefix, now)
      ensures count == |StaleKeys(old(storage), prefix, now)|
    {
      var keysToCheck: set<string> := {};
      var unvisited := storage.Keys;
      while unvisited != {}
        invariant unvisited <= storage.Keys && storage == old(storage)
        invariant keysToCheck == set k | k in storage.Keys - unvisited && Text.IsPrefix(prefix, k)
        decreases unvisited
      {
        var k :| k in unvisited;
        if Text.IsPrefix(prefix, k) {
          keysToCheck := keysToCheck + {k};
        }
        unvisited := unvisited - {k};
      }
      count := 0;
      var removed: set<string> := {};
      var pending := keysToCheck;
      while pending != {}
        invariant pending <= keysToCheck <= old(storage).Keys
        invariant forall k :: k in keysToCheck ==> Text.IsPrefix(prefix, k)
        invariant removed == set k | k in keysToCheck - pending && Stale(prefix, k, old(storage)[k], now)
        invariant count == |removed|
        invariant storage == map k | k in old(storage) && k !in removed :: old(storage)[k]
        decreases pending
      {
        var k :| k in pending;
        var e := storage[k];
        if e.Unparsable? || e.JsonNull? || (e.Stored? && now > e.item.expiresAt) {
          storage := storage - {k};
          removed := removed + {k};
          count := count + 1;
        }
        pending := pending - {k};
      }
      assert removed == StaleKeys(old(storage), prefix, now);
    }
  }
}
