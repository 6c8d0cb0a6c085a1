/**
 * The `storage` object of src/app.js: the saved city and the time-stamped cache
 * entries kept in the browser's key/value store. The clock is a parameter `now`.
 */
module Cache {
  import opened Wrappers
  import Text

  /** A city as the pages keep it: a UUID and a display name. */
  datatype City = City(id: string, name: string)

  /**
   * What the stored text for a key parses to. `Unparsable` is text `JSON.parse` rejects;
   * `NotObject` is null or a primitive; a cache entry `{t, d}` has an optional time stamp
   * (None when missing) and an optional payload (None when null or missing); a city record
   * `{id, name}` has "" for a missing field.
   */
  datatype Stored<T> =
    | Unparsable
    | NotObject
    | CacheEntry(t: Option<int>, d: Option<T>)
    | CityRecord(id: string, name: string)

  /** Key of the saved city. */
  const CityKey: string := "city"

  /** Time to live of the cached category tree, in milliseconds (12 hours). */
  const TreeCacheTtl: int := 12 * 60 * 60 * 1000


  /** Cache key of a city's category tree. */
  function TreeKey(cityId: string): string {
    "tree:" + cityId
  }

  /** `getCity()` over the store: the saved record when its id and name are non-empty and
      the id has the UUID shape. */
  function SavedCity<T>(items: map<string, Stored<T>>): Option<City> {
    if CityKey in items && items[CityKey].CityRecord? then
      var v := items[CityKey];
      if v.id != "" && v.name != "" && Text.IsUUID(v.id) then Some(City(v.id, v.name)) else None
    else None
  }

  /** `getCached(key, ttl)` at time `now`: a miss unless the entry parses to an object whose
      `t` is truthy, whose `d` is not null and whose age is at most `ttl`. */
  function Lookup<T>(items: map<string, Stored<T>>, key: string, ttl: int, now: int): Option<T> {
    if key in items && items[key].CacheEntry? then
      var e := items[key];
      if e.t.None? || e.t.value == 0 || e.d.None? then None
      else if now - e.t.value > ttl then None
      else e.d
    else None
  }

  /** The store, shared by all pages of one origin. */
  class Storage<T> {
    var items: map<string, Stored<T>>

    constructor ()
      ensures items == map[]
    {
      items := map[];
    }

    /** `storage.getCity()` */
    method GetCity() returns (c: Option<City>)
      ensures c == SavedCity(items)
      ensures c.Some? ==> Text.IsUUID(c.value.id) && c.value.name != ""
    {
      c := None;
      if CityKey in items {
        var v := items[CityKey];
        if v.CityRecord? && v.id != "" && v.name != "" && Text.IsUUID(v.id) {
          c := Some(City(v.id, v.name));
        }
      }
    }

    /** `storage.setCity(city)` */
    method SetCity(c: City)
      modifies this
      ensures items == old(items)[CityKey := CityRecord(c.id, c.name)]
    {
      items := items[CityKey := CityRecord(c.id, c.name)];
    }

    /** `storage.getCached(key, ttlMs)` with `Date.now()` given as `now`. */
    method GetCached(key: string, ttl: int, now: int) returns (d: Option<T>)
      ensures d == Lookup(items, key, ttl, now)
    {
      d := None;
      if key in items {
        var obj := items[key];
        if obj.CacheEntry? {
          if obj.t.Some? && obj.t.value != 0 && obj.d.Some? {
            if now - obj.t.value <= ttl {
              d := obj.d;
            }
          }
        }
      }
    }

    /** `storage.setCached(key, data)` with `Date.now()` given as `now`. The write is
        best-effort: when the store refuses it (`accepted` false, a quota error that the
        source swallows) nothing changes. */
    method SetCached(key: string, data: Option<T>, now: int, accepted: bool)
      modifies this
      ensures items == if accepted then old(items)[key := CacheEntry(Some(now), data)] else old(items)
    {
      if accepted {
        items := items[key := CacheEntry(Some(now), data)];
      }
    }
  }

  /** A value written at a non-zero time is read back at that time under any TTL >= 0. */
  lemma SetThenGet<T>(items: map<string, Stored<T>>, key: string, v: T, now: int, ttl: int)
    requires now != 0 && ttl >= 0
    ensures Lookup(items[key := CacheEntry(Some(now), Some(v))], key, ttl, now) == Some(v)
  {
  }

  /** Written at time 0 the entry is never read back: a zero time stamp is falsy. */
  lemma ZeroStampIsAMiss<T>(items: map<string, Stored<T>>, key: string, v: T, ttl: int, now: int)
    ensures Lookup(items[key := CacheEntry(Some(0), Some(v))], key, ttl, now) == None
  {
  }

  /** Entries older than the TTL, or without a payload, are misses. */
  lemma ExpiredIsAMiss<T>(items: map<string, Stored<T>>, key: string, ttl: int, now: int)
    requires key in items && items[key].CacheEntry? && items[key].t.Some?
    requires now - items[key].t.value > ttl || items[key].d.None?
    ensures Lookup(items, key, ttl, now) == None
  {
  }

  /** A hit returns the stored payload of a young enough entry. */
  lemma HitIsStoredPayload<T>(items: map<string, Stored<T>>, key: string, ttl: int, now: int)
    ensures Lookup(items, key, ttl, now).Some? <==>
      key in items && items[key].CacheEntry? && items[key].t.Some? && items[key].t.value != 0 &&
      items[key].d.Some? && now - items[key].t.value <= ttl
    ensures Lookup(items, key, ttl, now).Some? ==> Lookup(items, key, ttl, now) == items[key].d
  {
  }

  /** Writing one key leaves every other key's lookups and the saved city alone. */
  lemma SetLeavesOtherKeys<T>(items: map<string, Stored<T>>, key: string, data: Option<T>, now: int,
                              other: string, ttl: int, later: int)
    requires other != key && key != CityKey
    ensures Lookup(items[key := CacheEntry(Some(now), data)], other, ttl, later) == Lookup(items, other, ttl, later)
    ensures SavedCity(items[key := CacheEntry(Some(now), data)]) == SavedCity(items)
  {
  }

  /** The city written by setCity is the one getCity returns, exactly when it is a valid city. */
  lemma SetCityThenGetCity<T>(items: map<string, Stored<T>>, c: City)
    ensures SavedCity(items[CityKey := CityRecord(c.id, c.name)]) ==
      if Text.IsUUID(c.id) && c.name != "" then Some(c) else None
  {
  }
}
