/**
 * The backend's in-memory response cache: a dictionary from cache key to the time
 * an entry was stored and the stored response, valid for five minutes.
 */
module Cache {
  import opened Wrappers
  import opened TextOps

  /** How long an entry stays valid, in seconds. */
  const CacheTimeout: real := 300.0

  /** A stored response and the clock reading, in seconds, at which it was stored. */
  datatype Entry<D> = Entry(timestamp: real, data: D)

  /** An entry read at `now` is still valid when it is younger than the timeout. */
  predicate IsFresh<D>(e: Entry<D>, now: real)
  {
    now - e.timestamp < CacheTimeout
  }

  /** The module-level cache dictionary; the clock is passed in as `now`. */
  class WeatherCache<D> {
    var entries: map<string, Entry<D>>

    /** The cache starts empty. */
    constructor ()
      ensures entries == map[]
    {
      entries := map[];
    }

    /**
     * Looks `key` up at time `now`: a valid entry yields its data and leaves the cache
     * as it was; an expired entry yields nothing and is deleted; a missing key yields
     * nothing and changes nothing.
     */
    method Get(key: string, now: real) returns (r: Option<D>)
      modifies this
      ensures key in old(entries) && IsFresh(old(entries)[key], now) ==>
                r == Some(old(entries)[key].data) && entries == old(entries)
      ensures key in old(entries) && !IsFresh(old(entries)[key], now) ==>
                r == None && entries == old(entries) - {key}
      ensures key !in old(entries) ==> r == None && entries == old(entries)
    {
      if key in entries {
        var entry := entries[key];
        if now - entry.timestamp < CacheTimeout {
          return Some(entry.data);
        } else {
          entries := entries - {key};
        }
      }
      return None;
    }

    /**
     * Stores `data` under `key` at time `now`, replacing any earlier entry; every other
     * key keeps its entry, and a lookup at the same time finds the new entry valid.
     */
    method Set(key: string, data: D, now: real)
      modifies this
      ensures entries == old(entries)[key := Entry(now, data)]
      ensures key in entries && entries[key].data == data && IsFresh(entries[key], now)
      ensures forall k :: k != key ==> (k in entries <==> k in old(entries))
      ensures forall k :: k != key && k in old(entries) ==> entries[k] == old(entries)[k]
    {
      entries := entries[key := Entry(now, data)];
    }
  }

  /** The prefix of current-weather keys. */
  const WeatherPrefix: string := "weather_"

  /** The prefix of forecast keys. */
  const ForecastPrefix: string := "forecast_"

  /** The key of a city's current-weather response: the prefix, then the city without capitals. */
  function WeatherKey(city: string): (r: string)
    ensures |r| == |WeatherPrefix| + |city| && r[..|WeatherPrefix|] == WeatherPrefix
    ensures forall i :: |WeatherPrefix| <= i < |r| ==> !IsUpper(r[i])
  {
    WeatherPrefix + Lower(city)
  }

  /** The key of a city's forecast response: the prefix, then the city without capitals. */
  function ForecastKey(city: string): (r: string)
    ensures |r| == |ForecastPrefix| + |city| && r[..|ForecastPrefix|] == ForecastPrefix
    ensures forall i :: |ForecastPrefix| <= i < |r| ==> !IsUpper(r[i])
  {
    ForecastPrefix + Lower(city)
  }

  /** Equal prefixes cancel. */
  lemma {:induction false} PrefixCancels(p: string, a: string, b: string)
    ensures p + a == p + b <==> a == b
  {
    if p + a == p + b {
      assert a == (p + a)[|p|..];
      assert b == (p + b)[|p|..];
    }
  }

  /** Two cities share a current-weather entry exactly when they agree ignoring case. */
  lemma WeatherKeySharedIff(a: string, b: string)
    ensures WeatherKey(a) == WeatherKey(b) <==> Lower(a) == Lower(b)
  {
    PrefixCancels(WeatherPrefix, Lower(a), Lower(b));
  }

  /** Two cities share a forecast entry exactly when they agree ignoring case. */
  lemma ForecastKeySharedIff(a: string, b: string)
    ensures ForecastKey(a) == ForecastKey(b) <==> Lower(a) == Lower(b)
  {
    PrefixCancels(ForecastPrefix, Lower(a), Lower(b));
  }

  /** A current-weather key never equals a forecast key. */
  lemma KeyKindsDistinct(a: string, b: string)
    ensures WeatherKey(a) != ForecastKey(b)
  {
    assert WeatherKey(a)[0] == 'w' && ForecastKey(b)[0] == 'f';
  }

  /** A city that is already lower-cased has the same keys as the city itself. */
  lemma KeysOfLoweredCity(city: string)
    ensures WeatherKey(Lower(city)) == WeatherKey(city)
    ensures ForecastKey(Lower(city)) == ForecastKey(city)
  {
    LowerIdempotent(city);
  }
}
