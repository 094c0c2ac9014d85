/** The weather cache in front of the weather source. Entries are keyed by
    the lower-cased, trimmed location and are fresh for 30 minutes. A fresh
    entry answers without asking the source; a failed request falls back to
    the entry it could not refresh; every insert that leaves more than 10
    entries sweeps out the stale ones. */
module WeatherServiceModel {
  import opened Wrappers
  import opened Text
  import opened Seqs
  import opened JsMaps
  import opened IsoTime
  import opened WeatherTypes
  import opened WeatherApiModel

  datatype CacheEntry = CacheEntry(data: WeatherData, timestamp: int, location: string)

  type Cache = JsMap<string, CacheEntry>

  const CacheExpirationMs: int := 30 * 60 * 1000

  /** One forecast day of `transformApiResponse`: the wind speed is not part
      of a day's forecast and becomes 0. */
  function TransformDay(day: ApiForecastDay): (f: WeatherForecast)
    ensures f.date == ParseIso(day.date) && f.windSpeed == 0
    ensures f.temperature == TemperatureRange(day.day.minTempC, day.day.maxTempC)
    ensures f.description == day.day.condition.text && f.humidity == day.day.avgHumidity
    ensures f.icon == day.day.condition.icon
  {
    WeatherForecast(ParseIso(day.date), TemperatureRange(day.day.minTempC, day.day.maxTempC),
      day.day.condition.text, day.day.avgHumidity, 0, day.day.condition.icon)
  }

  /** `transformApiResponse`: the source's answer in the application's shape,
      one forecast entry per source day in the same order, stamped with the
      time it arrived. */
  function TransformApiResponse(resp: WeatherApiResponse, now: Time): (d: WeatherData)
    ensures d.location == resp.location && d.lastUpdated == now
    ensures d.current == CurrentWeather(resp.current.tempC, resp.current.condition.text,
      resp.current.humidity, resp.current.windKph, resp.current.condition.icon)
    ensures |d.forecast| == |resp.forecastDays|
    ensures forall i :: 0 <= i < |d.forecast| ==> d.forecast[i] == TransformDay(resp.forecastDays[i])
  {
    var current := CurrentWeather(resp.current.tempC, resp.current.condition.text,
      resp.current.humidity, resp.current.windKph, resp.current.condition.icon);
    var forecast := seq(|resp.forecastDays|, i requires 0 <= i < |resp.forecastDays| => TransformDay(resp.forecastDays[i]));
    WeatherData(resp.location, current, forecast, now)
  }

  /** A forecast date the source writes as the date part of an ISO time
      becomes UTC midnight of that day. */
  lemma ForecastDateIsMidnight(day: ApiForecastDay, t: Time)
    requires day.date == SplitHead(ToIsoString(t), 'T')
    ensures TransformDay(day).date == Some(t - t % MsPerDay)
  {
    DateOnlyRoundTrip(t);
  }

  /** `getCacheKey`. */
  function CacheKey(location: string): string
  {
    Trim(ToLower(location))
  }

  /** A location has a non-empty key exactly when it is not blank. */
  lemma CacheKeyNotEmpty(location: string)
    ensures CacheKey(location) != [] <==> Trim(location) != []
  {
    TrimEmpty(location);
    TrimEmpty(ToLower(location));
    if Trim(location) != [] {
      var i :| 0 <= i < |location| && !IsSpace(location[i]);
      assert !IsSpace(ToLower(location)[i]);
    } else {
      ToLowerKeepsSpace(location);
    }
  }

  /** Whitespace around a location does not change its key. */
  lemma CacheKeyIgnoresPadding(pre: string, location: string, post: string)
    requires AllSpace(pre) && AllSpace(post)
    ensures CacheKey(pre + location + post) == CacheKey(location)
  {
    ToLowerAppend(pre + location, post);
    ToLowerAppend(pre, location);
    ToLowerKeepsSpace(pre);
    ToLowerKeepsSpace(post);
    TrimPadding(ToLower(pre), ToLower(location), ToLower(post));
  }

  /** Case does not change a key. */
  lemma CacheKeyIgnoresCase(location: string)
    ensures CacheKey(ToLower(location)) == CacheKey(location)
  {
    ToLowerIdempotent(location);
  }

  /** `isCacheValid`: younger than 30 minutes. */
  predicate IsCacheValid(e: CacheEntry, now: int)
  {
    now - e.timestamp < CacheExpirationMs
  }

  function FreshAt(now: int): Entry<string, CacheEntry> -> bool
  {
    (e: Entry<string, CacheEntry>) => IsCacheValid(e.value, now)
  }

  /** The cache after a sweep at `now`: exactly the fresh entries survive,
      and a second sweep at the same time removes nothing more. */
  lemma SweepKeepsExactlyFresh(c: Cache, now: int)
    ensures forall k ::
      Get(Retain(c, FreshAt(now)), k) == (if Get(c, k).Some? && IsCacheValid(Get(c, k).value, now) then Get(c, k) else None)
    ensures Retain(Retain(c, FreshAt(now)), FreshAt(now)) == Retain(c, FreshAt(now))
  {
    RetainIdempotent(c, FreshAt(now));
  }

  /** One step of the sweep loop: deleting the `i`-th original entry when it
      is stale, in a map that holds the survivors of the first `i` entries
      followed by the untouched rest. */
  lemma SweepStep(m: Cache, i: int, c: Cache, now: int)
    requires 0 <= i < |m|
    requires c == Retain(m[..i], FreshAt(now)) + m[i..]
    ensures (if now - m[i].value.timestamp >= CacheExpirationMs then Delete(c, m[i].key) else c)
      == Retain(m[..i + 1], FreshAt(now)) + m[i + 1..]
  {
    var keep := FreshAt(now);
    var prefix: Cache := m[..i];
    var r := Retain(prefix, keep);
    assert m[..i + 1] == prefix + [m[i]];
    RetainSnoc(prefix, m[i], keep);
    assert m[i..] == [m[i]] + m[i + 1..];
    if now - m[i].value.timestamp >= CacheExpirationMs {
      DeleteSplit(c, r, m[i], m[i + 1..]);
    }
  }

  /** Deleting the key of the entry between two parts leaves the parts. */
  lemma DeleteSplit(c: Cache, a: seq<Entry<string, CacheEntry>>, e: Entry<string, CacheEntry>, b: seq<Entry<string, CacheEntry>>)
    requires c == a + ([e] + b)
    ensures Delete(c, e.key) == a + b
  {
    assert c[|a|] == e;
    IndexOfUnique(c, |a|);
    assert c[..|a|] == a && c[|a| + 1..] == b;
  }

  /** The cache after a successful request stored `data` under `key`. */
  function CacheAfterFetch(c: Cache, key: string, data: WeatherData, arrival: Time): Cache
  {
    var stored := Put(c, key, CacheEntry(data, arrival, data.location));
    if |stored| > 10 then Retain(stored, FreshAt(arrival)) else stored
  }

  /** The entry just stored survives the sweep that may follow it; other
      entries stay as they were or, only when the map grew past 10, are
      swept because they are stale. */
  lemma StoredEntrySurvives(c: Cache, key: string, data: WeatherData, arrival: Time)
    ensures Get(CacheAfterFetch(c, key, data, arrival), key) == Some(CacheEntry(data, arrival, data.location))
    ensures forall k :: k != key ==>
      Get(CacheAfterFetch(c, key, data, arrival), k) == Get(c, k) ||
      (Get(CacheAfterFetch(c, key, data, arrival), k) == None && !IsCacheValid(Get(c, k).value, arrival))
    ensures |Put(c, key, CacheEntry(data, arrival, data.location))| <= 10 ==>
      CacheAfterFetch(c, key, data, arrival) == Put(c, key, CacheEntry(data, arrival, data.location))
  {
    var entry := CacheEntry(data, arrival, data.location);
    var stored := Put(c, key, entry);
    assert Get(stored, key) == Some(entry);
    if |stored| > 10 {
      var swept := Retain(stored, FreshAt(arrival));
      assert FreshAt(arrival)(Entry(key, entry));
      assert Get(swept, key) == Some(entry);
    }
  }

  /** What `getWeatherForLocation` returns, and the cache and limiter it
      leaves. */
  datatype Lookup = Lookup(result: Result<WeatherData, string>, cache: Cache, limiter: Limiter)

  /** `getWeatherForLocation(location)` called at `now` on a cache `c` and a
      limiter `s`; the source does `up` and its answer arrives at `arrival`. */
  function WeatherForLocation(c: Cache, s: Limiter, location: string, now: int, arrival: Time, up: Upstream): Lookup
  {
    if Trim(location) == [] then Lookup(Failure("Location is required"), c, s)
    else
      var cached := Get(c, CacheKey(location));
      if cached.Some? && IsCacheValid(cached.value, now) then Lookup(Success(cached.value.data), c, s)
      else Settle(c, CacheKey(location), location, arrival, RateLimitStep(s, now).state, CallOutcome(s, now, up))
  }

  /** What happens once the source was asked: an answer is stored and
      returned; a failure falls back to the stale entry, if there is one. */
  function Settle(c: Cache, key: string, location: string, arrival: Time, limiter: Limiter, outcome: Result<WeatherApiResponse, string>): Lookup
  {
    var cached := Get(c, key);
    match outcome
    case Success(resp) =>
      var data := TransformApiResponse(resp, arrival);
      Lookup(Success(data), CacheAfterFetch(c, key, data, arrival), limiter)
    case Failure(msg) =>
      if cached.Some? then Lookup(Success(cached.value.data), c, limiter)
      else Lookup(Failure("Failed to get weather for " + location + ": " + msg), c, limiter)
  }

  lemma LookupAfterAnswer(c: Cache, s: Limiter, location: string, now: int, arrival: Time, up: Upstream, resp: WeatherApiResponse)
    requires Trim(location) != []
    requires !(Get(c, CacheKey(location)).Some? && IsCacheValid(Get(c, CacheKey(location)).value, now))
    requires CallOutcome(s, now, up) == Success(resp)
    ensures var data := TransformApiResponse(resp, arrival);
      WeatherForLocation(c, s, location, now, arrival, up)
        == Lookup(Success(data), CacheAfterFetch(c, CacheKey(location), data, arrival), RateLimitStep(s, now).state)
  {
  }

  lemma LookupAfterFailure(c: Cache, s: Limiter, location: string, now: int, arrival: Time, up: Upstream)
    requires Trim(location) != []
    requires !(Get(c, CacheKey(location)).Some? && IsCacheValid(Get(c, CacheKey(location)).value, now))
    requires CallOutcome(s, now, up).Failure?
    ensures var cached := Get(c, CacheKey(location));
      WeatherForLocation(c, s, location, now, arrival, up)
        == Lookup(if cached.Some? then Success(cached.value.data)
                  else Failure("Failed to get weather for " + location + ": " + CallOutcome(s, now, up).error),
                  c, RateLimitStep(s, now).state)
  {
  }

  /** A blank location is refused before anything else happens. */
  lemma BlankLocationRefused(c: Cache, s: Limiter, location: string, now: int, arrival: Time, up: Upstream)
    requires AllSpace(location)
    ensures WeatherForLocation(c, s, location, now, arrival, up) == Lookup(Failure("Location is required"), c, s)
  {
    TrimEmpty(location);
  }

  /** A fresh entry answers without asking the source: the result does not
      depend on the source, and neither the cache nor the limiter changes. */
  lemma FreshHitSkipsSource(c: Cache, s: Limiter, location: string, now: int, arrival: Time, up: Upstream, up': Upstream)
    requires Trim(location) != []
    requires Get(c, CacheKey(location)).Some? && IsCacheValid(Get(c, CacheKey(location)).value, now)
    ensures WeatherForLocation(c, s, location, now, arrival, up) == WeatherForLocation(c, s, location, now, arrival, up')
    ensures WeatherForLocation(c, s, location, now, arrival, up) == Lookup(Success(Get(c, CacheKey(location)).value.data), c, s)
  {
  }

  /** A request that fails leaves the cache as it was, stale entry and its
      timestamp included, and answers with that stale entry when there is
      one; otherwise the error names the location and the cause. */
  lemma FailedFetchFallsBack(c: Cache, s: Limiter, location: string, now: int, arrival: Time, up: Upstream)
    requires Trim(location) != []
    requires CallOutcome(s, now, up).Failure?
    ensures var l := WeatherForLocation(c, s, location, now, arrival, up);
      var cached := Get(c, CacheKey(location));
      && l.cache == c
      && (cached.Some? ==> l.result == Success(cached.value.data))
      && (cached.None? ==> l.result == Failure("Failed to get weather for " + location + ": " + CallOutcome(s, now, up).error))
  {
    var cached := Get(c, CacheKey(location));
    if cached.Some? && IsCacheValid(cached.value, now) {
      FreshHitSkipsSource(c, s, location, now, arrival, up, up);
    } else {
      LookupAfterFailure(c, s, location, now, arrival, up);
    }
  }

  /** A request the source answers stores the answer under the key and
      returns it. */
  lemma AnsweredFetchIsStored(c: Cache, s: Limiter, location: string, now: int, arrival: Time, resp: WeatherApiResponse)
    requires Trim(location) != []
    requires !(Get(c, CacheKey(location)).Some? && IsCacheValid(Get(c, CacheKey(location)).value, now))
    requires RateLimitStep(s, now).error.None?
    ensures var l := WeatherForLocation(c, s, location, now, arrival, Responded(resp));
      var data := TransformApiResponse(resp, arrival);
      && l.result == Success(data)
      && Get(l.cache, CacheKey(location)) == Some(CacheEntry(data, arrival, resp.location))
      && l.limiter == RateLimitStep(s, now).state
  {
    StoredEntrySurvives(c, CacheKey(location), TransformApiResponse(resp, arrival), arrival);
  }

  /** The forecast day falls within the trip, both ends included; an
      Invalid Date falls within nothing. */
  function InTrip(start: Time, end: Time): WeatherForecast -> bool
  {
    (f: WeatherForecast) => f.date.Some? && start <= f.date.value <= end
  }

  /** The weather narrowed to a trip: the forecast days within the trip, in
      order, or the whole forecast when none falls within it. */
  function TripForecast(data: WeatherData, start: Time, end: Time): (r: WeatherData)
    ensures r.location == data.location && r.current == data.current && r.lastUpdated == data.lastUpdated
    ensures Subsequence(r.forecast, data.forecast)
    ensures (exists f :: f in data.forecast && InTrip(start, end)(f)) ==>
      forall f :: f in r.forecast <==> f in data.forecast && InTrip(start, end)(f)
    ensures (exists f :: f in data.forecast && InTrip(start, end)(f)) ==>
      forall f :: multiset(r.forecast)[f] == if InTrip(start, end)(f) then multiset(data.forecast)[f] else 0
    ensures (forall f :: f in data.forecast ==> !InTrip(start, end)(f)) ==> r == data
    ensures r.forecast == [] ==> data.forecast == []
  {
    var relevant := Filter(data.forecast, InTrip(start, end));
    FilterIsSubsequence(data.forecast, InTrip(start, end));
    if |relevant| > 0 then
      data.(forecast := relevant)
    else
      SubsequenceReflexive(data.forecast);
      data
  }

  lemma {:induction false} SubsequenceReflexive<T>(xs: seq<T>)
    ensures Subsequence(xs, xs)
    decreases |xs|
  {
    if xs != [] {
      SubsequenceReflexive(xs[1..]);
    }
  }

  class WeatherService {
    var cache: Cache
    const api: WeatherApi

    /** No entry has the empty key: blank locations never reach the cache. */
    ghost predicate Valid()
      reads this, api
    {
      api.Valid() && !Has(cache, "")
    }

    constructor(api: WeatherApi)
      requires api.Valid()
      ensures Valid() && cache == [] && this.api == api
    {
      cache := [];
      this.api := api;
    }

    /** `cleanExpiredCache` at `now`: every entry at least 30 minutes old is
        deleted while iterating the map. */
    method CleanExpiredCache(now: int)
      requires Valid()
      modifies this
      ensures Valid()
      ensures cache == Retain(old(cache), FreshAt(now))
    {
      var entries := cache;
      var i := 0;
      while i < |entries|
        invariant 0 <= i <= |entries|
        invariant cache == Retain(entries[..i], FreshAt(now)) + entries[i..]
      {
        var e := entries[i];
        SweepStep(entries, i, cache, now);
        if now - e.value.timestamp >= CacheExpirationMs {
          cache := Delete(cache, e.key);
        }
        i := i + 1;
      }
      assert entries[..i] == entries;
      assert Get(cache, "") == None;
    }

    /** `getWeatherForLocation`. */
    method GetWeatherForLocation(location: string, now: int, arrival: Time, up: Upstream)
      returns (r: Result<WeatherData, string>)
      requires Valid()
      modifies this, api
      ensures Valid()
      ensures var l := WeatherForLocation(old(cache), old(api.State()), location, now, arrival, up);
        r == l.result && cache == l.cache && api.State() == l.limiter
    {
      if Trim(location) == [] {
        return Failure("Location is required");
      }
      var key := CacheKey(location);
      var cached := Get(cache, key);
      if cached.Some? && IsCacheValid(cached.value, now) {
        return Success(cached.value.data);
      }
      CacheKeyNotEmpty(location);
      r := Refresh(key, location, now, arrival, up);
    }

    /** The part of `getWeatherForLocation` after the cache check: ask the
        source, store its answer, or fall back to the stale entry. */
    method Refresh(key: string, location: string, now: int, arrival: Time, up: Upstream)
      returns (r: Result<WeatherData, string>)
      requires Valid() && key != []
      modifies this, api
      ensures Valid()
      ensures Lookup(r, cache, api.State())
        == Settle(old(cache), key, location, arrival, RateLimitStep(old(api.State()), now).state, CallOutcome(old(api.State()), now, up))
    {
      var cached := Get(cache, key);
      var outcome := api.GetCurrentWeather(location, now, up);
      match outcome
      case Success(resp) =>
        var data := TransformApiResponse(resp, arrival);
        StoreFetched(key, data, arrival);
        r := Success(data);
      case Failure(msg) =>
        if cached.Some? {
          r := Success(cached.value.data);
        } else {
          r := Failure("Failed to get weather for " + location + ": " + msg);
        }
    }

    /** The storing step of `getWeatherForLocation`: store the answer, then sweep
        when the map holds more than 10 entries. */
    method StoreFetched(key: string, data: WeatherData, arrival: Time)
      requires Valid() && key != []
      modifies this
      ensures Valid()
      ensures cache == CacheAfterFetch(old(cache), key, data, arrival)
    {
      var stored := Put(cache, key, CacheEntry(data, arrival, data.location));
      assert Get(stored, "") == Get(cache, "");
      cache := stored;
      if |cache| > 10 {
        CleanExpiredCache(arrival);
      }
    }

    /** `getWeatherForTrip`: the weather for the destination, narrowed to
        the trip's days when the forecast covers any of them. */
    method GetWeatherForTrip(destination: string, start: Time, end: Time, now: int, arrival: Time, up: Upstream)
      returns (r: Result<WeatherData, string>)
      requires Valid()
      modifies this, api
      ensures Valid()
      ensures var l := WeatherForLocation(old(cache), old(api.State()), destination, now, arrival, up);
        && cache == l.cache && api.State() == l.limiter
        && r == match l.result
                case Success(data) => Success(TripForecast(data, start, end))
                case Failure(msg) => Failure(msg)
    {
      var weather := GetWeatherForLocation(destination, now, arrival, up);
      match weather
      case Success(data) => return Success(TripForecast(data, start, end));
      case Failure(msg) => return Failure(msg);
    }

    /** `getCacheStats`: the number of entries, stale ones included, and the
        location each entry's data names, in insertion order. */
    method GetCacheStats() returns (size: nat, locations: seq<string>)
      ensures size == |cache| && |locations| == size
      ensures forall i :: 0 <= i < size ==> locations[i] == Values(cache)[i].location
    {
      var entries := cache;
      size := |entries|;
      locations := seq(|entries|, i requires 0 <= i < |entries| => entries[i].value.location);
    }

    /** `clearCache`. */
    method ClearCache()
      requires Valid()
      modifies this
      ensures Valid() && cache == []
    {
      cache := [];
    }

    /** `clearExpiredCache`. */
    method ClearExpiredCache(now: int)
      requires Valid()
      modifies this
      ensures Valid()
      ensures cache == Retain(old(cache), FreshAt(now))
    {
      CleanExpiredCache(now);
    }

    /** `hasCachedWeather`: a fresh entry exists; the source is not asked. */
    function HasCachedWeather(location: string, now: int): (b: bool)
      reads this
      ensures b <==> Get(cache, CacheKey(location)).Some? && IsCacheValid(Get(cache, CacheKey(location)).value, now)
    {
      var entry := Get(cache, CacheKey(location));
      if entry.Some? then IsCacheValid(entry.value, now) else false
    }

    /** `getCachedWeather`: the data of a fresh entry, or `None` (null). */
    function GetCachedWeather(location: string, now: int): (r: Option<WeatherData>)
      reads this
      ensures r.Some? <==> HasCachedWeather(location, now)
      ensures r.Some? ==> r.value == Get(cache, CacheKey(location)).value.data
    {
      var entry := Get(cache, CacheKey(location));
      if entry.Some? && IsCacheValid(entry.value, now) then Some(entry.value.data) else None
    }

    /** What `getCachedWeather` reports is exactly what `getWeatherForLocation`
        would answer at the same time without asking the source. */
    lemma CachedAgreesWithLookup(location: string, now: int, arrival: Time, up: Upstream)
      requires Valid()
      requires GetCachedWeather(location, now).Some?
      ensures WeatherForLocation(cache, api.State(), location, now, arrival, up)
        == Lookup(Success(GetCachedWeather(location, now).value), cache, api.State())
    {
      CacheKeyNotEmpty(location);
      FreshHitSkipsSource(cache, api.State(), location, now, arrival, up, up);
    }
  }
}
