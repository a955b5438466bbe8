/** The engine's optional TTL cache around the fetch function (aioracle/backend.py:63-72,
    236-277, 467-471), as a state machine. The clock is the parameter `now` (seconds), and the
    fetch function is represented by what it would produce if it were called. */
module Cache {
  import opened Wrappers
  import opened Forecast
  import opened Errors

  datatype CacheEntry = CacheEntry(data: seq<ForecastPoint>, timestamp: real)
  {
    /** `is_expired`: the entry is older than the TTL, strictly. */
    predicate IsExpired(ttlSeconds: int, now: real)
    {
      now - timestamp > ttlSeconds as real
    }
  }

  /** The `_cache` slot: nothing stored yet, or one entry. */
  datatype CacheState = Empty | Populated(entry: CacheEntry)

  /** What the fetch function does when called: return points, or raise with a message. */
  datatype FetchResult = Fetched(points: seq<ForecastPoint>) | Raised(cause: string)

  /** The value or error `fetch_data` produces, the cache slot afterwards, and whether the
      fetch function was called. */
  datatype FetchOutcome = FetchOutcome(
    result: Result<seq<ForecastPoint>, PredictionError>,
    cache: CacheState,
    invokedFetch: bool)

  /** The four conditions under which `fetch_data` answers from the cache. */
  predicate IsHit(cache: CacheState, ttlSeconds: int, forceRefresh: bool, now: real)
  {
    !forceRefresh && ttlSeconds > 0 && cache.Populated? && !cache.entry.IsExpired(ttlSeconds, now)
  }

  /** A cache whose entry holds data: the only kind `fetch_data` ever stores. */
  predicate Valid(cache: CacheState)
  {
    cache.Populated? ==> 0 < |cache.entry.data|
  }

  /** `fetch_data` */
  function FetchData(cache: CacheState, ttlSeconds: int, forceRefresh: bool, now: real,
                     fetch: FetchResult): (o: FetchOutcome)
    ensures o.invokedFetch <==> !IsHit(cache, ttlSeconds, forceRefresh, now)
    ensures !o.invokedFetch ==> o.result == Success(cache.entry.data) && o.cache == cache
    ensures o.invokedFetch && fetch.Raised? ==>
      o.result == Failure(DataFetchError(FetchFailedMessage(fetch.cause))) && o.cache == cache
    ensures o.invokedFetch && fetch == Fetched([]) ==>
      o.result == Failure(DataFetchError(NoDataMessage)) && o.cache == cache
    ensures o.invokedFetch && fetch.Fetched? && 0 < |fetch.points| ==>
      o.result == Success(fetch.points) &&
      o.cache == (if ttlSeconds > 0 then Populated(CacheEntry(fetch.points, now)) else cache)
  {
    if IsHit(cache, ttlSeconds, forceRefresh, now) then
      FetchOutcome(Success(cache.entry.data), cache, false)
    else
      match fetch
      case Raised(cause) =>
        FetchOutcome(Failure(DataFetchError(FetchFailedMessage(cause))), cache, true)
      case Fetched(points) =>
        if |points| == 0 then
          FetchOutcome(Failure(DataFetchError(NoDataMessage)), cache, true)
        else
          var cache' := if ttlSeconds > 0 then Populated(CacheEntry(points, now)) else cache;
          FetchOutcome(Success(points), cache', true)
  }

  /** `clear_cache` */
  function ClearCache(cache: CacheState): (c: CacheState)
    ensures !c.Populated?
  {
    Empty
  }

  /** An entry that has expired stays expired as time goes on. */
  lemma ExpiryIsPermanent(e: CacheEntry, ttlSeconds: int, now: real, later: real)
    requires e.IsExpired(ttlSeconds, now)
    requires now <= later
    ensures e.IsExpired(ttlSeconds, later)
  {
  }

  /** Only non-empty data is ever stored, so a successful fetch never returns an empty list. */
  lemma FetchDataKeepsValid(cache: CacheState, ttlSeconds: int, forceRefresh: bool, now: real,
                            fetch: FetchResult)
    requires Valid(cache)
    ensures Valid(FetchData(cache, ttlSeconds, forceRefresh, now, fetch).cache)
    ensures FetchData(cache, ttlSeconds, forceRefresh, now, fetch).result.Success? ==>
      0 < |FetchData(cache, ttlSeconds, forceRefresh, now, fetch).result.value|
  {
  }

  /** A TTL of zero or less disables the cache: every call fetches and nothing is stored. */
  lemma ZeroTtlDisablesCache(cache: CacheState, ttlSeconds: int, forceRefresh: bool, now: real,
                             fetch: FetchResult)
    requires ttlSeconds <= 0
    ensures FetchData(cache, ttlSeconds, forceRefresh, now, fetch).invokedFetch
    ensures FetchData(cache, ttlSeconds, forceRefresh, now, fetch).cache == cache
  {
  }

  /** Data fetched at time `t1` is served, without fetching, to every later call up to
      `t1 + ttl` inclusive that does not force a refresh. */
  lemma FreshEntryIsServed(cache: CacheState, ttlSeconds: int, t1: real, t2: real,
                           fetch1: FetchResult, fetch2: FetchResult)
    requires FetchData(cache, ttlSeconds, false, t1, fetch1).invokedFetch
    requires FetchData(cache, ttlSeconds, false, t1, fetch1).result.Success?
    requires 0 < ttlSeconds
    requires t1 <= t2 <= t1 + ttlSeconds as real
    ensures var o1 := FetchData(cache, ttlSeconds, false, t1, fetch1);
            FetchData(o1.cache, ttlSeconds, false, t2, fetch2) == FetchOutcome(o1.result, o1.cache, false)
  {
  }

  /** With a TTL of 300 seconds, a call exactly 300 seconds after the fetch is a hit and a
      call 301 seconds after refetches and replaces the entry. */
  lemma TtlBoundaryExample(p: ForecastPoint, q: ForecastPoint)
    ensures var o1 := FetchData(Empty, 300, false, 1000.0, Fetched([p]));
            var o2 := FetchData(o1.cache, 300, false, 1300.0, Fetched([q]));
            var o3 := FetchData(o2.cache, 300, false, 1301.0, Fetched([q]));
            o1.invokedFetch && !o2.invokedFetch && o2.result == Success([p]) &&
            o3.invokedFetch && o3.result == Success([q]) &&
            o3.cache == Populated(CacheEntry([q], 1301.0))
  {
  }

  /** After `clear_cache`, the next call fetches, whatever the clock says. */
  lemma ClearForcesFetch(cache: CacheState, ttlSeconds: int, forceRefresh: bool, now: real,
                         fetch: FetchResult)
    ensures FetchData(ClearCache(cache), ttlSeconds, forceRefresh, now, fetch).invokedFetch
  {
  }

  /** `force_refresh` always fetches, and a failing fetch leaves the stored entry in place. */
  lemma ForceRefreshFetches(cache: CacheState, ttlSeconds: int, now: real, fetch: FetchResult)
    ensures FetchData(cache, ttlSeconds, true, now, fetch).invokedFetch
    ensures FetchData(cache, ttlSeconds, true, now, fetch).result.Failure? ==>
      FetchData(cache, ttlSeconds, true, now, fetch).cache == cache
  {
  }
}
