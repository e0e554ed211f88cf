/** The HTTP-cache downloader middleware of
    `downloadermiddlewares/httpcache.py`: three hooks around each download
    (before the request, after the response, on an exception) that consult
    the policy, read and write the storage, move flags through
    `request.meta`, and bump named counters. */
module HttpCache {
  import opened Wrappers
  import opened Http
  import opened PyInt
  import opened CachePolicy
  import opened Dbm
  import Dummy
  import DummyPolicyCopy

  const DontCache := "dont_cache"
  const DontCacheTag := "_dont_cache"
  const CachedResponse := "cached_response"
  const CachedFlag := "cached"
  const DateHeader := "Date"

  const Miss := "httpcache/miss"
  const Ignore := "httpcache/ignore"
  const Hit := "httpcache/hit"
  const Firsthand := "httpcache/firsthand"
  const Revalidate := "httpcache/revalidate"
  const Invalidate := "httpcache/invalidate"
  const Store := "httpcache/store"
  const Uncacheable := "httpcache/uncacheable"
  const ErrorRecovery := "httpcache/errorrecovery"

  /** The exception kinds a download can end with.  The first ten are the
      classes of `DOWNLOAD_EXCEPTIONS` (IOError standing for every OSError);
      the others are examples of exceptions outside that tuple. */
  datatype ExceptionKind =
    | DeferTimeoutError | TimeoutError | DNSLookupError | ConnectionRefusedError | ConnectionDone
    | ConnectError | ConnectionLost | TCPTimedOutError | ResponseFailed | IOError
    | ConnectionClosed | IgnoreRequest | ValueError | OtherException

  const DownloadExceptions: set<ExceptionKind> :=
    {DeferTimeoutError, TimeoutError, DNSLookupError, ConnectionRefusedError, ConnectionDone,
     ConnectError, ConnectionLost, TCPTimedOutError, ResponseFailed, IOError}

  /** `isinstance(exception, DOWNLOAD_EXCEPTIONS)`. */
  predicate IsDownloadException(e: ExceptionKind) {
    e in DownloadExceptions
  }

  /** Exactly ten kinds are recoverable; generic closing of a connection,
      a dropped request and programming errors are not. */
  lemma DownloadExceptionsClosedSet(e: ExceptionKind)
    ensures IsDownloadException(e) <==> !(e.ConnectionClosed? || e.IgnoreRequest? || e.ValueError? || e.OtherException?)
    ensures |DownloadExceptions| == 10
  {
  }

  /** `stats.get_value(name, 0)`. */
  function Count(stats: map<string, int>, name: string): int {
    if name in stats then stats[name] else 0
  }

  /** `stats.inc_value(name)`: that counter goes up by one, no other moves. */
  function Inc(stats: map<string, int>, name: string): (r: map<string, int>)
    ensures r.Keys == stats.Keys + {name}
    ensures Count(r, name) == Count(stats, name) + 1
    ensures forall k | k != name :: Count(r, k) == Count(stats, k)
  {
    stats[name := Count(stats, name) + 1]
  }

  /** `request.meta.get("dont_cache", False)` is truthy. */
  predicate DontCacheSet(meta: map<string, MetaValue>) {
    DontCache in meta && meta[DontCache].IsTruthy()
  }

  /** The response stashed in meta by a stale hit, if any. */
  function StashOf(meta: map<string, MetaValue>): Option<Response> {
    if CachedResponse in meta && meta[CachedResponse].Stash? then Some(meta[CachedResponse].resp) else None
  }

  /** The headers after the middleware's Date fix: a Date header is added
      when missing, and every existing header, Date included, is kept. */
  function WithDate(headers: map<string, string>, date: string): (r: map<string, string>)
    ensures DateHeader in r && r.Keys == headers.Keys + {DateHeader}
    ensures forall k | k in headers :: r[k] == headers[k]
    ensures DateHeader !in headers ==> r[DateHeader] == date
  {
    if DateHeader in headers then headers else headers[DateHeader := date]
  }

  /** What `process_request` tells the downloader: go on to the network,
      answer with this response, or drop the request (IgnoreRequest). */
  datatype RequestOutcome = PassThrough | Respond(response: Response) | Ignored

  /** The policy selector of the settings. */
  datatype PolicyChoice = DummyChoice | DummyCopyChoice | ExternalChoice(policy: Policy)

  /** The settings the middleware and its collaborators read. */
  datatype Settings = Settings(
    enabled: bool,
    policy: PolicyChoice,
    ignoreMissing: bool,
    ignoreSchemes: seq<string>,
    ignoreHttpCodes: seq<ConfigItem>,
    cachedir: string,
    expirationSecs: int)

  /** The settings module's defaults, with the policy and the cache
      directory chosen by the caller: caching off, misses not fatal, `file`
      URLs not cached, no status codes denied, no TTL. */
  function DefaultSettings(policy: PolicyChoice, cachedir: string): Settings {
    Settings(false, policy, false, ["file"], [], cachedir, 0)
  }

  datatype InitError = NotConfigured | InvalidHttpCode(item: ConfigItem)

  /** `load_object(settings["HTTPCACHE_POLICY"])(settings)`. */
  function PolicyFromSettings(settings: Settings): (r: Result<Policy, InitError>)
    ensures r.Failure? ==> !settings.policy.ExternalChoice? && r.error.InvalidHttpCode?
                           && r.error.item in settings.ignoreHttpCodes && ToInt(r.error.item).None?
    ensures r.Success? && settings.policy.DummyChoice? ==>
              r.value.FromDummy? && Dummy.FromSettings(settings.ignoreSchemes, settings.ignoreHttpCodes) == Success(r.value.dummy)
    ensures r.Success? && settings.policy.DummyCopyChoice? ==>
              r.value.FromDummyCopy? && DummyPolicyCopy.FromSettings(settings.ignoreSchemes, settings.ignoreHttpCodes) == Success(r.value.copy)
  {
    match settings.policy
    case DummyChoice =>
      (match Dummy.FromSettings(settings.ignoreSchemes, settings.ignoreHttpCodes)
       case Failure(e) => Failure(InvalidHttpCode(e))
       case Success(p) => Success(FromDummy(p)))
    case DummyCopyChoice =>
      (match DummyPolicyCopy.FromSettings(settings.ignoreSchemes, settings.ignoreHttpCodes)
       case Failure(e) => Failure(InvalidHttpCode(e))
       case Success(p) => Success(FromDummyCopy(p)))
    case ExternalChoice(p) => Success(p)
  }

  class HttpCacheMiddleware {
    const policy: Policy
    const storage: DbmCacheStorage
    const ignoreMissing: bool
    var stats: map<string, int>

    constructor (policy: Policy, storage: DbmCacheStorage, ignoreMissing: bool)
      ensures this.storage == storage && this.ignoreMissing == ignoreMissing && stats == map[]
      ensures this.policy == policy
    {
      this.policy := policy;
      this.storage := storage;
      this.ignoreMissing := ignoreMissing;
      stats := map[];
    }

    /** The request reaches the storage lookup: no `dont_cache` override
        and the policy accepts it. */
    predicate Consults(meta: map<string, MetaValue>, request: RequestKey) {
      !DontCacheSet(meta) && policy.ShouldCacheRequest(request)
    }

    /** The response hook reaches the Date fix: no `dont_cache` override,
        the response is not the cached one, the request is not tagged. */
    predicate Handles(meta: map<string, MetaValue>, flags: seq<string>) {
      !DontCacheSet(meta) && CachedFlag !in flags && DontCacheTag !in meta
    }

    /** The store path has run from counters `stats0` and files `files0`:
        a cacheable response is counted as stored and written into the open
        file; any other one is counted as uncacheable and nothing is written. */
    ghost predicate StorePathTaken(stats0: map<string, int>, files0: map<string, Db>,
                                   request: RequestKey, response: ResponseView, now: int)
      reads this, storage
      requires storage.IsOpen()
    {
      var path := storage.current.value;
      if policy.ShouldCacheResponse(response, request) then
        && path in files0
        && stats == Inc(stats0, Store)
        && storage.files == files0[path := Put(files0[path], storage.fingerprint(request), response.data, now)]
      else
        && stats == Inc(stats0, Uncacheable)
        && storage.files == files0
    }

    /** `spider_opened`. */
    method SpiderOpened(spiderName: string)
      requires storage.Valid()
      modifies storage
      ensures storage.Valid() && storage.current == Some(DbPath(storage.cachedir, spiderName))
      ensures storage.files == if DbPath(storage.cachedir, spiderName) in old(storage.files) then old(storage.files)
                               else old(storage.files)[DbPath(storage.cachedir, spiderName) := map[]]
    {
      storage.OpenSpider(spiderName);
    }

    /** `spider_closed`. */
    method SpiderClosed()
      requires storage.Valid() && storage.IsOpen()
      modifies storage`current
      ensures storage.Valid() && !storage.IsOpen()
    {
      storage.CloseSpider();
    }

    /** `process_request` at clock `now`. */
    method ProcessRequest(request: Request, now: int) returns (out: RequestOutcome)
      requires storage.Valid() && storage.IsOpen()
      modifies this`stats, request`meta
      ensures DontCacheSet(old(request.meta)) ==>
                out == PassThrough && request.meta == old(request.meta) && stats == old(stats)
      ensures !DontCacheSet(old(request.meta)) && !policy.ShouldCacheRequest(request.Key()) ==>
                && out == PassThrough && stats == old(stats)
                && request.meta == old(request.meta)[DontCacheTag := Flag(true)]
      ensures Consults(old(request.meta), request.Key()) && storage.Lookup(request.Key(), now).None? ==>
                && request.meta == old(request.meta)
                && out == (if ignoreMissing then Ignored else PassThrough)
                && stats == (if ignoreMissing then Inc(Inc(old(stats), Miss), Ignore) else Inc(old(stats), Miss))
      ensures Consults(old(request.meta), request.Key()) && storage.Lookup(request.Key(), now).Some? ==>
                var cached := ResponseView(storage.Lookup(request.Key(), now).value, [CachedFlag]);
                if policy.IsCachedResponseFresh(cached, request.Key()) then
                  && out.Respond? && fresh(out.response) && out.response.View() == cached
                  && stats == Inc(old(stats), Hit) && request.meta == old(request.meta)
                else
                  && out == PassThrough && stats == old(stats)
                  && StashOf(request.meta).Some? && fresh(StashOf(request.meta).value)
                  && StashOf(request.meta).value.View() == cached
                  && request.meta == old(request.meta)[CachedResponse := Stash(StashOf(request.meta).value)]
    {
      if DontCacheSet(request.meta) {
        return PassThrough;
      }
      if !policy.ShouldCacheRequest(request.Key()) {
        request.meta := request.meta[DontCacheTag := Flag(true)];
        return PassThrough;
      }
      var found := storage.RetrieveResponse(request.Key(), now);
      if found.None? {
        stats := Inc(stats, Miss);
        if ignoreMissing {
          stats := Inc(stats, Ignore);
          return Ignored;
        }
        return PassThrough;
      }
      var cached := found.value;
      cached.flags := cached.flags + [CachedFlag];
      assert cached.View() == ResponseView(storage.Lookup(request.Key(), now).value, [CachedFlag]);
      if policy.IsCachedResponseFresh(cached.View(), request.Key()) {
        stats := Inc(stats, Hit);
        return Respond(cached);
      }
      request.meta := request.meta[CachedResponse := Stash(cached)];
      out := PassThrough;
    }

    /** `process_response` at clock `now`; `date` is the text `formatdate`
        gives for the current time. */
    method ProcessResponse(request: Request, response: Response, now: int, date: string) returns (out: Response)
      requires storage.Valid() && storage.IsOpen()
      modifies this`stats, request`meta, response`headers, storage`files
      ensures storage.Valid()
      ensures DontCacheSet(old(request.meta)) ==>
                && out == response && request.meta == old(request.meta) && response.headers == old(response.headers)
                && stats == old(stats) && storage.files == old(storage.files)
      ensures !DontCacheSet(old(request.meta)) && !Handles(old(request.meta), old(response.flags)) ==>
                && out == response && request.meta == old(request.meta) - {DontCacheTag}
                && response.headers == old(response.headers)
                && stats == old(stats) && storage.files == old(storage.files)
      ensures Handles(old(request.meta), old(response.flags)) ==>
                && response.headers == WithDate(old(response.headers), date)
                && request.meta == old(request.meta) - {CachedResponse}
      ensures Handles(old(request.meta), old(response.flags)) && old(StashOf(request.meta)).None? ==>
                && out == response
                && StorePathTaken(Inc(old(stats), Firsthand), old(storage.files), request.Key(), response.View(), now)
      ensures Handles(old(request.meta), old(response.flags)) && old(StashOf(request.meta)).Some? ==>
                var cached := old(StashOf(request.meta)).value;
                if policy.IsCachedResponseValid(cached.View(), response.View(), request.Key()) then
                  && out == cached && stats == Inc(old(stats), Revalidate) && storage.files == old(storage.files)
                else
                  && out == response
                  && StorePathTaken(Inc(old(stats), Invalidate), old(storage.files), request.Key(), response.View(), now)
    {
      if DontCacheSet(request.meta) {
        return response;
      }
      if CachedFlag in response.flags || DontCacheTag in request.meta {
        request.meta := request.meta - {DontCacheTag};
        return response;
      }
      if DateHeader !in response.headers {
        response.headers := response.headers[DateHeader := date];
      }
      var stash := StashOf(request.meta);
      request.meta := request.meta - {CachedResponse};
      if stash.None? {
        stats := Inc(stats, Firsthand);
        CacheResponse(request, response, now);
        return response;
      }
      var cached := stash.value;
      if policy.IsCachedResponseValid(cached.View(), response.View(), request.Key()) {
        stats := Inc(stats, Revalidate);
        return cached;
      }
      stats := Inc(stats, Invalidate);
      CacheResponse(request, response, now);
      out := response;
    }

    /** `process_exception`: the stash always leaves meta; it is returned in
        place of the exception exactly for the download errors. */
    method ProcessException(request: Request, exception: ExceptionKind) returns (out: Option<Response>)
      modifies this`stats, request`meta
      ensures request.meta == old(request.meta) - {CachedResponse}
      ensures out.Some? <==> old(StashOf(request.meta)).Some? && IsDownloadException(exception)
      ensures out.Some? ==> out == old(StashOf(request.meta)) && stats == Inc(old(stats), ErrorRecovery)
      ensures out.None? ==> stats == old(stats)
    {
      var stash := StashOf(request.meta);
      request.meta := request.meta - {CachedResponse};
      if stash.Some? && IsDownloadException(exception) {
        stats := Inc(stats, ErrorRecovery);
        return stash;
      }
      out := None;
    }

    /** `_cache_response`: the store path. */
    method CacheResponse(request: Request, response: Response, now: int)
      requires storage.Valid() && storage.IsOpen()
      modifies this`stats, storage`files
      ensures storage.Valid()
      ensures StorePathTaken(old(stats), old(storage.files), request.Key(), response.View(), now)
    {
      if policy.ShouldCacheResponse(response.View(), request.Key()) {
        stats := Inc(stats, Store);
        storage.StoreResponse(request.Key(), response, now);
      } else {
        stats := Inc(stats, Uncacheable);
      }
    }
  }

  /** `HttpCacheMiddleware.__init__` with the dbm storage: refuses to start
      unless caching is enabled, then builds the policy (which fails on a
      status code `int` rejects) and the storage over a cache directory
      that already holds the database files `files0`. */
  method Create(settings: Settings, fingerprint: RequestKey -> string, files0: map<string, Db>)
    returns (r: Result<HttpCacheMiddleware, InitError>)
    requires forall p | p in files0 :: WellFormed(files0[p])
    ensures !settings.enabled ==> r == Failure(NotConfigured)
    ensures settings.enabled && PolicyFromSettings(settings).Failure? ==> r == Failure(PolicyFromSettings(settings).error)
    ensures r.Success? <==> settings.enabled && PolicyFromSettings(settings).Success?
    ensures r.Success? ==>
              && fresh(r.value) && fresh(r.value.storage)
              && r.value.policy == PolicyFromSettings(settings).value
              && r.value.ignoreMissing == settings.ignoreMissing && r.value.stats == map[]
              && r.value.storage.Valid() && !r.value.storage.IsOpen() && r.value.storage.files == files0
              && r.value.storage.cachedir == settings.cachedir
              && r.value.storage.expirationSecs == settings.expirationSecs
              && r.value.storage.fingerprint == fingerprint
  {
    if !settings.enabled {
      return Failure(NotConfigured);
    }
    match PolicyFromSettings(settings)
    case Failure(e) =>
      r := Failure(e);
    case Success(policy) =>
      var storage := new DbmCacheStorage(settings.cachedir, settings.expirationSecs, fingerprint, files0);
      var mw := new HttpCacheMiddleware(policy, storage, settings.ignoreMissing);
      r := Success(mw);
  }
}
