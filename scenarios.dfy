/** Whole request/response cycles through the middleware: the hooks called
    in the order the downloader calls them, and what the cycle as a whole
    guarantees. */
module Scenarios {
  import opened Wrappers
  import opened Http
  import opened CachePolicy
  import opened Dbm
  import opened HttpCache

  /** The view a policy gets of `response` once the middleware has added
      its Date header. */
  function DatedView(response: ResponseView, date: string): ResponseView {
    response.(data := response.data.(headers := WithDate(response.data.headers, date)))
  }

  /** The first half of a cycle: a request misses and goes to the
      network, and the response that comes back is stored first-hand in the
      open file, stamped with the time of the request. */
  method MissThenStore(mw: HttpCacheMiddleware, request: Request, response: Response, now: int, date: string)
    requires mw.storage.Valid() && mw.storage.IsOpen() && !mw.ignoreMissing
    requires !DontCacheSet(request.meta) && DontCacheTag !in request.meta && CachedResponse !in request.meta
    requires CachedFlag !in response.flags
    requires mw.policy.ShouldCacheRequest(request.Key())
    requires mw.policy.ShouldCacheResponse(DatedView(response.View(), date), request.Key())
    requires mw.storage.Lookup(request.Key(), now).None?
    modifies mw`stats, request`meta, response`headers, mw.storage`files
    ensures mw.storage.Valid() && mw.storage.IsOpen() && mw.storage.current.value in old(mw.storage.files)
    ensures request.meta == old(request.meta)
    ensures response.headers == WithDate(old(response.headers), date)
    ensures mw.stats == Inc(Inc(Inc(old(mw.stats), Miss), Firsthand), Store)
    ensures var path := mw.storage.current.value;
            mw.storage.files == old(mw.storage.files)[path := Put(old(mw.storage.files)[path],
                                  mw.storage.fingerprint(request.Key()), response.Data(), now)]
  {
    var missed := mw.ProcessRequest(request, now);
    assert missed == PassThrough && request.meta == old(request.meta);
    assert mw.Handles(request.meta, response.flags) && StashOf(request.meta).None?;
    var returned := mw.ProcessResponse(request, response, now, date);
    assert request.meta == old(request.meta) - {CachedResponse} == old(request.meta);
    assert response.View() == DatedView(old(response.View()), date);
  }

  /** A first request misses and goes to the network; its response is
      stored first-hand; a later request with the same identity, while the
      entry has not expired, is answered from the cache with the stored
      status, URL, headers and body, flagged "cached", and never reaches the
      network.  With the dummy policy every entry is fresh; with a TTL of 0
      every later time qualifies. */
  method StoreThenHit(mw: HttpCacheMiddleware, first: Request, response: Response, second: Request,
                      now: int, later: int, date: string) returns (served: RequestOutcome)
    requires mw.storage.Valid() && mw.storage.IsOpen()
    requires mw.policy.IsDummy() && !mw.ignoreMissing
    requires !DontCacheSet(first.meta) && DontCacheTag !in first.meta && CachedResponse !in first.meta
    requires !DontCacheSet(second.meta) && second.Key() == first.Key()
    requires CachedFlag !in response.flags
    requires mw.policy.ShouldCacheRequest(first.Key())
    requires mw.policy.ShouldCacheResponse(DatedView(response.View(), date), first.Key())
    requires mw.storage.Lookup(first.Key(), now).None?
    requires !IsExpired(mw.storage.expirationSecs, later, now)
    modifies mw`stats, first`meta, second`meta, response`headers, mw.storage`files
    ensures first.meta == old(first.meta) && second.meta == old(second.meta)
    ensures served.Respond? && fresh(served.response)
    ensures served.response.Data() == response.Data() && served.response.flags == [CachedFlag]
    ensures response.headers == WithDate(old(response.headers), date)
    ensures mw.stats == Inc(Inc(Inc(Inc(old(mw.stats), Miss), Firsthand), Store), Hit)
  {
    MissThenStore(mw, first, response, now, date);
    StoredEntryFound(mw.storage, old(mw.storage.files), first.Key(), response.Data(), now, later);
    served := mw.ProcessRequest(second, later);
  }

  /** A stale hit is stashed and the request goes to the network; when the
      download then fails, the stashed entry is served exactly for the
      download errors, and the stash is gone either way. */
  method StaleHitThenDownloadError(mw: HttpCacheMiddleware, request: Request, now: int, error: ExceptionKind)
    returns (recovered: Option<Response>)
    requires mw.storage.Valid() && mw.storage.IsOpen()
    requires !DontCacheSet(request.meta)
    requires mw.policy.ShouldCacheRequest(request.Key())
    requires mw.storage.Lookup(request.Key(), now).Some?
    requires !mw.policy.IsCachedResponseFresh(ResponseView(mw.storage.Lookup(request.Key(), now).value, [CachedFlag]), request.Key())
    modifies mw`stats, request`meta
    ensures recovered.Some? <==> IsDownloadException(error)
    ensures recovered.Some? ==> && fresh(recovered.value)
                                && recovered.value.Data() == mw.storage.Lookup(request.Key(), now).value
                                && recovered.value.flags == [CachedFlag]
                                && mw.stats == Inc(old(mw.stats), ErrorRecovery)
    ensures recovered.None? ==> mw.stats == old(mw.stats)
    ensures request.meta == old(request.meta) - {CachedResponse}
  {
    ghost var meta0 := request.meta;
    var outcome := mw.ProcessRequest(request, now);
    assert StashOf(request.meta).Some?;
    ghost var meta1 := request.meta;
    recovered := mw.ProcessException(request, error);
    assert meta1 - {CachedResponse} == meta0 - {CachedResponse};
  }

  /** A stale hit whose network response the policy finds confirms the
      entry: the cached response is served, nothing is written to storage,
      and only the revalidation counter moves. */
  method StaleHitRevalidated(mw: HttpCacheMiddleware, request: Request, response: Response,
                             now: int, date: string) returns (served: Response)
    requires mw.storage.Valid() && mw.storage.IsOpen()
    requires !DontCacheSet(request.meta) && DontCacheTag !in request.meta && CachedFlag !in response.flags
    requires mw.policy.ShouldCacheRequest(request.Key())
    requires mw.storage.Lookup(request.Key(), now).Some?
    requires var cached := ResponseView(mw.storage.Lookup(request.Key(), now).value, [CachedFlag]);
             && !mw.policy.IsCachedResponseFresh(cached, request.Key())
             && mw.policy.IsCachedResponseValid(cached, DatedView(response.View(), date), request.Key())
    modifies mw`stats, request`meta, response`headers, mw.storage`files
    ensures fresh(served) && served.Data() == old(mw.storage.Lookup(request.Key(), now)).value
    ensures mw.storage.files == old(mw.storage.files)
    ensures mw.stats == Inc(old(mw.stats), Revalidate)
    ensures request.meta == old(request.meta) - {CachedResponse}
  {
    ghost var d := mw.storage.Lookup(request.Key(), now).value;
    ghost var meta0 := request.meta;
    var outcome := mw.ProcessRequest(request, now);
    ghost var stash := StashOf(request.meta).value;
    ghost var meta1 := request.meta;
    assert stash != response;
    served := mw.ProcessResponse(request, response, now, date);
    assert response.View() == DatedView(old(response.View()), date);
    assert stash.View() == ResponseView(d, [CachedFlag]);
    assert meta1 - {CachedResponse} == meta0 - {CachedResponse};
  }

  /** A request whose scheme the policy rejects is tagged on the way out
      and passed through untouched on the way back: nothing is stored, no
      counter moves, the response keeps its headers, and the tag is gone. */
  method DeniedRequestNeverStored(mw: HttpCacheMiddleware, request: Request, response: Response,
                                  now: int, date: string) returns (out: Response)
    requires mw.storage.Valid() && mw.storage.IsOpen()
    requires !DontCacheSet(request.meta) && !mw.policy.ShouldCacheRequest(request.Key())
    modifies mw`stats, request`meta, response`headers, mw.storage`files
    ensures out == response && response.headers == old(response.headers)
    ensures mw.storage.files == old(mw.storage.files) && mw.stats == old(mw.stats)
    ensures request.meta == old(request.meta) - {DontCacheTag}
  {
    var first := mw.ProcessRequest(request, now);
    out := mw.ProcessResponse(request, response, now, date);
    assert old(request.meta)[DontCacheTag := Flag(true)] - {DontCacheTag} == old(request.meta) - {DontCacheTag};
  }

  /** With the settings module's defaults caching is off, so the middleware
      refuses to start whatever policy and cache directory are chosen. */
  method DefaultsNotConfigured(policy: PolicyChoice, cachedir: string, fingerprint: RequestKey -> string,
                               files0: map<string, Db>) returns (r: Result<HttpCacheMiddleware, InitError>)
    requires forall p | p in files0 :: WellFormed(files0[p])
    ensures r == Failure(NotConfigured)
  {
    r := Create(DefaultSettings(policy, cachedir), fingerprint, files0);
  }

  /** The defaults with caching switched on and the dummy policy chosen:
      the middleware starts, denies only `file` URLs and no status code,
      lets misses through, and its storage sees the existing files with no
      TTL and nothing open. */
  method DefaultsEnabledWithDummy(cachedir: string, fingerprint: RequestKey -> string, files0: map<string, Db>)
    returns (r: Result<HttpCacheMiddleware, InitError>)
    requires forall p | p in files0 :: WellFormed(files0[p])
    ensures r.Success?
    ensures r.value.policy == FromDummy(Dummy.DummyPolicy(["file"], []))
    ensures !r.value.ignoreMissing && r.value.stats == map[]
    ensures r.value.storage.expirationSecs == 0 && r.value.storage.cachedir == cachedir
    ensures r.value.storage.files == files0 && !r.value.storage.IsOpen()
  {
    r := Create(DefaultSettings(DummyChoice, cachedir).(enabled := true), fingerprint, files0);
  }
}
