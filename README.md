# scrapy-httpcache in Dafny

This project models the core of scrapy-httpcache, an HTTP response cache for Scrapy's downloader. It has three parts:

- **The middleware** (`HttpCacheMiddleware`) hooks into each download three times:
  - before the request, it may answer from the cache, mark the request uncacheable, count a miss or drop the request;
  - after the response, it may store it, revalidate a stale entry or invalidate it;
  - on a download error, it may serve a stashed stale entry instead.
- **The dbm storage** (`DbmCacheStorage`) keeps one database file per spider. Each request fingerprint has two records: `<fp>_data` and `<fp>_time`. An optional TTL applies.
- **The dummy policy** (`DummyPolicy`) denies some schemes and some status codes, and treats every cached response as fresh and valid. The repository holds this class twice, in `policy/dummy.py` and `policy/dummy_policy.py`.

Files and modules:

- `http.dfy` (`Http`): requests and responses are classes.
  - A request's identity (method, URL, headers, body) is constant; its `meta` bag is a mutable map.
  - A response's status, URL and body are constant; its headers and flags change in place.
  - Policies see value snapshots of responses (`ResponseView`).
- `py_int.dfy` (`PyInt`): Python's `int(x)` on a configured list element.
- `url_scheme.dfy` (`UrlScheme`): the scheme rule of Python's `urlsplit`.
- `dummy.dfy` (`Dummy`): the dummy policy of `policy/dummy.py`.
- `dummy_policy.dfy` (`DummyPolicyCopy`): the dummy policy of `policy/dummy_policy.py`.
- `cache_policy.dfy` (`CachePolicy`): the four-predicate policy capability.
  - A policy is either dummy class, or an external policy given by four arbitrary predicates.
  - The external policy stands for the RFC 2616 policy, the configured default.
- `dbm.dfy` (`Dbm`): pure functions over one database file, and the storage class.
  - The class holds every file by path, plus the path of the open file.
  - Its invariant `Valid` says every file is well formed.
- `httpcache.dfy` (`HttpCache`): the middleware class, with counters, a policy value and a storage object.
  - Each hook is a method whose postcondition states every branch: the outcome, the new `meta`, the new headers, the new counters and the new files.
- `scenarios.dfy` (`Scenarios`): whole cycles through the hooks, called in downloader order.

Both dummy policy classes are datatype values, so none of their predicates can change the deny-lists. Each answer depends only on its arguments and on the lists fixed at construction.

How the hooks move the counters:

- Some outcomes move two counters: a miss with `ignore_missing` set counts `miss` and `ignore`, a first-hand store counts `firsthand` and `store`, and an invalidated entry counts `invalidate` and then `store` or `uncacheable`.
- A `dont_cache` pass-through, a request the policy rejects, and a stale hit move no counter.

## Model

| member | source | states |
|---|---|---|
| `HttpCache.HttpCacheMiddleware.ProcessRequest` | scrapy_httpcache/downloadermiddlewares/httpcache.py:78-106 | A truthy `dont_cache` returns nothing and changes no meta key and no counter. A request the policy rejects gets `_dont_cache = True` and moves no counter. On a miss, `miss` goes up, plus `ignore` and an Ignored outcome when `ignore_missing` is set; meta is unchanged. On a hit, the new response carries the stored data with flags `["cached"]`. If fresh, `hit` goes up and that response is returned. If stale, it is stashed under `cached_response`, no counter moves and nothing is returned. Storage is never written. |
| `HttpCache.HttpCacheMiddleware.ProcessResponse` | scrapy_httpcache/downloadermiddlewares/httpcache.py:108-137 | `dont_cache` returns the response with nothing changed. A `"cached"` flag or a `_dont_cache` tag removes only `_dont_cache` and changes nothing else. Otherwise Date is added only when absent and `cached_response` is popped. With no stash: `firsthand`, then the store path, and the response is returned. With a valid stash: `revalidate`, the stash is returned and storage is untouched. With an invalid stash: `invalidate`, then the store path, and the response is returned. |
| `HttpCache.HttpCacheMiddleware.ProcessException` | scrapy_httpcache/downloadermiddlewares/httpcache.py:139-147 | `cached_response` always leaves meta. The stash is returned, and `errorrecovery` goes up, exactly when a stash existed and the exception is a download exception; otherwise nothing is returned and no counter moves. |
| `HttpCache.HttpCacheMiddleware.CacheResponse` | scrapy_httpcache/downloadermiddlewares/httpcache.py:149-160 | When `should_cache_response` holds, `store` goes up and exactly the store of the request's fingerprint is applied to the open file. Otherwise `uncacheable` goes up and the files are unchanged. |
| `HttpCache.HttpCacheMiddleware.SpiderOpened` | scrapy_httpcache/downloadermiddlewares/httpcache.py:72-73 | Opens the spider's file in the storage, creating it empty only when absent. |
| `HttpCache.HttpCacheMiddleware.SpiderClosed` | scrapy_httpcache/downloadermiddlewares/httpcache.py:75-76 | Closes the storage's open file; the files keep their records. |
| `HttpCache.Create` | scrapy_httpcache/downloadermiddlewares/httpcache.py:53-63 | Caching disabled gives NotConfigured. A policy that fails to build gives its error. The result is a success exactly when caching is enabled and the policy builds. It is then a fresh middleware with zero counters, the configured policy and `ignore_missing`, and a fresh closed storage configured with the directory, TTL and fingerprint function, over the database files the directory already holds. |
| `HttpCache.PolicyFromSettings` | scrapy_httpcache/downloadermiddlewares/httpcache.py:56-58 | Building a policy fails only for a dummy policy with a status code that `int` rejects, and the error names that code. A dummy selection yields exactly the policy its constructor builds. |
| `HttpCache.DownloadExceptionsClosedSet` | scrapy_httpcache/downloadermiddlewares/httpcache.py:40-51 | The recoverable kinds are exactly the ten listed classes. Generic connection closing, IgnoreRequest, ValueError and any other exception are not recoverable. |
| `HttpCache.Inc` | scrapy_httpcache/downloadermiddlewares/httpcache.py:92 | `inc_value` raises the named counter by one (from 0 when absent) and leaves every other counter as it was. |
| `HttpCache.WithDate` | scrapy_httpcache/downloadermiddlewares/httpcache.py:121-122 | The headers afterwards hold a Date header and every earlier header keeps its value, an existing Date included. A missing Date gets the given date text. |
| `Scenarios.MissThenStore` | scrapy_httpcache/downloadermiddlewares/httpcache.py:81-137 | A request with no `dont_cache`, `_dont_cache` or stash in meta that misses, followed by a cacheable response, leaves meta as it was. The response gets its Date header, `miss`, `firsthand` and `store` move, and the open file gains exactly the store of the request's fingerprint at the request's time. |
| `Scenarios.StoreThenHit` | scrapy_httpcache/downloadermiddlewares/httpcache.py:90-102 | With a dummy policy and requests with no `dont_cache`, `_dont_cache` or stash in meta: a miss, then a first-hand store, then a same-identity request before expiry is served from the cache. The served response carries the stored status, URL, headers (Date included) and body, flagged "cached", without a network step. The counters move by `miss`, `firsthand`, `store` and `hit`, and both metas end as they began. |
| `Scenarios.StaleHitThenDownloadError` | scrapy_httpcache/downloadermiddlewares/httpcache.py:139-147 | After a stale hit, a download error yields the stored entry exactly for the download exceptions, with `errorrecovery` counted. Meta ends as it began, minus any `cached_response` key. |
| `Scenarios.StaleHitRevalidated` | scrapy_httpcache/downloadermiddlewares/httpcache.py:125-133 | After a stale hit, a response the policy finds valid makes the middleware serve the stored entry. Nothing is written, only `revalidate` moves, and meta ends as it began, minus any `cached_response` key. |
| `Scenarios.DeniedRequestNeverStored` | scrapy_httpcache/downloadermiddlewares/httpcache.py:85-117 | A request the policy rejects passes both hooks untouched: nothing stored, no counter moved, headers kept, and the tag removed again. |
| `Scenarios.DefaultsNotConfigured` | scrapy_httpcache/settings/default_settings.py:6-21 | With the default settings (caching off), building the middleware gives NotConfigured for every policy, cache directory and directory contents. |
| `Scenarios.DefaultsEnabledWithDummy` | scrapy_httpcache/settings/default_settings.py:6-21 | The defaults with caching switched on and the dummy policy give a middleware that denies exactly the `file` scheme and no status code, does not drop misses, and has zero counters. Its storage has no TTL, no open file and the directory's existing files. |
| `Dbm.DbmCacheStorage.constructor` | scrapy_httpcache/extensions/cache_storage/dbm.py:22-26 | A new storage has the configured directory, TTL and fingerprint function, sees exactly the database files the directory already holds, and has no open database. |
| `Dbm.DbmCacheStorage.OpenSpider` | scrapy_httpcache/extensions/cache_storage/dbm.py:28-30 | Opens `<cachedir>/<name>.db`. It is created empty when absent; an existing file keeps its records. |
| `Dbm.DbmCacheStorage.CloseSpider` | scrapy_httpcache/extensions/cache_storage/dbm.py:37-38 | Afterwards no database is open and no file has changed. |
| `Dbm.DbmCacheStorage.RetrieveResponse` | scrapy_httpcache/extensions/cache_storage/dbm.py:40-52 | Returns nothing exactly when the entry is absent or expired. Otherwise it returns a new response with the stored status, URL, headers and body and no flags. No file changes. |
| `Dbm.DbmCacheStorage.StoreResponse` | scrapy_httpcache/extensions/cache_storage/dbm.py:54-65 | The open file gets the fingerprint's data record (status, URL, headers, body) and its time record (`now`). Every other file is unchanged, and every file stays well formed. |
| `Dbm.RecordKeysDistinct` | scrapy_httpcache/extensions/cache_storage/dbm.py:64-65 | `<fp>_data` is never anyone's `<fp>_time`, and each key determines its fingerprint. |
| `Dbm.Put` | scrapy_httpcache/extensions/cache_storage/dbm.py:64-65 | After a store, `<fp>_data` holds the response data and `<fp>_time` holds the store time. |
| `Dbm.PutWritesOnlyItsRecords` | scrapy_httpcache/extensions/cache_storage/dbm.py:57-65 | A store adds exactly the two keys of its fingerprint, holding the data and the store time; every other key keeps its value. |
| `Dbm.LastWriteWins` | scrapy_httpcache/extensions/cache_storage/dbm.py:64-65 | Two stores for one fingerprint leave the file as the second store alone would. |
| `Dbm.PutPreservesWellFormed` | scrapy_httpcache/extensions/cache_storage/dbm.py:64-65 | After a store, every time record in the file still has a readable data record. |
| `Dbm.WellFormedReadsNoError` | scrapy_httpcache/extensions/cache_storage/dbm.py:73-80 | Reading a well-formed file never raises. |
| `Dbm.ReadData` | scrapy_httpcache/extensions/cache_storage/dbm.py:67-80 | "Not found" exactly when `<fp>_time` is absent. "Expired" exactly when the stamp is readable and a positive TTL is strictly exceeded. A found value is the one in `<fp>_data`. An error happens exactly when, with the time record present, the TTL is positive and the stamp is damaged, or the entry is not expired and `<fp>_data` is missing or damaged. |
| `Dbm.MissingTimeIsNotFound` | scrapy_httpcache/extensions/cache_storage/dbm.py:72-74 | Without `<fp>_time` the read is "not found", whatever `<fp>_data` holds, and whether or not it exists. |
| `Dbm.NonPositiveTtlIgnoresStamp` | scrapy_httpcache/extensions/cache_storage/dbm.py:76-80 | With a TTL of 0 or below, the chained comparison never parses the stamp. Only the presence of `<fp>_time` matters, and a readable `<fp>_data` is returned whatever the stamp holds. |
| `Dbm.NonPositiveTtlNeverExpires` | scrapy_httpcache/extensions/cache_storage/dbm.py:77 | A TTL of 0 or below never makes an entry expire. |
| `Dbm.PositiveTtlExpiresIff` | scrapy_httpcache/extensions/cache_storage/dbm.py:76-78 | With a positive TTL, an entry reads as expired exactly when its age is strictly greater than the TTL. |
| `Dbm.StoreThenRead` | scrapy_httpcache/extensions/cache_storage/dbm.py:54-80 | Round trip: a read after a store gives the stored status, URL, headers and body, or "expired" once the TTL has run out. |
| `Dbm.StoredEntryFound` | scrapy_httpcache/extensions/cache_storage/dbm.py:40-80 | At the level of the storage object: after a store into the open file, a lookup of the same request before the entry expires returns exactly the stored data. |
| `Dbm.TtlBoundary` | scrapy_httpcache/extensions/cache_storage/dbm.py:77-78 | An entry stored at T with TTL S > 0 is there at T+S and gone at T+S+1. With TTL 0 it is there at every time. |
| `Dbm.OtherFingerprintUnaffected` | scrapy_httpcache/extensions/cache_storage/dbm.py:57-80 | Storing one fingerprint changes no read of another fingerprint. |
| `Dbm.NamespacePathsDistinct` | scrapy_httpcache/extensions/cache_storage/dbm.py:29 | Two different relative spider names give two different path strings. |
| `Dbm.AbsoluteNameSharesFile` | scrapy_httpcache/extensions/cache_storage/dbm.py:29 | An absolute spider name replaces the cache directory in `os.path.join`, so it can open the same file as a relative name. |
| `Dbm.OtherNamespaceUnaffected` | scrapy_httpcache/extensions/cache_storage/dbm.py:28-30 | Entries stored under one spider's path are invisible to reads under another spider's path. |
| `Dbm.DbPath` | scrapy_httpcache/extensions/cache_storage/dbm.py:29 | A relative spider name gives `<cachedir>/<name>.db`, with one separator added only when the directory lacks a trailing `/`. An absolute name gives `<name>.db`. |
| `Dummy.ConvertCodes` | scrapy_httpcache/extensions/policy/dummy.py:11-13 | The element-wise `int` conversion succeeds exactly when every element converts, and then the result matches the input element by element. Otherwise it names an element that `int` rejects. |
| `Dummy.FromSettings` | scrapy_httpcache/extensions/policy/dummy.py:9-13 | The scheme list is kept and the code list is converted element-wise by `int`. Failure names a code `int` rejects. |
| `Dummy.FromSettingsFailsIff` | scrapy_httpcache/extensions/policy/dummy.py:9-13 | Construction fails exactly when some configured status code is not an integer. |
| `Dummy.ShouldCacheRequestIff` | scrapy_httpcache/extensions/policy/dummy.py:15-16 | A request is cacheable exactly when its URL's scheme equals none of the configured schemes. |
| `Dummy.ShouldCacheResponseIff` | scrapy_httpcache/extensions/policy/dummy.py:18-19 | A response is cacheable exactly when no configured code, converted by `int`, equals its status, so membership is integer equality. |
| `Dummy.FileUrlsNotCached` | scrapy_httpcache/extensions/policy/dummy.py:15-16 | With "file" denied, a `file:` URL in any letter case is not cacheable. |
| `Dummy.AlwaysFreshAndValid` | scrapy_httpcache/extensions/policy/dummy.py:21-25 | Every cached response is fresh and every revalidation succeeds, for all arguments. |
| `DummyPolicyCopy.FromSettings` | scrapy_httpcache/extensions/policy/dummy_policy.py:9-13 | The scheme list is kept and the code list is converted element-wise by `int`. Failure names a code `int` rejects. |
| `DummyPolicyCopy.SameAsDummy` | scrapy_httpcache/extensions/policy/dummy_policy.py:8-25 | Built from the same settings, this class and the one in `dummy.py` both build or both fail. Once built, they agree on all four predicates for all inputs. |
| `DummyPolicyCopy.ShouldCacheRequestIff` | scrapy_httpcache/extensions/policy/dummy_policy.py:15-16 | A request is cacheable exactly when its URL's scheme equals none of the configured schemes. |
| `DummyPolicyCopy.ShouldCacheResponseIff` | scrapy_httpcache/extensions/policy/dummy_policy.py:11-19 | A response is cacheable exactly when no `int`-converted configured code equals its status. |
| `DummyPolicyCopy.AlwaysFreshAndValid` | scrapy_httpcache/extensions/policy/dummy_policy.py:21-25 | Freshness and validity are unconditionally true. |
| `PyInt.StringCodeAgreesWithIntCode` | scrapy_httpcache/extensions/policy/dummy.py:12 | `int(str(n)) == int(n) == n`: a code configured as text denies the same status as the code configured as a number. |
| `PyInt.SurroundingSpaceIgnored` | scrapy_httpcache/extensions/policy/dummy.py:12 | Any run of whitespace (as `str.isspace` defines it) before or after a configured code does not change what `int` makes of it. |
| `UrlScheme.SchemeOfPrefixed` | scrapy_httpcache/extensions/policy/dummy.py:16 | The scheme of `<s>:<rest>`, for a well-formed scheme text `s`, is `s` lower-cased, whatever `rest` holds. |
| `UrlScheme.SchemeIgnoresCase` | scrapy_httpcache/extensions/policy/dummy.py:16 | Two spellings of a scheme that differ only in letter case give the same scheme. |
| `UrlScheme.NonEmptySchemeIsPrefix` | scrapy_httpcache/extensions/policy/dummy.py:16 | A non-empty scheme is the lower-cased, well-formed text before the URL's first colon. |

## Left out

- The document-store backend (`cache_storage/mongo.py`) has nothing to model:
  - every method body is a docstring;
  - `open_spider` connects to nothing;
  - `close_spider` calls `close()` on a client that is never created.
- The middleware's storage is always the dbm backend. The filesystem backend is not part of this model.
- The RFC 2616 policy is the configured default, but it is not part of this model. `CachePolicy.External` stands for any policy with the same four predicates.
- The request fingerprint function is a constructor parameter of the storage: a deterministic function of the request's method, URL, headers and body. URL canonicalisation and hashing are not modelled.
- Clock and date text: time is an integer clock passed in as `now`. `formatdate` is an opaque `date` string parameter. Float timestamps and their `str`/`float` round trip are not modelled.
- Pickle encoding is not modelled. A data record holds the four fields directly. A damaged record or time stamp is the `Unreadable` value. `Dbm.ReadData` gives `ReadError` for a damaged or missing data record, and for a damaged stamp only when the TTL is positive.
- Dbm.DbmCacheStorage.RetrieveResponse: the storage invariant excludes damaged files, so the exception a damaged file raises, which the middleware would propagate, is not reachable through the class.
- Dbm.DbmCacheStorage.constructor and HttpCache.Create: the files already in the cache directory must be well formed, for the same reason. A directory holding damaged files from elsewhere is not modelled.
- `data_path` resolution of the cache directory (a relative directory is placed under the project's data directory, which is created) is not modelled: `cachedir` is the resolved path.
- Dbm.NamespacePathsDistinct: file identity is path-string identity, as on a case-sensitive POSIX file system with no path normalisation. Names such as "a" and "./a", "s/a" and "s//a", or "A" and "a" on a case-insensitive file system give different strings but one file.
- Dbm.OtherNamespaceUnaffected: for the same reason, isolation holds between distinct paths, not between distinct files on disk.
- Response types: `responsetypes.from_args` chooses a response subclass; the model has one response class.
- Headers: Scrapy's `Headers` is case-insensitive and holds lists of values. The model's headers are a plain map of strings, so the Date check is case-sensitive.
- HttpCache.StashOf: a `cached_response` meta value that is not a response counts as no stash. In Python, any non-`None` value would be returned or passed to the policy.
- Exception classes are a flat enumeration. Subclasses of a listed class are represented by that class; `IOError` stands for every `OSError`.
- PyInt.ToInt: `int` is modelled on integers and on strings of ASCII digits with an optional sign and surrounding whitespace. Underscore separators, non-ASCII digits, and floats or booleans in the list are not modelled. `Settings.getlist` splitting a comma-separated string is not modelled either.
- `UrlScheme.Scheme` covers the scheme rule of `urlsplit` in Python 3.9.16, 3.10.9, 3.11.1 and later releases, which require a leading letter. It leaves out the stripping of leading control characters and of tabs and newlines. It also leaves out the port-number special case of older Python versions.
- Plugin loading (`load_object`), `from_crawler` and signal wiring, logging, and the `spider` argument are left out. The stats collector is a single counter map.
- Dbm.DbmCacheStorage.CloseSpider: flushing on close and errors from using a closed database are not modelled. Storage operations require an open database.
- Concurrency between in-flight requests and between processes is not modelled.
