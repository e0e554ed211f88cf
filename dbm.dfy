/** The embedded key-value backend of `cache_storage/dbm.py`.  One database
    file per spider name under the cache directory; per request fingerprint
    two records, `<fp>_data` (status, URL, headers, body) and `<fp>_time`
    (the clock at store time).  Stores overwrite both records; reads look at
    the time record first and treat an expired entry as absent. */
module Dbm {
  import opened Wrappers
  import opened Http

  /** A value in a database file: a pickled response, a store time, or
      bytes that neither unpickle nor parse as a time. */
  datatype DbValue = Pickled(data: CachedData) | Stamp(ts: int) | Unreadable

  type Db = map<string, DbValue>

  function DataKey(fp: string): string {
    fp + "_data"
  }

  function TimeKey(fp: string): string {
    fp + "_time"
  }

  lemma SuffixCancels(a: string, b: string, t: string)
    requires a + t == b + t
    ensures a == b
  {
    assert |a| == |b|;
    assert a == (a + t)[..|a|];
    assert b == (b + t)[..|b|];
  }

  /** The two record keys never collide: a data key is never a time key, and
      each kind of key determines its fingerprint. */
  lemma RecordKeysDistinct(fp1: string, fp2: string)
    ensures DataKey(fp1) != TimeKey(fp2)
    ensures DataKey(fp1) == DataKey(fp2) <==> fp1 == fp2
    ensures TimeKey(fp1) == TimeKey(fp2) <==> fp1 == fp2
  {
    assert DataKey(fp1)[|fp1| + 2] == 'a' && TimeKey(fp2)[|fp2| + 2] == 'i';
    if DataKey(fp1) == DataKey(fp2) {
      SuffixCancels(fp1, fp2, "_data");
    }
    if TimeKey(fp1) == TimeKey(fp2) {
      SuffixCancels(fp1, fp2, "_time");
    }
  }

  /** Every time record is a readable time with a readable data record
      beside it: what every file written only by `Put` satisfies. */
  ghost predicate WellFormed(db: Db) {
    forall fp :: TimeKey(fp) in db ==>
      db[TimeKey(fp)].Stamp? && DataKey(fp) in db && db[DataKey(fp)].Pickled?
  }

  /** `store_response` on the open file: both records written, in that order. */
  function Put(db: Db, fp: string, data: CachedData, now: int): (r: Db)
    ensures DataKey(fp) in r && r[DataKey(fp)] == Pickled(data)
    ensures TimeKey(fp) in r && r[TimeKey(fp)] == Stamp(now)
  {
    RecordKeysDistinct(fp, fp);
    db[DataKey(fp) := Pickled(data)][TimeKey(fp) := Stamp(now)]
  }

  /** `0 < expiration_secs < now - ts`: a positive TTL strictly exceeded. */
  predicate IsExpired(expirationSecs: int, now: int, ts: int) {
    0 < expirationSecs < now - ts
  }

  /** The outcome of `_read_data`: nothing stored, stored but expired, the
      unpickled data, or the exception a damaged file raises. */
  datatype ReadResult = NotFound | Expired | Found(data: CachedData) | ReadError

  /** `pickle.loads(db["<fp>_data"])`: the stored data, or the exception a
      missing or damaged data record raises. */
  function LoadData(db: Db, fp: string): ReadResult {
    if DataKey(fp) in db && db[DataKey(fp)].Pickled? then Found(db[DataKey(fp)].data) else ReadError
  }

  /** `_read_data`.  The chained comparison `0 < expiration_secs < now -
      float(ts)` stops at its first half when the TTL is 0 or below, so the
      time record is then only tested for presence, never parsed. */
  function ReadData(db: Db, fp: string, expirationSecs: int, now: int): (r: ReadResult)
    ensures r == NotFound <==> TimeKey(fp) !in db
    ensures r == Expired <==> TimeKey(fp) in db && db[TimeKey(fp)].Stamp? && IsExpired(expirationSecs, now, db[TimeKey(fp)].ts)
    ensures r.Found? ==> TimeKey(fp) in db && DataKey(fp) in db && db[DataKey(fp)] == Pickled(r.data)
    ensures r == ReadError <==>
              TimeKey(fp) in db &&
              ((expirationSecs > 0 && !db[TimeKey(fp)].Stamp?) ||
               (!(db[TimeKey(fp)].Stamp? && IsExpired(expirationSecs, now, db[TimeKey(fp)].ts)) &&
                !(DataKey(fp) in db && db[DataKey(fp)].Pickled?)))
  {
    if TimeKey(fp) !in db then NotFound
    else if expirationSecs <= 0 then LoadData(db, fp)
    else match db[TimeKey(fp)]
      case Stamp(ts) => if IsExpired(expirationSecs, now, ts) then Expired else LoadData(db, fp)
      case _ => ReadError
  }

  /** A store writes exactly the two records of its fingerprint, with the
      response's data and the store time; every other key keeps its value. */
  lemma PutWritesOnlyItsRecords(db: Db, fp: string, data: CachedData, now: int)
    ensures Put(db, fp, data, now).Keys == db.Keys + {DataKey(fp), TimeKey(fp)}
    ensures Put(db, fp, data, now)[DataKey(fp)] == Pickled(data)
    ensures Put(db, fp, data, now)[TimeKey(fp)] == Stamp(now)
    ensures forall k | k in db && k != DataKey(fp) && k != TimeKey(fp) :: Put(db, fp, data, now)[k] == db[k]
  {
    RecordKeysDistinct(fp, fp);
  }

  /** Last write wins: a second store of the same fingerprint replaces the
      first one wholesale. */
  lemma LastWriteWins(db: Db, fp: string, d1: CachedData, t1: int, d2: CachedData, t2: int)
    ensures Put(Put(db, fp, d1, t1), fp, d2, t2) == Put(db, fp, d2, t2)
  {
    RecordKeysDistinct(fp, fp);
    var a := Put(Put(db, fp, d1, t1), fp, d2, t2);
    var b := Put(db, fp, d2, t2);
    assert a.Keys == b.Keys;
    assert forall k | k in a :: a[k] == b[k];
  }

  lemma PutPreservesWellFormed(db: Db, fp: string, data: CachedData, now: int)
    requires WellFormed(db)
    ensures WellFormed(Put(db, fp, data, now))
  {
    var db' := Put(db, fp, data, now);
    forall fp' | TimeKey(fp') in db'
      ensures db'[TimeKey(fp')].Stamp? && DataKey(fp') in db' && db'[DataKey(fp')].Pickled?
    {
      RecordKeysDistinct(fp, fp');
      RecordKeysDistinct(fp', fp);
    }
  }

  /** A well-formed file never makes `_read_data` raise. */
  lemma WellFormedReadsNoError(db: Db, fp: string, expirationSecs: int, now: int)
    requires WellFormed(db)
    ensures ReadData(db, fp, expirationSecs, now) != ReadError
  {
  }

  /** Without a time record the answer is "not found", whatever the data
      record holds or whether it exists: the data record is not consulted. */
  lemma MissingTimeIsNotFound(db: Db, fp: string, expirationSecs: int, now: int, v: DbValue)
    requires TimeKey(fp) !in db
    ensures ReadData(db, fp, expirationSecs, now) == NotFound
    ensures ReadData(db[DataKey(fp) := v], fp, expirationSecs, now) == NotFound
  {
    RecordKeysDistinct(fp, fp);
  }

  /** With a TTL of zero or below the time record is never parsed: only its
      presence matters, and the read gives whatever the data record holds. */
  lemma NonPositiveTtlIgnoresStamp(db: Db, fp: string, expirationSecs: int, now: int, v: DbValue)
    requires expirationSecs <= 0 && TimeKey(fp) in db
    ensures ReadData(db[TimeKey(fp) := v], fp, expirationSecs, now) == ReadData(db, fp, expirationSecs, now)
    ensures DataKey(fp) in db && db[DataKey(fp)].Pickled? ==>
              ReadData(db[TimeKey(fp) := v], fp, expirationSecs, now) == Found(db[DataKey(fp)].data)
  {
    RecordKeysDistinct(fp, fp);
  }

  /** A TTL of zero or below never expires anything. */
  lemma NonPositiveTtlNeverExpires(db: Db, fp: string, expirationSecs: int, now: int)
    requires expirationSecs <= 0
    ensures ReadData(db, fp, expirationSecs, now) != Expired
  {
  }

  /** With a positive TTL, a stored entry reads as expired exactly when its
      age is strictly greater than the TTL. */
  lemma PositiveTtlExpiresIff(db: Db, fp: string, expirationSecs: int, now: int)
    requires expirationSecs > 0
    requires TimeKey(fp) in db && db[TimeKey(fp)].Stamp?
    ensures ReadData(db, fp, expirationSecs, now) == Expired
        <==> now - db[TimeKey(fp)].ts > expirationSecs
  {
  }

  /** Round trip: reading back what was just stored gives the stored data
      unless the TTL has run out, in which case the entry reads as expired. */
  lemma StoreThenRead(db: Db, fp: string, data: CachedData, ts: int, expirationSecs: int, now: int)
    ensures ReadData(Put(db, fp, data, ts), fp, expirationSecs, now)
         == if IsExpired(expirationSecs, now, ts) then Expired else Found(data)
  {
    RecordKeysDistinct(fp, fp);
  }

  /** The TTL boundary: stored at `ts` with TTL `s > 0`, an entry is still
      there at `ts + s` and gone at `ts + s + 1`; with TTL 0 it is there at
      every later time. */
  lemma TtlBoundary(db: Db, fp: string, data: CachedData, ts: int, s: int, later: int)
    requires s > 0
    ensures ReadData(Put(db, fp, data, ts), fp, s, ts + s) == Found(data)
    ensures ReadData(Put(db, fp, data, ts), fp, s, ts + s + 1) == Expired
    ensures ReadData(Put(db, fp, data, ts), fp, 0, later) == Found(data)
  {
    StoreThenRead(db, fp, data, ts, s, ts + s);
    StoreThenRead(db, fp, data, ts, s, ts + s + 1);
    StoreThenRead(db, fp, data, ts, 0, later);
  }

  /** Storing one fingerprint does not change what any other fingerprint reads. */
  lemma OtherFingerprintUnaffected(db: Db, fp: string, data: CachedData, ts: int, other: string,
                                   expirationSecs: int, now: int)
    requires other != fp
    ensures ReadData(Put(db, fp, data, ts), other, expirationSecs, now) == ReadData(db, other, expirationSecs, now)
  {
    RecordKeysDistinct(fp, other);
    RecordKeysDistinct(other, fp);
  }

  predicate IsAbsolute(path: string) {
    |path| > 0 && path[0] == '/'
  }

  /** `os.path.join(dir, name)` on POSIX: an absolute `name` replaces `dir`. */
  function JoinPath(dir: string, name: string): string {
    if IsAbsolute(name) then name
    else if dir == [] || dir[|dir| - 1] == '/' then dir + name
    else dir + "/" + name
  }

  /** The file that holds one spider's cache: `<cachedir>/<name>.db`. */
  function DbPath(cachedir: string, spiderName: string): (r: string)
    ensures IsAbsolute(spiderName) ==> r == spiderName + ".db"
    ensures !IsAbsolute(spiderName) ==> r == cachedir + spiderName + ".db" || r == cachedir + "/" + spiderName + ".db"
    ensures !IsAbsolute(spiderName) && cachedir != [] ==> r[|cachedir| - 1] == '/' || r[|cachedir|] == '/'
    ensures !IsAbsolute(spiderName) && (cachedir == [] || cachedir[|cachedir| - 1] == '/') ==> r == cachedir + spiderName + ".db"
  {
    var f := spiderName + ".db";
    assert IsAbsolute(f) <==> IsAbsolute(spiderName) by {
      if spiderName == [] { assert f[0] == '.'; } else { assert f[0] == spiderName[0]; }
    }
    JoinPath(cachedir, f)
  }

  /** Distinct spider names open distinct files, as long as neither name is
      an absolute path. */
  lemma NamespacePathsDistinct(cachedir: string, name1: string, name2: string)
    requires name1 != name2 && !IsAbsolute(name1) && !IsAbsolute(name2)
    ensures DbPath(cachedir, name1) != DbPath(cachedir, name2)
  {
    var f1, f2 := name1 + ".db", name2 + ".db";
    assert !IsAbsolute(f1) && !IsAbsolute(f2) by {
      if name1 == [] { assert f1[0] == '.'; } else { assert f1[0] == name1[0]; }
      if name2 == [] { assert f2[0] == '.'; } else { assert f2[0] == name2[0]; }
    }
    var prefix := if cachedir == [] || cachedir[|cachedir| - 1] == '/' then cachedir else cachedir + "/";
    assert DbPath(cachedir, name1) == prefix + f1;
    assert DbPath(cachedir, name2) == prefix + f2;
    if prefix + f1 == prefix + f2 {
      assert f1 == (prefix + f1)[|prefix|..];
      assert f2 == (prefix + f2)[|prefix|..];
      SuffixCancels(name1, name2, ".db");
    }
  }

  /** An absolute spider name escapes the cache directory and can share a
      file with a relative one. */
  lemma AbsoluteNameSharesFile()
    ensures DbPath("/cache", "spider") == DbPath("/cache", "/cache/spider")
  {
  }

  /** Writing into one spider's file changes no other spider's reads. */
  lemma OtherNamespaceUnaffected(files: map<string, Db>, cachedir: string, name: string, other: string,
                                 fp: string, data: CachedData, ts: int, fp': string, expirationSecs: int, now: int)
    requires name != other && !IsAbsolute(name) && !IsAbsolute(other)
    requires DbPath(cachedir, name) in files && DbPath(cachedir, other) in files
    ensures var files' := files[DbPath(cachedir, name) := Put(files[DbPath(cachedir, name)], fp, data, ts)];
            ReadData(files'[DbPath(cachedir, other)], fp', expirationSecs, now)
              == ReadData(files[DbPath(cachedir, other)], fp', expirationSecs, now)
  {
    NamespacePathsDistinct(cachedir, name, other);
  }

  /** Round trip through the storage object: once the open file holds a
      store of `data` for the request at `ts`, the lookup at any time the
      entry has not expired finds exactly `data`. */
  lemma StoredEntryFound(st: DbmCacheStorage, files0: map<string, Db>, request: RequestKey,
                         data: CachedData, ts: int, later: int)
    requires st.Valid() && st.IsOpen() && st.current.value in files0
    requires st.files == files0[st.current.value := Put(files0[st.current.value], st.fingerprint(request), data, ts)]
    requires !IsExpired(st.expirationSecs, later, ts)
    ensures st.Lookup(request, later) == Some(data)
  {
    StoreThenRead(files0[st.current.value], st.fingerprint(request), data, ts, st.expirationSecs, later);
  }

  /** The storage object: the cache directory, the TTL and the fingerprint
      function it was configured with, every database file by path, and the
      path of the file opened for the running spider. */
  class DbmCacheStorage {
    const cachedir: string
    const expirationSecs: int
    const fingerprint: RequestKey -> string
    var files: map<string, Db>
    var current: Option<string>

    ghost predicate Valid()
      reads this
    {
      && (forall p | p in files :: WellFormed(files[p]))
      && (current.Some? ==> current.value in files)
    }

    predicate IsOpen()
      reads this
    {
      current.Some?
    }

    /** A storage over a cache directory that already holds the database
        files `files0` (left by earlier crawls); no file open yet. */
    constructor (cachedir: string, expirationSecs: int, fingerprint: RequestKey -> string, files0: map<string, Db>)
      requires forall p | p in files0 :: WellFormed(files0[p])
      ensures Valid() && !IsOpen() && files == files0
      ensures this.cachedir == cachedir && this.expirationSecs == expirationSecs
      ensures this.fingerprint == fingerprint
    {
      this.cachedir := cachedir;
      this.expirationSecs := expirationSecs;
      this.fingerprint := fingerprint;
      files := files0;
      current := None;
    }

    /** `open_spider`: open `<cachedir>/<name>.db`, creating it when absent
        (dbm flag "c"); an existing file keeps its records. */
    method OpenSpider(spiderName: string)
      requires Valid()
      modifies this
      ensures Valid()
      ensures current == Some(DbPath(cachedir, spiderName))
      ensures files == if DbPath(cachedir, spiderName) in old(files) then old(files)
                       else old(files)[DbPath(cachedir, spiderName) := map[]]
    {
      var path := DbPath(cachedir, spiderName);
      if path !in files {
        files := files[path := map[]];
      }
      current := Some(path);
    }

    /** `close_spider`: close the open file; its records stay on disk. */
    method CloseSpider()
      requires Valid() && IsOpen()
      modifies this`current
      ensures Valid() && !IsOpen()
    {
      current := None;
    }

    /** What `retrieve_response` finds for a request at time `now`. */
    function Lookup(request: RequestKey, now: int): Option<CachedData>
      reads this
      requires Valid() && IsOpen()
    {
      match ReadData(files[current.value], fingerprint(request), expirationSecs, now)
      case Found(d) => Some(d)
      case _ => None
    }

    /** `retrieve_response`: a new response built from the stored record, or
        nothing when the entry is absent or expired.  Reading changes no file. */
    method RetrieveResponse(request: RequestKey, now: int) returns (r: Option<Response>)
      requires Valid() && IsOpen()
      ensures r.None? <==> ReadData(files[current.value], fingerprint(request), expirationSecs, now) in {NotFound, Expired}
      ensures r.Some? ==> && fresh(r.value) && r.value.flags == []
                          && ReadData(files[current.value], fingerprint(request), expirationSecs, now) == Found(r.value.Data())
      ensures r.None? <==> Lookup(request, now).None?
      ensures r.Some? ==> Lookup(request, now) == Some(r.value.Data())
    {
      WellFormedReadsNoError(files[current.value], fingerprint(request), expirationSecs, now);
      match ReadData(files[current.value], fingerprint(request), expirationSecs, now)
      case Found(d) =>
        var resp := new Response(d.status, d.url, d.headers, d.body);
        r := Some(resp);
      case _ =>
        r := None;
    }

    /** `store_response`: overwrite both records of the request's
        fingerprint in the open file, stamped with `now`. */
    method StoreResponse(request: RequestKey, response: Response, now: int)
      requires Valid() && IsOpen()
      modifies this`files
      ensures Valid()
      ensures files == old(files)[current.value := Put(old(files)[current.value], fingerprint(request), response.Data(), now)]
    {
      var path := current.value;
      PutPreservesWellFormed(files[path], fingerprint(request), response.Data(), now);
      files := files[path := Put(files[path], fingerprint(request), response.Data(), now)];
    }
  }
}
