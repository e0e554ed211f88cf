/** The always-cache policy of `policy/dummy.py`: a scheme deny-list, a
    status deny-list, and every cached response fresh and valid.  The policy
    is a value: nothing it answers changes what it holds. */
module Dummy {
  import opened Wrappers
  import opened Http
  import opened PyInt
  import opened UrlScheme

  datatype DummyPolicy = DummyPolicy(ignoreSchemes: seq<string>, ignoreHttpCodes: seq<int>)
  {
    predicate ShouldCacheRequest(request: RequestKey) {
      Scheme(request.url) !in ignoreSchemes
    }

    predicate ShouldCacheResponse(response: ResponseView, request: RequestKey) {
      response.data.status !in ignoreHttpCodes
    }

    predicate IsCachedResponseFresh(cached: ResponseView, request: RequestKey) {
      true
    }

    predicate IsCachedResponseValid(cached: ResponseView, response: ResponseView, request: RequestKey) {
      true
    }
  }

  /** `[int(x) for x in codes]`: the converted list, or the first element
      `int` rejects (raising ValueError). */
  function ConvertCodes(codes: seq<ConfigItem>): (r: Result<seq<int>, ConfigItem>)
    ensures r.Success? <==> forall i | 0 <= i < |codes| :: ToInt(codes[i]).Some?
    ensures r.Success? ==> |r.value| == |codes|
    ensures r.Success? ==> forall i | 0 <= i < |codes| :: ToInt(codes[i]) == Some(r.value[i])
    ensures r.Failure? ==> r.error in codes && ToInt(r.error).None?
  {
    if codes == [] then Success([])
    else
      var tail := ConvertCodes(codes[1..]);
      assert forall i | 1 <= i < |codes| :: codes[i] == codes[1..][i - 1];
      match ToInt(codes[0])
      case None => Failure(codes[0])
      case Some(c) =>
        if tail.Failure? then
          assert !(forall i | 0 <= i < |codes[1..]| :: ToInt(codes[1..][i]).Some?);
          Failure(tail.error)
        else
          var r := [c] + tail.value;
          assert forall i | 1 <= i < |codes| :: r[i] == tail.value[i - 1];
          Success(r)
  }

  /** The constructor: the scheme list kept as configured, the code list
      converted element-wise with `int`. */
  function FromSettings(ignoreSchemes: seq<string>, ignoreHttpCodes: seq<ConfigItem>): (r: Result<DummyPolicy, ConfigItem>)
    ensures r.Success? ==> r.value.ignoreSchemes == ignoreSchemes && |r.value.ignoreHttpCodes| == |ignoreHttpCodes|
    ensures r.Success? ==> forall i | 0 <= i < |ignoreHttpCodes| :: ToInt(ignoreHttpCodes[i]) == Some(r.value.ignoreHttpCodes[i])
    ensures r.Failure? ==> r.error in ignoreHttpCodes && ToInt(r.error).None?
  {
    match ConvertCodes(ignoreHttpCodes)
    case Failure(e) => Failure(e)
    case Success(codes) => Success(DummyPolicy(ignoreSchemes, codes))
  }

  /** A request is cacheable exactly when its URL's scheme is none of the
      configured schemes. */
  lemma ShouldCacheRequestIff(ignoreSchemes: seq<string>, ignoreHttpCodes: seq<ConfigItem>, p: DummyPolicy, request: RequestKey)
    requires FromSettings(ignoreSchemes, ignoreHttpCodes) == Success(p)
    ensures p.ShouldCacheRequest(request) <==> forall i | 0 <= i < |ignoreSchemes| :: ignoreSchemes[i] != Scheme(request.url)
  {
  }

  /** A response is cacheable exactly when no configured code, converted by
      `int`, equals its status: "404" and 404 in the settings both deny 404. */
  lemma ShouldCacheResponseIff(ignoreSchemes: seq<string>, ignoreHttpCodes: seq<ConfigItem>, p: DummyPolicy,
                               response: ResponseView, request: RequestKey)
    requires FromSettings(ignoreSchemes, ignoreHttpCodes) == Success(p)
    ensures p.ShouldCacheResponse(response, request)
        <==> forall i | 0 <= i < |ignoreHttpCodes| :: ToInt(ignoreHttpCodes[i]) != Some(response.data.status)
  {
    var codes := ConvertCodes(ignoreHttpCodes).value;
    assert p.ignoreHttpCodes == codes;
    if !p.ShouldCacheResponse(response, request) {
      var k :| 0 <= k < |codes| && codes[k] == response.data.status;
      assert ToInt(ignoreHttpCodes[k]) == Some(response.data.status);
    }
  }

  /** Construction fails exactly when some configured code is not an integer. */
  lemma FromSettingsFailsIff(ignoreSchemes: seq<string>, ignoreHttpCodes: seq<ConfigItem>)
    ensures FromSettings(ignoreSchemes, ignoreHttpCodes).Failure?
        <==> exists i | 0 <= i < |ignoreHttpCodes| :: ToInt(ignoreHttpCodes[i]).None?
  {
  }

  /** With the default deny-list ["file"], a `file:` URL, in any letter case,
      is never cached. */
  lemma FileUrlsNotCached(p: DummyPolicy, scheme: string, rest: string, request: RequestKey)
    requires "file" in p.ignoreSchemes
    requires IsSchemeText(scheme) && Lower(scheme) == "file"
    requires request.url == scheme + ":" + rest
    ensures !p.ShouldCacheRequest(request)
  {
    SchemeOfPrefixed(scheme, rest);
  }

  /** Every cached response is fresh and every revalidation succeeds,
      whatever the responses and the request. */
  lemma AlwaysFreshAndValid(p: DummyPolicy, cached: ResponseView, response: ResponseView, request: RequestKey)
    ensures p.IsCachedResponseFresh(cached, request)
    ensures p.IsCachedResponseValid(cached, response, request)
  {
  }
}
