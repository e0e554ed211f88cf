/** `policy/dummy_policy.py`, a second module holding its own `DummyPolicy`
    class with the same four predicates and the same constructor as
    `policy/dummy.py`.  Modelled as its own value type; `SameAsDummy` proves
    that the two classes, built from the same settings, answer alike. */
module DummyPolicyCopy {
  import opened Wrappers
  import opened Http
  import opened PyInt
  import opened UrlScheme
  import Dummy

  datatype DummyPolicy = DummyPolicy(ignoreSchemes: seq<string>, ignoreHttpCodes: seq<int>)
  {
    predicate ShouldCacheRequest(request: RequestKey) {
      Scheme(request.url) !in ignoreSchemes
    }

    predicate ShouldCacheResponse(response: ResponseView, request: RequestKey) {
      response.data.status !in ignoreHttpCodes
    }

    predicate IsCachedResponseFresh(cached: ResponseView, request: RequestKey) {
      true
    }

    predicate IsCachedResponseValid(cached: ResponseView, response: ResponseView, request: RequestKey) {
      true
    }
  }

  function FromSettings(ignoreSchemes: seq<string>, ignoreHttpCodes: seq<ConfigItem>): (r: Result<DummyPolicy, ConfigItem>)
    ensures r.Success? ==> r.value.ignoreSchemes == ignoreSchemes && |r.value.ignoreHttpCodes| == |ignoreHttpCodes|
    ensures r.Success? ==> forall i | 0 <= i < |ignoreHttpCodes| :: ToInt(ignoreHttpCodes[i]) == Some(r.value.ignoreHttpCodes[i])
    ensures r.Failure? ==> r.error in ignoreHttpCodes && ToInt(r.error).None?
  {
    match Dummy.ConvertCodes(ignoreHttpCodes)
    case Failure(e) => Failure(e)
    case Success(codes) => Success(DummyPolicy(ignoreSchemes, codes))
  }

  /** Built from the same settings, this class and the one in `dummy.py`
      are constructed or rejected together, and then agree on all four
      predicates for every input. */
  lemma SameAsDummy(ignoreSchemes: seq<string>, ignoreHttpCodes: seq<ConfigItem>,
                    cached: ResponseView, response: ResponseView, request: RequestKey)
    ensures FromSettings(ignoreSchemes, ignoreHttpCodes).Success?
        <==> Dummy.FromSettings(ignoreSchemes, ignoreHttpCodes).Success?
    ensures FromSettings(ignoreSchemes, ignoreHttpCodes).Success? ==>
      var p := FromSettings(ignoreSchemes, ignoreHttpCodes).value;
      var q := Dummy.FromSettings(ignoreSchemes, ignoreHttpCodes).value;
      && (p.ShouldCacheRequest(request) <==> q.ShouldCacheRequest(request))
      && (p.ShouldCacheResponse(response, request) <==> q.ShouldCacheResponse(response, request))
      && (p.IsCachedResponseFresh(cached, request) <==> q.IsCachedResponseFresh(cached, request))
      && (p.IsCachedResponseValid(cached, response, request) <==> q.IsCachedResponseValid(cached, response, request))
  {
  }

  /** A request is cacheable exactly when its URL's scheme is none of the
      configured schemes. */
  lemma ShouldCacheRequestIff(ignoreSchemes: seq<string>, ignoreHttpCodes: seq<ConfigItem>, p: DummyPolicy, request: RequestKey)
    requires FromSettings(ignoreSchemes, ignoreHttpCodes) == Success(p)
    ensures p.ShouldCacheRequest(request) <==> forall i | 0 <= i < |ignoreSchemes| :: ignoreSchemes[i] != Scheme(request.url)
  {
  }

  /** A response is cacheable exactly when no configured code, converted by
      `int`, equals its status. */
  lemma ShouldCacheResponseIff(ignoreSchemes: seq<string>, ignoreHttpCodes: seq<ConfigItem>, p: DummyPolicy,
                               response: ResponseView, request: RequestKey)
    requires FromSettings(ignoreSchemes, ignoreHttpCodes) == Success(p)
    ensures p.ShouldCacheResponse(response, request)
        <==> forall i | 0 <= i < |ignoreHttpCodes| :: ToInt(ignoreHttpCodes[i]) != Some(response.data.status)
  {
    SameAsDummy(ignoreSchemes, ignoreHttpCodes, response, response, request);
    Dummy.ShouldCacheResponseIff(ignoreSchemes, ignoreHttpCodes, Dummy.FromSettings(ignoreSchemes, ignoreHttpCodes).value, response, request);
  }

  /** Every cached response is fresh and every revalidation succeeds. */
  lemma AlwaysFreshAndValid(p: DummyPolicy, cached: ResponseView, response: ResponseView, request: RequestKey)
    ensures p.IsCachedResponseFresh(cached, request)
    ensures p.IsCachedResponseValid(cached, response, request)
  {
  }
}
