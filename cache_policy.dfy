/** The four-predicate policy capability the middleware consults
    (`policy/__init__.py`).  A policy is one of the two dummy classes, or an
    external policy (the RFC 2616 policy named in the default settings,
    whose decision logic is not part of this model) given by any four
    predicates over the same arguments. */
module CachePolicy {
  import opened Http
  import Dummy
  import DummyPolicyCopy

  datatype Policy =
    | FromDummy(dummy: Dummy.DummyPolicy)
    | FromDummyCopy(copy: DummyPolicyCopy.DummyPolicy)
    | External(shouldCacheRequest: RequestKey -> bool,
               shouldCacheResponse: (ResponseView, RequestKey) -> bool,
               isFresh: (ResponseView, RequestKey) -> bool,
               isValid: (ResponseView, ResponseView, RequestKey) -> bool)
  {
    predicate ShouldCacheRequest(request: RequestKey) {
      match this
      case FromDummy(d) => d.ShouldCacheRequest(request)
      case FromDummyCopy(d) => d.ShouldCacheRequest(request)
      case External(f, _, _, _) => f(request)
    }

    predicate ShouldCacheResponse(response: ResponseView, request: RequestKey) {
      match this
      case FromDummy(d) => d.ShouldCacheResponse(response, request)
      case FromDummyCopy(d) => d.ShouldCacheResponse(response, request)
      case External(_, f, _, _) => f(response, request)
    }

    predicate IsCachedResponseFresh(cached: ResponseView, request: RequestKey) {
      match this
      case FromDummy(d) => d.IsCachedResponseFresh(cached, request)
      case FromDummyCopy(d) => d.IsCachedResponseFresh(cached, request)
      case External(_, _, f, _) => f(cached, request)
    }

    predicate IsCachedResponseValid(cached: ResponseView, response: ResponseView, request: RequestKey) {
      match this
      case FromDummy(d) => d.IsCachedResponseValid(cached, response, request)
      case FromDummyCopy(d) => d.IsCachedResponseValid(cached, response, request)
      case External(_, _, _, f) => f(cached, response, request)
    }

    predicate IsDummy() {
      FromDummy? || FromDummyCopy?
    }
  }
}
