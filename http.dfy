/** Requests and responses as the cache sees them.  A request's identity
    (method, URL, headers, body) never changes; only its `meta` bag does.
    A response's status, URL and body never change; its headers and flags
    are updated in place by the middleware. */
module Http {

  newtype byte = x: int | 0 <= x < 256

  /** The immutable identity of a request, as handed to the fingerprint
      function and to the policy. */
  datatype RequestKey = RequestKey(httpMethod: string, url: string, headers: map<string, string>, body: seq<byte>)

  /** The four fields the dbm storage persists for a response. */
  datatype CachedData = CachedData(status: int, url: string, headers: map<string, string>, body: seq<byte>)

  /** A response as a policy predicate sees it: its data and its flags. */
  datatype ResponseView = ResponseView(data: CachedData, flags: seq<string>)

  /** A value in `request.meta`: a boolean flag, a stashed cached response,
      or any other user value, of which only its Python truthiness matters. */
  datatype MetaValue = Flag(b: bool) | Stash(resp: Response) | Opaque(truthy: bool)
  {
    predicate IsTruthy() {
      match this
      case Flag(b) => b
      case Stash(_) => true
      case Opaque(t) => t
    }
  }

  class Request {
    const httpMethod: string
    const url: string
    const headers: map<string, string>
    const body: seq<byte>
    var meta: map<string, MetaValue>

    constructor (httpMethod: string, url: string, headers: map<string, string>, body: seq<byte>, meta: map<string, MetaValue>)
      ensures Key() == RequestKey(httpMethod, url, headers, body)
      ensures this.meta == meta
    {
      this.httpMethod := httpMethod;
      this.url := url;
      this.headers := headers;
      this.body := body;
      this.meta := meta;
    }

    function Key(): RequestKey {
      RequestKey(httpMethod, url, headers, body)
    }
  }

  class Response {
    const status: int
    const url: string
    var headers: map<string, string>
    const body: seq<byte>
    var flags: seq<string>

    /** A response as built from its parts; its flag list starts empty. */
    constructor (status: int, url: string, headers: map<string, string>, body: seq<byte>)
      ensures Data() == CachedData(status, url, headers, body)
      ensures flags == []
    {
      this.status := status;
      this.url := url;
      this.headers := headers;
      this.body := body;
      this.flags := [];
    }

    function Data(): CachedData
      reads this`headers
    {
      CachedData(status, url, headers, body)
    }

    function View(): ResponseView
      reads this`headers, this`flags
    {
      ResponseView(Data(), flags)
    }
  }
}
