/** The HTTP client's setup: the base URL, the request interceptor that attaches the stored
    token, and the response interceptor that clears the session on a 401 answer. */
module Api {
  import opened Wrappers
  import opened Text
  import opened LocalStorage

  const DefaultBaseUrl := "http://localhost:3333"

  /** `process.env.NEXT_PUBLIC_API_URL || 'http://localhost:3333'`. */
  function BaseUrl(env: Option<string>): (url: string)
    ensures Truthy(env) ==> url == env.value
    ensures !Truthy(env) ==> url == DefaultBaseUrl
  {
    if Truthy(env) then env.value else DefaultBaseUrl
  }

  /** The instance's default headers. */
  const DefaultHeaders: map<string, string> := map["Content-Type" := "application/json"]

  /** An outgoing request's configuration; interceptors change its headers in place. */
  class RequestConfig {
    var headers: map<string, string>

    constructor(headers: map<string, string>)
      ensures this.headers == headers
    {
      this.headers := headers;
    }
  }

  /** The header set a request leaves with, given the stored token. */
  function HeadersWith(headers: map<string, string>, token: Option<string>): (h: map<string, string>)
    ensures Truthy(token) ==> "Authorization" in h && h["Authorization"] == "Bearer " + token.value
    ensures forall k :: k != "Authorization" ==> (k in h <==> k in headers) && (k in h ==> h[k] == headers[k])
    ensures !Truthy(token) ==> h == headers
  {
    if Truthy(token) then headers["Authorization" := "Bearer " + token.value] else headers
  }

  /** The request interceptor: with a stored token the request carries
      `Authorization: Bearer <token>`; storage is only read. */
  method OnRequest(storage: Storage, config: RequestConfig) returns (r: RequestConfig)
    modifies config
    ensures r == config
    ensures config.headers == HeadersWith(old(config.headers), storage.GetItem(TokenKey))
  {
    var token := storage.GetItem(TokenKey);
    if Truthy(token) {
      config.headers := config.headers["Authorization" := "Bearer " + token.value];
    }
    return config;
  }

  /** A failed request; `status` is absent when no response arrived. */
  datatype ApiError = ApiError(status: Option<int>, message: string)

  /** The success path of the response interceptor passes the response through. */
  function OnResponse<R>(response: R): (r: R)
    ensures r == response
  {
    response
  }

  /** The error path: a 401 clears both session keys and sends the browser to `/signin`;
      every error is rejected again as it came. */
  method OnResponseError(storage: Storage, error: ApiError) returns (rejected: ApiError, location: Option<string>)
    modifies storage
    ensures rejected == error
    ensures error.status == Some(401) ==> storage.items == old(storage.items) - {TokenKey, UserKey} && location == Some("/signin")
    ensures error.status != Some(401) ==> storage.items == old(storage.items) && location == None
  {
    location := None;
    if error.status == Some(401) {
      storage.ClearSession();
      location := Some("/signin");
    }
    rejected := error;
  }

  /** A request sent right after a 401 carries no token. */
  method RequestAfterUnauthorized(storage: Storage, config: RequestConfig, error: ApiError)
    requires config.headers == DefaultHeaders
    requires error.status == Some(401)
    modifies storage, config
    ensures "Authorization" !in config.headers
  {
    var _, _ := OnResponseError(storage, error);
    var _ := OnRequest(storage, config);
  }
}
