/** The parts of an HTTP exchange the authenticated client inspects or writes:
    the request configuration (url, headers, retry mark), the error response, and
    the request interceptor that attaches the bearer token. */
module Http {
  import opened Wrappers

  /** The status the backend answers with when the access token is no longer valid. */
  const ForbiddenStatus: int := 403

  /** The exact message body that identifies an expired access token. */
  const ExpiredMessage: string := "You are not authorized to perform this action"

  /** The refresh endpoint, never itself a reason to refresh. */
  const RefreshPath: string := "/auth/refresh-token"

  const AuthorizationHeader: string := "Authorization"

  type Headers = map<string, string>

  /** A request configuration: its url, its header object (absent until someone
      creates it) and the `_retry` mark the response interceptor sets. */
  datatype Config = Config(url: string, headers: Option<Headers>, retry: bool)

  /** A truthy `response.data`; `message` is None when the body has no string
      `message` property. A falsy body (missing, null, empty) is modelled by
      the response's `data` being None. */
  datatype Body = Body(message: Option<string>)

  datatype Response = Response(status: int, data: Option<Body>)

  /** The failure the response interceptor receives: the request's config (absent
      for errors raised before a request existed) and the server's response
      (absent for transport failures). */
  datatype AxiosError = AxiosError(config: Option<Config>, response: Option<Response>)

  function Bearer(token: string): string {
    "Bearer " + token
  }

  /** The Authorization header a config carries, if any. */
  function AuthorizationOf(c: Config): Option<string> {
    if c.headers.Some? && AuthorizationHeader in c.headers.value
    then Some(c.headers.value[AuthorizationHeader])
    else None
  }

  /** The header names a config carries. */
  function HeaderNames(c: Config): set<string> {
    if c.headers.Some? then c.headers.value.Keys else {}
  }

  function HeaderValue(c: Config, name: string): string
    requires name in HeaderNames(c)
  {
    c.headers.value[name]
  }

  /** Two configs agree on everything except the Authorization header. */
  ghost predicate SameExceptAuthorization(a: Config, b: Config) {
    && a.url == b.url
    && a.retry == b.retry
    && HeaderNames(a) - {AuthorizationHeader} == HeaderNames(b) - {AuthorizationHeader}
    && (forall k :: k in HeaderNames(a) && k in HeaderNames(b) && k != AuthorizationHeader ==>
          HeaderValue(a, k) == HeaderValue(b, k))
  }

  /** Writes `Authorization: Bearer <token>`, creating the header object when the
      config has none. */
  function SetBearer(c: Config, token: string): (r: Config)
    ensures AuthorizationOf(r) == Some(Bearer(token))
    ensures SameExceptAuthorization(c, r)
  {
    match c.headers
    case Some(h) => c.(headers := Some(h[AuthorizationHeader := Bearer(token)]))
    case None => c.(headers := Some(map[AuthorizationHeader := Bearer(token)]))
  }

  /** Sets the `_retry` mark and nothing else. */
  function MarkRetry(c: Config): (r: Config)
    ensures r.retry
    ensures r.url == c.url && r.headers == c.headers
  {
    c.(retry := true)
  }

  /** The request interceptor of a client created with `captured`: a non-empty
      captured token overwrites the Authorization header; an empty one leaves the
      request exactly as it was. */
  function Attach(captured: string, c: Config): (r: Config)
    ensures captured == "" ==> r == c
    ensures captured != "" ==> AuthorizationOf(r) == Some(Bearer(captured))
    ensures SameExceptAuthorization(c, r)
  {
    if captured != "" then SetBearer(c, captured) else c
  }

  /** Whether a failed response is the backend's token-expiry signal: status 403,
      a body present, and that body's message equal to the fixed sentence. */
  predicate IsAuthError(resp: Option<Response>)
    ensures IsAuthError(resp) <==>
      && resp.Some?
      && resp.value.status == 403
      && resp.value.data.Some?
      && resp.value.data.value.message == Some("You are not authorized to perform this action")
  {
    match resp
    case None => false
    case Some(r) =>
      r.status == ForbiddenStatus &&
      match r.data
      case None => false
      case Some(b) => b.message == Some(ExpiredMessage)
  }

  /** Whether the response interceptor enters the refresh branch for this error:
      token expiry, on a request that exists, is not yet marked retried and does
      not target the refresh endpoint. */
  predicate ShouldRefresh(err: AxiosError)
    ensures ShouldRefresh(err) ==> err.config.Some? && !err.config.value.retry
    ensures ShouldRefresh(err) ==> err.config.value.url != "/auth/refresh-token"
    ensures !IsAuthError(err.response) ==> !ShouldRefresh(err)
  {
    && IsAuthError(err.response)
    && err.config.Some?
    && !err.config.value.retry
    && err.config.value.url != RefreshPath
  }
}
