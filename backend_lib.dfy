/**
 * The worker entry point: an OPTIONS preflight is answered at once; any
 * other request is routed, a routing error becomes a JSON error response
 * with a status chosen by the error's kind, and every response leaves with
 * the CORS headers.
 */
module BackendLib {
  import opened Wrappers
  import opened ApiResult
  import Config
  import Http
  import AuthUser

  const STATUS_OK: nat := 200
  const STATUS_BAD_REQUEST: nat := 400
  const STATUS_UNAUTHORIZED: nat := 401
  const STATUS_NOT_FOUND: nat := 404
  const STATUS_INTERNAL_SERVER_ERROR: nat := 500

  /** The status of the response to a request whose handling failed with `e`. */
  function StatusOf(e: ApiError): (code: nat)
    ensures code == STATUS_UNAUTHORIZED <==> e.Auth?
    ensures code == STATUS_NOT_FOUND <==> e.Omi? && e.omi.NoSuchUser?
    ensures code == STATUS_OK <==> e.Omi? && e.omi.NoActions?
    ensures code == STATUS_BAD_REQUEST <==> e.MissingBody? || e.ParseBody?
    ensures code == STATUS_INTERNAL_SERVER_ERROR <==> e.Unknown? || e.Telegram? || e.Kv? || e.Db? || e.Parse?
  {
    match e
    case Auth(_) => STATUS_UNAUTHORIZED
    case Unknown(_) => STATUS_INTERNAL_SERVER_ERROR
    case Telegram(_) => STATUS_INTERNAL_SERVER_ERROR
    case Omi(omiError) =>
      (match omiError
       case NoSuchUser(_) => STATUS_NOT_FOUND
       case NoActions(_) => STATUS_OK)
    case Kv(_) => STATUS_INTERNAL_SERVER_ERROR
    case Db(_) => STATUS_INTERNAL_SERVER_ERROR
    case Parse(_) => STATUS_INTERNAL_SERVER_ERROR
    case MissingBody(_) => STATUS_BAD_REQUEST
    case ParseBody(_) => STATUS_BAD_REQUEST
  }

  /** Every error gets one of five statuses, and only a hook call with no actions reads as a success. */
  lemma StatusIsErrorUnlessNoActions(e: ApiError)
    ensures StatusOf(e) in {STATUS_OK, STATUS_BAD_REQUEST, STATUS_UNAUTHORIZED, STATUS_NOT_FOUND,
                            STATUS_INTERNAL_SERVER_ERROR}
    ensures StatusOf(e) < 400 <==> e.Omi? && e.omi.NoActions?
  {
  }

  /** The origin of a request: its `origin` header, or failing that its `referrer` header. */
  function RequestOrigin(req: Http.Request): (o: Option<string>)
    ensures Http.TryHeader(req, "origin").Some? ==> o == Http.TryHeader(req, "origin")
    ensures Http.TryHeader(req, "origin").None? ==> o == Http.TryHeader(req, "referrer")
  {
    match Http.TryHeader(req, "origin")
    case Some(origin) => Some(origin)
    case None => Http.TryHeader(req, "referrer")
  }

  // Response header names as the header map keeps them (lower case).
  const ALLOW_ORIGIN: string := "access-control-allow-origin"
  const ALLOW_CREDENTIALS: string := "access-control-allow-credentials"
  const MAX_AGE: string := "access-control-max-age"
  const ALLOW_METHODS: string := "access-control-allow-methods"
  const ALLOW_HEADERS: string := "access-control-allow-headers"
  const CONTENT_TYPE: string := "content-type"

  const ALLOWED_METHODS: string := "GET, HEAD, POST, OPTIONS"

  /** The request headers a browser may send: the content type and the four custom auth headers. */
  function AllowedHeaders(): string {
    "Content-Type, " + AuthUser.HEADER_AUTH_TOKEN_KEY + ", " + AuthUser.HEADER_AUTH_TOKEN_ID + ", "
    + AuthUser.HEADER_ADMIN_CODE + ", " + AuthUser.HEADER_ADMIN_UID
  }

  predicate IsCorsHeader(name: string) {
    name == ALLOW_ORIGIN || name == ALLOW_CREDENTIALS || name == MAX_AGE || name == ALLOW_METHODS
    || name == ALLOW_HEADERS
  }

  /** Whether the origin is one the build profile lets read responses. */
  predicate AllowsOrigin(origin: Option<string>, p: Config.Profile) {
    origin.Some? && origin.value in Config.AllowedOrigins(p)
  }

  /** The headers `apply_cors` leaves on a response that had headers `h`. */
  function CorsHeaders(h: map<string, string>, origin: Option<string>, p: Config.Profile): (r: map<string, string>)
    ensures AllowsOrigin(origin, p) ==> ALLOW_ORIGIN in r && r[ALLOW_ORIGIN] == origin.value
    ensures !AllowsOrigin(origin, p) ==>
      (ALLOW_ORIGIN in r <==> ALLOW_ORIGIN in h) && (ALLOW_ORIGIN in h ==> r[ALLOW_ORIGIN] == h[ALLOW_ORIGIN])
    ensures ALLOW_CREDENTIALS in r && r[ALLOW_CREDENTIALS] == "true"
    ensures MAX_AGE in r && r[MAX_AGE] == "86400"
    ensures ALLOW_METHODS in r && r[ALLOW_METHODS] == ALLOWED_METHODS
    ensures ALLOW_HEADERS in r && r[ALLOW_HEADERS] == AllowedHeaders()
    ensures forall k :: !IsCorsHeader(k) ==> (k in r <==> k in h) && (k in h ==> r[k] == h[k])
  {
    var withOrigin := if AllowsOrigin(origin, p) then h[ALLOW_ORIGIN := origin.value] else h;
    withOrigin[ALLOW_CREDENTIALS := "true"][MAX_AGE := "86400"][ALLOW_METHODS := ALLOWED_METHODS]
      [ALLOW_HEADERS := AllowedHeaders()]
  }

  /** On a response without CORS headers of its own, the origin is exposed exactly when it is allowed. */
  lemma OriginExposedIffAllowed(h: map<string, string>, origin: Option<string>, p: Config.Profile)
    requires ALLOW_ORIGIN !in h
    ensures ALLOW_ORIGIN in CorsHeaders(h, origin, p) <==> AllowsOrigin(origin, p)
    ensures ALLOW_ORIGIN in CorsHeaders(h, origin, p) ==> Some(CorsHeaders(h, origin, p)[ALLOW_ORIGIN]) == origin
  {
  }

  /** Applying the CORS headers twice is applying them once. */
  lemma {:induction false} CorsIdempotent(h: map<string, string>, origin: Option<string>, p: Config.Profile)
    ensures CorsHeaders(CorsHeaders(h, origin, p), origin, p) == CorsHeaders(h, origin, p)
  {
    var once := CorsHeaders(h, origin, p);
    var twice := CorsHeaders(once, origin, p);
    assert twice.Keys == once.Keys;
  }

  /** A release build exposes responses to the deployed frontend only. */
  lemma ReleaseAllowsOnlyFrontend(origin: string)
    ensures AllowsOrigin(Some(origin), Config.Release) <==> origin == Config.FrontendUrl(Config.Release)
  {
  }

  datatype Body = Empty | Json(error: ApiError) | Payload(text: string)

  /** A response as the router produced it. */
  datatype ResponseParts = ResponseParts(status: nat, headers: map<string, string>, body: Body)

  class Response {
    var status: nat
    var headers: map<string, string>
    var body: Body

    constructor (status: nat, headers: map<string, string>, body: Body)
      ensures this.status == status && this.headers == headers && this.body == body
    {
      this.status := status;
      this.headers := headers;
      this.body := body;
    }

    /** `apply_cors`: only the headers change. */
    method ApplyCors(origin: Option<string>, p: Config.Profile)
      modifies this
      ensures headers == CorsHeaders(old(headers), origin, p)
      ensures status == old(status) && body == old(body)
    {
      if origin.Some? && origin.value in Config.AllowedOrigins(p) {
        headers := headers[ALLOW_ORIGIN := origin.value];
      }
      headers := headers[ALLOW_CREDENTIALS := "true"];
      headers := headers[MAX_AGE := "86400"];
      headers := headers[ALLOW_METHODS := ALLOWED_METHODS];
      headers := headers[ALLOW_HEADERS := AllowedHeaders()];
    }
  }

  /**
   * `main`, the fetch handler. The router's answer is the parameter `routed`; on OPTIONS it is
   * never looked at.
   */
  method Fetch(req: Http.Request, p: Config.Profile, routed: ApiResult<ResponseParts>) returns (res: Response)
    ensures fresh(res)
    ensures req.verb == Http.Options ==>
      res.status == STATUS_OK && res.body == Empty && res.headers == CorsHeaders(map[], RequestOrigin(req), p)
    ensures req.verb != Http.Options && routed.Ok? ==>
      res.status == routed.value.status && res.body == routed.value.body
      && res.headers == CorsHeaders(routed.value.headers, RequestOrigin(req), p)
    ensures req.verb != Http.Options && routed.Err? ==>
      res.status == StatusOf(routed.error) && res.body == Json(routed.error)
      && res.headers == CorsHeaders(map[CONTENT_TYPE := "application/json"], RequestOrigin(req), p)
  {
    var origin := RequestOrigin(req);
    if req.verb == Http.Options {
      res := new Response(STATUS_OK, map[], Empty);
    } else {
      match routed
      case Ok(parts) =>
        res := new Response(parts.status, parts.headers, parts.body);
      case Err(e) =>
        res := new Response(StatusOf(e), map[CONTENT_TYPE := "application/json"], Json(e));
    }
    res.ApplyCors(origin, p);
  }
}
