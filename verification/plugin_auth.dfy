/**
 * The auth plugin (src/plugin-auth.ts): the session settings it installs,
 * the middleware that sends each request path either through
 * `requireAuthOrApiKey` or straight on, and the decisions of its route
 * handlers, each returned as the response it would write.
 */
module PluginAuth {
  import opened Text
  import opened Encoding
  import opened Auth
  import opened ApiKey

  // ---------------------------------------------------------------------------
  // session settings

  const DefaultSessionSecret: string := "change-me-in-production"

  /** 24 hours in milliseconds. */
  const SessionMaxAgeMs: nat := 24 * 60 * 60 * 1000

  datatype CookieOptions = CookieOptions(secure: bool, httpOnly: bool, maxAge: nat)

  datatype SessionOptions = SessionOptions(
    secret: string,
    resave: bool,
    saveUninitialized: bool,
    cookie: CookieOptions)

  /**
   * The `expressSession` options: an HTTP-only cookie living one day, secure
   * only in production, signed with `SESSION_SECRET` or, when that is unset or
   * empty, the built-in default, so the secret is never empty.
   */
  function SessionSettings(env: Environment): (o: SessionOptions)
    ensures o.cookie.httpOnly && o.cookie.maxAge == 86_400_000
    ensures o.cookie.secure <==> Env(env, "NODE_ENV") == Some("production")
    ensures !o.resave && !o.saveUninitialized
    ensures o.secret == EnvOr(env, "SESSION_SECRET", DefaultSessionSecret)
    ensures o.secret != ""
    ensures o.secret == DefaultSessionSecret <==>
              "SESSION_SECRET" !in env || env["SESSION_SECRET"] in {"", DefaultSessionSecret}
  {
    SessionOptions(
      EnvOr(env, "SESSION_SECRET", DefaultSessionSecret),
      false,
      false,
      CookieOptions(Env(env, "NODE_ENV") == Some("production"), true, SessionMaxAgeMs))
  }

  // ---------------------------------------------------------------------------
  // path classification

  /** What the middleware does with a path: run `requireAuthOrApiKey`, or call `next`. */
  datatype Route = Gate | Pass

  /** The middleware's if-chain over `req.path`, in the source's order. */
  function Classify(path: string): (r: Route)
    ensures r == Gate <==> StartsWith(path, "/api/")
  {
    if StartsWith(path, "/api/") && !StartsWith(path, "/api/auth") && path != "/health" then
      Gate
    else if StartsWith(path, "/auth") || path == "/health" then
      assert StartsWith(path, "/auth") ==> path[2] == 'u';
      Pass
    else if StartsWith(path, "/api/") then
      Gate
    else
      Pass
  }

  /** `/health` and every path under `/auth` pass with no credential check. */
  lemma PublicPathsPass(path: string)
    requires path == "/health" || StartsWith(path, "/auth")
    ensures Classify(path) == Pass
  {
    if StartsWith(path, "/auth") {
      assert path[2] == 'u';
    }
  }

  /** The `/api/auth` exclusion of the first test is undone by the last one. */
  lemma ApiAuthIsGated(path: string)
    requires StartsWith(path, "/api/auth")
    ensures Classify(path) == Gate
  {
    assert path[..5] == "/api/auth"[..5];
  }

  /**
   * The middleware: a gated path goes through `requireAuthOrApiKey`, any
   * other path proceeds and leaves the registry alone.
   */
  method Middleware(registry: ApiKeyRegistry, req: Request, now: nat) returns (o: Outcome)
    requires registry.Valid()
    modifies registry
    ensures registry.Valid()
    ensures Classify(req.path) == Pass ==> o == Next && registry.entries == old(registry.entries)
    ensures Classify(req.path) == Gate ==>
              (o == Next <==>
                 || SessionActive(req)
                 || (BearerToken(req.authorization).Some? &&
                     HasMatch(registry.hash, old(registry.entries), BearerToken(req.authorization).value)))
    ensures Classify(req.path) == Gate && o != Next ==> o == Reject(AuthOrApiKeyRequired)
    ensures Classify(req.path) == Gate && (SessionActive(req) || BearerToken(req.authorization).None?) ==>
              registry.entries == old(registry.entries)
    ensures Classify(req.path) == Gate && !SessionActive(req) && BearerToken(req.authorization).Some? ==>
              registry.entries ==
                AfterValidate(registry.hash, old(registry.entries), BearerToken(req.authorization).value, now)
  {
    if Classify(req.path) == Gate {
      o := registry.RequireAuthOrApiKey(req, now);
    } else {
      o := Next;
    }
  }

  // ---------------------------------------------------------------------------
  // route handlers

  /** The error a handler reports. */
  datatype Failure = NotAuthenticated | AuthenticationFailed | SessionRequired | LogoutFailed | KeyGenerationFailed

  datatype Body =
    | Error(error: Failure)
    | Me(user: Option<User>, authenticated: bool)
    | IssuedKey(apiKey: string)
    | Health(status: string, timestamp: string)

  /** What a handler writes: a JSON reply, a redirect, or nothing because it threw. */
  datatype Response = Json(status: nat, body: Body) | Redirect(location: string) | Thrown

  /** `GET /auth/me`: the session's user when a session is active, 401 otherwise. */
  function MeRoute(req: Request): (resp: Response)
    ensures resp.Json?
    ensures resp.status == 401 <==> !SessionActive(req)
    ensures SessionActive(req) ==> resp.status == 200 && resp.body == Me(req.user, true)
  {
    if !SessionActive(req) then Json(401, Error(NotAuthenticated))
    else Json(200, Me(req.user, true))
  }

  /** `GET /auth/logout`: 500 when `req.logout` reports an error, else back to `/`. */
  function LogoutRoute(logoutError: bool): (resp: Response)
    ensures resp.Redirect? <==> !logoutError
    ensures resp.Redirect? ==> resp.location == "/"
    ensures logoutError ==> resp == Json(500, Error(LogoutFailed))
  {
    if logoutError then Json(500, Error(LogoutFailed)) else Redirect("/")
  }

  /** `GET /auth/failure`: always 401. */
  function FailureRoute(): (resp: Response)
    ensures resp.Json? && resp.status == 401
  {
    Json(401, Error(AuthenticationFailed))
  }

  /** `GET /health`: always 200 with status `ok` and the clock's timestamp. */
  function HealthRoute(timestamp: string): (resp: Response)
    ensures resp.Json? && resp.status == 200
    ensures resp.body.Health? && resp.body.status == "ok" && resp.body.timestamp == timestamp
  {
    Json(200, Health("ok", timestamp))
  }

  /** `req.user?.id` */
  function UserId(req: Request): Option<string>
  {
    if req.user.Some? then Some(req.user.value.id) else None
  }

  /**
   * `POST /auth/api-key`: calls `req.isAuthenticated()` directly (so it throws
   * when that is missing), answers 401 without a session, 500 when key
   * generation fails before the key is stored, and otherwise the new key,
   * generated for `req.user?.id`, which validates from then on.
   */
  method ApiKeyRoute(registry: ApiKeyRegistry, req: Request, random: seq<byte>, now: nat, generationFails: bool)
    returns (resp: Response)
    requires registry.Valid()
    requires |random| == RandomByteCount
    modifies registry
    ensures registry.Valid()
    ensures !SessionActive(req) || generationFails ==> registry.entries == old(registry.entries)
    ensures req.isAuthenticated.Missing? ==> resp == Thrown
    ensures req.isAuthenticated == Installed(false) ==> resp == Json(401, Error(SessionRequired))
    ensures SessionActive(req) && generationFails ==> resp == Json(500, Error(KeyGenerationFailed))
    ensures SessionActive(req) && !generationFails ==>
              var key := FormatKey(random);
              && resp == Json(200, IssuedKey(key))
              && registry.entries ==
                   Put(old(registry.entries), key, ApiKeyRecord(registry.hash(key), UserId(req), now, None))
              && HasMatch(registry.hash, registry.entries, key)
  {
    match req.isAuthenticated
    case Missing =>
      return Thrown;
    case Installed(authenticated) =>
      if !authenticated {
        return Json(401, Error(SessionRequired));
      }
      if generationFails {
        return Json(500, Error(KeyGenerationFailed));
      }
      var key := registry.Generate(UserId(req), random, now);
      return Json(200, IssuedKey(key));
  }
}
