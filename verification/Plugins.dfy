/**
 The hooks of the five shipped plugins as transformers of the request context.  A hook that raises
 keeps the writes it made before; everything it reads besides the context is in `Env`.
 */
module Plugins {
  import opened Wrappers
  import opened Json
  import opened JsonScan
  import opened Jwt
  import opened Context
  import TokenBucket
  import RateLimiter

  /**
   What a request's hooks read from outside: the MAC and secret, whether lib/jwt.lua loaded, the
   clock readings, the fresh request id, and Lua's text of a float.
   */
  datatype Env = Env(
    mac: Mac, secret: string, jwtLib: bool,
    nowLimit: int, createdLimit: int, nowExp: int, nowNbf: int,
    uuid: string, floatText: real -> string)

  ghost predicate ValidEnv(env: Env) {
    IsMac(env.mac)
  }

  /** The context a hook leaves, and whether it raised. */
  datatype Outcome = Done(ctx: Ctx) | Failed(ctx: Ctx)

  datatype PathPattern = Exactly(text: string) | StartsWith(text: string)

  predicate Matches(p: PathPattern, path: string) {
    match p
    case Exactly(text) => path == text
    case StartsWith(text) => text <= path
  }

  // ---- rate_limit.lua ----

  const LIMIT := TokenBucket.Config(100, 10)

  function LimiterCall(env: Env, ctx: Ctx): (call: RateLimiter.Call) {
    RateLimiter.Call(Get(ctx.vars, "user_id").GetOr(ctx.ip), env.nowLimit, env.createdLimit)
  }

  /** On the table of the chunk the hook belongs to; the table it leaves comes second. */
  function RateLimitOnRequest(env: Env, buckets: RateLimiter.Table, ctx: Ctx): (r: (Outcome, RateLimiter.Table)) {
    var call := LimiterCall(env, ctx);
    var after := RateLimiter.StepTable(LIMIT, buckets, call);
    (if RateLimiter.StepAdmits(LIMIT, buckets, call) then
       Done(ctx.SetResHeader("x-ratelimit-remaining", IntText(after[call.key].tokens))
               .SetResHeader("x-ratelimit-limit", IntText(LIMIT.capacity)))
     else
       Done(ctx.SetResHeader("retry-after", IntText(TokenBucket.RetryAfter(LIMIT, after[call.key])))
               .Reject(429, TooManyRequests)),
     after)
  }

  // ---- auth.lua ----

  const API_KEYS: map<string, string> := map["test-api-key-admin" := "admin", "test-api-key-reader" := "reader"]

  const PUBLIC_PATHS: seq<PathPattern> := [Exactly("/health"), Exactly("/metrics"), StartsWith("/public/")]

  predicate IsPublic(path: string) {
    exists i :: 0 <= i < |PUBLIC_PATHS| && Matches(PUBLIC_PATHS[i], path)
  }

  /** The capture of `^ApiKey%s+(.+)`. */
  function ApiKeyOf(auth: string): (r: Option<string>) {
    if "ApiKey" <= auth then AfterSpaces(auth[6..]) else None
  }

  /** `^[Bb]earer%s+` matches. */
  predicate IsBearer(auth: string) {
    ("Bearer" <= auth || "bearer" <= auth) && |auth| > 6 && IsSpace(auth[6])
  }

  /** `ctx:set_var(k, v or default)`: numbers become text, nil and false the default, others raise. */
  function VarText(env: Env, v: LuaValue, default: string): (r: Option<string>) {
    match v
    case Str(text) => Some(text)
    case Int(i) => Some(IntText(i))
    case Float(x) => Some(env.floatText(x))
    case Nil => Some(default)
    case Bool(false) => Some(default)
    case _ => None
  }

  /** `key:sub(1, 8)`. */
  function FirstEight(key: string): (r: string) {
    if |key| < 8 then key else key[..8]
  }

  datatype Attempt = Success(ctx: Ctx) | NoLuck(failure: JwtFailure) | Error(ctx: Ctx)

  function TryApiKey(ctx: Ctx): (r: Attempt) {
    if "x-api-key" !in ctx.headers && "authorization" !in ctx.headers then
      Error(ctx)   // indexing the absent header raises
    else
      var key := if "x-api-key" in ctx.headers then Some(ctx.headers["x-api-key"])
                 else ApiKeyOf(ctx.headers["authorization"]);
      if key.Some? && key.value in API_KEYS then
        Success(ctx.SetVar("user_id", "apikey:" + FirstEight(key.value))
                   .SetVar("role", API_KEYS[key.value]).SetVar("auth_method", "api_key"))
      else
        NoLuck(NoAuthorizationHeader)
  }

  function TryJwt(env: Env, ctx: Ctx): (r: Attempt)
    requires ValidEnv(env)
  {
    if "authorization" !in ctx.headers then NoLuck(NoAuthorizationHeader)
    else if !IsBearer(ctx.headers["authorization"]) then NoLuck(NotBearer)
    else if !env.jwtLib then NoLuck(LibUnavailable)
    else
      match Verify(ctx.headers["authorization"], env.secret, env.mac, env.nowExp, env.nowNbf)
      case Refused(err) => NoLuck(Invalid(err))
      case Raised => Error(ctx)
      case Accepted(claims) =>
        match VarText(env, Claim(claims, "sub"), "unknown")
        case None => Error(ctx)
        case Some(sub) =>
          match VarText(env, Claim(claims, "role"), "user")
          case None => Error(ctx.SetVar("user_id", sub))
          case Some(role) =>
            Success(ctx.SetVar("user_id", sub).SetVar("role", role).SetVar("auth_method", "jwt"))
  }

  function AuthOnRequest(env: Env, ctx: Ctx): (r: Outcome)
    requires ValidEnv(env)
  {
    if IsPublic(ctx.path) then Done(ctx.SetVar("auth_method", "public"))
    else
      match TryApiKey(ctx)
      case Error(c) => Failed(c)
      case Success(c) => Done(c)
      case NoLuck(_) =>
        match TryJwt(env, ctx)
        case Error(c) => Failed(c)
        case Success(c) => Done(c)
        case NoLuck(failure) =>
          Done(ctx.SetResHeader("www-authenticate", "Bearer realm=\"proxy\"").Reject(401, Unauthorized(failure)))
  }

  // ---- authz.lua ----

  datatype Rule = Rule(pattern: PathPattern, roles: Option<seq<string>>)

  const RULES: seq<Rule> := [
    Rule(StartsWith("/admin/"), Some(["admin"])),
    Rule(StartsWith("/reload"), Some(["admin"])),
    Rule(StartsWith("/metrics"), Some(["admin", "ops"])),
    Rule(StartsWith("/api/v1/"), Some(["admin", "user", "reader"])),
    Rule(StartsWith("/api/v2/"), Some(["admin", "user"])),
    Rule(Exactly("/health"), None),
    Rule(StartsWith("/public/"), None)
  ]

  function FindRule(rules: seq<Rule>, path: string): (r: Option<Rule>) {
    if |rules| == 0 then None
    else if Matches(rules[0].pattern, path) then Some(rules[0])
    else FindRule(rules[1..], path)
  }

  predicate HasRole(role: Option<string>, allowed: Option<seq<string>>) {
    allowed == None || (role.Some? && role.value in allowed.value)
  }

  function AuthzOnRequest(ctx: Ctx): (r: Outcome) {
    var role := Get(ctx.vars, "role");
    if Get(ctx.vars, "auth_method") == Some("public") then Done(ctx)
    else
      match FindRule(RULES, ctx.path)
      case None => Done(if role == None then ctx.Reject(403, AuthenticationRequired) else ctx)
      case Some(rule) => Done(if HasRole(role, rule.roles) then ctx else ctx.Reject(403, InsufficientPrivileges))
  }

  // ---- transform.lua ----

  function TransformOnRequest(env: Env, ctx: Ctx): (r: Outcome) {
    var c := match Get(ctx.vars, "user_id")
             case None => ctx
             case Some(id) =>
               ctx.SetReqHeader("x-user-id", id)
                  .SetReqHeader("x-user-role", Get(ctx.vars, "role").GetOr("anonymous"));
    Done(c.SetReqHeader("authorization", "").SetReqHeader("x-api-key", "")
          .SetReqHeader("x-request-id", env.uuid).SetVar("request_id", env.uuid))
  }

  function RouteOf(path: string): (upstream: string) {
    if "/api/v2/" <= path then "api_v2" else "default"
  }

  function Header(m: Strings, k: string, from: Option<string>): (r: Strings) {
    match from case None => m case Some(v) => m[k := v]
  }

  const SECURITY_HEADERS: Strings :=
    map["x-proxy" := "rust-lua-proxy/0.1"]["x-frame-options" := "DENY"]
       ["x-content-type-options" := "nosniff"]["referrer-policy" := "strict-origin-when-cross-origin"]

  /** The response headers `on_response` writes, in order. */
  function ResponseHeaders(headers: Strings, vars: Strings): (m: Strings) {
    var origin := Get(headers, "origin");
    var cors := if origin == None then SECURITY_HEADERS
                else SECURITY_HEADERS["access-control-allow-origin" := origin.value]["vary" := "Origin"];
    Header(cors, "x-request-id", Get(vars, "request_id"))["server" := "proxy"]
  }

  /** `on_response`: what it writes replaces headers of the same name and keeps the others. */
  function TransformOnResponse(ctx: Ctx): (c: Ctx) {
    ctx.(resHeaders := ctx.resHeaders + ResponseHeaders(ctx.headers, ctx.vars))
  }
}
