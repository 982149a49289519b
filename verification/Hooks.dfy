/**
 The hooks of the shipped plugins as they run: they write to the shared context object step by step,
 and leave exactly the context that the transformers of module Plugins describe, raised error or not.
 */
module Hooks {
  import opened Wrappers
  import opened Json
  import opened Jwt
  import opened Context
  import opened Plugins
  import RateLimiter

  /** The hook left this context; `ok` is false when it raised. */
  ghost predicate Left(o: Outcome, ctx: RequestCtx, ok: bool)
    reads ctx
  {
    o == if ok then Done(ctx.View()) else Failed(ctx.View())
  }

  // ---- rate_limit.lua ----

  method RateLimitHook(env: Env, limiter: RateLimiter.Limiter, ctx: RequestCtx) returns (ok: bool)
    requires limiter.Valid() && limiter.cfg == LIMIT
    modifies limiter, limiter.buckets.Values, ctx
    ensures limiter.Valid() && fresh(limiter.buckets.Values - old(limiter.buckets.Values))
    ensures var (o, after) := RateLimitOnRequest(env, old(limiter.Contents()), old(ctx.View()));
            Left(o, ctx, ok) && limiter.Contents() == after
  {
    hide Lower, IntText;
    var key := Get(ctx.vars, "user_id").GetOr(ctx.ip);
    var admitted, header := limiter.OnRequest(RateLimiter.Call(key, env.nowLimit, env.createdLimit));
    if !admitted {
      ctx.SetResHeader("retry-after", IntText(header));
      ctx.Reject(429, TooManyRequests);
      return true;
    }
    ctx.SetResHeader("x-ratelimit-remaining", IntText(header));
    ctx.SetResHeader("x-ratelimit-limit", IntText(LIMIT.capacity));
    ok := true;
  }

  // ---- auth.lua ----

  method IsPublicPath(path: string) returns (yes: bool)
    ensures yes <==> IsPublic(path)
  {
    for i := 0 to |PUBLIC_PATHS|
      invariant forall j :: 0 <= j < i ==> !Matches(PUBLIC_PATHS[j], path)
    {
      if Matches(PUBLIC_PATHS[i], path) { return true; }
    }
    yes := false;
  }

  /** `try_api_key`: whether it succeeded, and whether it raised. */
  method ApiKeyAttempt(ctx: RequestCtx) returns (success: bool, ok: bool)
    modifies ctx
    ensures match TryApiKey(old(ctx.View()))
            case Success(c) => success && ok && ctx.View() == c
            case NoLuck(_) => !success && ok && ctx.View() == old(ctx.View())
            case Error(c) => !success && !ok && ctx.View() == c
  {
    var key := Get(ctx.headers, "x-api-key");
    if key == None {
      if "authorization" !in ctx.headers { return false, false; }
      key := ApiKeyOf(ctx.headers["authorization"]);
    }
    if key == None || key.value !in API_KEYS { return false, true; }
    ctx.SetVar("user_id", "apikey:" + FirstEight(key.value));
    ctx.SetVar("role", API_KEYS[key.value]);
    ctx.SetVar("auth_method", "api_key");
    return true, true;
  }

  /** `try_jwt`: the failure, if any, and whether it raised. */
  method JwtAttempt(env: Env, ctx: RequestCtx) returns (failure: Option<JwtFailure>, ok: bool)
    requires ValidEnv(env)
    modifies ctx
    ensures match TryJwt(env, old(ctx.View()))
            case Success(c) => failure == None && ok && ctx.View() == c
            case NoLuck(f) => failure == Some(f) && ok && ctx.View() == old(ctx.View())
            case Error(c) => !ok && ctx.View() == c
  {
    hide Verify, IsBearer, VarText;
    if "authorization" !in ctx.headers { return Some(NoAuthorizationHeader), true; }
    var auth := ctx.headers["authorization"];
    if !IsBearer(auth) { return Some(NotBearer), true; }
    if !env.jwtLib { return Some(LibUnavailable), true; }
    var verdict := Verify(auth, env.secret, env.mac, env.nowExp, env.nowNbf);
    if verdict.Raised? { return None, false; }
    if verdict.Refused? { return Some(Invalid(verdict.err)), true; }
    var sub := VarText(env, Claim(verdict.claims, "sub"), "unknown");
    if sub == None { return None, false; }
    ctx.SetVar("user_id", sub.value);
    var role := VarText(env, Claim(verdict.claims, "role"), "user");
    if role == None { return None, false; }
    ctx.SetVar("role", role.value);
    ctx.SetVar("auth_method", "jwt");
    return None, true;
  }

  method AuthHook(env: Env, ctx: RequestCtx) returns (ok: bool)
    requires ValidEnv(env)
    modifies ctx
    ensures Left(AuthOnRequest(env, old(ctx.View())), ctx, ok)
  {
    hide TryApiKey, TryJwt, IsPublic;
    var skip := IsPublicPath(ctx.path);
    if skip {
      ctx.SetVar("auth_method", "public");
      return true;
    }
    var success;
    success, ok := ApiKeyAttempt(ctx);
    if !ok || success { return; }
    var failure;
    failure, ok := JwtAttempt(env, ctx);
    if !ok || failure == None { return; }
    ctx.SetResHeader("www-authenticate", "Bearer realm=\"proxy\"");
    ctx.Reject(401, Unauthorized(failure.value));
  }

  // ---- authz.lua ----

  /** The first rule whose pattern matches. */
  method FirstRule(path: string) returns (rule: Option<Rule>)
    ensures rule == FindRule(RULES, path)
    ensures match rule
            case None => forall j :: 0 <= j < |RULES| ==> !Matches(RULES[j].pattern, path)
            case Some(r) => exists i :: && 0 <= i < |RULES| && r == RULES[i] && Matches(r.pattern, path)
                                        && forall j :: 0 <= j < i ==> !Matches(RULES[j].pattern, path)
  {
    hide Matches;
    var rules := RULES;
    for i := 0 to |rules|
      invariant forall j :: 0 <= j < i ==> !Matches(rules[j].pattern, path)
      invariant FindRule(rules, path) == FindRule(rules[i..], path)
    {
      assert rules[i..][0] == rules[i] && rules[i..][1..] == rules[i + 1..];
      if Matches(rules[i].pattern, path) { return Some(rules[i]); }
    }
    rule := None;
  }

  method RoleIsAllowed(role: Option<string>, allowed: Option<seq<string>>) returns (yes: bool)
    ensures yes <==> allowed == None || exists i :: 0 <= i < |allowed.value| && role == Some(allowed.value[i])
    ensures yes == HasRole(role, allowed)
  {
    if allowed == None { return true; }
    for i := 0 to |allowed.value|
      invariant forall j :: 0 <= j < i ==> Some(allowed.value[j]) != role
    {
      if Some(allowed.value[i]) == role { return true; }
    }
    yes := false;
  }

  method AuthzHook(ctx: RequestCtx) returns (ok: bool)
    modifies ctx
    ensures Left(AuthzOnRequest(old(ctx.View())), ctx, ok)
  {
    hide FindRule, HasRole;
    ok := true;
    var role := Get(ctx.vars, "role");
    if Get(ctx.vars, "auth_method") == Some("public") { return; }
    var rule := FirstRule(ctx.path);
    if rule == None {
      if role == None { ctx.Reject(403, AuthenticationRequired); }
      return;
    }
    var allowed := RoleIsAllowed(role, rule.value.roles);
    if !allowed { ctx.Reject(403, InsufficientPrivileges); }
  }

  // ---- transform.lua ----

  method TransformHook(env: Env, ctx: RequestCtx) returns (ok: bool)
    modifies ctx
    ensures Left(TransformOnRequest(env, old(ctx.View())), ctx, ok)
  {
    hide Lower;
    var id, role := Get(ctx.vars, "user_id"), Get(ctx.vars, "role");
    if id.Some? {
      ctx.SetReqHeader("x-user-id", id.value);
      ctx.SetReqHeader("x-user-role", role.GetOr("anonymous"));
    }
    ctx.SetReqHeader("authorization", "");
    ctx.SetReqHeader("x-api-key", "");
    ctx.SetReqHeader("x-request-id", env.uuid);
    ctx.SetVar("request_id", env.uuid);
    ok := true;
  }

  method RouteHook(ctx: RequestCtx) returns (upstream: string)
    modifies ctx
    ensures upstream == RouteOf(ctx.path)
    ensures ctx.View() == old(ctx.View()).Upstream(upstream)
  {
    upstream := if "/api/v2/" <= ctx.path then "api_v2" else "default";
    ctx.Upstream(upstream);
  }

  /** One header, named in lower case, put behind those written before. */
  method PutHeader(ctx: RequestCtx, k: string, v: string, ghost was: Ctx,
      ghost put: Strings) returns (ghost now: Strings)
    requires forall i :: 0 <= i < |k| ==> !('A' <= k[i] <= 'Z')
    requires ctx.View() == was.(resHeaders := was.resHeaders + put)
    modifies ctx
    ensures now == put[k := v] && ctx.View() == was.(resHeaders := was.resHeaders + now)
  {
    LowerKeeps(k);
    now := put[k := v];
    ctx.SetResHeader(k, v);
    assert (was.resHeaders + put)[k := v] == was.resHeaders + now;
  }

  method SecurityHeaders(ctx: RequestCtx) returns (ghost put: Strings)
    modifies ctx
    ensures put == SECURITY_HEADERS
    ensures ctx.View() == old(ctx.View()).(resHeaders := old(ctx.View()).resHeaders + put)
  {
    hide Lower;
    ghost var was := ctx.View();
    put := map[];
    assert was.resHeaders + put == was.resHeaders;
    put := PutHeader(ctx, "x-proxy", "rust-lua-proxy/0.1", was, put);
    put := PutHeader(ctx, "x-frame-options", "DENY", was, put);
    put := PutHeader(ctx, "x-content-type-options", "nosniff", was, put);
    put := PutHeader(ctx, "referrer-policy", "strict-origin-when-cross-origin", was, put);
  }

  method ResponseHook(ctx: RequestCtx)
    modifies ctx
    ensures ctx.View() == TransformOnResponse(old(ctx.View()))
  {
    hide Lower, SECURITY_HEADERS;
    ghost var was := ctx.View();
    ghost var put := SecurityHeaders(ctx);
    var origin, id := Get(ctx.headers, "origin"), Get(ctx.vars, "request_id");
    if origin.Some? {
      put := PutHeader(ctx, "access-control-allow-origin", origin.value, was, put);
      put := PutHeader(ctx, "vary", "Origin", was, put);
    }
    if id.Some? { put := PutHeader(ctx, "x-request-id", id.value, was, put); }
    put := PutHeader(ctx, "server", "proxy", was, put);
  }
}
