/**
 Who gets through the five shipped on_request hooks in their configured order: exactly the requests
 for a public path, and those whose credential carries a role that the first matching rule permits.
 */
module Admission {
  import opened Wrappers
  import opened Json
  import opened JsonScan
  import opened JsonRoundTrip
  import opened Jwt
  import opened JwtLaws
  import opened Base64Url
  import opened Utf8
  import opened ClaimsRoundTrip
  import opened Context
  import opened Engine
  import opened Plugins
  import opened Shipped
  import JsonLaws
  import RateLimiter

  // ---- The policy ----

  /** The role of a listed API key, from its own header or the `ApiKey` scheme. */
  function KeyRole(headers: Strings): (role: Option<string>) {
    var key := if "x-api-key" in headers then Some(headers["x-api-key"])
               else if "authorization" in headers then ApiKeyOf(headers["authorization"]) else None;
    if key.Some? && key.value in API_KEYS then Some(API_KEYS[key.value]) else None
  }

  function KeyUser(headers: Strings): (user: Option<string>) {
    var key := if "x-api-key" in headers then Some(headers["x-api-key"])
               else if "authorization" in headers then ApiKeyOf(headers["authorization"]) else None;
    if key.Some? && key.value in API_KEYS then Some("apikey:" + FirstEight(key.value)) else None
  }

  function Verdicts(env: GoodEnv, headers: Strings): (v: Option<Verdict>) {
    if "authorization" in headers && IsBearer(headers["authorization"]) && env.jwtLib then
      Some(Verify(headers["authorization"], env.secret, env.mac, env.nowExp, env.nowNbf))
    else None
  }

  /** The role claim of a bearer token that verifies, `user` when it has none. */
  function TokenRole(env: GoodEnv, headers: Strings): (role: Option<string>) {
    var v := Verdicts(env, headers);
    if v.Some? && v.value.Accepted? then VarText(env, Claim(v.value.claims, "role"), "user") else None
  }

  function TokenUser(env: GoodEnv, headers: Strings): (user: Option<string>) {
    var v := Verdicts(env, headers);
    if v.Some? && v.value.Accepted? then VarText(env, Claim(v.value.claims, "sub"), "unknown") else None
  }

  function CredentialRole(env: GoodEnv, headers: Strings): (role: Option<string>) {
    if KeyRole(headers).Some? then KeyRole(headers) else TokenRole(env, headers)
  }

  /** The name the credential is forwarded under: eight characters of the key, or the subject. */
  function CredentialUser(env: GoodEnv, headers: Strings): (user: Option<string>) {
    if KeyRole(headers).Some? then KeyUser(headers) else TokenUser(env, headers)
  }

  /** auth.lua raises: both headers are absent, or a time claim of a signed token is no number. */
  predicate AuthRaises(env: GoodEnv, headers: Strings) {
    || ("x-api-key" !in headers && "authorization" !in headers)
    || (KeyRole(headers) == None && Verdicts(env, headers) == Some(Verdict.Raised))
  }

  /** The first rule for the path lists the role, or lists none, or there is no rule. */
  predicate Permits(path: string, role: string) {
    match FindRule(RULES, path)
    case None => true
    case Some(rule) => HasRole(Some(role), rule.roles)
  }

  /** Why auth.lua took no token. */
  predicate FailsWith(env: GoodEnv, headers: Strings, failure: JwtFailure) {
    match failure
    case NoAuthorizationHeader => "authorization" !in headers
    case NotBearer => "authorization" in headers && !IsBearer(headers["authorization"])
    case LibUnavailable => "authorization" in headers && IsBearer(headers["authorization"]) && !env.jwtLib
    case Invalid(err) => Verdicts(env, headers) == Some(Refused(err))
  }

  predicate HasRule(path: string) {
    FindRule(RULES, path).Some?
  }

  /** The 401 of a credential that failed. */
  predicate Unidentified(env: GoodEnv, headers: Strings, r: Rejection) {
    r.status == 401 && r.reason.Unauthorized? && FailsWith(env, headers, r.reason.failure)
  }

  /** The 403 of authz.lua. */
  predicate Forbidden(path: string, r: Rejection) {
    r == Rejection(403, if HasRule(path) then InsufficientPrivileges else AuthenticationRequired)
  }

  const CONFIGURED: seq<Plugin> := [IpFilter, RateLimit, Auth, Authz, Transform]

  // ---- Claims that were parsed ----

  predicate Scalar(v: LuaValue) {
    v.Str? || v.Int? || v.Float? || v == Bool(false)
  }

  /** The parser only ever stores text, numbers and false. */
  lemma ParsedScalars(s: string)
    ensures forall k :: k in Parse(s) ==> Scalar(Parse(s)[k])
  {
    hide Parse;
    forall k | k in Parse(s)
      ensures Scalar(Parse(s)[k])
    {
      JsonLaws.ParsedAt(s, k);
    }
  }

  /** So a token that verifies always gives text for a claim, and auth.lua cannot fail half way. */
  lemma AcceptedClaimsHaveText(env: GoodEnv, token: string, secret: string, mac: Mac, nowExp: int, nowNbf: int,
      key: string, default: string)
    requires IsMac(mac)
    ensures var v := Verify(token, secret, mac, nowExp, nowNbf);
            v.Accepted? ==> VarText(env, Claim(v.claims, key), default).Some?
  {
    hide Parse, UrlDecode, SplitToken, Trim, BearerToken, SignatureText;
    var raw := match BearerToken(token) case Some(t) => t case None => token;
    match SplitToken(Trim(raw))
    case None =>
    case Some(t) => ParsedScalars(UrlDecode(t.payload));
  }

  // ---- The hooks one by one ----

  lemma LimitTexts()
    ensures IntText(0) == "0" && IntText(1) == "1" && IntText(99) == "99" && IntText(100) == "100"
  {
    assert NatText(99) == NatText(9) + "9" && NatText(10) == NatText(1) + "0" && NatText(100) == NatText(10) + "0";
  }

  lemma LimitNames()
    ensures Lower("x-ratelimit-remaining") == "x-ratelimit-remaining"
    ensures Lower("x-ratelimit-limit") == "x-ratelimit-limit" && Lower("retry-after") == "retry-after"
  {
    hide Lower;
    LowerKeeps("x-ratelimit-remaining");
    LowerKeeps("x-ratelimit-limit");
    LowerKeeps("retry-after");
  }

  /** On the table of a chunk just executed the limiter lets every request pass. */
  lemma RateLimitAdmits(env: GoodEnv, ctx: Ctx)
    ensures FirstCall(RateLimit, env, ctx)
            == Done(ctx.(resHeaders := ctx.resHeaders["x-ratelimit-remaining" := "99"]["x-ratelimit-limit" := "100"]))
  {
    hide Lower, IntText;
    LimitTexts();
    LimitNames();
  }

  /** The tokens a caller has at `now`: ten a second up to a hundred, and a hundred to begin with. */
  function TokensAt(buckets: RateLimiter.Table, caller: string, now: int): (tokens: int) {
    if caller !in buckets then 100
    else
      var b := buckets[caller];
      if now <= b.last then b.tokens else if b.tokens + 10 * (now - b.last) > 100 then 100 else b.tokens + 10 * (now - b.last)
  }

  /**
   The limiter of a chunk that is kept: only the bucket of the caller changes, the user if there is
   one and else the address; a caller with a token gives it up, one without is told to wait a second.
   */
  lemma LimiterByCaller(env: GoodEnv, buckets: RateLimiter.Table, ctx: Ctx, caller: string)
    requires if "user_id" in ctx.vars then caller == ctx.vars["user_id"] else caller == ctx.ip
    requires caller in buckets ==> buckets[caller].tokens >= 0
    ensures var (o, after) := RateLimitOnRequest(env, buckets, ctx);
            var tokens := TokensAt(buckets, caller, env.nowLimit);
            && after.Keys == buckets.Keys + {caller}
            && (forall k :: k in buckets && k != caller ==> after[k] == buckets[k])
            && (tokens > 0 ==>
                  && after[caller].tokens == tokens - 1
                  && o == Done(ctx.(resHeaders := ctx.resHeaders["x-ratelimit-remaining" := IntText(tokens - 1)]
                                                                ["x-ratelimit-limit" := "100"])))
            && (tokens == 0 ==>
                  && after == buckets
                  && o == Done(ctx.(resHeaders := ctx.resHeaders["retry-after" := "1"],
                                    rejected := Some(Rejection(429, TooManyRequests)))))
  {
    hide Lower, IntText;
    LimitTexts();
    LimitNames();
  }

  /** auth.lua identified the caller: `c` is `ctx` with three variables set. */
  predicate Identified(ctx: Ctx, c: Ctx, user: string, role: string, how: string) {
    c == ctx.(vars := ctx.vars["user_id" := user]["role" := role]["auth_method" := how])
  }

  lemma KeyOutcome(ctx: Ctx)
    ensures match TryApiKey(ctx)
            case Success(c) =>
              && KeyRole(ctx.headers).Some? && KeyUser(ctx.headers).Some?
              && Identified(ctx, c, KeyUser(ctx.headers).value, KeyRole(ctx.headers).value, "api_key")
            case NoLuck(_) => KeyRole(ctx.headers) == None && ("x-api-key" in ctx.headers || "authorization" in ctx.headers)
            case Error(c) => c == ctx && "x-api-key" !in ctx.headers && "authorization" !in ctx.headers
  {
    hide ApiKeyOf, FirstEight;
  }

  lemma TokenOutcome(env: GoodEnv, ctx: Ctx)
    ensures match TryJwt(env, ctx)
            case Success(c) =>
              && TokenRole(env, ctx.headers).Some? && TokenUser(env, ctx.headers).Some?
              && Identified(ctx, c, TokenUser(env, ctx.headers).value, TokenRole(env, ctx.headers).value, "jwt")
            case NoLuck(failure) =>
              && TokenRole(env, ctx.headers) == None && Verdicts(env, ctx.headers) != Some(Verdict.Raised)
              && FailsWith(env, ctx.headers, failure)
            case Error(c) =>
              c == ctx && TokenRole(env, ctx.headers) == None && Verdicts(env, ctx.headers) == Some(Verdict.Raised)
  {
    hide Verify, IsBearer, VarText, Claim;
    if "authorization" in ctx.headers {
      var auth := ctx.headers["authorization"];
      AcceptedClaimsHaveText(env, auth, env.secret, env.mac, env.nowExp, env.nowNbf, "sub", "unknown");
      AcceptedClaimsHaveText(env, auth, env.secret, env.mac, env.nowExp, env.nowNbf, "role", "user");
    }
  }

  /** What auth.lua makes of the context `ctx`, whatever earlier hooks have done to it. */
  predicate AuthDone(env: GoodEnv, ctx: Ctx, c: Ctx) {
    var user, role := CredentialUser(env, ctx.headers), CredentialRole(env, ctx.headers);
    if IsPublic(ctx.path) then c == ctx.SetVar("auth_method", "public")
    else if role.Some? then
      user.Some? && Identified(ctx, c, user.value, role.value, if KeyRole(ctx.headers).Some? then "api_key" else "jwt")
    else if AuthRaises(env, ctx.headers) then c == ctx
    else
      && c == ctx.(resHeaders := ctx.resHeaders["www-authenticate" := "Bearer realm=\"proxy\""], rejected := c.rejected)
      && c.rejected.Some? && Unidentified(env, ctx.headers, c.rejected.value)
  }

  lemma AuthOutcome(env: GoodEnv, ctx: Ctx)
    ensures AuthDone(env, ctx, AuthOnRequest(env, ctx).ctx)
  {
    hide TryApiKey, TryJwt, KeyRole, KeyUser, Verdicts, TokenRole, TokenUser, IsPublic, Lower, FailsWith;
    LowerKeeps("www-authenticate");
    KeyOutcome(ctx);
    TokenOutcome(env, ctx);
    if "authorization" !in ctx.headers { NoToken(env, ctx.headers); }
  }

  lemma NoToken(env: GoodEnv, headers: Strings)
    requires "authorization" !in headers
    ensures TokenRole(env, headers) == None && Verdicts(env, headers) == None
    ensures "x-api-key" !in headers ==> KeyRole(headers) == None
  {
  }

  lemma {:induction false} FoundRuleMatches(rules: seq<Rule>, path: string)
    ensures var rule := FindRule(rules, path);
            match rule
            case None => forall r :: r in rules ==> !Matches(r.pattern, path)
            case Some(r) => r in rules && Matches(r.pattern, path)
  {
    if |rules| > 0 { FoundRuleMatches(rules[1..], path); }
  }

  /** A rule open to every role only covers public paths. */
  lemma OpenRulesArePublic(path: string)
    ensures FindRule(RULES, path).Some? && FindRule(RULES, path).value.roles == None ==> IsPublic(path)
  {
    hide FindRule;
    FoundRuleMatches(RULES, path);
    assert Matches(PUBLIC_PATHS[0], path) <==> path == "/health";
    assert Matches(PUBLIC_PATHS[2], path) <==> "/public/" <= path;
  }

  /** What authz.lua makes of a context that is not rejected. */
  predicate AuthzDone(ctx: Ctx, c: Ctx) {
    var role := Get(ctx.vars, "role");
    && c == ctx.(rejected := c.rejected)
    && (Get(ctx.vars, "auth_method") == Some("public") ==> c.rejected == None)
    && (Get(ctx.vars, "auth_method") != Some("public") && !IsPublic(ctx.path) ==>
          (c.rejected == None <==> role.Some? && Permits(ctx.path, role.value)))
    && (c.rejected.Some? ==> Forbidden(ctx.path, c.rejected.value))
  }

  lemma AuthzOutcome(ctx: Ctx)
    requires ctx.rejected == None
    ensures AuthzDone(ctx, AuthzOnRequest(ctx).ctx)
  {
    hide FindRule, IsPublic;
    OpenRulesArePublic(ctx.path);
  }

  /** A user's name and role. */
  type Identity = (string, string)

  /** The client's headers, with the identity stated and the credentials blanked over them. */
  function SentHeaders(headers: Strings, id: Option<Identity>, requestId: string): (h: Strings) {
    (if id.Some? then headers["x-user-id" := id.value.0]["x-user-role" := id.value.1] else headers)
      ["authorization" := ""]["x-api-key" := ""]["x-request-id" := requestId]
  }

  /** What transform.lua makes of a context. */
  predicate TransformDone(env: GoodEnv, ctx: Ctx, c: Ctx) {
    var id := if "user_id" in ctx.vars then Some((ctx.vars["user_id"], Get(ctx.vars, "role").GetOr("anonymous"))) else None;
    c == ctx.(headers := SentHeaders(ctx.headers, id, env.uuid), vars := ctx.vars["request_id" := env.uuid])
  }

  lemma TransformOutcome(env: GoodEnv, ctx: Ctx)
    ensures TransformDone(env, ctx, TransformOnRequest(env, ctx).ctx)
  {
    hide Lower;
    LowerKeeps("x-user-id");
    LowerKeeps("x-user-role");
    LowerKeeps("authorization");
    LowerKeeps("x-api-key");
    LowerKeeps("x-request-id");
  }

  // ---- The pipeline ----

  lemma ChainStep(envs: Readings, ps: seq<Plugin>, ctx: Ctx, n: nat)
    requires |ps| > 0
    ensures var c := FirstCall(ps[0], envs(n), ctx).ctx;
            Chain(envs, ps, ctx, n) == if c.rejected.Some? then (c, n + 1) else Chain(envs, ps[1..], c, n + 1)
  {
  }

  lemma EmptyChain(envs: Readings, ctx: Ctx, n: nat)
    ensures Chain(envs, [], ctx, n) == (ctx, n)
  {
  }

  /** The contexts the five configured hooks leave in turn, up to the first rejection. */
  lemma ConfiguredChain(envs: Readings, ctx: Ctx, n: nat) returns (c1: Ctx, c2: Ctx, c3: Ctx, c4: Ctx)
    requires ctx.rejected == None
    ensures c1 == ctx.(resHeaders := c1.resHeaders) && AuthDone(envs(n + 2), c1, c2)
    ensures c2.rejected == None ==> AuthzDone(c2, c3)
    ensures c2.rejected == None && c3.rejected == None ==> TransformDone(envs(n + 4), c3, c4)
    ensures Chain(envs, CONFIGURED, ctx, n).0 == if c2.rejected.Some? then c2 else if c3.rejected.Some? then c3 else c4
  {
    hide RateLimitOnRequest, AuthOnRequest, AuthzOnRequest, TransformOnRequest, Chain, AuthDone, AuthzDone, TransformDone;
    c1 := FirstCall(RateLimit, envs(n + 1), ctx).ctx;
    c2 := FirstCall(Auth, envs(n + 2), c1).ctx;
    c3 := FirstCall(Authz, envs(n + 3), c2).ctx;
    c4 := FirstCall(Transform, envs(n + 4), c3).ctx;
    RateLimitAdmits(envs(n + 1), ctx);
    AuthOutcome(envs(n + 2), c1);
    if c2.rejected == None { AuthzOutcome(c2); }
    TransformOutcome(envs(n + 4), c3);
    StillUnrejected(envs(n + 4), c3, c4);
    var ps := CONFIGURED;
    assert ps[1..][1..] == ps[2..] && ps[2..][1..] == ps[3..] && ps[3..][1..] == ps[4..] && ps[4..][1..] == [];
    ChainStep(envs, ps, ctx, n);
    ChainStep(envs, ps[1..], ctx, n + 1);
    ChainStep(envs, ps[2..], c1, n + 2);
    ChainStep(envs, ps[3..], c2, n + 3);
    ChainStep(envs, ps[4..], c3, n + 4);
    EmptyChain(envs, c4, n + 5);
  }

  lemma StillUnrejected(env: GoodEnv, ctx: Ctx, c: Ctx)
    requires TransformDone(env, ctx, c)
    ensures c.rejected == ctx.rejected
  {
  }

  /** The identity the credential of a request for `path` is forwarded under; none on a public path. */
  function ForwardedIdentity(env: GoodEnv, path: string, headers: Strings): (id: Option<Identity>) {
    var user, role := CredentialUser(env, headers), CredentialRole(env, headers);
    if !IsPublic(path) && user.Some? && role.Some? then Some((user.value, role.value)) else None
  }

  /** 403 for a role that is not permitted and when auth.lua raises, 401 for a credential that failed. */
  predicate RefusedWith(env: GoodEnv, path: string, headers: Strings, r: Rejection) {
    if CredentialRole(env, headers).Some? || AuthRaises(env, headers) then Forbidden(path, r)
    else Unidentified(env, headers, r)
  }

  predicate Admitted(env: GoodEnv, path: string, headers: Strings) {
    IsPublic(path) || (CredentialRole(env, headers).Some? && Permits(path, CredentialRole(env, headers).value))
  }

  /**
   What is left unrejected by on_request: exactly the public paths, and the requests whose credential
   has a role that the rules permit there.  A refusal is 401 for a credential that failed and 403
   otherwise, so also when both credential headers are absent.  An admitted request's headers are the
   client's, with the identity of its credential stated and the two credential headers blanked.
   */
  lemma AdmittedExactly(envs: Readings, path: string, headers: Strings, ip: string, n: nat)
    ensures var c := Chain(envs, CONFIGURED, NewCtx(path, headers, ip), n).0;
            var env := envs(n + 2);
            && (c.rejected == None <==> Admitted(env, path, headers))
            && (c.rejected.Some? ==> RefusedWith(env, path, headers, c.rejected.value))
            && (c.rejected == None ==>
                  && c.path == path && Get(c.vars, "request_id") == Some(envs(n + 4).uuid)
                  && c.headers == SentHeaders(headers, ForwardedIdentity(env, path, headers), envs(n + 4).uuid)
                  && (!IsPublic(path) ==> Get(c.vars, "role") == CredentialRole(env, headers)))
  {
    hide Chain, IsPublic, CredentialRole, CredentialUser, AuthRaises, Permits, SentHeaders, KeyRole, Forbidden, Unidentified;
    var c1, c2, c3, c4 := ConfiguredChain(envs, NewCtx(path, headers, ip), n);
  }

  /** With neither credential header a path that is not public is answered 403, never 401. */
  lemma NoCredentialIsForbidden(envs: Readings, path: string, headers: Strings, ip: string, n: nat)
    requires "x-api-key" !in headers && "authorization" !in headers && !IsPublic(path)
    ensures var c := Chain(envs, CONFIGURED, NewCtx(path, headers, ip), n).0;
            c.rejected.Some? && c.rejected.value.status == 403
  {
    hide Chain, IsPublic, Permits, SentHeaders, ForwardedIdentity;
    NoToken(envs(n + 2), headers);
    AdmittedExactly(envs, path, headers, ip, n);
  }

  /** The same of the engine's replies, from every state of its VM. */
  lemma ProxyAdmitsExactly(envs: Readings, srcs: Sources, names: seq<string>, req: Request, vm: ShippedVm)
    requires Slots(srcs, names) == CONFIGURED && OnTransform !in vm.globals && Tame(srcs)
    ensures var reply := Handle(Programme(envs, true), srcs, names, req, vm).reply;
            var env := envs(vm.world.calls + 2);
            && (reply.TurnedAway? <==> !Admitted(env, req.path, req.headers))
            && (reply.TurnedAway? ==> RefusedWith(env, req.path, req.headers, reply.rejection))
  {
    hide Handle, Chain, PlainlyOn, Admitted, RefusedWith, ForwardedIdentity, SentHeaders, Slots, Programme, Reaches;
    HandleExactly(envs, true, srcs, names, req, vm);
    AdmittedExactly(envs, req.path, req.headers, ClientIp(req.headers, req.peer), vm.world.calls);
    PlainlyOnAnswers(Reaches(true, vm.globals, CONFIGURED, OnRoute), Reaches(true, vm.globals, CONFIGURED, OnResponse), req,
      Chain(envs, CONFIGURED, NewContext(req), vm.world.calls));
  }

  /**
   The headers of everything the proxy ever sends upstream: the client's, with the identity of the
   credential over any the client sent, the credential headers blank, and the proxy's own two.
   */
  lemma ForwardedExactly(envs: Readings, srcs: Sources, names: seq<string>, req: Request, vm: ShippedVm, e: Event)
    requires Slots(srcs, names) == CONFIGURED && OnTransform !in vm.globals && Tame(srcs)
    requires e.Forwarded? && e in Handle(Programme(envs, true), srcs, names, req, vm).run.log
    ensures var id := ForwardedIdentity(envs(vm.world.calls + 2), req.path, req.headers);
            e.headers == ForwardHeaders(req, SentHeaders(req.headers, id, envs(vm.world.calls + 4).uuid))
    ensures Get(e.headers, "authorization") == Some("") && Get(e.headers, "x-api-key") == Some("")
  {
    hide RunRequest, RunRoute, RunEach, Proceed, Chain, Admitted, RefusedWith, ForwardedIdentity, Slots, Programme, TrimSlashes;
    var prog := Programme(envs, true);
    var r: ShippedRun := Run(NewContext(req), vm, []);
    RequestEvents(prog, srcs, names, r);
    RequestIsChain(envs, true, srcs, names, r);
    var m := RunRequest(prog, srcs, names, r);
    AdmittedExactly(envs, req.path, req.headers, ClientIp(req.headers, req.peer), vm.world.calls);
    ForwardedHeaders(prog, srcs, names, req, m, e);
    RouteIsPlain(envs, true, srcs, names, m);
    TransformPhaseIsEmpty(envs, true, srcs, names, RunRoute(prog, srcs, names, m).0);
  }

  // ---- No 429 ----

  lemma NeverTooMany(p: Plugin, env: GoodEnv, ctx: Ctx)
    requires ctx.rejected == None
    ensures var c := FirstCall(p, env, ctx).ctx; c.rejected.Some? ==> c.rejected.value.status == 401 || c.rejected.value.status == 403
  {
    hide RateLimitOnRequest, AuthOnRequest, AuthzOnRequest, TransformOnRequest, IsPublic, CredentialRole, CredentialUser,
      AuthRaises, Permits, SentHeaders;
    RateLimitAdmits(env, ctx);
    AuthOutcome(env, ctx);
    AuthzOutcome(ctx);
    TransformOutcome(env, ctx);
  }

  lemma {:induction false} ChainNeverTooMany(envs: Readings, ps: seq<Plugin>, ctx: Ctx, n: nat)
    requires ctx.rejected == None
    ensures var c := Chain(envs, ps, ctx, n).0; c.rejected.Some? ==> c.rejected.value.status == 401 || c.rejected.value.status == 403
    decreases |ps|
  {
    hide FirstCall;
    if |ps| > 0 {
      NeverTooMany(ps[0], envs(n), ctx);
      var c := FirstCall(ps[0], envs(n), ctx).ctx;
      if c.rejected == None { ChainNeverTooMany(envs, ps[1..], c, n + 1); }
    }
  }

  /**
   Whatever the pipeline makes of the shipped plugins, whatever earlier requests left in the VM and in
   the table of buckets, no request of any run is ever answered 429: each hook run executes the
   chunk first, and with it makes a new table.
   */
  lemma {:induction false} NoRunIsLimited(envs: Readings, srcs: Sources, names: seq<string>, reqs: seq<Request>, vm: ShippedVm)
    requires OnTransform !in vm.globals && Tame(srcs)
    ensures forall i :: 0 <= i < |reqs| ==>
              var reply := Serve(Programme(envs, true), srcs, names, reqs, vm)[i];
              reply.TurnedAway? ==> reply.rejection.status == 401 || reply.rejection.status == 403
    decreases |reqs|
  {
    hide Handle, Chain, PlainlyOn, Slots, Programme, Reaches;
    if |reqs| > 0 {
      var h := Handle(Programme(envs, true), srcs, names, reqs[0], vm);
      HandleExactly(envs, true, srcs, names, reqs[0], vm);
      var ps := Slots(srcs, names);
      ChainNeverTooMany(envs, ps, NewContext(reqs[0]), vm.world.calls);
      PlainlyOnAnswers(Reaches(true, vm.globals, ps, OnRoute), Reaches(true, vm.globals, ps, OnResponse), reqs[0],
        Chain(envs, ps, NewContext(reqs[0]), vm.world.calls));
      NoRunIsLimited(envs, srcs, names, reqs[1..], h.run.vm);
      assert Serve(Programme(envs, true), srcs, names, reqs, vm)[1..]
          == Serve(Programme(envs, true), srcs, names, reqs[1..], h.run.vm);
    }
  }

  lemma PlainlyOnAnswers(route: bool, respond: bool, req: Request, c: (Ctx, nat))
    ensures !PlainlyOn(route, respond, req, c.0, c.1).reply.TurnedAway?
  {
  }

  // ---- A signed token through the pipeline ----

  function RoleText(c: Claims): (role: string)
    requires "role" in c ==> c["role"].Str? || c["role"].Int?
  {
    if "role" !in c then "user" else if c["role"].Str? then c["role"].text else IntText(c["role"].num)
  }

  lemma RecoveredClaims(es: seq<Entry>, c: Claims)
    requires PlainEntries(es) && IsOrderOf(es, c)
    ensures forall k :: k in Recovered(es, c) ==> Recovered(es, c)[k].Str? || Recovered(es, c)[k].Int?
  {
    hide CutClaims, Print;
    forall k | k in c
      ensures c[k].Str? || c[k].Int?
    {
      var i :| 0 <= i < |es| && es[i].0 == k;
      assert PlainEntry(es[i]);
    }
    if |es| > 0 { CutDiffers(es, c); }
  }

  /** The role a bearer token gives when verification comes down to the time checks. */
  lemma BearerRole(env: GoodEnv, headers: Strings, token: string, claims: Claims)
    requires Get(headers, "authorization") == Some("Bearer " + token) && env.jwtLib
    requires "x-api-key" in headers ==> headers["x-api-key"] !in API_KEYS
    requires forall k :: k in claims ==> claims[k].Str? || claims[k].Int?
    requires Verify("Bearer " + token, env.secret, env.mac, env.nowExp, env.nowNbf) == CheckTimes(claims, env.nowExp, env.nowNbf)
    ensures CredentialRole(env, headers) == if InTime(claims, env.nowExp, env.nowNbf) then Some(RoleText(claims)) else None
  {
    hide Verify, CheckTimes, InTime, IsBearer, ApiKeyOf;
    BearerIsBearer(token);
    CheckTimesExact(claims, env.nowExp, env.nowNbf);
    AcceptedUnchanged(claims, env.nowExp, env.nowNbf);
  }

  /**
   A token made by `jwt.sign` with the proxy's secret and sent as a bearer header is admitted to a
   path exactly when the moment is within its times and its role is permitted there, as far as the
   claims survive the decoder.
   */
  lemma SignedTokenAdmitted(envs: Readings, es: seq<Entry>, c: Claims, path: string, others: Strings,
      ip: string, n: nat)
    requires PlainEntries(es) && CalmTable(es) && IsOrderOf(es, c)
    requires !IsPublic(path) && envs(n + 2).jwtLib && ("x-api-key" in others ==> others["x-api-key"] !in API_KEYS)
    ensures Printable(TableOf(es)) && IsBytes(Print(TableOf(es)))
    ensures forall k :: k in Recovered(es, c) ==> Recovered(es, c)[k].Str? || Recovered(es, c)[k].Int?
    ensures var env := envs(n + 2);
            var headers := others["authorization" := "Bearer " + Sign(TableOf(es), env.secret, env.mac)];
            Chain(envs, CONFIGURED, NewCtx(path, headers, ip), n).0.rejected == None
            <==> InTime(Recovered(es, c), env.nowExp, env.nowNbf) && Permits(path, RoleText(Recovered(es, c)))
  {
    hide Chain, IsPublic, Permits, Verify, Sign, Recovered, CheckTimes, Print, InTime, CredentialRole, PlainEntries,
      IsOrderOf, CalmTable, SentHeaders, ForwardedIdentity, RefusedWith;
    var env := envs(n + 2);
    VerifyOfSign(es, c, env.secret, env.mac, env.nowExp, env.nowNbf);
    RecoveredClaims(es, c);
    var token := Sign(TableOf(es), env.secret, env.mac);
    var headers := others["authorization" := "Bearer " + token];
    BearerRole(env, headers, token, Recovered(es, c));
    AdmittedExactly(envs, path, headers, ip, n);
  }

  lemma BearerIsBearer(token: string)
    ensures IsBearer("Bearer " + token) && ApiKeyOf("Bearer " + token) == None
  {
    var auth := "Bearer " + token;
    assert auth[..6] == "Bearer" && auth[6] == ' ' && auth[0] == 'B';
  }
}
