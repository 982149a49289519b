/**
 Who the proxy lets through, told by the request alone: its path, the API key or the token it
 presents, and the role that gives.
 */
module Policy {
  import opened Wrappers
  import opened Json
  import opened JsonScan
  import opened JsonPieces
  import opened Base64Url
  import opened Jwt
  import opened JwtLaws
  import opened JwtExact
  import opened Context
  import opened Engine
  import opened Plugins
  import opened Shipped
  import opened Admission

  // ---- Paths ----

  predicate IsOpen(path: string) {
    path == "/health" || path == "/metrics" || "/public/" <= path
  }

  /** The paths that need no credential. */
  lemma PublicExactly(path: string)
    ensures IsPublic(path) <==> IsOpen(path)
  {
    assert Matches(PUBLIC_PATHS[0], path) <==> path == "/health";
    assert Matches(PUBLIC_PATHS[1], path) <==> path == "/metrics";
    assert Matches(PUBLIC_PATHS[2], path) <==> "/public/" <= path;
  }

  /** No rule names the path. */
  predicate IsUnruled(path: string) {
    && !("/admin/" <= path) && !("/reload" <= path) && !("/metrics" <= path) && !("/api/v1/" <= path)
    && !("/api/v2/" <= path) && path != "/health" && !("/public/" <= path)
  }

  lemma PrefixesApart(path: string)
    ensures "/admin/" <= path ==> path[1] == 'a' && path[2] == 'd'
    ensures "/reload" <= path ==> path[1] == 'r'
    ensures "/metrics" <= path ==> path[1] == 'm'
    ensures "/api/v1/" <= path ==> path[1] == 'a' && path[2] == 'p' && path[6] == '1'
    ensures "/api/v2/" <= path ==> path[1] == 'a' && path[2] == 'p' && path[6] == '2'
    ensures path == "/health" ==> path[1] == 'h'
    ensures "/public/" <= path ==> path[1] == 'p'
  {
  }

  lemma PatternsApart(path: string)
    ensures Matches(RULES[0].pattern, path) <==> "/admin/" <= path
    ensures Matches(RULES[1].pattern, path) <==> "/reload" <= path
    ensures Matches(RULES[2].pattern, path) <==> "/metrics" <= path
    ensures Matches(RULES[3].pattern, path) <==> "/api/v1/" <= path
    ensures Matches(RULES[4].pattern, path) <==> "/api/v2/" <= path
    ensures Matches(RULES[5].pattern, path) <==> path == "/health"
    ensures Matches(RULES[6].pattern, path) <==> "/public/" <= path
    ensures forall i, j :: 0 <= i < j < |RULES| ==> !(Matches(RULES[i].pattern, path) && Matches(RULES[j].pattern, path))
  {
    PrefixesApart(path);
  }

  /** At most one rule matches a path, so it is the one that is found. */
  lemma RuleIs(path: string, i: nat)
    requires i < |RULES| && Matches(RULES[i].pattern, path)
    ensures FindRule(RULES, path) == Some(RULES[i])
  {
    hide FindRule, Matches, RULES;
    FoundRuleMatches(RULES, path);
    PatternsApart(path);
  }

  lemma NoRule(path: string)
    ensures HasRule(path) <==> !IsUnruled(path)
  {
    hide FindRule, Matches;
    FoundRuleMatches(RULES, path);
    PatternsApart(path);
    assert forall i :: 0 <= i < |RULES| ==> RULES[i] in RULES;
  }

  lemma RolesOf(i: nat, role: string)
    requires i < |RULES|
    ensures HasRole(Some(role), RULES[i].roles) <==>
              match i
              case 0 => role == "admin"
              case 1 => role == "admin"
              case 2 => role == "admin" || role == "ops"
              case 3 => role == "admin" || role == "user" || role == "reader"
              case 4 => role == "admin" || role == "user"
              case _ => true
  {
  }

  /** Which roles may use a path, one line for each kind of path. */
  lemma PermitsExactly(path: string, role: string)
    ensures "/admin/" <= path || "/reload" <= path ==> (Permits(path, role) <==> role == "admin")
    ensures "/metrics" <= path ==> (Permits(path, role) <==> role == "admin" || role == "ops")
    ensures "/api/v1/" <= path ==> (Permits(path, role) <==> role == "admin" || role == "user" || role == "reader")
    ensures "/api/v2/" <= path ==> (Permits(path, role) <==> role == "admin" || role == "user")
    ensures path == "/health" || "/public/" <= path || IsUnruled(path) ==> Permits(path, role)
    ensures HasRule(path) <==> !IsUnruled(path)
  {
    hide FindRule, Matches, HasRole, RULES;
    NoRule(path);
    if !IsUnruled(path) {
      var i := RuleNumber(path);
      RuleIs(path, i);
      RolesOf(i, role);
    }
  }

  lemma RuleNumber(path: string) returns (i: nat)
    requires !IsUnruled(path)
    ensures i < |RULES| && Matches(RULES[i].pattern, path)
    ensures "/admin/" <= path || "/reload" <= path ==> i <= 1
    ensures ("/metrics" <= path ==> i == 2) && ("/api/v1/" <= path ==> i == 3) && ("/api/v2/" <= path ==> i == 4)
    ensures path == "/health" || "/public/" <= path ==> i >= 5
  {
    hide Matches;
    PatternsApart(path);
    PrefixesApart(path);
    i := if "/admin/" <= path then 0 else if "/reload" <= path then 1 else if "/metrics" <= path then 2
         else if "/api/v1/" <= path then 3 else if "/api/v2/" <= path then 4 else if path == "/health" then 5 else 6;
  }

  // ---- Keys ----

  /** `%s+` between the scheme and the key. */
  predicate Gap(s: string) {
    |s| > 0 && AllSpaces(s)
  }

  lemma ApiKeyExactly(auth: string, key: string)
    requires key != "" && !IsSpace(key[0])
    ensures ApiKeyOf(auth) == Some(key) <==> exists gap: string :: Gap(gap) && auth == "ApiKey" + (gap + key)
  {
    hide SkipSpaces, IsSpace;
    if gap: string :| Gap(gap) && auth == "ApiKey" + (gap + key) {
      assert auth[6..] == gap + key;
      SkipLeading(gap, key);
      NoSpaces(key);
    }
    if ApiKeyOf(auth) == Some(key) {
      var s := auth[6..];
      LeadingSpaces(s);
      var gap := s[..|s| - |SkipSpaces(s)|];
      assert auth == "ApiKey" + s;
      assert Gap(gap);
    }
  }

  /** The request's `x-api-key`, or without one what follows `ApiKey` in its authorization header. */
  ghost predicate PresentsKey(headers: Strings, key: string) {
    if "x-api-key" in headers then headers["x-api-key"] == key
    else
      && "authorization" in headers
      && exists gap: string :: Gap(gap) && headers["authorization"] == "ApiKey" + (gap + key)
  }

  const ADMIN_KEY := "test-api-key-admin"
  const READER_KEY := "test-api-key-reader"

  lemma KeyRoleExactly(headers: Strings)
    ensures KeyRole(headers) == Some("admin") <==> PresentsKey(headers, ADMIN_KEY)
    ensures KeyRole(headers) == Some("reader") <==> PresentsKey(headers, READER_KEY)
    ensures KeyRole(headers).Some? ==> KeyRole(headers).value in {"admin", "reader"} && KeyUser(headers) == Some("apikey:test-api")
  {
    hide ApiKeyOf, Gap;
    assert |ADMIN_KEY| == 18 && |READER_KEY| == 19 && "admin" != "reader";
    if "authorization" in headers {
      ApiKeyExactly(headers["authorization"], ADMIN_KEY);
      ApiKeyExactly(headers["authorization"], READER_KEY);
    }
    assert FirstEight(ADMIN_KEY) == "test-api" && FirstEight(READER_KEY) == "test-api";
    assert "apikey:" + "test-api" == "apikey:test-api";
  }

  // ---- Tokens ----

  /** The authorization header holds a bearer token of this secret, in time, with these claims. */
  ghost predicate PresentsToken(env: GoodEnv, headers: Strings, c: Claims) {
    && env.jwtLib && "authorization" in headers && HasScheme(headers["authorization"])
    && InTime(c, env.nowExp, env.nowNbf)
    && exists t :: IsGenuine(headers["authorization"], t, env.secret, env.mac) && c == ClaimsOf(t)
  }

  /** The text a claim is stored as: its own, that of its number, the default when absent or false. */
  ghost predicate Reads(env: GoodEnv, c: Claims, key: string, default: string, text: string) {
    if key !in c || c[key] == Bool(false) then text == default
    else
      || c[key] == Str(text)
      || (c[key].Int? && text == IntText(c[key].num))
      || (c[key].Float? && text == env.floatText(c[key].approx))
  }

  lemma ReadsExactly(env: GoodEnv, c: Claims, key: string, default: string, text: string)
    requires forall k :: k in c ==> Scalar(c[k])
    ensures VarText(env, Claim(c, key), default) == Some(text) <==> Reads(env, c, key, default, text)
  {
    hide IntText;
  }

  lemma CarriesDot(auth: string, t: Parts)
    requires Carries(auth, t)
    ensures '.' in Credential(auth)
  {
    hide AllSpaces, Tight, Credential;
    var a: string, b: string :| Credential(auth) == a + (Word(t) + b);
    assert Word(t)[|t.header|] == '.';
    assert (Word(t) + b)[|t.header|] == '.';
    assert (a + (Word(t) + b))[|a| + |t.header|] == '.';
  }

  /** "Bearer " alone carries nothing, so what carries a token also has something behind the space. */
  lemma CarriesBehindScheme(auth: string, t: Parts)
    requires Carries(auth, t)
    ensures IsBearer(auth) <==> HasScheme(auth)
  {
    hide Carries;
    CarriesDot(auth, t);
  }

  /** The claims that `jwt.verify` lets through. */
  lemma TokenExactly(env: GoodEnv, headers: Strings, c: Claims)
    ensures Verdicts(env, headers) == Some(Accepted(c)) <==> PresentsToken(env, headers, c)
  {
    hide Verify, Carries, IsHs256, IsSigned, InTime, IsBearer, HasScheme, Parse, UrlDecode;
    if "authorization" in headers && env.jwtLib {
      var auth := headers["authorization"];
      AcceptedExactly(auth, env.secret, env.mac, env.nowExp, env.nowNbf, c);
      if Verify(auth, env.secret, env.mac, env.nowExp, env.nowNbf) == Accepted(c) {
        var t :| && Carries(auth, t) && IsHs256(t) && IsSigned(t, env.secret, env.mac)
                 && c == Parse(UrlDecode(t.payload)) && InTime(c, env.nowExp, env.nowNbf);
        assert IsGenuine(auth, t, env.secret, env.mac) && c == ClaimsOf(t);
        CarriesBehindScheme(auth, t);
      }
      if PresentsToken(env, headers, c) {
        var t :| IsGenuine(auth, t, env.secret, env.mac) && c == ClaimsOf(t);
        CarriesBehindScheme(auth, t);
      }
    }
  }

  lemma PresentedScalars(env: GoodEnv, headers: Strings, c: Claims)
    requires PresentsToken(env, headers, c)
    ensures forall k :: k in c ==> Scalar(c[k])
  {
    hide Carries, IsHs256, IsSigned, InTime, HasScheme, Parse, UrlDecode, IsGenuine;
    var t :| IsGenuine(headers["authorization"], t, env.secret, env.mac) && c == ClaimsOf(t);
    ParsedScalars(UrlDecode(t.payload));
  }

  // ---- The identity of a request ----

  const KEY_USER := "apikey:test-api"

  /** The caller is `user` with role `role`: a listed key comes before a token. */
  ghost predicate Identifies(env: GoodEnv, headers: Strings, user: string, role: string) {
    if PresentsKey(headers, ADMIN_KEY) then user == KEY_USER && role == "admin"
    else if PresentsKey(headers, READER_KEY) then user == KEY_USER && role == "reader"
    else
      exists c :: && PresentsToken(env, headers, c) && Reads(env, c, "sub", "unknown", user)
                  && Reads(env, c, "role", "user", role)
  }

  ghost predicate HoldsRole(env: GoodEnv, headers: Strings, role: string) {
    exists user :: Identifies(env, headers, user, role)
  }

  lemma TokenIdentity(env: GoodEnv, headers: Strings, user: string, role: string)
    ensures TokenUser(env, headers) == Some(user) && TokenRole(env, headers) == Some(role) <==>
              exists c :: && PresentsToken(env, headers, c) && Reads(env, c, "sub", "unknown", user)
                          && Reads(env, c, "role", "user", role)
  {
    hide Verdicts, PresentsToken, Reads, VarText, Claim;
    var v := Verdicts(env, headers);
    if v.Some? && v.value.Accepted? {
      TokenClaims(env, headers, v.value.claims, "sub", "unknown", user);
      TokenClaims(env, headers, v.value.claims, "role", "user", role);
    }
    if c :| PresentsToken(env, headers, c) && Reads(env, c, "sub", "unknown", user) && Reads(env, c, "role", "user", role) {
      TokenExactly(env, headers, c);
    }
  }

  lemma TokenClaims(env: GoodEnv, headers: Strings, c: Claims, key: string, default: string, text: string)
    requires Verdicts(env, headers) == Some(Accepted(c))
    ensures PresentsToken(env, headers, c)
    ensures VarText(env, Claim(c, key), default) == Some(text) <==> Reads(env, c, key, default, text)
  {
    hide Verdicts, PresentsToken, Reads, VarText;
    TokenExactly(env, headers, c);
    PresentedScalars(env, headers, c);
    ReadsExactly(env, c, key, default, text);
  }

  lemma KeysDiffer(headers: Strings)
    ensures !(PresentsKey(headers, ADMIN_KEY) && PresentsKey(headers, READER_KEY))
  {
    hide PresentsKey;
    KeyRoleExactly(headers);
    assert "admin" != "reader";
  }

  /** Name and role of the credential, told by key or token. */
  lemma IdentityExactly(env: GoodEnv, headers: Strings, user: string, role: string)
    ensures CredentialUser(env, headers) == Some(user) && CredentialRole(env, headers) == Some(role)
            <==> Identifies(env, headers, user, role)
  {
    hide KeyRole, KeyUser, TokenRole, TokenUser, PresentsKey, PresentsToken, Reads;
    KeyRoleExactly(headers);
    KeysDiffer(headers);
    TokenIdentity(env, headers, user, role);
  }

  lemma RoleExactly(env: GoodEnv, headers: Strings, role: string)
    ensures CredentialRole(env, headers) == Some(role) <==> HoldsRole(env, headers, role)
  {
    hide Identifies, KeyRole, KeyUser, Verdicts;
    if CredentialRole(env, headers) == Some(role) {
      UserWithRole(env, headers);
      IdentityExactly(env, headers, CredentialUser(env, headers).value, role);
    }
    if user :| Identifies(env, headers, user, role) {
      IdentityExactly(env, headers, user, role);
    }
  }

  lemma UserWithRole(env: GoodEnv, headers: Strings)
    requires CredentialRole(env, headers).Some?
    ensures CredentialUser(env, headers).Some?
  {
    hide Verify, IsBearer, VarText, Claim, ApiKeyOf, FirstEight;
    if "authorization" in headers {
      AcceptedClaimsHaveText(env, headers["authorization"], env.secret, env.mac, env.nowExp, env.nowNbf, "sub", "unknown");
    }
  }

  // ---- Admission ----

  /**
   The replies of the configured proxy, by path and role alone: what is open to everyone, what each
   prefix asks for, and that elsewhere any role will do.
   */
  lemma AdmissionByPath(envs: Readings, srcs: Sources, names: seq<string>, req: Request, vm: ShippedVm)
    requires Slots(srcs, names) == CONFIGURED && OnTransform !in vm.globals && Tame(srcs)
    ensures var through := !Handle(Programme(envs, true), srcs, names, req, vm).reply.TurnedAway?;
            var path, env, headers := req.path, envs(vm.world.calls + 2), req.headers;
            && (path == "/health" || path == "/metrics" || "/public/" <= path ==> through)
            && ("/admin/" <= path || "/reload" <= path ==> (through <==> HoldsRole(env, headers, "admin")))
            && ("/metrics" < path ==> (through <==> HoldsRole(env, headers, "admin") || HoldsRole(env, headers, "ops")))
            && ("/api/v1/" <= path ==>
                  (through <==> || HoldsRole(env, headers, "admin") || HoldsRole(env, headers, "user")
                                || HoldsRole(env, headers, "reader")))
            && ("/api/v2/" <= path ==> (through <==> HoldsRole(env, headers, "admin") || HoldsRole(env, headers, "user")))
            && (IsUnruled(path) ==> (through <==> exists role :: HoldsRole(env, headers, role)))
  {
    hide Handle, Slots, Programme, HoldsRole, CredentialRole, Permits, IsPublic, RefusedWith;
    var env, headers := envs(vm.world.calls + 2), req.headers;
    ProxyAdmitsExactly(envs, srcs, names, req, vm);
    PublicExactly(req.path);
    PrefixesApart(req.path);
    RoleExactly(env, headers, "admin");
    RoleExactly(env, headers, "user");
    RoleExactly(env, headers, "reader");
    RoleExactly(env, headers, "ops");
    if CredentialRole(env, headers).Some? {
      PermitsExactly(req.path, CredentialRole(env, headers).value);
      RoleExactly(env, headers, CredentialRole(env, headers).value);
    }
    forall role | HoldsRole(env, headers, role)
      ensures CredentialRole(env, headers) == Some(role)
    {
      RoleExactly(env, headers, role);
    }
  }

  /** What a request that presents one of the two listed keys may use, every path considered. */
  lemma KeyAdmission(envs: Readings, srcs: Sources, names: seq<string>, req: Request, vm: ShippedVm)
    requires Slots(srcs, names) == CONFIGURED && OnTransform !in vm.globals && Tame(srcs)
    ensures var through := !Handle(Programme(envs, true), srcs, names, req, vm).reply.TurnedAway?;
            var path := req.path;
            && (PresentsKey(req.headers, "test-api-key-admin") ==> through)
            && (PresentsKey(req.headers, "test-api-key-reader") ==>
                  (through <==> && !("/admin/" <= path) && !("/reload" <= path) && !("/metrics" < path)
                                && !("/api/v2/" <= path)))
  {
    hide Handle, Slots, Programme, HoldsRole, PresentsKey, CredentialUser, CredentialRole, KeyRole, KeyUser;
    var env := envs(vm.world.calls + 2);
    AdmissionByPath(envs, srcs, names, req, vm);
    PrefixesApart(req.path);
    KeyRoleExactly(req.headers);
    KeyHolds(env, req.headers);
    RoleExactly(env, req.headers, "admin");
    RoleExactly(env, req.headers, "ops");
    RoleExactly(env, req.headers, "user");
    RoleExactly(env, req.headers, "reader");
    assert "admin" != "reader" && "ops" != "reader" && "user" != "reader";
  }

  lemma KeyHolds(env: GoodEnv, headers: Strings)
    ensures KeyRole(headers).Some? ==> CredentialRole(env, headers) == KeyRole(headers)
  {
  }

  // ---- Refusals ----

  /** auth.lua raises: neither header is there, or a genuine token holds a time that is no number. */
  ghost predicate AuthenticationRaises(env: GoodEnv, headers: Strings) {
    || ("x-api-key" !in headers && "authorization" !in headers)
    || (&& !PresentsKey(headers, ADMIN_KEY) && !PresentsKey(headers, READER_KEY)
        && env.jwtLib && "authorization" in headers && HasScheme(headers["authorization"])
        && exists t :: && IsGenuine(headers["authorization"], t, env.secret, env.mac)
                       && TimesRaise(ClaimsOf(t), env.nowExp, env.nowNbf))
  }

  lemma NoListedKey(headers: Strings)
    ensures KeyRole(headers) == None <==> !PresentsKey(headers, ADMIN_KEY) && !PresentsKey(headers, READER_KEY)
  {
    hide KeyRole, KeyUser, PresentsKey;
    KeyRoleExactly(headers);
  }

  lemma RaisesExactly(env: GoodEnv, headers: Strings)
    ensures AuthRaises(env, headers) <==> AuthenticationRaises(env, headers)
  {
    hide Verify, Carries, IsHs256, IsSigned, IsBearer, HasScheme, ClaimsOf, TimesRaise, KeyRole, PresentsKey;
    NoListedKey(headers);
    if "authorization" in headers && env.jwtLib {
      var auth := headers["authorization"];
      OutOfTimeExactly(auth, env.secret, env.mac, env.nowExp, env.nowNbf);
      forall t | IsGenuine(auth, t, env.secret, env.mac)
        ensures IsBearer(auth) <==> HasScheme(auth)
      {
        CarriesBehindScheme(auth, t);
      }
    }
  }

  /** `[Bb]earer` and a space. */
  predicate SaysBearer(auth: string) {
    ("Bearer" <= auth || "bearer" <= auth) && |auth| > 6 && (auth[6] == ' ' || 9 <= auth[6] as int <= 13)
  }

  /** The cause auth.lua states with its 401. */
  ghost predicate IsCause(env: GoodEnv, headers: Strings, failure: JwtFailure) {
    if "authorization" !in headers then failure == NoAuthorizationHeader
    else if !SaysBearer(headers["authorization"]) then failure == NotBearer
    else if !env.jwtLib then failure == LibUnavailable
    else
      && failure.Invalid?
      && Verify(headers["authorization"], env.secret, env.mac, env.nowExp, env.nowNbf) == Refused(failure.err)
  }

  lemma CauseExactly(env: GoodEnv, headers: Strings, failure: JwtFailure)
    ensures FailsWith(env, headers, failure) ==> IsCause(env, headers, failure)
  {
    hide Verify;
  }

  /**
   The refusals of the configured proxy: 403 for a role that does not suffice and when auth.lua
   raises, 401 with its cause for a credential that failed.
   */
  lemma RefusalByPath(envs: Readings, srcs: Sources, names: seq<string>, req: Request, vm: ShippedVm)
    requires Slots(srcs, names) == CONFIGURED && OnTransform !in vm.globals && Tame(srcs)
    requires Handle(Programme(envs, true), srcs, names, req, vm).reply.TurnedAway?
    ensures var r := Handle(Programme(envs, true), srcs, names, req, vm).reply.rejection;
            var env, headers := envs(vm.world.calls + 2), req.headers;
            if (exists role :: HoldsRole(env, headers, role)) || AuthenticationRaises(env, headers) then
              r == Rejection(403, if IsUnruled(req.path) then AuthenticationRequired else InsufficientPrivileges)
            else
              r.status == 401 && r.reason.Unauthorized? && IsCause(env, headers, r.reason.failure)
  {
    hide Handle, Slots, Programme, HoldsRole, CredentialRole, Permits, Admitted, AuthRaises, AuthenticationRaises, FailsWith,
      IsCause, HasRule;
    var env, headers := envs(vm.world.calls + 2), req.headers;
    ProxyAdmitsExactly(envs, srcs, names, req, vm);
    PermitsExactly(req.path, "");
    RaisesExactly(env, headers);
    forall role
      ensures CredentialRole(env, headers) == Some(role) <==> HoldsRole(env, headers, role)
    {
      RoleExactly(env, headers, role);
    }
    assert CredentialRole(env, headers).Some? ==> HoldsRole(env, headers, CredentialRole(env, headers).value);
    var reply := Handle(Programme(envs, true), srcs, names, req, vm).reply;
    if reply.rejection.reason.Unauthorized? { CauseExactly(env, headers, reply.rejection.reason.failure); }
  }
}
