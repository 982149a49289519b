/**
 What the configured proxy does with a request it lets through: the upstream it asks, the URL and
 headers it sends, and the headers it answers with, each told header by header.
 */
module ProxyLaws {
  import opened Wrappers
  import opened Context
  import opened Engine
  import opened Plugins
  import opened Shipped
  import opened Admission
  import opened Policy

  // ---- The client's address ----

  /** `x-real-ip` first, then `x-forwarded-for`, then the peer. */
  predicate IsClientIp(headers: Strings, peer: string, ip: string) {
    && ("x-real-ip" in headers ==> ip == headers["x-real-ip"])
    && ("x-real-ip" !in headers && "x-forwarded-for" in headers ==> ip == headers["x-forwarded-for"])
    && ("x-real-ip" !in headers && "x-forwarded-for" !in headers ==> ip == peer)
  }

  lemma ClientIpExactly(headers: Strings, peer: string)
    ensures IsClientIp(headers, peer, ClientIp(headers, peer))
  {
  }

  // ---- The URL ----

  /** `base` is `target` without its slashes at the end. */
  predicate IsTrimmed(target: string, base: string) {
    && base <= target && (forall i :: |base| <= i < |target| ==> target[i] == '/')
    && (base == "" || base[|base| - 1] != '/')
  }

  lemma {:induction false} TrimSlashesExactly(target: string)
    ensures IsTrimmed(target, TrimSlashes(target))
    decreases |target|
  {
    if |target| > 0 && target[|target| - 1] == '/' { TrimSlashesExactly(target[..|target| - 1]); }
  }

  // ---- The headers sent ----

  /** The identity a request is forwarded under: none on an open path, else that of its credential. */
  ghost predicate IsIdentity(env: GoodEnv, path: string, headers: Strings, id: Option<Identity>) {
    if IsOpen(path) then id == None else id.Some? && Identifies(env, headers, id.value.0, id.value.1)
  }

  lemma IdentityForwarded(env: GoodEnv, path: string, headers: Strings)
    requires Admitted(env, path, headers)
    ensures IsIdentity(env, path, headers, ForwardedIdentity(env, path, headers))
  {
    hide CredentialUser, CredentialRole, Identifies, IsPublic, IsOpen, Permits;
    PublicExactly(path);
    if !IsOpen(path) {
      UserWithRole(env, headers);
      IdentityExactly(env, headers, CredentialUser(env, headers).value, CredentialRole(env, headers).value);
    }
  }

  const PROXY_SENDS: set<string> :=
    {"authorization", "x-api-key", "x-request-id", "x-forwarded-for", "x-proxy", "x-user-id", "x-user-role"}

  /** Each header of the request sent upstream. */
  ghost predicate IsSent(headers: Strings, ip: string, id: Option<Identity>, requestId: string, sent: Strings) {
    && Get(sent, "authorization") == Some("") && Get(sent, "x-api-key") == Some("")
    && Get(sent, "x-request-id") == Some(requestId)
    && Get(sent, "x-forwarded-for") == Some(ip) && Get(sent, "x-proxy") == Some("rust-lua-proxy/0.1")
    && (id.Some? ==> Get(sent, "x-user-id") == Some(id.value.0) && Get(sent, "x-user-role") == Some(id.value.1))
    && (id == None ==>
          && Get(sent, "x-user-id") == Get(headers, "x-user-id")
          && Get(sent, "x-user-role") == Get(headers, "x-user-role"))
    && forall k :: k !in PROXY_SENDS ==> Get(sent, k) == Get(headers, k)
  }

  lemma SentExactly(req: Request, id: Option<Identity>, requestId: string)
    ensures IsSent(req.headers, ClientIp(req.headers, req.peer), id, requestId,
              ForwardHeaders(req, SentHeaders(req.headers, id, requestId)))
  {
    hide ClientIp;
  }

  // ---- The headers answered ----

  const PROXY_ANSWERS: set<string> :=
    {"x-proxy", "x-frame-options", "x-content-type-options", "referrer-policy", "access-control-allow-origin", "vary",
     "x-request-id", "server"}

  /** Each header of the response, told by the upstream's and the request's `origin`. */
  ghost predicate IsAnswered(up: Strings, origin: Option<string>, requestId: string, sent: Strings) {
    && Get(sent, "x-proxy") == Some("rust-lua-proxy/0.1") && Get(sent, "server") == Some("proxy")
    && Get(sent, "x-frame-options") == Some("DENY") && Get(sent, "x-content-type-options") == Some("nosniff")
    && Get(sent, "referrer-policy") == Some("strict-origin-when-cross-origin")
    && Get(sent, "x-request-id") == Some(requestId)
    && (origin.Some? ==> Get(sent, "access-control-allow-origin") == origin && Get(sent, "vary") == Some("Origin"))
    && (origin == None ==>
          && Get(sent, "access-control-allow-origin") == Get(up, "access-control-allow-origin")
          && Get(sent, "vary") == Get(up, "vary"))
    && forall k :: k !in PROXY_ANSWERS ==> Get(sent, k) == Get(up, k)
  }

  /** The headers transform.lua writes, and no others. */
  ghost predicate IsWritten(origin: Option<string>, requestId: string, written: Strings) {
    && Get(written, "x-proxy") == Some("rust-lua-proxy/0.1") && Get(written, "server") == Some("proxy")
    && Get(written, "x-frame-options") == Some("DENY") && Get(written, "x-content-type-options") == Some("nosniff")
    && Get(written, "referrer-policy") == Some("strict-origin-when-cross-origin")
    && Get(written, "x-request-id") == Some(requestId)
    && Get(written, "access-control-allow-origin") == origin
    && Get(written, "vary") == (if origin.Some? then Some("Origin") else None)
    && forall k :: k !in PROXY_ANSWERS ==> Get(written, k) == None
  }

  lemma WrittenExactly(headers: Strings, vars: Strings, requestId: string)
    requires Get(vars, "request_id") == Some(requestId)
    ensures IsWritten(Get(headers, "origin"), requestId, ResponseHeaders(headers, vars))
  {
  }

  lemma OverrideIsAnswered(up: Strings, origin: Option<string>, requestId: string, written: Strings)
    requires IsWritten(origin, requestId, written)
    ensures IsAnswered(up, origin, requestId, up + written)
  {
  }

  lemma AnsweredExactly(ctx: Ctx, requestId: string)
    requires Get(ctx.vars, "request_id") == Some(requestId)
    ensures IsAnswered(ctx.resHeaders, Get(ctx.headers, "origin"), requestId, TransformOnResponse(ctx).resHeaders)
  {
    hide IsAnswered;
    var written := ResponseHeaders(ctx.headers, ctx.vars);
    WrittenExactly(ctx.headers, ctx.vars, requestId);
    OverrideIsAnswered(ctx.resHeaders, Get(ctx.headers, "origin"), requestId, written);
  }

  // ---- The whole exchange ----

  function UpstreamOf(path: string): (upstream: string) {
    if |path| >= 8 && path[..8] == "/api/v2/" then "api_v2" else "default"
  }

  /** The reply to what the pool and then the upstream answer. */
  ghost predicate IsReply(req: Request, ip: string, base: string, sent: Strings, requestId: string, reply: Reply) {
    match req.pick(UpstreamOf(req.path), ip)
    case None => reply == Unavailable
    case Some(target) =>
      && IsTrimmed(target, base)
      && match req.forward(base + req.path, sent)
         case None => reply == BadGateway
         case Some(up) =>
           && reply.Answered? && reply.response.status == up.status && reply.response.body == up.body
           && IsAnswered(up.headers, Get(req.headers, "origin"), requestId, reply.response.headers)
  }

  lemma RouteExactly(path: string)
    ensures RouteOf(path) == UpstreamOf(path)
  {
  }

  lemma OriginKept(headers: Strings, id: Option<Identity>, requestId: string)
    ensures Get(SentHeaders(headers, id, requestId), "origin") == Get(headers, "origin")
  {
  }

  lemma PlainReply(req: Request, c: Ctx, calls: nat, id: Option<Identity>, requestId: string)
      returns (base: string, sent: Strings)
    requires c.path == req.path && c.headers == SentHeaders(req.headers, id, requestId)
    requires Get(c.vars, "request_id") == Some(requestId)
    ensures var ip := ClientIp(req.headers, req.peer);
            var p := PlainlyOn(true, true, req, c, calls);
            && IsSent(req.headers, ip, id, requestId, sent)
            && IsReply(req, ip, base, sent, requestId, p.reply) && p.upstream == Some(UpstreamOf(req.path))
  {
    hide TrimSlashes, ClientIp, IsSent, IsAnswered, IsTrimmed, TransformOnResponse, ForwardHeaders, SentHeaders, RouteOf, UpstreamOf;
    var ip := ClientIp(req.headers, req.peer);
    RouteExactly(req.path);
    SentExactly(req, id, requestId);
    OriginKept(req.headers, id, requestId);
    sent := ForwardHeaders(req, c.headers);
    base := "";
    match req.pick(UpstreamOf(req.path), ip)
    case None =>
    case Some(target) =>
      TrimSlashesExactly(target);
      base := TrimSlashes(target);
      match req.forward(base + req.path, sent)
      case None =>
      case Some(up) =>
        var t := Filled(c.Upstream(RouteOf(c.path)), up);
        AnsweredExactly(t, requestId);
        ResponseKeepsBody(t);
  }

  lemma ResponseKeepsBody(ctx: Ctx)
    ensures TransformOnResponse(ctx).resStatus == ctx.resStatus && TransformOnResponse(ctx).resBody == ctx.resBody
  {
  }

  /**
   The configured proxy, from every state of its VM, for every request it does not turn away: it asks
   the pool for the upstream of the path under the client's address, sends the request's path and
   stated headers to the target, and answers with the upstream's status, body and stated headers.
   */
  lemma RelayedExactly(envs: Readings, srcs: Sources, names: seq<string>, req: Request, vm: ShippedVm)
      returns (ip: string, id: Option<Identity>, base: string, sent: Strings)
    requires Slots(srcs, names) == CONFIGURED && OnTransform !in vm.globals && Tame(srcs)
    requires !Handle(Programme(envs, true), srcs, names, req, vm).reply.TurnedAway?
    ensures var h := Handle(Programme(envs, true), srcs, names, req, vm);
            var requestId := envs(vm.world.calls + 4).uuid;
            && IsClientIp(req.headers, req.peer, ip)
            && IsIdentity(envs(vm.world.calls + 2), req.path, req.headers, id)
            && IsSent(req.headers, ip, id, requestId, sent)
            && h.upstream == Some(UpstreamOf(req.path))
            && IsReply(req, ip, base, sent, requestId, h.reply)
  {
    hide Handle, Chain, PlainlyOn, Admitted, RefusedWith, ForwardedIdentity, SentHeaders, Slots, Programme, IsReply, IsSent,
      UpstreamOf, IsIdentity, IsClientIp, ClientIp, IsPublic, CredentialRole;
    var n, env := vm.world.calls, envs(vm.world.calls + 2);
    ip := ClientIp(req.headers, req.peer);
    ClientIpExactly(req.headers, req.peer);
    HandleExactly(envs, true, srcs, names, req, vm);
    AdmittedExactly(envs, req.path, req.headers, ip, n);
    ProxyAdmitsExactly(envs, srcs, names, req, vm);
    IdentityForwarded(env, req.path, req.headers);
    id := ForwardedIdentity(env, req.path, req.headers);
    var (c, calls) := Chain(envs, CONFIGURED, NewContext(req), n);
    assert Reaches(true, vm.globals, CONFIGURED, OnRoute) && Reaches(true, vm.globals, CONFIGURED, OnResponse) by {
      assert CONFIGURED[4] == Transform;
    }
    base, sent := PlainReply(req, c, calls, id, envs(n + 4).uuid);
  }
}
