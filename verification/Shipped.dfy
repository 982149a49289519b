/**
 The engine with the five shipped plugins.  Hook globals survive from slot to slot, phase to phase
 and request to request, so a slot whose plugin lacks a hook calls the function another plugin left
 behind; yet every run equals one in which each slot can only call the hooks of its own plugin.
 */
module Shipped {
  import opened Wrappers
  import opened Context
  import opened Engine
  import opened Plugins
  import RateLimiter

  datatype Plugin = IpFilter | RateLimit | Auth | Authz | Transform

  type Hooks = map<Hook, Plugin>

  /** The on_request calls made so far, and the table of the last executed rate-limit chunk. */
  datatype World = World(calls: nat, buckets: RateLimiter.Table)

  type ShippedVm = Vm<Plugin, World>

  type ShippedRun = Run<Plugin, World>

  /** The text of a plugin, or one whose chunk fails, having defined `partial` before. */
  datatype Source = Chunk(p: Plugin) | Broken(partial: Hooks)

  type Sources = map<string, Source>

  /** What an on_request call reads; the MAC has 32 bytes. */
  type GoodEnv = e: Env | ValidEnv(e) ghost witness NoEnv()

  ghost function NoEnv(): (e: Env)
    ensures ValidEnv(e)
  {
    Env((msg: string, key: string) => seq(32, i => 0 as char), "", false, 0, 0, 0, 0, "", x => "")
  }

  /** One reading for each on_request call the VM makes. */
  type Readings = nat -> GoodEnv

  /** The global functions a plugin's chunk defines. */
  function Defines(p: Plugin): (d: Hooks) {
    if p == Transform then map[OnRequest := p, OnRoute := p, OnResponse := p] else map[OnRequest := p]
  }

  /** `on_request` of a plugin; the lists of ip_filter.lua are empty, so it changes nothing. */
  function OnRequestOf(p: Plugin, env: GoodEnv, buckets: RateLimiter.Table, ctx: Ctx): (r: (Outcome, RateLimiter.Table)) {
    match p
    case IpFilter => (Done(ctx), buckets)
    case RateLimit => RateLimitOnRequest(env, buckets, ctx)
    case Auth => (AuthOnRequest(env, ctx), buckets)
    case Authz => (AuthzOnRequest(ctx), buckets)
    case Transform => (TransformOnRequest(env, ctx), buckets)
  }

  /** Calling the function plugin `p` left in a global; the later hooks are all transform.lua's. */
  function CallOf(envs: Readings, hook: Hook, p: Plugin, ctx: Ctx, vm: ShippedVm): (c: Called<Plugin, World>) {
    match hook
    case OnRequest =>
      var (o, after) := OnRequestOf(p, envs(vm.world.calls), vm.world.buckets, ctx);
      Called(o.ctx, vm.(world := World(vm.world.calls + 1, after)), None, o.Done?)
    case OnRoute => Called(ctx.Upstream(RouteOf(ctx.path)), vm, Some(RouteOf(ctx.path)), true)
    case OnTransform => Called(ctx, vm, None, true)
    case OnResponse => Called(TransformOnResponse(ctx), vm, None, true)
  }

  function DefinedBy(src: Source): (d: Hooks) {
    match src case Chunk(p) => Defines(p) case Broken(partial) => partial
  }

  /** A chunk of rate_limit.lua that gets as far as its hook has made a new table for it. */
  function BucketsAfter(d: Hooks, buckets: RateLimiter.Table): (t: RateLimiter.Table) {
    if OnRequest in d && d[OnRequest] == RateLimit then map[] else buckets
  }

  /** Executing a chunk in the shared globals, or without the hooks of the other slots. */
  function ExecOf(shared: bool, src: Source, vm: ShippedVm): (l: Loaded<Plugin, World>) {
    var d := DefinedBy(src);
    Loaded(Vm((if shared then vm.globals else map[]) + d, vm.world.(buckets := BucketsAfter(d, vm.world.buckets))), src.Chunk?)
  }

  /** `shared`: the engine as it is.  Otherwise each load starts without the hooks of other slots. */
  function Programme(envs: Readings, shared: bool): (prog: Program<Source, Plugin, World>) {
    Program(
      (src: Source, vm: ShippedVm) => ExecOf(shared, src, vm),
      (hook: Hook, p: Plugin, ctx: Ctx, vm: ShippedVm) => CallOf(envs, hook, p, ctx, vm))
  }

  /** A source that fails does so before it has defined a later hook. */
  ghost predicate Tame(srcs: Sources) {
    forall n :: n in srcs && srcs[n].Broken? ==>
      OnRoute !in srcs[n].partial && OnTransform !in srcs[n].partial && OnResponse !in srcs[n].partial
  }

  // ---- What the pipeline comes to ----

  predicate Loads(srcs: Sources, name: string) {
    name in srcs && srcs[name].Chunk?
  }

  /** The plugins of the slots that have a source that loads. */
  function Slots(srcs: Sources, names: seq<string>): (ps: seq<Plugin>) {
    if |names| == 0 then []
    else (if Loads(srcs, names[0]) then [srcs[names[0]].p] else []) + Slots(srcs, names[1..])
  }

  /** `on_request` of a plugin whose chunk has just been executed. */
  function FirstCall(p: Plugin, env: GoodEnv, ctx: Ctx): (o: Outcome) {
    OnRequestOf(p, env, map[], ctx).0
  }

  /** The on_request hooks in turn up to the first rejection, and the count of calls. */
  function Chain(envs: Readings, ps: seq<Plugin>, ctx: Ctx, n: nat): (r: (Ctx, nat)) {
    if |ps| == 0 then (ctx, n)
    else
      var c := FirstCall(ps[0], envs(n), ctx).ctx;
      if c.rejected.Some? then (c, n + 1) else Chain(envs, ps[1..], c, n + 1)
  }

  datatype Plainly = Plainly(reply: Reply, upstream: Option<string>, ctx: Ctx, calls: nat)

  /** The phases after on_request, when transform.lua's on_route and on_response run or do not. */
  function PlainlyOn(route: bool, respond: bool, req: Request, c: Ctx, calls: nat): (r: Plainly) {
    var upstream := if route then RouteOf(c.path) else Get(c.vars, UPSTREAM_VAR).GetOr("default");
    var t := if route then c.Upstream(upstream) else c;
    match req.pick(upstream, ClientIp(req.headers, req.peer))
    case None => Plainly(Unavailable, Some(upstream), t, calls)
    case Some(target) =>
      match req.forward(TrimSlashes(target) + req.path, ForwardHeaders(req, t.headers))
      case None => Plainly(BadGateway, Some(upstream), t, calls)
      case Some(up) =>
        var q := if respond then TransformOnResponse(Filled(t, up)) else Filled(t, up);
        Plainly(Answered(FinalResponse(q, up)), Some(upstream), q, calls)
  }

  /** A request with no VM in sight: the on_request chain, then transform.lua's later hooks or none. */
  function PlainWith(envs: Readings, ps: seq<Plugin>, route: bool, respond: bool, req: Request, n: nat): (r: Plainly) {
    var (c, calls) := Chain(envs, ps, NewContext(req), n);
    match c.rejected
    case Some(rejection) => Plainly(TurnedAway(rejection), None, c, calls)
    case None => PlainlyOn(route, respond, req, c, calls)
  }

  /** Every slot with its own hooks: the later hooks run if transform.lua has a slot. */
  function Plain(envs: Readings, ps: seq<Plugin>, req: Request, n: nat): (r: Plainly) {
    PlainWith(envs, ps, Transform in ps, Transform in ps, req, n)
  }

  function PlainServe(envs: Readings, ps: seq<Plugin>, reqs: seq<Request>, n: nat): (replies: seq<Reply>)
    decreases |reqs|
  {
    if |reqs| == 0 then []
    else
      var r := Plain(envs, ps, reqs[0], n);
      [r.reply] + PlainServe(envs, ps, reqs[1..], r.calls)
  }

  // ---- The hook globals ----

  /** Some slot of `ps` will call the later hook, its own or one left in the shared globals. */
  predicate Reaches(shared: bool, globals: Hooks, ps: seq<Plugin>, hook: Hook) {
    Transform in ps || (shared && hook in globals && |ps| > 0)
  }

  /** The globals a pipeline `ps` makes of `globals`. */
  predicate Grows(shared: bool, globals: Hooks, after: Hooks, ps: seq<Plugin>) {
    && OnTransform !in after
    && (shared ==> && (OnRoute in globals ==> OnRoute in after)
                   && (OnRoute in after ==> OnRoute in globals || Transform in ps)
                   && (OnResponse in globals ==> OnResponse in after)
                   && (OnResponse in after ==> OnResponse in globals || Transform in ps))
  }

  lemma DefinesLater(p: Plugin)
    ensures OnRequest in Defines(p) && OnTransform !in Defines(p)
    ensures OnRoute in Defines(p) <==> p == Transform
    ensures OnResponse in Defines(p) <==> p == Transform
  {
  }

  lemma SlotGrows(envs: Readings, shared: bool, srcs: Sources, names: seq<string>, hook: Hook, r: ShippedRun)
    requires |names| > 0 && OnTransform !in r.vm.globals && Tame(srcs)
    ensures var s := RunSlot(Programme(envs, shared), srcs, names[0], hook, r);
            var loads := Loads(srcs, names[0]);
            && OnTransform !in s.run.vm.globals
            && (hook != OnRequest ==> s.run.vm.world.calls == r.vm.world.calls)
            && (loads ==> Slots(srcs, names)[0] == srcs[names[0]].p && Slots(srcs, names)[1..] == Slots(srcs, names[1..]))
            && (!loads ==> Slots(srcs, names) == Slots(srcs, names[1..]))
            && (shared || loads ==>
                  && (OnRoute in s.run.vm.globals <==>
                        (shared && OnRoute in r.vm.globals) || (loads && srcs[names[0]].p == Transform))
                  && (OnResponse in s.run.vm.globals <==>
                        (shared && OnResponse in r.vm.globals) || (loads && srcs[names[0]].p == Transform)))
  {
    hide OnRequestOf, TransformOnResponse, RouteOf, Defines, BucketsAfter;
    if Loads(srcs, names[0]) {
      DefinesLater(srcs[names[0]].p);
    } else {
      assert Slots(srcs, names) == Slots(srcs, names[1..]);
    }
  }

  /**
   What one slot does to the context: nothing, or the call of the one function the hook can be.  An
   on_request hook always runs on a chunk just executed.
   */
  lemma SlotCalls(envs: Readings, shared: bool, srcs: Sources, names: seq<string>, hook: Hook, r: ShippedRun)
    requires |names| > 0 && Loads(srcs, names[0])
    ensures var s := RunSlot(Programme(envs, shared), srcs, names[0], hook, r);
            var p := srcs[names[0]].p;
            && s.called == (hook in s.run.vm.globals)
            && (hook == OnRequest ==>
                  && s.called && s.run.ctx == FirstCall(p, envs(r.vm.world.calls), r.ctx).ctx
                  && s.run.vm.world.calls == r.vm.world.calls + 1)
            && (hook == OnRoute && s.called ==>
                  s.run.ctx == r.ctx.Upstream(RouteOf(r.ctx.path)) && s.returned == Some(RouteOf(r.ctx.path)))
            && (hook == OnResponse && s.called ==> s.run.ctx == TransformOnResponse(r.ctx))
            && (!s.called ==> s.run.ctx == r.ctx && s.run.log == r.log && s.returned == None)
  {
    hide RateLimitOnRequest, AuthOnRequest, AuthzOnRequest, TransformOnRequest, TransformOnResponse, RouteOf;
  }

  lemma NothingCalled(envs: Readings, shared: bool, srcs: Sources, names: seq<string>, hook: Hook, r: ShippedRun)
    requires |names| > 0 && !Loads(srcs, names[0])
    ensures var s := RunSlot(Programme(envs, shared), srcs, names[0], hook, r);
            && !s.called && s.returned == None
            && s.run.ctx == r.ctx && s.run.log == r.log && s.run.vm.world.calls == r.vm.world.calls
  {
    hide BucketsAfter;
  }

  // ---- Each phase in plain form ----

  lemma {:induction false} RequestIsChain(envs: Readings, shared: bool, srcs: Sources,
      names: seq<string>, r: ShippedRun)
    requires OnTransform !in r.vm.globals && Tame(srcs)
    ensures var q := RunRequest(Programme(envs, shared), srcs, names, r);
            && (q.ctx, q.vm.world.calls) == Chain(envs, Slots(srcs, names), r.ctx, r.vm.world.calls)
            && Grows(shared, r.vm.globals, q.vm.globals, Slots(srcs, names))
    decreases |names|
  {
    hide FirstCall, RunSlot, Programme;
    if |names| > 0 {
      SlotGrows(envs, shared, srcs, names, OnRequest, r);
      var s := RunSlot(Programme(envs, shared), srcs, names[0], OnRequest, r);
      if Loads(srcs, names[0]) {
        SlotCalls(envs, shared, srcs, names, OnRequest, r);
      } else {
        NothingCalled(envs, shared, srcs, names, OnRequest, r);
      }
      if !(s.called && s.run.ctx.rejected.Some?) {
        RequestIsChain(envs, shared, srcs, names[1..], s.run);
      }
    }
  }

  /** Whichever slot calls it, the one route there is is transform.lua's. */
  lemma {:induction false} RouteIsPlain(envs: Readings, shared: bool, srcs: Sources,
      names: seq<string>, r: ShippedRun)
    requires OnTransform !in r.vm.globals && Tame(srcs)
    ensures var (q, found) := RunRoute(Programme(envs, shared), srcs, names, r);
            && Grows(shared, r.vm.globals, q.vm.globals, Slots(srcs, names)) && q.vm.world.calls == r.vm.world.calls
            && (if Reaches(shared, r.vm.globals, Slots(srcs, names), OnRoute) then
                  q.ctx == r.ctx.Upstream(RouteOf(r.ctx.path)) && found == Some(RouteOf(r.ctx.path))
                else
                  q.ctx == r.ctx && found == Get(r.ctx.vars, UPSTREAM_VAR))
    decreases |names|
  {
    hide RouteOf, RunSlot, Programme;
    if |names| > 0 {
      SlotGrows(envs, shared, srcs, names, OnRoute, r);
      var s := RunSlot(Programme(envs, shared), srcs, names[0], OnRoute, r);
      if Loads(srcs, names[0]) {
        SlotCalls(envs, shared, srcs, names, OnRoute, r);
      } else {
        NothingCalled(envs, shared, srcs, names, OnRoute, r);
      }
      if s.returned == None {
        RouteIsPlain(envs, shared, srcs, names[1..], s.run);
      }
    }
  }

  lemma {:induction false} TransformPhaseIsEmpty(envs: Readings, shared: bool, srcs: Sources,
      names: seq<string>, r: ShippedRun)
    requires OnTransform !in r.vm.globals && Tame(srcs)
    ensures var q := RunEach(Programme(envs, shared), srcs, names, OnTransform, r);
            && q.ctx == r.ctx && q.log == r.log && q.vm.world.calls == r.vm.world.calls
            && Grows(shared, r.vm.globals, q.vm.globals, Slots(srcs, names))
    decreases |names|
  {
    hide RunSlot, Programme;
    if |names| > 0 {
      SlotGrows(envs, shared, srcs, names, OnTransform, r);
      if Loads(srcs, names[0]) {
        SlotCalls(envs, shared, srcs, names, OnTransform, r);
      } else {
        NothingCalled(envs, shared, srcs, names, OnTransform, r);
      }
      TransformPhaseIsEmpty(envs, shared, srcs, names[1..], RunSlot(Programme(envs, shared), srcs, names[0], OnTransform, r).run);
    }
  }

  /** `on_response` overwrites only its own headers: doing it again changes nothing. */
  lemma ResponseIdempotent(ctx: Ctx)
    ensures TransformOnResponse(TransformOnResponse(ctx)) == TransformOnResponse(ctx)
  {
    hide ResponseHeaders;
    var h := ResponseHeaders(ctx.headers, ctx.vars);
    assert (ctx.resHeaders + h) + h == ctx.resHeaders + h;
  }

  /** However many slots call it, `on_response` has the effect of one call. */
  lemma {:induction false} ResponseIsPlain(envs: Readings, shared: bool, srcs: Sources,
      names: seq<string>, r: ShippedRun)
    requires OnTransform !in r.vm.globals && Tame(srcs)
    ensures var q := RunEach(Programme(envs, shared), srcs, names, OnResponse, r);
            && Grows(shared, r.vm.globals, q.vm.globals, Slots(srcs, names)) && q.vm.world.calls == r.vm.world.calls
            && q.ctx == if Reaches(shared, r.vm.globals, Slots(srcs, names), OnResponse) then TransformOnResponse(r.ctx) else r.ctx
    decreases |names|
  {
    hide TransformOnResponse, RunSlot, Programme;
    if |names| > 0 {
      SlotGrows(envs, shared, srcs, names, OnResponse, r);
      if Loads(srcs, names[0]) {
        SlotCalls(envs, shared, srcs, names, OnResponse, r);
      } else {
        NothingCalled(envs, shared, srcs, names, OnResponse, r);
      }
      var s := RunSlot(Programme(envs, shared), srcs, names[0], OnResponse, r);
      ResponseIdempotent(r.ctx);
      ResponseIsPlain(envs, shared, srcs, names[1..], s.run);
    }
  }

  // ---- Whole requests ----

  lemma ReachesKept(shared: bool, globals: Hooks, after: Hooks, ps: seq<Plugin>)
    requires Grows(shared, globals, after, ps)
    ensures Reaches(shared, after, ps, OnRoute) == Reaches(shared, globals, ps, OnRoute)
    ensures Reaches(shared, after, ps, OnResponse) == Reaches(shared, globals, ps, OnResponse)
  {
  }

  lemma GrowsThrough(shared: bool, a: Hooks, b: Hooks, c: Hooks, ps: seq<Plugin>)
    requires Grows(shared, a, b, ps) && Grows(shared, b, c, ps)
    ensures OnTransform !in b && Grows(shared, a, c, ps)
  {
  }

  function Filled(c: Ctx, up: Response): (f: Ctx) {
    c.(resStatus := up.status, resHeaders := up.headers, resBody := up.body)
  }

  lemma RespondIsPlain(envs: Readings, shared: bool, srcs: Sources, names: seq<string>, upstream: string, up: Response, r: ShippedRun)
    requires OnTransform !in r.vm.globals && Tame(srcs)
    ensures var h := Respond(Programme(envs, shared), srcs, names, upstream, up, r);
            var ps := Slots(srcs, names);
            var q := if Reaches(shared, r.vm.globals, ps, OnResponse) then TransformOnResponse(Filled(r.ctx, up)) else Filled(r.ctx, up);
            && h.reply == Answered(FinalResponse(q, up)) && h.upstream == Some(upstream) && h.run.ctx == q
            && h.run.vm.world.calls == r.vm.world.calls && Grows(shared, r.vm.globals, h.run.vm.globals, ps)
  {
    hide RunEach, Programme, TransformOnResponse, Slots, Grows, Reaches, FinalResponse;
    ResponseIsPlain(envs, shared, srcs, names, r.(ctx := Filled(r.ctx, up)));
  }

  lemma ProceedIsPlain(envs: Readings, shared: bool, srcs: Sources, names: seq<string>,
      req: Request, r: ShippedRun)
    requires OnTransform !in r.vm.globals && Tame(srcs)
    ensures var h := Proceed(Programme(envs, shared), srcs, names, req, r);
            var ps := Slots(srcs, names);
            && Plainly(h.reply, h.upstream, h.run.ctx, h.run.vm.world.calls)
               == PlainlyOn(Reaches(shared, r.vm.globals, ps, OnRoute), Reaches(shared, r.vm.globals, ps, OnResponse),
                            req, r.ctx, r.vm.world.calls)
            && Grows(shared, r.vm.globals, h.run.vm.globals, ps)
  {
    hide RunRoute, RunEach, RouteOf, Programme, TrimSlashes, TransformOnResponse, Slots, Grows, Reaches, Respond,
      FinalResponse, ForwardHeaders;
    var prog, ps := Programme(envs, shared), Slots(srcs, names);
    RouteIsPlain(envs, shared, srcs, names, r);
    var (routed, found) := RunRoute(prog, srcs, names, r);
    ReachesKept(shared, r.vm.globals, routed.vm.globals, ps);
    NoTransformLater(shared, r.vm.globals, routed.vm.globals, ps);
    TransformPhaseIsEmpty(envs, shared, srcs, names, routed);
    var t := RunEach(prog, srcs, names, OnTransform, routed);
    GrowsThrough(shared, r.vm.globals, routed.vm.globals, t.vm.globals, ps);
    ReachesKept(shared, routed.vm.globals, t.vm.globals, ps);
    var target := req.pick(found.GetOr("default"), ClientIp(req.headers, req.peer));
    if target.Some? {
      var url := TrimSlashes(target.value) + req.path;
      var sent := t.(log := t.log + [Forwarded(url, ForwardHeaders(req, t.ctx.headers))]);
      var up := req.forward(url, ForwardHeaders(req, t.ctx.headers));
      if up.Some? {
        NoTransformLater(shared, routed.vm.globals, t.vm.globals, ps);
        RespondIsPlain(envs, shared, srcs, names, found.GetOr("default"), up.value, sent);
        GrowsThrough(shared, r.vm.globals, t.vm.globals,
          Respond(prog, srcs, names, found.GetOr("default"), up.value, sent).run.vm.globals, ps);
      }
    }
  }

  lemma NoTransformLater(shared: bool, globals: Hooks, after: Hooks, ps: seq<Plugin>)
    requires Grows(shared, globals, after, ps)
    ensures OnTransform !in after
  {
  }

  /**
   Every request, from every VM state: the plain form, in which transform.lua's later hooks run
   exactly when some slot reaches them.
   */
  lemma HandleExactly(envs: Readings, shared: bool, srcs: Sources, names: seq<string>,
      req: Request, vm: ShippedVm)
    requires OnTransform !in vm.globals && Tame(srcs)
    ensures var h := Handle(Programme(envs, shared), srcs, names, req, vm);
            var ps := Slots(srcs, names);
            && Plainly(h.reply, h.upstream, h.run.ctx, h.run.vm.world.calls)
               == PlainWith(envs, ps, Reaches(shared, vm.globals, ps, OnRoute), Reaches(shared, vm.globals, ps, OnResponse),
                            req, vm.world.calls)
            && Grows(shared, vm.globals, h.run.vm.globals, ps)
  {
    hide RunRequest, Proceed, Chain, PlainlyOn, Programme, Slots, Reaches;
    var r: ShippedRun := Run(NewContext(req), vm, []);
    RequestIsChain(envs, shared, srcs, names, r);
    var q := RunRequest(Programme(envs, shared), srcs, names, r);
    ReachesKept(shared, vm.globals, q.vm.globals, Slots(srcs, names));
    if q.ctx.rejected == None {
      ProceedIsPlain(envs, shared, srcs, names, req, q);
    }
  }

  // ---- The refinement ----

  /** No later hook is around that the pipeline would not define itself. */
  predicate NoStaleHook(globals: Hooks, ps: seq<Plugin>) {
    Transform in ps || |ps| == 0 || (OnRoute !in globals && OnResponse !in globals)
  }

  /** True of the empty VM, and kept by every request: the states earlier requests leave. */
  lemma NoStaleHookKept(envs: Readings, shared: bool, srcs: Sources, names: seq<string>,
      req: Request, vm: ShippedVm)
    requires OnTransform !in vm.globals && Tame(srcs) && NoStaleHook(vm.globals, Slots(srcs, names))
    ensures var after := Handle(Programme(envs, shared), srcs, names, req, vm).run.vm.globals;
            OnTransform !in after && (shared ==> NoStaleHook(after, Slots(srcs, names)))
  {
    hide Handle, PlainWith, Programme, Slots, Reaches;
    HandleExactly(envs, shared, srcs, names, req, vm);
  }

  /**
   From every VM state earlier requests can leave, a request handled over shared globals ends with
   the reply, rejection, upstream and context of one whose slots call only their own hooks.
   */
  lemma SharedRefinesOwn(envs: Readings, srcs: Sources, names: seq<string>, req: Request,
      vm: ShippedVm, own: ShippedVm)
    requires OnTransform !in vm.globals && Tame(srcs) && NoStaleHook(vm.globals, Slots(srcs, names))
    requires OnTransform !in own.globals && vm.world.calls == own.world.calls
    ensures var a := Handle(Programme(envs, true), srcs, names, req, vm);
            var b := Handle(Programme(envs, false), srcs, names, req, own);
            && Plainly(a.reply, a.upstream, a.run.ctx, a.run.vm.world.calls) == Plainly(b.reply, b.upstream, b.run.ctx, b.run.vm.world.calls)
            && Plainly(b.reply, b.upstream, b.run.ctx, b.run.vm.world.calls) == Plain(envs, Slots(srcs, names), req, vm.world.calls)
  {
    hide Handle, Chain, PlainlyOn, Programme, Slots;
    HandleExactly(envs, true, srcs, names, req, vm);
    HandleExactly(envs, false, srcs, names, req, own);
  }

  /** Over all the requests a new VM serves, the replies are those of the plain form. */
  lemma {:induction false} ServeIsPlain(envs: Readings, srcs: Sources, names: seq<string>,
      reqs: seq<Request>, vm: ShippedVm)
    requires OnTransform !in vm.globals && Tame(srcs) && NoStaleHook(vm.globals, Slots(srcs, names))
    ensures Serve(Programme(envs, true), srcs, names, reqs, vm) == PlainServe(envs, Slots(srcs, names), reqs, vm.world.calls)
    decreases |reqs|
  {
    hide Handle, Plain, NoStaleHook, Programme;
    if |reqs| > 0 {
      SharedRefinesOwn(envs, srcs, names, reqs[0], vm, vm);
      NoStaleHookKept(envs, true, srcs, names, reqs[0], vm);
      ServeIsPlain(envs, srcs, names, reqs[1..], Handle(Programme(envs, true), srcs, names, reqs[0], vm).run.vm);
    }
  }
}
