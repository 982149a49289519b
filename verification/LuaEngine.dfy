/**
 The engine object: one VM whose hook globals each load overwrites, the four loops over the pipeline
 that src/lua/engine.rs runs on it, and the request handler of src/handler.rs that calls them in turn.
 Each method leaves exactly the state that module Engine describes for the shipped plugins.
 */
module LuaEngine {
  import opened Wrappers
  import opened Context
  import opened Engine
  import opened Plugins
  import opened Hooks
  import RateLimiter
  import Shipped

  type Plugin = Shipped.Plugin

  class Vm {
    const envs: Shipped.Readings
    var globals: map<Hook, Plugin>
    var calls: nat
    var limiter: RateLimiter.Limiter   // the table of the last executed rate-limit chunk
    var pipeline: seq<string>
    var sources: Shipped.Sources
    ghost var log: seq<Event>

    constructor (envs: Shipped.Readings, pipeline: seq<string>, sources: Shipped.Sources)
      ensures this.envs == envs && this.pipeline == pipeline && this.sources == sources
      ensures Valid() && fresh(Parts()) && Globals() == Engine.Vm(map[], Shipped.World(0, map[])) && log == []
    {
      this.envs := envs;
      this.pipeline := pipeline;
      this.sources := sources;
      globals, calls, log := map[], 0, [];
      limiter := new RateLimiter.Limiter(LIMIT);
    }

    /** The limiter and its buckets. */
    ghost function Parts(): (parts: set<object>)
      reads this, limiter
    {
      {limiter} + limiter.buckets.Values
    }

    ghost predicate Valid()
      reads this, limiter
    {
      limiter.Valid() && limiter.cfg == LIMIT
    }

    ghost function Globals(): (vm: Shipped.ShippedVm)
      reads this, Parts()
    {
      Engine.Vm(globals, Shipped.World(calls, limiter.Contents()))
    }

    ghost function State(ctx: RequestCtx): (r: Shipped.ShippedRun)
      reads this, Parts(), ctx
    {
      Run(ctx.View(), Globals(), log)
    }

    lemma StateHolds(ctx: RequestCtx)
      ensures State(ctx).ctx == ctx.View()
    {
    }

    ghost function Prog(): (prog: Program<Shipped.Source, Plugin, Shipped.World>) {
      Shipped.Programme(envs, true)
    }

    /**
     Executing a chunk: the global functions it gets to define replace those of the same name, the
     others stay; a rate-limit hook comes with a new table.
     */
    method LoadPlugin(src: Shipped.Source) returns (ok: bool)
      requires Valid()
      modifies this`globals, this`limiter
      ensures Valid() && fresh(Parts() - old(Parts()))
      ensures Shipped.ExecOf(true, src, old(Globals())) == Loaded(Globals(), ok)
    {
      hide Shipped.Defines;
      var defined := Shipped.DefinedBy(src);
      globals := globals + defined;
      if OnRequest in defined && defined[OnRequest] == Shipped.RateLimit {
        limiter := new RateLimiter.Limiter(LIMIT);
      }
      ok := src.Chunk?;
    }

    method CallOnRequest(p: Plugin, ctx: RequestCtx) returns (ok: bool)
      requires Valid()
      modifies this`calls, Parts(), ctx
      ensures Valid() && fresh(Parts() - old(Parts())) && limiter == old(limiter) && calls == old(calls) + 1
      ensures var (o, after) := Shipped.OnRequestOf(p, envs(old(calls)), old(limiter.Contents()), old(ctx.View()));
              Left(o, ctx, ok) && limiter.Contents() == after
    {
      hide RateLimitOnRequest, AuthOnRequest, AuthzOnRequest, TransformOnRequest;
      var env := envs(calls);
      calls := calls + 1;
      match p
      case IpFilter => ok := true;
      case RateLimit => ok := RateLimitHook(env, limiter, ctx);
      case Auth => ok := AuthHook(env, ctx);
      case Authz => ok := AuthzHook(ctx);
      case Transform => ok := TransformHook(env, ctx);
    }

    /** A call of the function in global `hook`; what it returns is None when it failed. */
    method Call(hook: Hook, ctx: RequestCtx) returns (returned: Option<string>)
      requires Valid() && hook in globals
      modifies this`calls, this`log, Parts(), ctx
      ensures Valid() && fresh(Parts() - old(Parts()))
      ensures var s := CallHook(Prog(), hook, old(State(ctx)));
              s.called && State(ctx) == s.run && returned == s.returned
    {
      hide Shipped.OnRequestOf, Shipped.ExecOf, TransformOnResponse;
      log := log + [Ran(hook, ctx.View())];
      returned := None;
      match hook
      case OnRequest => var _ := CallOnRequest(globals[OnRequest], ctx);
      case OnRoute =>
        var upstream := RouteHook(ctx);
        returned := Some(upstream);
      case OnTransform =>
      case OnResponse => ResponseHook(ctx);
    }

    /** One slot of a loop: load the source if there is one, then call the hook if the VM has it. */
    method Slot(name: string, hook: Hook, ctx: RequestCtx) returns (called: bool, returned: Option<string>)
      requires Valid()
      modifies this`globals, this`calls, this`limiter, this`log, Parts(), ctx
      ensures Valid() && fresh(Parts() - old(Parts()))
      ensures RunSlot(Prog(), sources, name, hook, old(State(ctx))) == Engine.Slot(State(ctx), called, returned)
    {
      hide CallHook, Shipped.ExecOf, Shipped.CallOf;
      called, returned := false, None;
      if name !in sources { return; }
      var ok := LoadPlugin(sources[name]);
      if !ok { return; }
      if hook !in globals {
        NotCalled(Prog(), hook, State(ctx));
        return;
      }
      called := true;
      returned := Call(hook, ctx);
    }

    method RunOnRequest(ctx: RequestCtx)
      requires Valid()
      modifies this`globals, this`calls, this`limiter, this`log, Parts(), ctx
      ensures Valid() && fresh(Parts() - old(Parts()))
      ensures State(ctx) == RunRequest(Prog(), sources, pipeline, old(State(ctx)))
    {
      hide RunSlot, State, Globals, Prog, Valid;
      for i := 0 to |pipeline|
        invariant Valid() && fresh(Parts() - old(Parts()))
        invariant RunRequest(Prog(), sources, pipeline[i..], State(ctx)) == RunRequest(Prog(), sources, pipeline, old(State(ctx)))
      {
        assert pipeline[i..][1..] == pipeline[i + 1..] && pipeline[i..][0] == pipeline[i];
        var called, _ := Slot(pipeline[i], OnRequest, ctx);
        StateHolds(ctx);
        if called && ctx.rejected.Some? { return; }
      }
    }

    method RunOnRoute(ctx: RequestCtx) returns (upstream: Option<string>)
      requires Valid()
      modifies this`globals, this`calls, this`limiter, this`log, Parts(), ctx
      ensures Valid() && fresh(Parts() - old(Parts()))
      ensures (State(ctx), upstream) == RunRoute(Prog(), sources, pipeline, old(State(ctx)))
    {
      hide RunSlot, State, Globals, Prog, Valid;
      for i := 0 to |pipeline|
        invariant Valid() && fresh(Parts() - old(Parts()))
        invariant RunRoute(Prog(), sources, pipeline[i..], State(ctx)) == RunRoute(Prog(), sources, pipeline, old(State(ctx)))
      {
        assert pipeline[i..][1..] == pipeline[i + 1..] && pipeline[i..][0] == pipeline[i];
        var called, returned := Slot(pipeline[i], OnRoute, ctx);
        if returned.Some? { return returned; }
      }
      StateHolds(ctx);
      upstream := Get(ctx.vars, UPSTREAM_VAR);
    }

    /** `run_on_transform` and `run_on_response`, which differ in the hook's name only. */
    method RunOnEach(hook: Hook, ctx: RequestCtx)
      requires Valid()
      modifies this`globals, this`calls, this`limiter, this`log, Parts(), ctx
      ensures Valid() && fresh(Parts() - old(Parts()))
      ensures State(ctx) == RunEach(Prog(), sources, pipeline, hook, old(State(ctx)))
    {
      hide RunSlot, State, Globals, Prog, Valid;
      for i := 0 to |pipeline|
        invariant Valid() && fresh(Parts() - old(Parts()))
        invariant RunEach(Prog(), sources, pipeline[i..], hook, State(ctx)) == RunEach(Prog(), sources, pipeline, hook, old(State(ctx)))
      {
        assert pipeline[i..][1..] == pipeline[i + 1..];
        var _, _ := Slot(pipeline[i], hook, ctx);
      }
    }

    /** The upstream's answer becomes the context's response, and the on_response hooks run. */
    method Respond(up: Response, ctx: RequestCtx) returns (reply: Reply)
      requires Valid()
      modifies this`globals, this`calls, this`limiter, this`log, Parts(), ctx
      ensures Valid() && fresh(Parts() - old(Parts()))
      ensures forall upstream ::
                Engine.Handled(reply, Some(upstream), State(ctx)) == Engine.Respond(Prog(), sources, pipeline, upstream, up, old(State(ctx)))
    {
      hide RunEach;
      ctx.SetResponse(up.status, up.headers, up.body);
      RunOnEach(OnResponse, ctx);
      var body := if ctx.resBody == "" then up.body else ctx.resBody;
      reply := Answered(Response(ctx.resStatus, ctx.resHeaders, body));
    }

    /** The routing and transform phases. */
    method Route(ctx: RequestCtx) returns (upstream: string)
      requires Valid()
      modifies this`globals, this`calls, this`limiter, this`log, Parts(), ctx
      ensures Valid() && fresh(Parts() - old(Parts()))
      ensures var (routed, found) := RunRoute(Prog(), sources, pipeline, old(State(ctx)));
              upstream == found.GetOr("default") && State(ctx) == RunEach(Prog(), sources, pipeline, OnTransform, routed)
    {
      hide RunRoute, RunEach, State, Globals, Prog, Valid;
      var found := RunOnRoute(ctx);
      upstream := found.GetOr("default");
      RunOnEach(OnTransform, ctx);
    }

    method Forward(req: Request, url: string, ctx: RequestCtx) returns (up: Option<Response>)
      requires Valid()
      modifies this`log
      ensures Valid() && Parts() == old(Parts())
      ensures var headers := ForwardHeaders(req, old(State(ctx)).ctx.headers);
              && up == req.forward(url, headers)
              && State(ctx) == old(State(ctx)).(log := old(State(ctx)).log + [Forwarded(url, headers)])
    {
      var headers := ForwardHeaders(req, ctx.headers);
      log := log + [Forwarded(url, headers)];
      up := req.forward(url, headers);
    }

    /** From routing on. */
    method Proceed(req: Request, ctx: RequestCtx) returns (reply: Reply, upstream: string)
      requires Valid()
      modifies this`globals, this`calls, this`limiter, this`log, Parts(), ctx
      ensures Valid() && fresh(Parts() - old(Parts()))
      ensures Engine.Handled(reply, Some(upstream), State(ctx)) == Engine.Proceed(Prog(), sources, pipeline, req, old(State(ctx)))
    {
      hide RunRoute, RunEach, TrimSlashes, ForwardHeaders, Engine.Respond, State, Globals, Prog, Valid;
      upstream := Route(ctx);
      var target := req.pick(upstream, ClientIp(req.headers, req.peer));
      if target == None { return Unavailable, upstream; }
      var up := Forward(req, TrimSlashes(target.value) + req.path, ctx);
      if up == None { return BadGateway, upstream; }
      reply := Respond(up.value, ctx);
    }

    /** A new context, and the log cleared for the request. */
    method Begin(req: Request) returns (ctx: RequestCtx)
      requires Valid()
      modifies this`log
      ensures Valid() && Parts() == old(Parts()) && fresh(ctx)
      ensures State(ctx) == Run(NewContext(req), old(Globals()), [])
    {
      ctx := new RequestCtx(req.path, req.headers, ClientIp(req.headers, req.peer));
      log := [];
    }

    /** `handle_request` on a new context. */
    method HandleRequest(req: Request) returns (reply: Reply, ctx: RequestCtx)
      requires Valid()
      modifies this`globals, this`calls, this`limiter, this`log, Parts()
      ensures Valid() && fresh(ctx) && fresh(Parts() - old(Parts()))
      ensures var h := Handle(Prog(), sources, pipeline, req, old(Globals()));
              reply == h.reply && State(ctx) == h.run
    {
      hide RunRequest, Engine.Proceed, NewContext, State, Globals, Prog, Valid;
      ctx := Begin(req);
      RunOnRequest(ctx);
      StateHolds(ctx);
      if ctx.rejected.Some? { return TurnedAway(ctx.rejected.value), ctx; }
      var upstream;
      reply, upstream := Proceed(req, ctx);
    }
  }

  lemma NotCalled(prog: Program<Shipped.Source, Plugin, Shipped.World>, hook: Hook, r: Shipped.ShippedRun)
    requires hook !in r.vm.globals
    ensures CallHook(prog, hook, r) == Engine.Slot(r, false, None)
  {
  }
}
