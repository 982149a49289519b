/**
 When sharing the hook globals shows: a hook left by a plugin that is no longer in the pipeline (as
 after a reload) keeps running in the slots of the others.  The refinement of module Shipped holds of
 every request if and only if no such hook is around.
 */
module StaleHooks {
  import opened Wrappers
  import opened Context
  import opened Engine
  import opened Plugins
  import opened Shipped
  import opened Admission

  /** The request ends as it would if every slot only called its own hooks. */
  ghost predicate EndsPlainly(envs: Readings, srcs: Sources, names: seq<string>, vm: ShippedVm,
      req: Request) {
    var h := Handle(Programme(envs, true), srcs, names, req, vm);
    Plainly(h.reply, h.upstream, h.run.ctx, h.run.vm.world.calls) == Plain(envs, Slots(srcs, names), req, vm.world.calls)
  }

  // ---- A request that every pipeline lets through ----

  const HEALTH := "/health"

  lemma HealthIsOpen(ctx: Ctx)
    requires ctx.path == HEALTH
    ensures IsPublic(HEALTH) && AuthzOnRequest(ctx) == Done(ctx)
  {
    hide FindRule;
    assert Matches(PUBLIC_PATHS[0], HEALTH);
    FoundRuleMatches(RULES, HEALTH);
    assert RULES[5] in RULES && Matches(RULES[5].pattern, HEALTH);
    HealthRule(FindRule(RULES, HEALTH).value);
  }

  lemma HealthRule(r: Rule)
    requires r in RULES && Matches(r.pattern, HEALTH)
    ensures r.roles == None
  {
    assert HEALTH[1] == 'h' && |HEALTH| == 7;
    assert RULES[0].pattern.text[1] == 'a' && RULES[1].pattern.text[1] == 'r';
    var i :| 0 <= i < |RULES| && RULES[i] == r;
    if i < 2 { assert HEALTH[1] == r.pattern.text[1]; }
  }

  predicate Passing(c: Ctx) {
    c.path == HEALTH && c.rejected == None && UPSTREAM_VAR !in c.vars
  }

  lemma HookPasses(p: Plugin, env: GoodEnv, ctx: Ctx)
    requires Passing(ctx)
    ensures Passing(FirstCall(p, env, ctx).ctx)
  {
    hide IsPublic, AuthzOnRequest, RateLimitOnRequest, TransformOnRequest, SentHeaders;
    HealthIsOpen(ctx);
    RateLimitAdmits(env, ctx);
    TransformOutcome(env, ctx);
  }

  lemma {:induction false} HealthPasses(envs: Readings, ps: seq<Plugin>, ctx: Ctx, n: nat)
    requires Passing(ctx)
    ensures Passing(Chain(envs, ps, ctx, n).0)
    decreases |ps|
  {
    hide FirstCall;
    if |ps| > 0 {
      HookPasses(ps[0], envs(n), ctx);
      HealthPasses(envs, ps[1..], FirstCall(ps[0], envs(n), ctx).ctx, n + 1);
    }
  }

  function Probe(): (req: Request) {
    Request(HEALTH, map[], "", (name: string, ip: string) => Some(""),
            (url: string, headers: Strings) => Some(Response(200, map[], "")))
  }

  /** On the probe a route leaves the upstream variable behind, and on_response leaves headers. */
  lemma ProbeTells(route: bool, respond: bool, c: Ctx, calls: nat)
    requires Passing(c)
    ensures var r := PlainlyOn(route, respond, Probe(), c, calls);
            (UPSTREAM_VAR in r.ctx.vars <==> route) && ("server" in r.ctx.resHeaders <==> respond)
  {
    hide RouteOf, TrimSlashes;
  }

  lemma StaleHookShows(envs: Readings, srcs: Sources, names: seq<string>, vm: ShippedVm)
    requires OnTransform !in vm.globals && Tame(srcs) && !NoStaleHook(vm.globals, Slots(srcs, names))
    ensures !EndsPlainly(envs, srcs, names, vm, Probe())
  {
    hide Handle, Chain, PlainlyOn, Slots, Programme, Passing;
    var ps := Slots(srcs, names);
    HandleExactly(envs, true, srcs, names, Probe(), vm);
    ProbePasses();
    HealthPasses(envs, ps, NewContext(Probe()), vm.world.calls);
    var c := Chain(envs, ps, NewContext(Probe()), vm.world.calls);
    PassingUnrejected(c.0);
    ProbeTells(Reaches(true, vm.globals, ps, OnRoute), Reaches(true, vm.globals, ps, OnResponse), c.0, c.1);
    ProbeTells(false, false, c.0, c.1);
  }

  lemma ProbePasses()
    ensures Passing(NewContext(Probe()))
  {
  }

  lemma PassingUnrejected(c: Ctx)
    requires Passing(c)
    ensures c.rejected == None
  {
  }

  /** The refinement holds of every request exactly when no stale hook is around. */
  lemma RefinesIffNoStaleHook(envs: Readings, srcs: Sources, names: seq<string>, vm: ShippedVm)
    requires OnTransform !in vm.globals && Tame(srcs)
    ensures (forall req: Request :: EndsPlainly(envs, srcs, names, vm, req)) <==> NoStaleHook(vm.globals, Slots(srcs, names))
  {
    hide Handle, Plain, Slots, Programme;
    if NoStaleHook(vm.globals, Slots(srcs, names)) {
      forall req: Request
        ensures EndsPlainly(envs, srcs, names, vm, req)
      {
        SharedRefinesOwn(envs, srcs, names, req, vm, vm);
      }
    } else {
      StaleHookShows(envs, srcs, names, vm);
    }
  }
}
