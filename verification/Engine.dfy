/**
 The hook pipeline of src/lua/engine.rs on one persistent Lua VM, and the phase order of
 src/handler.rs, for any plugins: what a chunk does to the VM's globals and what a hook does to the
 context are parameters, errors included.
 */
module Engine {
  import opened Wrappers
  import opened Context

  datatype Hook = OnRequest | OnRoute | OnTransform | OnResponse

  /** What the VM keeps between loads, phases and requests: the hook globals and everything else. */
  datatype Vm<!D, W> = Vm(globals: map<Hook, D>, world: W)

  datatype Loaded<!D, W> = Loaded(vm: Vm<D, W>, ok: bool)

  datatype Called<!D, W> = Called(ctx: Ctx, vm: Vm<D, W>, returned: Option<string>, ok: bool)

  /** Executing a chunk, and calling the function it left in a hook global; both may fail part way. */
  datatype Program<!S, !D, !W> = Program(
    exec: (S, Vm<D, W>) -> Loaded<D, W>,
    call: (Hook, D, Ctx, Vm<D, W>) -> Called<D, W>)

  datatype Event = Ran(hook: Hook, before: Ctx) | Forwarded(url: string, headers: Strings)

  datatype Run<!D, W> = Run(ctx: Ctx, vm: Vm<D, W>, log: seq<Event>)

  // ---- One slot of the pipeline ----

  /** `called` when the VM had the hook; `returned` is None also when the call failed. */
  datatype Slot<!D, W> = Slot(run: Run<D, W>, called: bool, returned: Option<string>)

  function CallHook<S, D, W>(prog: Program<S, D, W>, hook: Hook, r: Run<D, W>): (s: Slot<D, W>) {
    if hook !in r.vm.globals then Slot(r, false, None)
    else
      var c := prog.call(hook, r.vm.globals[hook], r.ctx, r.vm);
      Slot(Run(c.ctx, c.vm, r.log + [Ran(hook, r.ctx)]), true, if c.ok then c.returned else None)
  }

  /** No source: skipped.  A chunk that fails keeps what it did to the VM, and no hook is called. */
  function RunSlot<S, D, W>(prog: Program<S, D, W>, srcs: map<string, S>, name: string, hook: Hook,
      r: Run<D, W>): (s: Slot<D, W>) {
    if name !in srcs then Slot(r, false, None)
    else
      var loaded := prog.exec(srcs[name], r.vm);
      if loaded.ok then CallHook(prog, hook, r.(vm := loaded.vm)) else Slot(r.(vm := loaded.vm), false, None)
  }

  // ---- The four loops ----

  function RunRequest<S, D, W>(prog: Program<S, D, W>, srcs: map<string, S>, names: seq<string>,
      r: Run<D, W>): (q: Run<D, W>)
    decreases |names|
  {
    if |names| == 0 then r
    else
      var s := RunSlot(prog, srcs, names[0], OnRequest, r);
      if s.called && s.run.ctx.rejected.Some? then s.run else RunRequest(prog, srcs, names[1..], s.run)
  }

  /** The first upstream a hook returns, else the variable `__upstream__`. */
  function RunRoute<S, D, W>(prog: Program<S, D, W>, srcs: map<string, S>, names: seq<string>,
      r: Run<D, W>): (q: (Run<D, W>, Option<string>))
    decreases |names|
  {
    if |names| == 0 then (r, Get(r.ctx.vars, UPSTREAM_VAR))
    else
      var s := RunSlot(prog, srcs, names[0], OnRoute, r);
      if s.returned.Some? then (s.run, s.returned) else RunRoute(prog, srcs, names[1..], s.run)
  }

  /** `run_on_transform` and `run_on_response`. */
  function RunEach<S, D, W>(prog: Program<S, D, W>, srcs: map<string, S>, names: seq<string>, hook: Hook,
      r: Run<D, W>): (q: Run<D, W>)
    decreases |names|
  {
    if |names| == 0 then r
    else RunEach(prog, srcs, names[1..], hook, RunSlot(prog, srcs, names[0], hook, r).run)
  }

  // ---- One request ----

  datatype Response = Response(status: int, headers: Strings, body: string)

  /** The request, and how the pool and the upstream answer while it is handled. */
  datatype Request = Request(
    path: string, headers: Strings, peer: string,
    pick: (string, string) -> Option<string>, forward: (string, Strings) -> Option<Response>)

  /** `Unavailable` is the 503 of an empty upstream, `BadGateway` the 502 of a failed forward. */
  datatype Reply = TurnedAway(rejection: Rejection) | Unavailable | BadGateway | Answered(response: Response)

  /** The reply, the upstream asked of the pool if that phase was reached, and the final state. */
  datatype Handled<!D, W> = Handled(reply: Reply, upstream: Option<string>, run: Run<D, W>)

  function ClientIp(headers: Strings, peer: string): (ip: string) {
    Get(headers, "x-real-ip").GetOr(Get(headers, "x-forwarded-for").GetOr(peer))
  }

  function TrimSlashes(url: string): (r: string)
    decreases |url|
  {
    if |url| > 0 && url[|url| - 1] == '/' then TrimSlashes(url[..|url| - 1]) else url
  }

  function NewContext(req: Request): (c: Ctx) {
    NewCtx(req.path, req.headers, ClientIp(req.headers, req.peer))
  }

  function ForwardHeaders(req: Request, headers: Strings): (h: Strings) {
    headers["x-forwarded-for" := ClientIp(req.headers, req.peer)]["x-proxy" := "rust-lua-proxy/0.1"]
  }

  /** An empty context body means the upstream's bytes are sent as they came. */
  function FinalResponse(ctx: Ctx, upstream: Response): (r: Response) {
    Response(ctx.resStatus, ctx.resHeaders, if ctx.resBody == "" then upstream.body else ctx.resBody)
  }

  function Respond<S, D, W>(prog: Program<S, D, W>, srcs: map<string, S>, names: seq<string>, upstream: string,
      up: Response, r: Run<D, W>): (h: Handled<D, W>) {
    var filled := r.(ctx := r.ctx.(resStatus := up.status, resHeaders := up.headers, resBody := up.body));
    var q := RunEach(prog, srcs, names, OnResponse, filled);
    Handled(Answered(FinalResponse(q.ctx, up)), Some(upstream), q)
  }

  /** From the routing phase on; a rejection made this late no longer changes the reply. */
  function Proceed<S, D, W>(prog: Program<S, D, W>, srcs: map<string, S>, names: seq<string>, req: Request,
      r: Run<D, W>): (h: Handled<D, W>) {
    var (routed, found) := RunRoute(prog, srcs, names, r);
    var upstream := found.GetOr("default");
    var t := RunEach(prog, srcs, names, OnTransform, routed);
    match req.pick(upstream, ClientIp(req.headers, req.peer))
    case None => Handled(Unavailable, Some(upstream), t)
    case Some(target) =>
      var url := TrimSlashes(target) + req.path;
      var sent := t.(log := t.log + [Forwarded(url, ForwardHeaders(req, t.ctx.headers))]);
      match req.forward(url, ForwardHeaders(req, t.ctx.headers))
      case None => Handled(BadGateway, Some(upstream), sent)
      case Some(up) => Respond(prog, srcs, names, upstream, up, sent)
  }

  function Handle<S, D, W>(prog: Program<S, D, W>, srcs: map<string, S>, names: seq<string>, req: Request,
      vm: Vm<D, W>): (h: Handled<D, W>) {
    var r := RunRequest(prog, srcs, names, Run(NewContext(req), vm, []));
    match r.ctx.rejected
    case Some(rejection) => Handled(TurnedAway(rejection), None, r)
    case None => Proceed(prog, srcs, names, req, r)
  }

  /** The requests one VM serves in turn. */
  function Serve<S, D, W>(prog: Program<S, D, W>, srcs: map<string, S>, names: seq<string>, reqs: seq<Request>,
      vm: Vm<D, W>): (replies: seq<Reply>)
    ensures |replies| == |reqs|
    decreases |reqs|
  {
    if |reqs| == 0 then []
    else
      var h := Handle(prog, srcs, names, reqs[0], vm);
      [h.reply] + Serve(prog, srcs, names, reqs[1..], h.run.vm)
  }

  // ---- Composition ----

  /**
   Running `p + q` is running `p` and then, unless `p` rejected, `q`: whatever sources are missing,
   loads fail or hooks raise.
   */
  lemma {:induction false} RunRequestComposes<S, D, W>(prog: Program<S, D, W>, srcs: map<string, S>,
      p: seq<string>, q: seq<string>, r: Run<D, W>)
    requires r.ctx.rejected == None
    ensures RunRequest(prog, srcs, p + q, r)
            == var m := RunRequest(prog, srcs, p, r);
               if m.ctx.rejected.Some? then m else RunRequest(prog, srcs, q, m)
    decreases |p|
  {
    if |p| == 0 {
      assert p + q == q;
    } else {
      var s := RunSlot(prog, srcs, p[0], OnRequest, r);
      assert (p + q)[0] == p[0] && (p + q)[1..] == p[1..] + q;
      if !(s.called && s.run.ctx.rejected.Some?) {
        RunRequestComposes(prog, srcs, p[1..], q, s.run);
      }
    }
  }

  /** The other loops never stop early on a rejection. */
  lemma {:induction false} RunEachComposes<S, D, W>(prog: Program<S, D, W>, srcs: map<string, S>,
      p: seq<string>, q: seq<string>, hook: Hook, r: Run<D, W>)
    ensures RunEach(prog, srcs, p + q, hook, r) == RunEach(prog, srcs, q, hook, RunEach(prog, srcs, p, hook, r))
    decreases |p|
  {
    if |p| == 0 {
      assert p + q == q;
    } else {
      assert (p + q)[0] == p[0] && (p + q)[1..] == p[1..] + q;
      RunEachComposes(prog, srcs, p[1..], q, hook, RunSlot(prog, srcs, p[0], hook, r).run);
    }
  }

  /**
   The routing loop stops right after the first slot that returns an upstream; without one it is the
   loop through all slots, and the stored variable is the upstream.
   */
  lemma {:induction false} RouteStopsAtFirst<S, D, W>(prog: Program<S, D, W>, srcs: map<string, S>,
      names: seq<string>, r: Run<D, W>) returns (i: nat)
    ensures i <= |names|
    ensures forall j :: 0 <= j < i ==>
              RunSlot(prog, srcs, names[j], OnRoute, RunEach(prog, srcs, names[..j], OnRoute, r)).returned == None
    ensures var m := RunEach(prog, srcs, names[..i], OnRoute, r);
            if i == |names| then RunRoute(prog, srcs, names, r) == (m, Get(m.ctx.vars, UPSTREAM_VAR))
            else
              var s := RunSlot(prog, srcs, names[i], OnRoute, m);
              s.returned.Some? && RunRoute(prog, srcs, names, r) == (s.run, s.returned)
    decreases |names|
  {
    hide RunSlot;
    if |names| == 0 {
      i := 0;
    } else {
      var s := RunSlot(prog, srcs, names[0], OnRoute, r);
      if s.returned.Some? {
        i := 0;
      } else {
        var k := RouteStopsAtFirst(prog, srcs, names[1..], s.run);
        i := k + 1;
        forall j | 0 <= j <= k
          ensures RunEach(prog, srcs, names[..j + 1], OnRoute, r) == RunEach(prog, srcs, names[1..][..j], OnRoute, s.run)
        {
          assert names[..j + 1][1..] == names[1..][..j] && names[..j + 1][0] == names[0];
        }
        forall j | 0 <= j < i
          ensures RunSlot(prog, srcs, names[j], OnRoute, RunEach(prog, srcs, names[..j], OnRoute, r)).returned == None
        {
          if j > 0 { assert names[1..][j - 1] == names[j]; }
        }
      }
    }
  }

  // ---- Cut-off ----

  function Phase(e: Event): (k: nat) {
    match e
    case Ran(OnRequest, _) => 0
    case Ran(OnRoute, _) => 1
    case Ran(OnTransform, _) => 2
    case Forwarded(_, _) => 3
    case Ran(OnResponse, _) => 4
  }

  /** `log` goes on from `was` with events of phase `k` only. */
  ghost predicate Adds(was: seq<Event>, log: seq<Event>, k: nat) {
    && was <= log
    && forall i :: |was| <= i < |log| ==> Phase(log[i]) == k
  }

  lemma {:induction false} RequestEvents<S, D, W>(prog: Program<S, D, W>, srcs: map<string, S>,
      names: seq<string>, r: Run<D, W>)
    requires r.ctx.rejected == None
    ensures var q := RunRequest(prog, srcs, names, r);
            && Adds(r.log, q.log, 0)
            && forall i :: |r.log| <= i < |q.log| ==> q.log[i].before.rejected == None
    decreases |names|
  {
    if |names| > 0 {
      var s := RunSlot(prog, srcs, names[0], OnRequest, r);
      if !(s.called && s.run.ctx.rejected.Some?) {
        RequestEvents(prog, srcs, names[1..], s.run);
      }
    }
  }

  lemma {:induction false} RouteEvents<S, D, W>(prog: Program<S, D, W>, srcs: map<string, S>,
      names: seq<string>, r: Run<D, W>)
    ensures Adds(r.log, RunRoute(prog, srcs, names, r).0.log, 1)
    decreases |names|
  {
    if |names| > 0 {
      var s := RunSlot(prog, srcs, names[0], OnRoute, r);
      if s.returned == None { RouteEvents(prog, srcs, names[1..], s.run); }
    }
  }

  lemma {:induction false} EachEvents<S, D, W>(prog: Program<S, D, W>, srcs: map<string, S>,
      names: seq<string>, hook: Hook, r: Run<D, W>)
    ensures Adds(r.log, RunEach(prog, srcs, names, hook, r).log, Phase(Ran(hook, r.ctx)))
    decreases |names|
  {
    if |names| > 0 {
      EachEvents(prog, srcs, names[1..], hook, RunSlot(prog, srcs, names[0], hook, r).run);
    }
  }

  ghost predicate PhasesInOrder(log: seq<Event>) {
    forall i, j :: 0 <= i < j < |log| ==> Phase(log[i]) <= Phase(log[j])
  }

  lemma ProceedEvents<S, D, W>(prog: Program<S, D, W>, srcs: map<string, S>, names: seq<string>, req: Request,
      r: Run<D, W>)
    requires forall i :: 0 <= i < |r.log| ==> Phase(r.log[i]) == 0
    ensures var h := Proceed(prog, srcs, names, req, r);
            && r.log <= h.run.log && PhasesInOrder(h.run.log)
            && (forall i :: |r.log| <= i < |h.run.log| ==> Phase(h.run.log[i]) > 0)
            && (h.reply.Answered? || h.reply.BadGateway? <==> exists i :: 0 <= i < |h.run.log| && h.run.log[i].Forwarded?)
  {
    hide RunRoute, RunEach;
    RouteEvents(prog, srcs, names, r);
    var (routed, upstream) := RunRoute(prog, srcs, names, r);
    EachEvents(prog, srcs, names, OnTransform, routed);
    var t := RunEach(prog, srcs, names, OnTransform, routed);
    var target := req.pick(upstream.GetOr("default"), ClientIp(req.headers, req.peer));
    if target.Some? {
      var url := TrimSlashes(target.value) + req.path;
      var sent := t.(log := t.log + [Forwarded(url, ForwardHeaders(req, t.ctx.headers))]);
      assert sent.log[|t.log|].Forwarded?;
      var up := req.forward(url, ForwardHeaders(req, t.ctx.headers));
      if up.Some? {
        EachEvents(prog, srcs, names, OnResponse,
          sent.(ctx := sent.ctx.(resStatus := up.value.status, resHeaders := up.value.headers, resBody := up.value.body)));
      }
    }
  }

  /** What is sent upstream are the headers the context holds after the transform phase. */
  lemma ForwardedHeaders<S, D, W>(prog: Program<S, D, W>, srcs: map<string, S>, names: seq<string>,
      req: Request, r: Run<D, W>, e: Event)
    requires forall i :: 0 <= i < |r.log| ==> Phase(r.log[i]) == 0
    requires e.Forwarded? && e in Proceed(prog, srcs, names, req, r).run.log
    ensures e.headers == ForwardHeaders(req, RunEach(prog, srcs, names, OnTransform, RunRoute(prog, srcs, names, r).0).ctx.headers)
  {
    hide RunRoute, RunEach, TrimSlashes;
    RouteEvents(prog, srcs, names, r);
    var (routed, found) := RunRoute(prog, srcs, names, r);
    EachEvents(prog, srcs, names, OnTransform, routed);
    var t := RunEach(prog, srcs, names, OnTransform, routed);
    var log := Proceed(prog, srcs, names, req, r).run.log;
    var i :| 0 <= i < |log| && log[i] == e;
    var target := req.pick(found.GetOr("default"), ClientIp(req.headers, req.peer));
    if target.Some? {
      var url := TrimSlashes(target.value) + req.path;
      var sent := t.(log := t.log + [Forwarded(url, ForwardHeaders(req, t.ctx.headers))]);
      var up := req.forward(url, ForwardHeaders(req, t.ctx.headers));
      if up.Some? {
        EachEvents(prog, srcs, names, OnResponse,
          sent.(ctx := sent.ctx.(resStatus := up.value.status, resHeaders := up.value.headers, resBody := up.value.body)));
      }
    }
  }

  /**
   In every run: the phases come in order; no on_request hook sees a rejected context; and the
   routing, transform and forwarding phases are reached only when on_request left no rejection, else
   the reply is that rejection.
   */
  lemma RejectionCutsOff<S, D, W>(prog: Program<S, D, W>, srcs: map<string, S>, names: seq<string>,
      req: Request, vm: Vm<D, W>)
    ensures var m := RunRequest(prog, srcs, names, Run(NewContext(req), vm, []));
            var h := Handle(prog, srcs, names, req, vm);
            && PhasesInOrder(h.run.log)
            && (forall i :: 0 <= i < |h.run.log| && Phase(h.run.log[i]) == 0 ==> h.run.log[i].before.rejected == None)
            && (h.reply.TurnedAway? <==> m.ctx.rejected.Some?)
            && (h.reply.TurnedAway? ==> m.ctx.rejected == Some(h.reply.rejection))
            && (h.reply.TurnedAway? ==> forall i :: 0 <= i < |h.run.log| ==> Phase(h.run.log[i]) == 0)
            && (h.reply.Answered? || h.reply.BadGateway? <==> exists i :: 0 <= i < |h.run.log| && h.run.log[i].Forwarded?)
  {
    hide RunRequest, Proceed;
    var r := Run(NewContext(req), vm, []);
    RequestEvents(prog, srcs, names, r);
    var m := RunRequest(prog, srcs, names, r);
    if m.ctx.rejected == None {
      ProceedEvents(prog, srcs, names, req, m);
      ProceedRepliesOtherwise(prog, srcs, names, req, m);
    }
  }

  lemma ProceedRepliesOtherwise<S, D, W>(prog: Program<S, D, W>, srcs: map<string, S>, names: seq<string>,
      req: Request, r: Run<D, W>)
    ensures !Proceed(prog, srcs, names, req, r).reply.TurnedAway?
  {
    hide RunRoute, RunEach;
  }
}
