/**
 Hot reload: the select loop of src/watcher.rs and the multi-file read of `PluginSources::load`,
 interleaved with file changes, event delivery and the admin endpoint's reload.
 */
module HotReload {
  import opened Wrappers

  // ---- PluginSources::load ----

  /** The files `read_to_string` can read, by plugin name. */
  type Files = map<string, string>

  datatype Sources = Sources(pipeline: seq<string>, sources: map<string, string>)

  /** The table after reading the given names in order into `m`; unreadable names leave it alone. */
  function LoadInto(files: Files, names: seq<string>, m: map<string, string>): (r: map<string, string>)
    decreases |names|
  {
    if |names| == 0 then m
    else LoadInto(files, names[1..], ReadInto(files, names[0], m))
  }

  function ReadInto(files: Files, name: string, m: map<string, string>): (r: map<string, string>) {
    if name in files then m[name := files[name]] else m
  }

  function Load(pipeline: seq<string>, files: Files): (s: Sources) {
    Sources(pipeline, LoadInto(files, pipeline, map[]))
  }

  method LoadSources(pipeline: seq<string>, files: Files) returns (s: Sources)
    ensures s == Load(pipeline, files)
  {
    var sources: map<string, string> := map[];
    var i := 0;
    while i < |pipeline|
      invariant 0 <= i <= |pipeline|
      invariant LoadInto(files, pipeline[i..], sources) == LoadInto(files, pipeline, map[])
    {
      assert pipeline[i..][1..] == pipeline[i + 1..];
      if pipeline[i] in files {
        sources := sources[pipeline[i] := files[pipeline[i]]];
      }
      i := i + 1;
    }
    s := Sources(pipeline, sources);
  }

  /** A load holds exactly the readable files of the pipeline. */
  lemma {:induction false} LoadIntoIs(files: Files, names: seq<string>, m: map<string, string>)
    ensures forall n :: n in LoadInto(files, names, m) <==> n in m || (n in names && n in files)
    ensures forall n :: n in LoadInto(files, names, m) ==>
              LoadInto(files, names, m)[n] == if n in names && n in files then files[n] else m[n]
    decreases |names|
  {
    if |names| > 0 {
      LoadIntoIs(files, names[1..], ReadInto(files, names[0], m));
      assert forall n :: n in names <==> n == names[0] || n in names[1..];
    }
  }

  // ---- The select loop ----

  datatype Kind = Create | Modify | Remove | Other

  datatype Event = Event(kind: Kind, paths: seq<string>)

  /** The part of `s` after the last `c`, None if there is no `c` or nothing stands before it. */
  function AfterLast(s: string, c: char): (r: Option<string>) {
    if |s| == 0 then None
    else if s[|s| - 1] == c then (if |s| > 1 then Some("") else None)
    else
      match AfterLast(s[..|s| - 1], c)
      case None => None
      case Some(t) => Some(t + [s[|s| - 1]])
  }

  function FileName(path: string): (r: string) {
    if |path| == 0 || path[|path| - 1] == '/' then "" else FileName(path[..|path| - 1]) + [path[|path| - 1]]
  }

  /** `p.extension().map(|e| e == "lua").unwrap_or(false)`. */
  predicate IsLua(path: string) {
    AfterLast(FileName(path), '.') == Some("lua")
  }

  /** The name ends in `.lua` and has something before it. */
  predicate IsLuaPath(path: string) {
    |path| >= 5 && path[|path| - 4..] == ".lua" && path[|path| - 5] != '/'
  }

  /** Appending the four characters `.lua` to a name. */
  lemma LuaAppended(n: string)
    ensures AfterLast(n + ".lua", '.') == if n == "" then None else Some("lua")
  {
    hide AfterLast;
    var s := n + ".lua";
    var s3, s2, s1 := n + ".lu", n + ".l", n + ".";
    assert s[..|s| - 1] == s3 && s3[..|s3| - 1] == s2 && s2[..|s2| - 1] == s1;
    assert s[|s| - 1] == 'a' && s3[|s3| - 1] == 'u' && s2[|s2| - 1] == 'l' && s1[|s1| - 1] == '.';
    AfterLastStep(s, '.');
    AfterLastStep(s3, '.');
    AfterLastStep(s2, '.');
    AfterLastStep(s1, '.');
    assert "" + ['l'] == "l" && "l" + ['u'] == "lu" && "lu" + ['a'] == "lua";
  }

  lemma AfterLastStep(s: string, c: char)
    requires |s| > 0
    ensures AfterLast(s, c) == if s[|s| - 1] == c then (if |s| > 1 then Some("") else None)
                               else match AfterLast(s[..|s| - 1], c) case None => None case Some(u) => Some(u + [s[|s| - 1]])
  {
  }

  /** What stands after the last dot, with the dot, ends the name, and something stands before it. */
  lemma {:induction false} AfterLastEnds(s: string, c: char)
    ensures AfterLast(s, c).Some? ==>
              var u := AfterLast(s, c).value; |s| >= |u| + 2 && s == s[..|s| - |u| - 1] + [c] + u
    decreases |s|
  {
    if |s| > 0 && s[|s| - 1] != c {
      var t := s[..|s| - 1];
      AfterLastEnds(t, c);
      if AfterLast(t, c).Some? {
        var u := AfterLast(t, c).value;
        assert s == t + [s[|s| - 1]];
        assert t[..|t| - |u| - 1] == s[..|s| - |u + [s[|s| - 1]]| - 1];
      }
    }
  }

  lemma FileNameStep(t: string, c: char)
    ensures FileName(t + [c]) == if c == '/' then "" else FileName(t) + [c]
  {
    assert (t + [c])[..|t|] == t;
  }

  /** A path is a directory, empty or ending in a slash, and the file name. */
  lemma {:induction false} DirectoryOf(path: string) returns (d: string)
    ensures path == d + FileName(path) && '/' !in FileName(path) && (d == "" || d[|d| - 1] == '/')
    decreases |path|
  {
    if |path| == 0 {
      d := "";
    } else {
      hide FileName;
      var t, c := path[..|path| - 1], path[|path| - 1];
      assert path == t + [c];
      FileNameStep(t, c);
      if c == '/' {
        d := path;
        assert d + "" == path;
      } else {
        d := DirectoryOf(t);
        assert (d + FileName(t)) + [c] == d + (FileName(t) + [c]);
      }
    }
  }

  lemma NameExactly(f: string)
    ensures AfterLast(f, '.') == Some("lua") <==> |f| >= 5 && f[|f| - 4..] == ".lua"
  {
    hide AfterLast;
    AfterLastEnds(f, '.');
    if AfterLast(f, '.') == Some("lua") {
      assert |"lua"| == 3 && ['.'] + "lua" == ".lua";
      var n := f[..|f| - 4];
      assert f == n + ".lua";
    } else if |f| >= 5 && f[|f| - 4..] == ".lua" {
      assert f == f[..|f| - 4] + ".lua";
      LuaAppended(f[..|f| - 4]);
    }
  }

  /** A directory, empty or ending in a slash, does not change whether the rest ends in `.lua`. */
  lemma EndsInName(d: string, f: string)
    requires '/' !in f && (d == "" || d[|d| - 1] == '/')
    ensures IsLuaPath(d + f) <==> |f| >= 5 && f[|f| - 4..] == ".lua"
  {
    var path := d + f;
    if |f| >= 5 {
      assert path[|path| - 4..] == f[|f| - 4..] && path[|path| - 5] == f[|f| - 5];
    } else if |path| >= 5 {
      var i := |d| - 1;
      assert path[i] == '/';
      if i > |path| - 5 { assert path[|path| - 4..][i - (|path| - 4)] == '/'; }
    }
  }

  /** The listened-for paths, exactly. */
  lemma LuaExactly(path: string)
    ensures IsLua(path) <==> IsLuaPath(path)
  {
    hide AfterLast, FileName, IsLuaPath;
    var d := DirectoryOf(path);
    NameExactly(FileName(path));
    EndsInName(d, FileName(path));
  }

  /** The events that set `pending`. */
  predicate Relevant(e: Event) {
    !e.kind.Other? && exists i :: 0 <= i < |e.paths| && IsLua(e.paths[i])
  }

  /** Between two turns of the loop, or in the middle of a load: names read so far, and their text. */
  datatype Phase = Waiting | Loading(next: nat, got: map<string, string>)

  datatype Loop = Loop(pending: bool, phase: Phase, stored: Sources)

  function OnEvent(l: Loop, e: Event): (r: Loop) {
    l.(pending := l.pending || Relevant(e))
  }

  /** Only creations, modifications and removals of paths that end in `.lua` set the flag. */
  lemma EventSetsPending(l: Loop, e: Event)
    ensures OnEvent(l, e).pending <==> l.pending || (e.kind != Other && exists i :: 0 <= i < |e.paths| && IsLuaPath(e.paths[i]))
    ensures OnEvent(l, e) == l.(pending := OnEvent(l, e).pending)
  {
    hide IsLua, IsLuaPath;
    forall i | 0 <= i < |e.paths|
      ensures IsLua(e.paths[i]) <==> IsLuaPath(e.paths[i])
    {
      LuaExactly(e.paths[i]);
    }
  }

  function OnTick(l: Loop): (r: Loop) {
    if l.pending then l.(pending := false, phase := Loading(0, map[])) else l
  }

  function OnRead(l: Loop, pipeline: seq<string>, files: Files): (r: Loop)
    requires l.phase.Loading? && l.phase.next < |pipeline|
  {
    l.(phase := Loading(l.phase.next + 1, ReadInto(files, pipeline[l.phase.next], l.phase.got)))
  }

  function OnFinish(l: Loop, pipeline: seq<string>): (r: Loop)
    requires l.phase.Loading?
  {
    l.(phase := Waiting, stored := Sources(pipeline, l.phase.got))
  }

  /** The watcher task and the sources it shares with the engines. */
  class Watcher {
    const pipeline: seq<string>
    var pending: bool
    var phase: Phase
    var stored: Sources

    constructor (pipeline: seq<string>, first: Sources)
      ensures this.pipeline == pipeline && View() == Loop(false, Waiting, first)
    {
      this.pipeline := pipeline;
      pending := false;
      phase := Waiting;
      stored := first;
    }

    ghost function View(): (l: Loop)
      reads this
    {
      Loop(pending, phase, stored)
    }

    method Receive(e: Event)
      modifies this
      ensures View() == OnEvent(old(View()), e)
      ensures pending <==> old(pending) || (e.kind != Other && exists i :: 0 <= i < |e.paths| && IsLuaPath(e.paths[i]))
    {
      EventSetsPending(View(), e);
      match e.kind
      case Other =>
      case _ =>
        var lua := false;
        var i := 0;
        while i < |e.paths|
          invariant 0 <= i <= |e.paths|
          invariant lua <==> exists j :: 0 <= j < i && IsLua(e.paths[j])
        {
          if IsLua(e.paths[i]) { lua := true; }
          i := i + 1;
        }
        if lua { pending := true; }
    }

    method Tick()
      modifies this
      ensures View() == OnTick(old(View()))
    {
      if pending {
        pending := false;
        phase := Loading(0, map[]);
      }
    }

    /** One iteration of the loop in `PluginSources::load`. */
    method ReadNext(files: Files)
      requires phase.Loading? && phase.next < |pipeline|
      modifies this
      ensures View() == OnRead(old(View()), pipeline, files)
    {
      var name := pipeline[phase.next];
      var got := phase.got;
      if name in files {
        got := got[name := files[name]];
      }
      phase := Loading(phase.next + 1, got);
    }

    /** `*srcs.write().unwrap() = new`. */
    method Finish()
      requires phase.Loading?
      modifies this
      ensures View() == OnFinish(old(View()), pipeline)
    {
      stored := Sources(pipeline, phase.got);
      phase := Waiting;
    }
  }

  // ---- The whole system ----

  const CHANNEL_CAPACITY := 32

  /**
   The files, the events the watcher thread has yet to send, the bounded channel, the loop, and two
   counts: .lua events received, and loads begun by the loop.
   */
  datatype World = World(files: Files, transit: seq<Event>, channel: seq<Event>, loop: Loop, heard: nat, loads: nat)

  datatype Step =
    | Change(name: string, content: Option<string>, kind: Kind)   // a file is written or removed
    | Noise(event: Event)                                         // any other event of the directory
    | Deliver(index: nat)                                         // blocking_send of one event
    | Receive
    | Tick
    | ReadNext
    | Finish
    | AdminReload

  predicate Enabled(pipeline: seq<string>, w: World, step: Step) {
    match step
    case Change(_, _, kind) => !kind.Other?
    case Noise(_) => true
    case Deliver(i) => i < |w.transit| && |w.channel| < CHANNEL_CAPACITY
    case Receive => w.loop.phase.Waiting? && |w.channel| > 0
    case Tick => w.loop.phase.Waiting?
    case ReadNext => w.loop.phase.Loading? && w.loop.phase.next < |pipeline|
    case Finish => w.loop.phase.Loading? && w.loop.phase.next == |pipeline|
    case AdminReload => true
  }

  function Write(files: Files, name: string, content: Option<string>): (r: Files) {
    match content
    case None => files - {name}
    case Some(text) => files[name := text]
  }

  function Apply(pipeline: seq<string>, w: World, step: Step): (r: World)
    requires Enabled(pipeline, w, step)
  {
    match step
    case Change(name, content, kind) =>
      w.(files := Write(w.files, name, content), transit := w.transit + [Event(kind, [name])])
    case Noise(e) => w.(transit := w.transit + [e])
    case Deliver(i) =>
      w.(transit := w.transit[..i] + w.transit[i + 1..], channel := w.channel + [w.transit[i]])
    case Receive =>
      w.(channel := w.channel[1..], loop := OnEvent(w.loop, w.channel[0]),
      heard := w.heard + if Relevant(w.channel[0]) then 1 else 0)
    case Tick => w.(loop := OnTick(w.loop), loads := w.loads + if w.loop.pending then 1 else 0)
    case ReadNext => w.(loop := OnRead(w.loop, pipeline, w.files))
    case Finish => w.(loop := OnFinish(w.loop, pipeline))
    case AdminReload => w.(loop := w.loop.(stored := Load(pipeline, w.files)))
  }

  ghost predicate Runs(pipeline: seq<string>, w: World, steps: seq<Step>)
    decreases |steps|
  {
    |steps| == 0 || (Enabled(pipeline, w, steps[0]) && Runs(pipeline, Apply(pipeline, w, steps[0]), steps[1..]))
  }

  function After(pipeline: seq<string>, w: World, steps: seq<Step>): (r: World)
    requires Runs(pipeline, w, steps)
    decreases |steps|
  {
    if |steps| == 0 then w else After(pipeline, Apply(pipeline, w, steps[0]), steps[1..])
  }

  /** The watch is active, nothing has happened yet, and the stored sources match the files. */
  function Start(pipeline: seq<string>, files: Files): (w: World) {
    World(files, [], [], Loop(false, Waiting, Load(pipeline, files)), 0, 0)
  }

  /** No event, pending flag or load is outstanding. */
  predicate Idle(w: World) {
    w.transit == [] && w.channel == [] && !w.loop.pending && w.loop.phase.Waiting?
  }

  // ---- The invariant ----

  ghost predicate Announced(es: seq<Event>) {
    exists i :: 0 <= i < |es| && Relevant(es[i])
  }

  /** A reload is still to come: a relevant event is under way or already noted. */
  ghost predicate Due(w: World) {
    w.loop.pending || Announced(w.transit) || Announced(w.channel)
  }

  predicate SameFile(m: map<string, string>, files: Files, name: string) {
    (name in m <==> name in files) && (name in m ==> m[name] == files[name])
  }

  /** Whatever is stored or has been read either still agrees with the files or a reload is due. */
  ghost predicate Tracked(w: World, m: map<string, string>, names: seq<string>) {
    && (forall n :: n in m ==> n in names)
    && (forall n :: n in names && !SameFile(m, w.files, n) ==> Due(w))
  }

  ghost predicate Consistent(pipeline: seq<string>, w: World) {
    && w.loads + (if w.loop.pending then 1 else 0) <= w.heard
    && match w.loop.phase
       case Waiting => w.loop.stored.pipeline == pipeline && Tracked(w, w.loop.stored.sources, pipeline)
       case Loading(next, got) => next <= |pipeline| && Tracked(w, got, pipeline[..next])
  }

  ghost predicate AllLua(pipeline: seq<string>) {
    forall n :: n in pipeline ==> IsLuaPath(n)
  }

  lemma AnnouncedAppend(es: seq<Event>, e: Event)
    ensures Announced(es + [e]) <==> Announced(es) || Relevant(e)
  {
    if Announced(es) {
      var i :| 0 <= i < |es| && Relevant(es[i]);
      assert (es + [e])[i] == es[i];
    }
    assert (es + [e])[|es|] == e;
  }

  lemma AnnouncedWithout(es: seq<Event>, i: nat)
    requires i < |es| && Announced(es)
    ensures Announced(es[..i] + es[i + 1..]) || Relevant(es[i])
  {
    var j :| 0 <= j < |es| && Relevant(es[j]);
    var rest := es[..i] + es[i + 1..];
    if j < i { assert rest[j] == es[j]; }
    if j > i { assert rest[j - 1] == es[j]; }
  }

  lemma LoadTracks(pipeline: seq<string>, w: World)
    ensures Tracked(w, Load(pipeline, w.files).sources, pipeline)
  {
    LoadIntoIs(w.files, pipeline, map[]);
  }

  lemma ReadTracks(pipeline: seq<string>, w: World, next: nat, got: map<string, string>)
    requires next < |pipeline| && Tracked(w, got, pipeline[..next])
    ensures Tracked(w, ReadInto(w.files, pipeline[next], got), pipeline[..next + 1])
  {
    var name := pipeline[next];
    var m := ReadInto(w.files, name, got);
    assert forall n :: n in pipeline[..next + 1] <==> n in pipeline[..next] || n == name;
    forall n | n in pipeline[..next + 1] && !SameFile(m, w.files, n)
      ensures Due(w)
    {
      assert n in pipeline[..next] && !SameFile(got, w.files, n);
    }
  }

  lemma DueKept(pipeline: seq<string>, w: World, step: Step)
    requires Enabled(pipeline, w, step) && !step.Tick? && Due(w)
    ensures Due(Apply(pipeline, w, step))
  {
    match step
    case Change(name, _, kind) => AnnouncedAppend(w.transit, Event(kind, [name]));
    case Noise(e) => AnnouncedAppend(w.transit, e);
    case Deliver(i) =>
      AnnouncedAppend(w.channel, w.transit[i]);
      if Announced(w.transit) { AnnouncedWithout(w.transit, i); }
    case Receive =>
      if Announced(w.channel) {
        AnnouncedWithout(w.channel, 0);
        assert w.channel[..0] + w.channel[1..] == w.channel[1..];
      }
    case _ =>
  }

  /** A step that leaves a table alone keeps it tracked; a file change announces itself. */
  lemma TrackedKept(pipeline: seq<string>, w: World, step: Step, m: map<string, string>, names: seq<string>)
    requires AllLua(pipeline) && Enabled(pipeline, w, step) && !step.Tick?
    requires Tracked(w, m, names) && forall n :: n in names ==> n in pipeline
    ensures Tracked(Apply(pipeline, w, step), m, names)
  {
    var w' := Apply(pipeline, w, step);
    forall n | n in names && !SameFile(m, w'.files, n)
      ensures Due(w')
    {
      if SameFile(m, w.files, n) {
        assert step.Change? && step.name == n;
        LuaExactly(n);
        var e := Event(step.kind, [n]);
        assert IsLua(e.paths[0]);
        AnnouncedAppend(w.transit, e);
      } else {
        DueKept(pipeline, w, step);
      }
    }
  }

  lemma ConsistentStep(pipeline: seq<string>, w: World, step: Step)
    requires AllLua(pipeline) && Consistent(pipeline, w) && Enabled(pipeline, w, step)
    ensures Consistent(pipeline, Apply(pipeline, w, step))
  {
    hide Due, IsLuaPath, IsLua, SameFile, Relevant, LoadInto;
    var w' := Apply(pipeline, w, step);
    match w.loop.phase
    case Waiting =>
      if step.AdminReload? {
        LoadTracks(pipeline, w');
      } else if !step.Tick? {
        TrackedKept(pipeline, w, step, w.loop.stored.sources, pipeline);
      }
    case Loading(next, got) =>
      TrackedKept(pipeline, w, step, got, pipeline[..next]);
      if step.ReadNext? {
        ReadTracks(pipeline, w', next, got);
      } else if step.Finish? {
        assert pipeline[..next] == pipeline;
      }
  }

  lemma {:induction false} AlwaysConsistent(pipeline: seq<string>, w: World, steps: seq<Step>)
    requires AllLua(pipeline) && Consistent(pipeline, w) && Runs(pipeline, w, steps)
    ensures Consistent(pipeline, After(pipeline, w, steps))
    decreases |steps|
  {
    hide Consistent, Apply;
    if |steps| > 0 {
      ConsistentStep(pipeline, w, steps[0]);
      AlwaysConsistent(pipeline, Apply(pipeline, w, steps[0]), steps[1..]);
    }
  }

  lemma StoredIsLoad(pipeline: seq<string>, w: World)
    requires Consistent(pipeline, w) && Idle(w)
    ensures w.loop.stored == Load(pipeline, w.files)
  {
    var m := w.loop.stored.sources;
    LoadIntoIs(w.files, pipeline, map[]);
    assert forall n :: n in pipeline ==> SameFile(m, w.files, n);
    assert m == map n | n in pipeline && n in w.files :: w.files[n];
  }

  /**
   After every interleaving, if nothing is outstanding the stored sources are a load of the current
   files; and the loop never begins more loads than it received .lua events.
   */
  lemma Converges(pipeline: seq<string>, files: Files, steps: seq<Step>)
    requires AllLua(pipeline) && Runs(pipeline, Start(pipeline, files), steps)
    ensures var w := After(pipeline, Start(pipeline, files), steps);
            && (Idle(w) ==> w.loop.stored == Load(pipeline, w.files))
            && w.loads <= w.heard
  {
    var w0 := Start(pipeline, files);
    LoadTracks(pipeline, w0);
    AlwaysConsistent(pipeline, w0, steps);
    var w := After(pipeline, w0, steps);
    if Idle(w) { StoredIsLoad(pipeline, w); }
  }

  // ---- Exactly when it converges ----

  ghost predicate AlwaysConverges(pipeline: seq<string>) {
    forall files: Files, steps: seq<Step> :: Runs(pipeline, Start(pipeline, files), steps) ==>
      var w := After(pipeline, Start(pipeline, files), steps);
      Idle(w) ==> w.loop.stored == Load(pipeline, w.files)
  }

  lemma MissedChange(pipeline: seq<string>, name: string) returns (steps: seq<Step>)
    requires name in pipeline && !IsLuaPath(name)
    ensures Runs(pipeline, Start(pipeline, map[]), steps)
    ensures var w := After(pipeline, Start(pipeline, map[]), steps);
            Idle(w) && w.loop.stored != Load(pipeline, w.files)
  {
    LuaExactly(name);
    var write := Change(name, Some("x"), Create);
    steps := [write, Deliver(0), Receive];
    var w0 := Start(pipeline, map[]);
    var w1 := Apply(pipeline, w0, write);
    var e := Event(Create, [name]);
    assert w1.transit == [e] && !Relevant(e);
    var w2 := Apply(pipeline, w1, Deliver(0));
    assert w2.transit == [] && w2.channel == [e];
    var w3 := Apply(pipeline, w2, Receive);
    assert w3.channel == [];
    assert steps[1..] == [Deliver(0), Receive] && steps[1..][1..] == [Receive] && steps[1..][1..][1..] == [];
    LastStep(pipeline, w2);
    assert Runs(pipeline, w1, [Deliver(0), Receive]) && After(pipeline, w1, [Deliver(0), Receive]) == w3;
    LoadIntoIs(map[], pipeline, map[]);
    LoadIntoIs(w3.files, pipeline, map[]);
    assert name !in w3.loop.stored.sources && name in Load(pipeline, w3.files).sources;
  }

  lemma LastStep(pipeline: seq<string>, w: World)
    requires Enabled(pipeline, w, Receive)
    ensures Runs(pipeline, w, [Receive]) && After(pipeline, w, [Receive]) == Apply(pipeline, w, Receive)
  {
    assert [Receive][1..] == [];
  }

  /** Every run converges exactly when every pipeline name ends in `.lua` with a name before it. */
  lemma ConvergesIff(pipeline: seq<string>)
    ensures AlwaysConverges(pipeline) <==> AllLua(pipeline)
  {
    if AllLua(pipeline) {
      forall files: Files, steps: seq<Step> | Runs(pipeline, Start(pipeline, files), steps)
        ensures var w := After(pipeline, Start(pipeline, files), steps);
                Idle(w) ==> w.loop.stored == Load(pipeline, w.files)
      {
        Converges(pipeline, files, steps);
      }
    } else {
      var name :| name in pipeline && !IsLuaPath(name);
      var steps := MissedChange(pipeline, name);
    }
  }
}
