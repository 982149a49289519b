/**
 The upstream pool of src/upstream/pool.rs: `init` fills a shared map of balancers, health checks
 store liveness flags, and `next_url` picks.  On values first, then the objects.
 */
module Pool {
  import opened Wrappers
  import opened Balancer

  datatype UpstreamConfig = UpstreamConfig(name: string, targets: seq<string>, lb: string)

  // ---- Which entry serves a name ----

  /** The last entry of that name: a later `insert` replaces an earlier one. */
  function LastNamed(configs: seq<UpstreamConfig>, name: string): (r: Option<UpstreamConfig>) {
    if |configs| == 0 then None
    else
      var n := |configs| - 1;
      if configs[n].name == name then Some(configs[n]) else LastNamed(configs[..n], name)
  }

  /** Position `i` holds the last entry of that name. */
  ghost predicate IsLastNamed(configs: seq<UpstreamConfig>, name: string, i: nat) {
    i < |configs| && configs[i].name == name && forall j :: i < j < |configs| ==> configs[j].name != name
  }

  lemma StillLast(configs: seq<UpstreamConfig>, name: string, i: nat)
    requires |configs| > 0 && configs[|configs| - 1].name != name && IsLastNamed(configs[..|configs| - 1], name, i)
    ensures IsLastNamed(configs, name, i)
  {
    var n := |configs| - 1;
    assert forall j :: 0 <= j < n ==> configs[j] == configs[..n][j];
  }

  lemma AtTheEnd(configs: seq<UpstreamConfig>, name: string)
    requires |configs| > 0 && configs[|configs| - 1].name == name
    ensures IsLastNamed(configs, name, |configs| - 1)
  {
  }

  lemma {:induction false} LastNamedIsLast(configs: seq<UpstreamConfig>, name: string)
    ensures LastNamed(configs, name) == None <==> forall i :: 0 <= i < |configs| ==> configs[i].name != name
    ensures LastNamed(configs, name).Some? ==>
              exists i: nat :: IsLastNamed(configs, name, i) && LastNamed(configs, name).value == configs[i]
  {
    if |configs| > 0 {
      hide IsLastNamed;
      var n := |configs| - 1;
      LastNamedIsLast(configs[..n], name);
      if configs[n].name == name {
        assert IsLastNamed(configs, name, n) by { AtTheEnd(configs, name); }
      } else if LastNamed(configs, name).Some? {
        var i: nat :| IsLastNamed(configs[..n], name, i) && LastNamed(configs[..n], name).value == configs[..n][i];
        StillLast(configs, name, i);
      }
    }
  }

  /** The entry that serves requests for `name`. */
  function Serving(configs: seq<UpstreamConfig>, name: string): (r: Option<UpstreamConfig>) {
    if LastNamed(configs, name).Some? then LastNamed(configs, name) else LastNamed(configs, "default")
  }

  // ---- What a pick may be ----

  /** The pick of a balancer whose targets count no connections. */
  function PickOf(s: Strategy, flags: seq<bool>, number: nat): (r: Option<nat>) {
    if s == LeastConn then (if AliveOf(flags) == [] then None else Some(AliveOf(flags)[0])) else Select(flags, number)
  }

  /** Whatever the strategy, an alive target, or none if there is none; least_conn takes the first. */
  lemma PickIsAlive(s: Strategy, flags: seq<bool>, number: nat)
    ensures PickOf(s, flags, number) == None <==> forall t :: 0 <= t < |flags| ==> !flags[t]
    ensures PickOf(s, flags, number).Some? ==>
              PickOf(s, flags, number).value < |flags| && flags[PickOf(s, flags, number).value]
    ensures s == LeastConn && PickOf(s, flags, number).Some? ==>
              forall t :: 0 <= t < PickOf(s, flags, number).value ==> !flags[t]
  {
    AliveNone(flags);
    if s == LeastConn && AliveOf(flags) != [] {
      AliveSorted(flags);
      var first := AliveOf(flags)[0];
      forall t | 0 <= t < first
        ensures !flags[t]
      {
        if flags[t] { AliveComplete(flags, t); }
      }
    }
  }

  // ---- The pool on values ----

  datatype Entry = Entry(strategy: Strategy, urls: seq<string>, flags: seq<bool>, counter: nat)

  type Entries = map<string, Entry>

  function NewEntry(cfg: UpstreamConfig): (e: Entry) {
    Entry(StrategyOf(cfg.lb), cfg.targets, seq(|cfg.targets|, i => true), 0)
  }

  function Configured(configs: seq<UpstreamConfig>): (es: Entries) {
    if |configs| == 0 then map[]
    else
      var n := |configs| - 1;
      Configured(configs[..n])[configs[n].name := NewEntry(configs[n])]
  }

  /** `map.get(name).or_else(|| map.get("default"))`, as the key under which it finds something. */
  function Found(es: Entries, name: string): (n: Option<string>)
    ensures n.Some? ==> n.value in es
  {
    if name in es then Some(name) else if "default" in es then Some("default") else None
  }

  function NumberOf(e: Entry, hash: string -> nat, key: Option<string>): (n: nat) {
    if e.strategy == RoundRobin then e.counter else hash(key.GetOr("default"))
  }

  function UrlOf(urls: seq<string>, pick: Option<nat>): (url: Option<string>) {
    if pick.Some? && pick.value < |urls| then Some(urls[pick.value]) else None
  }

  function Answer(es: Entries, hash: string -> nat, name: string, key: Option<string>): (url: Option<string>) {
    match Found(es, name)
    case None => None
    case Some(n) => UrlOf(es[n].urls, PickOf(es[n].strategy, es[n].flags, NumberOf(es[n], hash, key)))
  }

  function Counted(e: Entry): (r: Entry) {
    if e.strategy == RoundRobin then e.(counter := NextCounter(e.flags, e.counter)) else e
  }

  function AfterPick(es: Entries, name: string): (r: Entries) {
    match Found(es, name) case None => es case Some(n) => es[n := Counted(es[n])]
  }

  predicate HasTarget(es: Entries, name: string, t: nat) {
    name in es && t < |es[name].flags|
  }

  /** A health check stores the flag of one target, if the pool has it. */
  function AfterStore(es: Entries, name: string, t: nat, alive: bool): (r: Entries) {
    if HasTarget(es, name, t) then es[name := es[name].(flags := es[name].flags[t := alive])] else es
  }

  // ---- Any sequence of picks and liveness stores ----

  datatype Op = Pick(name: string, key: Option<string>) | Store(name: string, target: nat, alive: bool)

  function AfterOp(es: Entries, op: Op): (r: Entries) {
    match op
    case Pick(name, _) => AfterPick(es, name)
    case Store(name, t, alive) => AfterStore(es, name, t, alive)
  }

  /** The pool before operation `i`. */
  function EntriesAt(configs: seq<UpstreamConfig>, ops: seq<Op>, i: nat): (es: Entries)
    requires i <= |ops|
  {
    if i == 0 then Configured(configs) else AfterOp(EntriesAt(configs, ops, i - 1), ops[i - 1])
  }

  /** What operation `i` answers: nothing for a store. */
  function AnswerAt(configs: seq<UpstreamConfig>, ops: seq<Op>, hash: string -> nat, i: nat): (url: Option<string>)
    requires i < |ops|
  {
    match ops[i]
    case Pick(name, key) => Answer(EntriesAt(configs, ops, i), hash, name, key)
    case Store(_, _, _) => None
  }

  /** An independent account: the flag last stored for a target before operation `i`, else alive. */
  function LastStored(ops: seq<Op>, i: nat, name: string, t: nat): (alive: bool)
    requires i <= |ops|
  {
    if i == 0 then true
    else
      match ops[i - 1]
      case Store(n, u, a) => if n == name && u == t then a else LastStored(ops, i - 1, name, t)
      case Pick(_, _) => LastStored(ops, i - 1, name, t)
  }

  function FlagsAt(cfg: UpstreamConfig, ops: seq<Op>, i: nat): (flags: seq<bool>)
    requires i <= |ops|
    ensures |flags| == |cfg.targets| && forall t :: 0 <= t < |flags| ==> flags[t] == LastStored(ops, i, cfg.name, t)
  {
    seq(|cfg.targets|, t requires 0 <= t < |cfg.targets| => LastStored(ops, i, cfg.name, t))
  }

  /** The picks before operation `i` that the entry `cfg` served while one of its targets was alive. */
  function Served(configs: seq<UpstreamConfig>, cfg: UpstreamConfig, ops: seq<Op>, i: nat): (n: nat)
    requires i <= |ops|
  {
    if i == 0 then 0
    else
      Served(configs, cfg, ops, i - 1)
      + if ops[i - 1].Pick? && Serving(configs, ops[i - 1].name) == Some(cfg) && AliveOf(FlagsAt(cfg, ops, i - 1)) != [] then 1 else 0
  }

  /** The entry of `cfg` before operation `i`, from the configuration and the history alone. */
  function EntryThen(configs: seq<UpstreamConfig>, cfg: UpstreamConfig, ops: seq<Op>, i: nat): (e: Entry)
    requires i <= |ops|
  {
    Entry(StrategyOf(cfg.lb), cfg.targets, FlagsAt(cfg, ops, i),
          if StrategyOf(cfg.lb) == RoundRobin then Served(configs, cfg, ops, i) % WORD else 0)
  }

  ghost predicate Tracks(configs: seq<UpstreamConfig>, es: Entries, ops: seq<Op>, i: nat)
    requires i <= |ops|
  {
    forall name :: (name in es <==> LastNamed(configs, name).Some?)
                   && (name in es ==> es[name] == EntryThen(configs, LastNamed(configs, name).value, ops, i))
  }

  lemma {:induction false} LastNamedName(configs: seq<UpstreamConfig>, name: string)
    ensures LastNamed(configs, name).Some? ==> LastNamed(configs, name).value.name == name
  {
    if |configs| > 0 { LastNamedName(configs[..|configs| - 1], name); }
  }

  lemma {:induction false} ConfiguredTracks(configs: seq<UpstreamConfig>, prefix: seq<UpstreamConfig>, ops: seq<Op>)
    ensures forall name :: (name in Configured(prefix) <==> LastNamed(prefix, name).Some?)
              && (name in Configured(prefix) ==>
                    Configured(prefix)[name] == EntryThen(configs, LastNamed(prefix, name).value, ops, 0))
  {
    if |prefix| > 0 {
      var n := |prefix| - 1;
      ConfiguredTracks(configs, prefix[..n], ops);
      assert NewEntry(prefix[n]).flags == FlagsAt(prefix[n], ops, 0);
    }
  }

  lemma FoundServes(configs: seq<UpstreamConfig>, es: Entries, ops: seq<Op>, i: nat, name: string)
    requires i <= |ops| && Tracks(configs, es, ops, i)
    ensures Found(es, name) == match Serving(configs, name) case None => None case Some(cfg) => Some(cfg.name)
    ensures Serving(configs, name).Some? ==>
              var cfg := Serving(configs, name).value;
              LastNamed(configs, cfg.name) == Some(cfg) && es[cfg.name] == EntryThen(configs, cfg, ops, i)
  {
    hide LastNamed, EntryThen;
    LastNamedName(configs, name);
    LastNamedName(configs, "default");
  }

  /** A step changes the entry it should and the history says the same. */
  lemma EntryStep(configs: seq<UpstreamConfig>, cfg: UpstreamConfig, ops: seq<Op>, i: nat)
    requires i < |ops|
    ensures var e := EntryThen(configs, cfg, ops, i);
            EntryThen(configs, cfg, ops, i + 1)
            == match ops[i]
               case Pick(name, _) => if Serving(configs, name) == Some(cfg) then Counted(e) else e
               case Store(name, t, alive) =>
                 if name == cfg.name && t < |e.flags| then e.(flags := e.flags[t := alive]) else e
  {
    hide AliveOf, Serving, StrategyOf;
    var before, after := FlagsAt(cfg, ops, i), FlagsAt(cfg, ops, i + 1);
    match ops[i]
    case Pick(name, _) => assert after == before;
    case Store(name, t, alive) =>
      assert after == if name == cfg.name && t < |before| then before[t := alive] else before;
  }

  lemma TracksStep(configs: seq<UpstreamConfig>, es: Entries, ops: seq<Op>, i: nat)
    requires i < |ops| && Tracks(configs, es, ops, i)
    ensures Tracks(configs, AfterOp(es, ops[i]), ops, i + 1)
  {
    hide EntryThen, LastNamed, Serving;
    FoundServes(configs, es, ops, i, ops[i].name);
    forall name | LastNamed(configs, name).Some?
      ensures LastNamed(configs, name).value.name == name
      ensures var cfg := LastNamed(configs, name).value; AfterOp(es, ops[i])[name] == EntryThen(configs, cfg, ops, i + 1)
    {
      LastNamedName(configs, name);
      EntryStep(configs, LastNamed(configs, name).value, ops, i);
    }
  }

  lemma {:induction false} AlwaysTracks(configs: seq<UpstreamConfig>, ops: seq<Op>, i: nat)
    requires i <= |ops|
    ensures Tracks(configs, EntriesAt(configs, ops, i), ops, i)
  {
    hide AfterOp, EntryThen;
    if i == 0 {
      ConfiguredTracks(configs, configs, ops);
    } else {
      AlwaysTracks(configs, ops, i - 1);
      TracksStep(configs, EntriesAt(configs, ops, i - 1), ops, i - 1);
    }
  }

  /**
   What an entry answers by its configured name: `consistent_hash` takes the hash of the key,
   `least_conn` the first alive target, and every other name the ticket, each among the alive targets.
   */
  function AnswerBy(cfg: UpstreamConfig, flags: seq<bool>, ticket: nat, keyHash: nat): (url: Option<string>)
    requires |flags| == |cfg.targets|
  {
    var alive := AliveOf(flags);
    if alive == [] then None
    else if cfg.lb == "consistent_hash" then Some(cfg.targets[alive[keyHash % |alive|]])
    else if cfg.lb == "least_conn" then Some(cfg.targets[alive[0]])
    else Some(cfg.targets[alive[ticket % |alive|]])
  }

  lemma PickByName(cfg: UpstreamConfig, flags: seq<bool>, ticket: nat, keyHash: nat)
    requires |flags| == |cfg.targets|
    ensures UrlOf(cfg.targets, PickOf(StrategyOf(cfg.lb), flags, if StrategyOf(cfg.lb) == RoundRobin then ticket else keyHash))
            == AnswerBy(cfg, flags, ticket, keyHash)
  {
    hide AliveOf;
    assert "least_conn" != "consistent_hash";
  }

  /**
   After `init` on any config list and any sequence of picks and liveness stores, a pick answers as
   the last entry of that name (or of `default`) does with the flags last stored, all targets having
   started alive, and with the ticket that counts its earlier answers, modulo 2^64.
   */
  lemma EveryAnswer(configs: seq<UpstreamConfig>, ops: seq<Op>, hash: string -> nat, i: nat)
    requires i < |ops| && ops[i].Pick?
    ensures AnswerAt(configs, ops, hash, i)
            == match Serving(configs, ops[i].name)
               case None => None
               case Some(cfg) =>
                 AnswerBy(cfg, FlagsAt(cfg, ops, i), Served(configs, cfg, ops, i) % WORD,
                          hash(if ops[i].key.Some? then ops[i].key.value else "default"))
  {
    hide LastNamed, Serving, PickOf, AnswerBy, StrategyOf;
    AlwaysTracks(configs, ops, i);
    FoundServes(configs, EntriesAt(configs, ops, i), ops, i, ops[i].name);
    if Serving(configs, ops[i].name).Some? {
      var cfg := Serving(configs, ops[i].name).value;
      PickByName(cfg, FlagsAt(cfg, ops, i), Served(configs, cfg, ops, i) % WORD, hash(ops[i].key.GetOr("default")));
    }
  }

  /** Under `consistent_hash` the same key meets the same target while the flags are the same. */
  lemma SameKeySameTarget(configs: seq<UpstreamConfig>, ops: seq<Op>, hash: string -> nat, i: nat, j: nat, cfg: UpstreamConfig)
    requires i < |ops| && j < |ops| && ops[i].Pick? && ops[j].Pick? && ops[i].key == ops[j].key
    requires Serving(configs, ops[i].name) == Some(cfg) == Serving(configs, ops[j].name) && cfg.lb == "consistent_hash"
    requires FlagsAt(cfg, ops, i) == FlagsAt(cfg, ops, j)
    ensures AnswerAt(configs, ops, hash, i) == AnswerAt(configs, ops, hash, j)
  {
    hide Serving, AnswerAt, FlagsAt, Served, AliveOf;
    EveryAnswer(configs, ops, hash, i);
    EveryAnswer(configs, ops, hash, j);
  }

  /** Under any name but the two, answer number m takes alive target m mod k, whatever the keys. */
  lemma AnswersRotate(configs: seq<UpstreamConfig>, ops: seq<Op>, hash: string -> nat, i: nat, cfg: UpstreamConfig)
    requires i < |ops| && ops[i].Pick? && Serving(configs, ops[i].name) == Some(cfg)
    requires cfg.lb != "consistent_hash" && cfg.lb != "least_conn"
    ensures var alive, m := AliveOf(FlagsAt(cfg, ops, i)), Served(configs, cfg, ops, i);
            alive != [] && m < WORD ==>
              && AnswerAt(configs, ops, hash, i) == Some(cfg.targets[alive[m % |alive|]])
              && Served(configs, cfg, ops, i + 1) == m + 1
  {
    hide Serving, AnswerAt, FlagsAt, AliveOf;
    EveryAnswer(configs, ops, hash, i);
    var m := Served(configs, cfg, ops, i);
    if m < WORD { SmallTicket(m); }
  }

  lemma SmallTicket(m: nat)
    requires m < WORD
    ensures m % WORD == m
  {
  }

  lemma FirstAlive(flags: seq<bool>)
    requires AliveOf(flags) != []
    ensures forall t :: 0 <= t < AliveOf(flags)[0] ==> !flags[t]
  {
    hide AliveOf;
    AliveSorted(flags);
    forall t | 0 <= t < AliveOf(flags)[0]
      ensures !flags[t]
    {
      if flags[t] { AliveComplete(flags, t); }
    }
  }

  /**
   So an answer is a target of that entry whose last stored flag is alive, the first such under
   least_conn, and there is none exactly if there is no such target or no entry.
   */
  lemma AnswersAreAlive(configs: seq<UpstreamConfig>, ops: seq<Op>, hash: string -> nat, i: nat)
    requires i < |ops| && ops[i].Pick?
    ensures var url := AnswerAt(configs, ops, hash, i);
            match Serving(configs, ops[i].name)
            case None => url == None
            case Some(cfg) =>
              var flags := FlagsAt(cfg, ops, i);
              && (url == None <==> forall t :: 0 <= t < |flags| ==> !flags[t])
              && (url.Some? ==> exists t :: && 0 <= t < |flags| && flags[t] && cfg.targets[t] == url.value
                                            && (cfg.lb == "least_conn" ==> forall u :: 0 <= u < t ==> !flags[u]))
  {
    hide LastNamed, Serving, AnswerAt, LastStored, Served, AliveOf;
    EveryAnswer(configs, ops, hash, i);
    if Serving(configs, ops[i].name).Some? {
      var flags := FlagsAt(Serving(configs, ops[i].name).value, ops, i);
      AliveNone(flags);
      if AliveOf(flags) != [] { FirstAlive(flags); }
    }
  }

  // ---- The pool's objects ----

  /** A balancer none of whose targets is shared or has ever counted a connection. */
  ghost predicate Sound(b: Balancer)
    reads b, b.targets
  {
    && b.Valid()
    && (forall t :: 0 <= t < |b.targets| ==> b.targets[t].active == 0)
    && (forall t, u :: 0 <= t < u < |b.targets| ==> b.targets[t] != b.targets[u])
  }

  ghost function Objects(b: Balancer): (os: set<object>) {
    {b} + set t | t in b.targets :: t as object
  }

  ghost predicate Within(b: Balancer, os: set<object>) {
    b in os && forall t :: t in b.targets ==> t in os
  }

  /** Two balancers have no object in common. */
  ghost predicate Apart(a: Balancer, b: Balancer) {
    a != b && forall t :: t in a.targets ==> t !in b.targets
  }

  /** A table of sound balancers that live in `os` and share nothing. */
  ghost predicate Sounds(m: map<string, Balancer>, os: set<object>)
    reads os
  {
    && (forall name :: name in m ==> Within(m[name], os) && Sound(m[name]))
    && (forall i, j :: i in m && j in m && i != j ==> Apart(m[i], m[j]))
  }

  ghost function Shown(b: Balancer): (e: Entry)
    reads b, b.targets
  {
    Entry(b.strategy, seq(|b.targets|, t requires 0 <= t < |b.targets| => b.targets[t].url), b.Flags(), b.counter)
  }

  lemma WithinObjects(b: Balancer, os: set<object>)
    requires Objects(b) <= os
    ensures Within(b, os)
  {
    forall t | t in b.targets
      ensures t in os
    {
      assert t as object in Objects(b);
    }
  }

  lemma StillWithin(a: Balancer, b: Balancer, all: set<object>, more: set<object>)
    requires Within(a, all) && Objects(b) !! all && all <= more
    ensures Within(a, more) && Apart(a, b) && Apart(b, a)
  {
    WithinObjects(b, Objects(b));
    hide Objects;
  }

  lemma SoundsInsert(m: map<string, Balancer>, all: set<object>, name: string, b: Balancer)
    requires Sounds(m, all) && Sound(b) && Objects(b) !! all
    ensures Sounds(m[name := b], all + Objects(b))
  {
    hide Sound, Objects, Within, Apart;
    var now, more := m[name := b], all + Objects(b);
    forall n | n in now
      ensures Within(now[n], more) && (n != name ==> Apart(now[n], b) && Apart(b, now[n]))
    {
      if n == name { WithinObjects(b, more); } else { StillWithin(m[n], b, all, more); }
    }
  }

  class UpstreamPool {
    var inner: map<string, Balancer>
    ghost var repr: set<object>   // the balancers and their targets

    constructor ()
      ensures inner == map[] && repr == {}
    {
      inner := map[];
      repr := {};
    }

    ghost predicate Valid()
      reads this, repr
    {
      this !in repr && Sounds(inner, repr)
    }

    ghost function View(): (es: Entries)
      requires Valid()
      reads this, repr
    {
      map name | name in inner :: Shown(inner[name])
    }

    method Init(configs: seq<UpstreamConfig>)
      requires inner == map[] && repr == {}
      modifies this
      ensures Valid() && fresh(repr) && View() == Configured(configs)
    {
      hide Sound, Shown, Apart, Within, NewEntry;
      for i := 0 to |configs|
        invariant Valid() && fresh(repr) && View() == Configured(configs[..i])
      {
        var b := MakeBalancer(configs[i]);
        Insert(configs[i].name, b);
        assert configs[..i + 1][..i] == configs[..i];
      }
      assert configs[..|configs|] == configs;
    }

    /** `map.insert(cfg.name.clone(), Arc::new(balancer))`. */
    method Insert(name: string, b: Balancer)
      requires Valid() && Sound(b) && Objects(b) !! repr && this !in Objects(b)
      modifies this
      ensures Valid() && View() == old(View())[name := Shown(b)]
      ensures repr == old(repr) + Objects(b)
    {
      hide Sound, Sounds, Shown, Objects;
      SoundsInsert(inner, repr, name, b);
      inner := inner[name := b];
      repr := repr + Objects(b);
    }

    /** The targets of one entry and `make_balancer` on them. */
    method MakeBalancer(cfg: UpstreamConfig) returns (b: Balancer)
      ensures fresh(Objects(b)) && Sound(b) && Shown(b) == NewEntry(cfg)
    {
      var targets: seq<Target> := [];
      for i := 0 to |cfg.targets|
        invariant |targets| == i
        invariant forall t :: 0 <= t < i ==>
                    fresh(targets[t]) && targets[t].url == cfg.targets[t] && targets[t].alive && targets[t].active == 0
        invariant forall t, u :: 0 <= t < u < i ==> targets[t] != targets[u]
      {
        var target := new Target(cfg.targets[i]);
        targets := targets + [target];
      }
      b := new Balancer(StrategyOf(cfg.lb), targets);
    }

    method NextUrl(name: string, key: Option<string>, hash: string -> nat) returns (url: Option<string>)
      requires Valid()
      modifies inner.Values`counter
      ensures Valid() && url == Answer(old(View()), hash, name, key) && View() == AfterPick(old(View()), name)
    {
      hide Shown, Counted, PickOf;
      var at := if name in inner then Some(name) else if "default" in inner then Some("default") else None;
      if at == None { return None; }
      url := NextOf(inner[at.value], key, hash);
    }

    method NextOf(b: Balancer, key: Option<string>, hash: string -> nat) returns (url: Option<string>)
      requires Sound(b)
      modifies b`counter
      ensures Sound(b) && Shown(b) == Counted(old(Shown(b)))
      ensures var e := old(Shown(b)); url == UrlOf(e.urls, PickOf(e.strategy, e.flags, NumberOf(e, hash, key)))
    {
      LeastIsFirstAlive(b.Flags(), b.Actives());
      PickIsAlive(b.strategy, b.Flags(), b.Number(hash, key));
      hide AliveOf, Least, Select, NextCounter;
      url := b.Next(hash, key);
    }

    function TargetOf(name: string, t: nat): (target: Target)
      requires name in inner && t < |inner[name].targets|
      reads this
    {
      inner[name].targets[t]
    }

    /** What a health-check task stores for one target. */
    method StoreLiveness(name: string, t: nat, alive: bool)
      requires Valid() && name in inner && t < |inner[name].targets|
      modifies TargetOf(name, t)`alive
      ensures Valid() && View() == AfterStore(old(View()), name, t, alive)
    {
      TargetOf(name, t).alive := alive;
      FlagStored(name, t, alive, old(View()));
    }

    /** No other position of the pool holds the object of target `t` of `name`. */
    lemma TargetsApart(name: string, t: nat, n: string, u: nat)
      requires Valid() && name in inner && t < |inner[name].targets| && n in inner && u < |inner[n].targets|
      requires n != name || u != t
      ensures TargetOf(n, u) != TargetOf(name, t)
    {
      if n == name {
        assert Sound(inner[n]);
      } else {
        assert Apart(inner[n], inner[name]);
        assert TargetOf(n, u) in inner[n].targets && TargetOf(name, t) in inner[name].targets;
      }
    }

    /** Only the flag of one target may differ from the entries `es`. */
    lemma FlagStored(name: string, t: nat, alive: bool, es: Entries)
      requires Valid() && name in inner && t < |inner[name].targets| && TargetOf(name, t).alive == alive
      requires es.Keys == inner.Keys
      requires forall n :: n in inner ==> es[n] == Shown(inner[n]).(flags := es[n].flags) && |es[n].flags| == |inner[n].targets|
      requires forall n, u: nat :: n in inner && u < |inner[n].targets| && TargetOf(n, u) != TargetOf(name, t) ==>
                 es[n].flags[u] == TargetOf(n, u).alive
      ensures View() == AfterStore(es, name, t, alive)
    {
      forall n | n in inner
        ensures Shown(inner[n]) == if n == name then es[n].(flags := es[n].flags[t := alive]) else es[n]
      {
        hide Valid, TargetOf;
        forall u: nat | u < |inner[n].targets|
          ensures inner[n].targets[u].alive == if n == name && u == t then alive else es[n].flags[u]
        {
          assert inner[n].targets[u] == TargetOf(n, u) by { Same(n, u); }
          if n != name || u != t { TargetsApart(name, t, n, u); }
        }
        FlagsFrom(inner[n], es[n], if n == name then es[n].flags[t := alive] else es[n].flags);
      }
    }

    lemma Same(n: string, u: nat)
      requires n in inner && u < |inner[n].targets|
      ensures inner[n].targets[u] == TargetOf(n, u)
    {
    }

    lemma FlagsFrom(b: Balancer, e: Entry, flags: seq<bool>)
      requires e == Shown(b).(flags := e.flags)
      requires |flags| == |b.targets| && forall u :: 0 <= u < |flags| ==> b.targets[u].alive == flags[u]
      ensures Shown(b) == e.(flags := flags)
    {
    }
  }

  /** One operation on the pool's objects. */
  method Apply(pool: UpstreamPool, op: Op, hash: string -> nat) returns (url: Option<string>)
    requires pool.Valid()
    modifies pool.repr
    ensures pool.Valid() && pool.repr == old(pool.repr) && pool.View() == AfterOp(old(pool.View()), op)
    ensures url == match op case Pick(name, key) => Answer(old(pool.View()), hash, name, key) case Store(_, _, _) => None
  {
    hide Answer, AfterPick;
    match op
    case Pick(name, key) =>
      url := pool.NextUrl(name, key, hash);
    case Store(name, t, alive) =>
      url := None;
      if name in pool.inner && t < |pool.inner[name].targets| { pool.StoreLiveness(name, t, alive); }
  }

  /** The life of a pool: `init`, then picks and liveness stores in any order. */
  method Lifetime(configs: seq<UpstreamConfig>, ops: seq<Op>, hash: string -> nat) returns (answers: seq<Option<string>>)
    ensures |answers| == |ops| && forall i :: 0 <= i < |ops| ==> answers[i] == AnswerAt(configs, ops, hash, i)
  {
    hide AfterOp, Answer, Configured;
    var pool := new UpstreamPool();
    pool.Init(configs);
    answers := [];
    for i := 0 to |ops|
      invariant pool.Valid() && fresh(pool) && fresh(pool.repr) && pool.View() == EntriesAt(configs, ops, i)
      invariant |answers| == i && forall j :: 0 <= j < i ==> answers[j] == AnswerAt(configs, ops, hash, j)
    {
      var url := Apply(pool, ops[i], hash);
      answers := answers + [url];
    }
  }
}
