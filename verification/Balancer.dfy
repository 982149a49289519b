/**
 The three balancers of src/upstream/balancer.rs.  `usize` and the hash are 64 bits wide; the hash
 of a key is a parameter.
 */
module Balancer {
  import opened Wrappers

  const WORD := 0x1_0000_0000_0000_0000

  // ---- Selection on values: liveness flags and connection counts by position ----

  /** The positions of the alive targets, in order: `iter().filter(is_alive).collect()`. */
  function AliveOf(flags: seq<bool>): (alive: seq<nat>)
    ensures forall i :: 0 <= i < |alive| ==> alive[i] < |flags| && flags[alive[i]]
  {
    if |flags| == 0 then []
    else
      var n := |flags| - 1;
      AliveOf(flags[..n]) + (if flags[n] then [n] else [])
  }

  /** The target a number selects: `alive[number % alive.len()]`. */
  function Select(flags: seq<bool>, number: nat): (r: Option<nat>) {
    var alive := AliveOf(flags);
    if |alive| == 0 then None else Some(alive[number % |alive|])
  }

  /** The counter after a round-robin call: a target is only counted when there is one. */
  function NextCounter(flags: seq<bool>, counter: nat): (c: nat) {
    if AliveOf(flags) == [] then counter else (counter + 1) % WORD
  }

  /** The first of the alive targets with the fewest connections: `filter(..).min_by_key(..)`. */
  function Least(flags: seq<bool>, active: seq<nat>): (r: Option<nat>)
    requires |flags| == |active|
    ensures r == None <==> forall t :: 0 <= t < |flags| ==> !flags[t]
    ensures r.Some? ==>
              && r.value < |flags| && flags[r.value]
              && (forall t :: 0 <= t < |flags| && flags[t] ==> active[r.value] <= active[t])
              && (forall t :: 0 <= t < r.value && flags[t] ==> active[r.value] < active[t])
  {
    if |flags| == 0 then None
    else
      var n := |flags| - 1;
      var best := Least(flags[..n], active[..n]);
      if !flags[n] || (best.Some? && active[best.value] <= active[n]) then best else Some(n)
  }

  lemma {:induction false} AliveSorted(flags: seq<bool>)
    ensures forall i, j :: 0 <= i < j < |AliveOf(flags)| ==> AliveOf(flags)[i] < AliveOf(flags)[j]
  {
    if |flags| > 0 {
      AliveSorted(flags[..|flags| - 1]);
    }
  }

  lemma {:induction false} AliveComplete(flags: seq<bool>, t: nat)
    requires t < |flags| && flags[t]
    ensures t in AliveOf(flags)
  {
    var n := |flags| - 1;
    if t < n {
      AliveComplete(flags[..n], t);
    } else {
      assert AliveOf(flags)[|AliveOf(flags)| - 1] == n;
    }
  }

  lemma AliveNone(flags: seq<bool>)
    ensures AliveOf(flags) == [] <==> forall t :: 0 <= t < |flags| ==> !flags[t]
  {
    hide AliveOf;
    if AliveOf(flags) != [] {
      assert flags[AliveOf(flags)[0]];
    } else {
      forall t | 0 <= t < |flags|
        ensures !flags[t]
      {
        if flags[t] { AliveComplete(flags, t); }
      }
    }
  }

  // ---- The objects ----

  class Target {
    const url: string
    var alive: bool
    var active: nat

    constructor (url: string)
      ensures this.url == url && alive && active == 0
    {
      this.url := url;
      alive := true;
      active := 0;
    }
  }

  datatype Strategy = RoundRobin | LeastConn | ConsistentHash

  /** `make_balancer` on the configured name. */
  function StrategyOf(lb: string): (s: Strategy) {
    if lb == "least_conn" then LeastConn
    else if lb == "consistent_hash" then ConsistentHash
    else RoundRobin
  }

  class Balancer {
    const strategy: Strategy
    const targets: seq<Target>
    var counter: nat

    constructor (strategy: Strategy, targets: seq<Target>)
      ensures this.strategy == strategy && this.targets == targets && counter == 0 && Valid()
    {
      this.strategy := strategy;
      this.targets := targets;
      counter := 0;
    }

    ghost predicate Valid()
      reads this
    {
      counter < WORD
    }

    function Flags(): (flags: seq<bool>)
      reads targets
      ensures |flags| == |targets| && forall i :: 0 <= i < |targets| ==> flags[i] == targets[i].alive
    {
      seq(|targets|, i requires 0 <= i < |targets| reads targets => targets[i].alive)
    }

    function Actives(): (ns: seq<nat>)
      reads targets
      ensures |ns| == |targets| && forall i :: 0 <= i < |targets| ==> ns[i] == targets[i].active
    {
      seq(|targets|, i requires 0 <= i < |targets| reads targets => targets[i].active)
    }

    /** The number that selects among the alive targets, for the two strategies that use one. */
    function Number(hash: string -> nat, key: Option<string>): (n: nat)
      reads this
    {
      if strategy == RoundRobin then counter else hash(key.GetOr("default"))
    }

    method Next(hash: string -> nat, key: Option<string>) returns (url: Option<string>)
      requires Valid()
      modifies this`counter
      ensures Valid()
      ensures var pick := if strategy == LeastConn then Least(Flags(), Actives())
                          else Select(Flags(), old(Number(hash, key)));
              url == match pick case None => None case Some(t) => Some(targets[t].url)
      ensures counter == if strategy == RoundRobin then NextCounter(Flags(), old(counter)) else old(counter)
    {
      var flags := Flags();
      if strategy == LeastConn {
        var best := Least(flags, Actives());
        return if best.None? then None else Some(targets[best.value].url);
      }
      var alive := AliveOf(flags);
      if |alive| == 0 {
        return None;
      }
      var number := Number(hash, key);
      if strategy == RoundRobin {
        counter := (counter + 1) % WORD;
      }
      url := Some(targets[alive[number % |alive|]].url);
    }
  }

  // ---- Liveness decides ----

  /** Every strategy returns an alive target, and none exactly when none is alive. */
  lemma SelectionIsAlive(flags: seq<bool>, active: seq<nat>, number: nat)
    requires |flags| == |active|
    ensures Select(flags, number) == None <==> forall t :: 0 <= t < |flags| ==> !flags[t]
    ensures Select(flags, number).Some? ==> Select(flags, number).value < |flags| && flags[Select(flags, number).value]
    ensures Least(flags, active) == None <==> Select(flags, number) == None
  {
    AliveNone(flags);
  }

  /** As nothing ever counts a connection, the fewest-connections target is the first alive one. */
  lemma LeastIsFirstAlive(flags: seq<bool>, active: seq<nat>)
    requires |flags| == |active| && forall t :: 0 <= t < |active| ==> active[t] == 0
    ensures Least(flags, active) == if AliveOf(flags) == [] then None else Some(AliveOf(flags)[0])
  {
    hide AliveOf;
    AliveNone(flags);
    var best := Least(flags, active);
    if best.Some? {
      AliveSorted(flags);
      AliveComplete(flags, best.value);
      assert AliveOf(flags)[0] <= best.value;
    }
  }
}
