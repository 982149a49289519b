/**
 Round robin under concurrency: calls split into one flag read per target, one `fetch_add` and the
 return, interleaved with each other and with the health checker's liveness stores.
 */
module RoundRobinConcurrent {
  import opened Wrappers
  import opened Balancer
  import Fairness
  import RoundRobinRun

  datatype CallState =
    | Idle
    | Reading(next: nat, seen: seq<nat>)   // flags read so far, and the targets seen alive
    | Picked(target: nat)                  // ticket drawn
    | Returned(result: Option<nat>)

  datatype State = State(flags: seq<bool>, counter: nat, calls: seq<CallState>)

  datatype Step =
    | Store(target: nat, alive: bool)
    | Begin(call: nat)
    | Read(call: nat)
    | Draw(call: nat)
    | Return(call: nat)

  predicate Enabled(s: State, step: Step) {
    match step
    case Store(t, _) => t < |s.flags|
    case Begin(c) => c < |s.calls| && s.calls[c].Idle?
    case Read(c) => c < |s.calls| && s.calls[c].Reading? && s.calls[c].next < |s.flags|
    case Draw(c) => c < |s.calls| && s.calls[c].Reading? && s.calls[c].next == |s.flags|
    case Return(c) => c < |s.calls| && s.calls[c].Picked?
  }

  function Apply(s: State, step: Step): (r: State)
    requires Enabled(s, step)
  {
    match step
    case Store(t, alive) => s.(flags := s.flags[t := alive])
    case Begin(c) => s.(calls := s.calls[c := Reading(0, [])])
    case Read(c) =>
      var r := s.calls[c];
      s.(calls := s.calls[c := Reading(r.next + 1, if s.flags[r.next] then r.seen + [r.next] else r.seen)])
    case Draw(c) =>
      var seen := s.calls[c].seen;
      if |seen| == 0 then s.(calls := s.calls[c := Returned(None)])
      else s.(calls := s.calls[c := Picked(seen[s.counter % |seen|])], counter := (s.counter + 1) % WORD)
    case Return(c) => s.(calls := s.calls[c := Returned(Some(s.calls[c].target))])
  }

  predicate Initial(s: State) {
    s.counter < WORD && forall c :: 0 <= c < |s.calls| ==> s.calls[c].Idle?
  }

  /** A run: the states it passes and the steps between them. */
  ghost predicate Run(states: seq<State>, steps: seq<Step>) {
    && |states| == |steps| + 1
    && Initial(states[0])
    && forall i :: 0 <= i < |steps| ==> Enabled(states[i], steps[i]) && states[i + 1] == Apply(states[i], steps[i])
  }

  // ---- What a call returns was read during the call ----

  /** Before position `m` call `c` read the flag of target `t` and found it `v`. */
  ghost predicate Saw(states: seq<State>, steps: seq<Step>, m: nat, c: nat, t: nat, v: bool)
    requires |states| == |steps| + 1 && m <= |steps|
  {
    exists i :: 0 <= i < m && SeesAt(states[i], steps[i], c, t, v)
  }

  ghost predicate SeesAt(s: State, step: Step, c: nat, t: nat, v: bool) {
    step == Read(c) && c < |s.calls| && s.calls[c].Reading? && s.calls[c].next == t && t < |s.flags| && s.flags[t] == v
  }

  /** What the reads before position `m` say about a state `call` that call `c` may be in. */
  ghost predicate Justified(states: seq<State>, steps: seq<Step>, m: nat, c: nat, call: CallState)
    requires |states| == |steps| + 1 && m <= |steps|
  {
    match call
    case Idle => true
    case Reading(next, seen) =>
      && next <= |states[m].flags|
      && (forall i :: 0 <= i < |seen| ==> Saw(states, steps, m, c, seen[i], true))
      && (forall t: nat :: t < next && t !in seen ==> Saw(states, steps, m, c, t, false))
    case Picked(t) => Saw(states, steps, m, c, t, true)
    case Returned(Some(t)) => Saw(states, steps, m, c, t, true)
    case Returned(None) => forall t: nat :: t < |states[m].flags| ==> Saw(states, steps, m, c, t, false)
  }

  lemma SawLater(states: seq<State>, steps: seq<Step>, m: nat, c: nat, t: nat, v: bool)
    requires |states| == |steps| + 1 && m < |steps|
    ensures Saw(states, steps, m, c, t, v) || SeesAt(states[m], steps[m], c, t, v) ==> Saw(states, steps, m + 1, c, t, v)
  {
    if Saw(states, steps, m, c, t, v) {
      var i :| 0 <= i < m && SeesAt(states[i], steps[i], c, t, v);
      assert SeesAt(states[i], steps[i], c, t, v);
    }
  }

  lemma JustifiedLater(states: seq<State>, steps: seq<Step>, m: nat, c: nat, call: CallState)
    requires |states| == |steps| + 1 && m < |steps| && |states[m].flags| == |states[m + 1].flags|
    requires Justified(states, steps, m, c, call)
    ensures Justified(states, steps, m + 1, c, call)
  {
    var after := m + 1;
    match call
    case Idle =>
    case Reading(next, seen) =>
      forall i | 0 <= i < |seen|
        ensures Saw(states, steps, m + 1, c, seen[i], true)
      {
        SawLater(states, steps, m, c, seen[i], true);
      }
      forall t: nat | t < next && t !in seen
        ensures Saw(states, steps, after, c, t, false)
      {
        SawLater(states, steps, m, c, t, false);
      }
    case Picked(t) => SawLater(states, steps, m, c, t, true);
    case Returned(Some(t)) => SawLater(states, steps, m, c, t, true);
    case Returned(None) =>
      forall t: nat | t < |states[m].flags|
        ensures Saw(states, steps, after, c, t, false)
      {
        SawLater(states, steps, m, c, t, false);
      }
  }

  /** The state of a call after it has read `v` from the flag of the next target. */
  function AfterRead(next: nat, seen: seq<nat>, v: bool): (call: CallState) {
    Reading(next + 1, if v then seen + [next] else seen)
  }

  lemma JustifiedExtend(states: seq<State>, steps: seq<Step>, m: nat, c: nat, next: nat, seen: seq<nat>, v: bool)
    requires |states| == |steps| + 1 && m <= |steps| && next < |states[m].flags|
    requires Justified(states, steps, m, c, Reading(next, seen)) && Saw(states, steps, m, c, next, v)
    ensures Justified(states, steps, m, c, AfterRead(next, seen, v))
  {
    hide Saw;
    var after := AfterRead(next, seen, v).seen;
    if v {
      assert after[|seen|] == next;
      assert forall t: nat :: t in seen ==> t in after;
    }
  }

  lemma JustifiedRead(states: seq<State>, steps: seq<Step>, m: nat, c: nat)
    requires |states| == |steps| + 1 && m < |steps| && |states[m].flags| == |states[m + 1].flags|
    requires steps[m] == Read(c) && Enabled(states[m], steps[m]) && states[m + 1] == Apply(states[m], steps[m])
    requires Justified(states, steps, m, c, states[m].calls[c])
    ensures Justified(states, steps, m + 1, c, states[m + 1].calls[c])
  {
    hide Justified, Saw;
    var s := states[m];
    var next, seen := s.calls[c].next, s.calls[c].seen;
    assert SeesAt(s, steps[m], c, next, s.flags[next]);
    SawLater(states, steps, m, c, next, s.flags[next]);
    JustifiedLater(states, steps, m, c, s.calls[c]);
    JustifiedExtend(states, steps, m + 1, c, next, seen, s.flags[next]);
    assert states[m + 1].calls[c] == AfterRead(next, seen, s.flags[next]);
  }

  lemma JustifiedDraw(states: seq<State>, steps: seq<Step>, m: nat, c: nat)
    requires |states| == |steps| + 1 && m < |steps| && |states[m].flags| == |states[m + 1].flags|
    requires steps[m] == Draw(c) && Enabled(states[m], steps[m]) && states[m + 1] == Apply(states[m], steps[m])
    requires Justified(states, steps, m, c, states[m].calls[c])
    ensures Justified(states, steps, m + 1, c, states[m + 1].calls[c])
  {
    JustifiedLater(states, steps, m, c, states[m].calls[c]);
    hide Saw;
  }

  lemma {:induction false} AlwaysJustified(states: seq<State>, steps: seq<Step>, m: nat, c: nat)
    requires Run(states, steps) && m <= |steps| && c < |states[0].calls|
    ensures |states[m].calls| == |states[0].calls| && |states[m].flags| == |states[0].flags|
    ensures Justified(states, steps, m, c, states[m].calls[c])
  {
    hide Saw;
    if m > 0 {
      AlwaysJustified(states, steps, m - 1, c);
      var s, step := states[m - 1], steps[m - 1];
      assert states[m] == Apply(s, step);
      if step == Read(c) {
        JustifiedRead(states, steps, m - 1, c);
      } else if step == Draw(c) {
        JustifiedDraw(states, steps, m - 1, c);
      } else if step == Return(c) || step == Begin(c) {
        JustifiedLater(states, steps, m - 1, c, s.calls[c]);
      } else {
        assert states[m].calls[c] == s.calls[c];
        JustifiedLater(states, steps, m - 1, c, s.calls[c]);
      }
    }
  }

  /**
   In every interleaving a returned target was alive when the call itself read its flag, and a call
   returns none only if every target was dead when the call read it.
   */
  lemma ReturnsWhatItRead(states: seq<State>, steps: seq<Step>, c: nat)
    requires Run(states, steps) && c < |states[0].calls|
    ensures var m := |steps|;
            && |states[m].calls| == |states[0].calls| && |states[m].flags| == |states[0].flags|
            && (states[m].calls[c].Returned? ==>
                  match states[m].calls[c].result
                  case Some(t) => Saw(states, steps, m, c, t, true)
                  case None => forall t: nat :: t < |states[m].flags| ==> Saw(states, steps, m, c, t, false))
  {
    AlwaysJustified(states, steps, |steps|, c);
  }

  // ---- With fixed flags: the same targets as one call after another ----

  /** The targets of all tickets drawn so far, returned or not. */
  function Drawn(calls: seq<CallState>): (ts: multiset<nat>) {
    if |calls| == 0 then multiset{} else Drawn(calls[..|calls| - 1]) + DrawnBy(calls[|calls| - 1])
  }

  function DrawnBy(call: CallState): (ts: multiset<nat>) {
    match call
    case Picked(t) => multiset{t}
    case Returned(Some(t)) => multiset{t}
    case _ => multiset{}
  }

  function ReturnedTargets(calls: seq<CallState>): (ts: multiset<nat>) {
    if |calls| == 0 then multiset{}
    else
      var last := calls[|calls| - 1];
      ReturnedTargets(calls[..|calls| - 1])
      + (if last.Returned? && last.result.Some? then multiset{last.result.value} else multiset{})
  }

  lemma AddCommutes(a: multiset<nat>, b: multiset<nat>, c: multiset<nat>)
    ensures (a + b) + c == (a + c) + b
    ensures a + multiset{} == a
  {
  }

  lemma {:induction false} DrawnUpdate(calls: seq<CallState>, c: nat, x: CallState)
    requires c < |calls|
    ensures Drawn(calls[c := x]) + DrawnBy(calls[c]) == Drawn(calls) + DrawnBy(x)
  {
    hide DrawnBy;
    var n := |calls| - 1;
    if c == n {
      assert calls[c := x][..n] == calls[..n];
    } else {
      assert calls[c := x][..n] == calls[..n][c := x];
      DrawnUpdate(calls[..n], c, x);
      AddCommutes(Drawn(calls[..n][c := x]), DrawnBy(calls[n]), DrawnBy(calls[c]));
      AddCommutes(Drawn(calls[..n]), DrawnBy(calls[n]), DrawnBy(x));
    }
  }

  lemma OneNotPending(calls: seq<CallState>)
    requires |calls| > 0 && !calls[|calls| - 1].Picked?
    requires Drawn(calls[..|calls| - 1]) == ReturnedTargets(calls[..|calls| - 1])
    ensures Drawn(calls) == ReturnedTargets(calls)
  {
    var last := calls[|calls| - 1];
    assert DrawnBy(last) == if last.Returned? && last.result.Some? then multiset{last.result.value} else multiset{};
  }

  lemma {:induction false} NothingPending(calls: seq<CallState>)
    requires forall c :: 0 <= c < |calls| ==> !calls[c].Picked?
    ensures Drawn(calls) == ReturnedTargets(calls)
  {
    if |calls| > 0 {
      hide Drawn, ReturnedTargets;
      NothingPending(calls[..|calls| - 1]);
      OneNotPending(calls);
    }
  }

  lemma {:induction false} IdleDrawsNothing(calls: seq<CallState>)
    requires forall c :: 0 <= c < |calls| ==> calls[c].Idle?
    ensures Drawn(calls) == multiset{}
  {
    if |calls| > 0 { IdleDrawsNothing(calls[..|calls| - 1]); }
  }

  predicate IsStore(step: Step) {
    step.Store?
  }

  /** How many tickets the first `m` steps drew. */
  function Tickets(states: seq<State>, steps: seq<Step>, m: nat): (n: nat)
    requires |states| == |steps| + 1 && m <= |steps|
  {
    if m == 0 then 0
    else
      Tickets(states, steps, m - 1)
      + (match steps[m - 1]
         case Draw(c) => if c < |states[m - 1].calls| && states[m - 1].calls[c].Reading? && |states[m - 1].calls[c].seen| > 0 then 1 else 0
         case _ => 0)
  }

  function SequentialPicks(flags: seq<bool>, c: nat, n: nat): (ts: multiset<nat>) {
    if AliveOf(flags) == [] then multiset{} else multiset(RoundRobinRun.Picks(flags, c, n))
  }

  /** With the flags fixed, the reading calls hold prefixes of the alive list, and the tickets match. */
  ghost predicate Lockstep(first: State, s: State, n: nat) {
    && s.flags == first.flags
    && s.counter == (first.counter + n) % WORD
    && (AliveOf(first.flags) == [] ==> n == 0)
    && (forall c :: 0 <= c < |s.calls| && s.calls[c].Reading? ==>
          s.calls[c].next <= |s.flags| && s.calls[c].seen == AliveOf(s.flags[..s.calls[c].next]))
    && Drawn(s.calls) == SequentialPicks(first.flags, first.counter, n)
  }

  lemma NextPick(flags: seq<bool>, c: nat, n: nat)
    requires AliveOf(flags) != [] && c < WORD
    ensures SequentialPicks(flags, c, n + 1)
            == SequentialPicks(flags, c, n) + multiset{AliveOf(flags)[(c + n) % WORD % |AliveOf(flags)|]}
  {
    hide AliveOf, RoundRobinRun.Picks;
    RoundRobinRun.PicksPrefix(flags, c, n + 1);
    RoundRobinRun.PickIsTicket(flags, c, n + 1, n);
    var ps := RoundRobinRun.Picks(flags, c, n + 1);
    assert ps == ps[..n] + [ps[n]];
  }

  lemma LockstepBegin(first: State, s: State, c: nat, n: nat)
    requires Lockstep(first, s, n) && Enabled(s, Begin(c))
    ensures Lockstep(first, Apply(s, Begin(c)), n)
  {
    hide AliveOf, SequentialPicks, Drawn;
    DrawnUpdate(s.calls, c, Reading(0, []));
    AddCommutes(Drawn(s.calls), multiset{}, multiset{});
    AddCommutes(Drawn(s.calls[c := Reading(0, [])]), multiset{}, multiset{});
    assert s.flags[..0] == [];
    AliveNone([]);
    assert AliveOf([]) == [];
  }

  lemma LockstepRead(first: State, s: State, c: nat, n: nat)
    requires Lockstep(first, s, n) && Enabled(s, Read(c))
    ensures Lockstep(first, Apply(s, Read(c)), n)
  {
    hide AliveOf, SequentialPicks, Drawn;
    var after := Apply(s, Read(c)).calls[c];
    DrawnUpdate(s.calls, c, after);
    AddCommutes(Drawn(s.calls), multiset{}, multiset{});
    AddCommutes(Drawn(s.calls[c := after]), multiset{}, multiset{});
    AlivePrefix(s.flags, s.calls[c].next);
  }

  lemma LockstepDraw(first: State, s: State, c: nat, n: nat)
    requires first.counter < WORD && Lockstep(first, s, n) && Enabled(s, Draw(c))
    ensures Lockstep(first, Apply(s, Draw(c)), if |s.calls[c].seen| > 0 then n + 1 else n)
  {
    hide AliveOf, SequentialPicks, Drawn;
    var after := Apply(s, Draw(c)).calls[c];
    assert s.flags[..|s.flags|] == s.flags;
    var alive := AliveOf(first.flags);
    assert s.calls[c].seen == alive;
    DrawnUpdate(s.calls, c, after);
    AddCommutes(Drawn(s.calls[c := after]), multiset{}, multiset{});
    if |alive| > 0 {
      NextPick(first.flags, first.counter, n);
      NextTicket(first.counter, n);
      assert after == Picked(alive[s.counter % |alive|]);
      assert Drawn(s.calls[c := after]) == SequentialPicks(first.flags, first.counter, n + 1);
    } else {
      AddCommutes(Drawn(s.calls), multiset{}, multiset{});
      assert Drawn(s.calls[c := after]) == Drawn(s.calls);
    }
    OthersKeepReading(first, s, c, after);
  }

  lemma NextTicket(c: nat, n: nat)
    ensures ((c + n) % WORD + 1) % WORD == (c + (n + 1)) % WORD
  {
  }

  lemma OthersKeepReading(first: State, s: State, c: nat, after: CallState)
    requires c < |s.calls| && !after.Reading?
    requires forall d :: 0 <= d < |s.calls| && s.calls[d].Reading? ==>
               s.calls[d].next <= |s.flags| && s.calls[d].seen == AliveOf(s.flags[..s.calls[d].next])
    ensures var calls := s.calls[c := after];
            forall d :: 0 <= d < |calls| && calls[d].Reading? ==>
              calls[d].next <= |s.flags| && calls[d].seen == AliveOf(s.flags[..calls[d].next])
  {
    hide AliveOf;
  }

  lemma LockstepReturn(first: State, s: State, c: nat, n: nat)
    requires Lockstep(first, s, n) && Enabled(s, Return(c))
    ensures Lockstep(first, Apply(s, Return(c)), n)
  {
    hide AliveOf, SequentialPicks, Drawn;
    var t := s.calls[c].target;
    DrawnUpdate(s.calls, c, Returned(Some(t)));
    Cancel(Drawn(s.calls), Drawn(s.calls[c := Returned(Some(t))]), multiset{t});
  }

  lemma Cancel(a: multiset<nat>, b: multiset<nat>, x: multiset<nat>)
    requires a + x == b + x
    ensures a == b
  {
    assert (a + x) - x == a && (b + x) - x == b;
  }

  lemma LockstepStep(first: State, s: State, step: Step, n: nat, n': nat)
    requires first.counter < WORD && Lockstep(first, s, n) && Enabled(s, step) && !IsStore(step)
    requires n' == n + (if step.Draw? && |s.calls[step.call].seen| > 0 then 1 else 0)
    ensures Lockstep(first, Apply(s, step), n')
  {
    hide Lockstep, Apply;
    match step
    case Begin(c) => LockstepBegin(first, s, c, n);
    case Read(c) => LockstepRead(first, s, c, n);
    case Draw(c) => LockstepDraw(first, s, c, n);
    case Return(c) => LockstepReturn(first, s, c, n);
  }

  lemma AlivePrefix(flags: seq<bool>, i: nat)
    requires i < |flags|
    ensures AliveOf(flags[..i + 1]) == AliveOf(flags[..i]) + (if flags[i] then [i] else [])
  {
    assert flags[..i + 1][..i] == flags[..i];
  }

  lemma {:induction false} AlwaysLockstep(states: seq<State>, steps: seq<Step>, m: nat)
    requires Run(states, steps) && m <= |steps|
    requires forall i :: 0 <= i < |steps| ==> !IsStore(steps[i])
    ensures Lockstep(states[0], states[m], Tickets(states, steps, m))
  {
    hide AliveOf, Apply;
    if m == 0 {
      IdleDrawsNothing(states[0].calls);
      assert SequentialPicks(states[0].flags, states[0].counter, 0) == multiset{};
    } else {
      AlwaysLockstep(states, steps, m - 1);
      assert Enabled(states[m - 1], steps[m - 1]);
      LockstepStep(states[0], states[m - 1], steps[m - 1], Tickets(states, steps, m - 1), Tickets(states, steps, m));
    }
  }

  /**
   With the flags fixed, once no call holds an unreturned ticket, the targets returned in any
   interleaving are those of as many calls made one after another.
   */
  lemma SameAsSequential(states: seq<State>, steps: seq<Step>)
    requires Run(states, steps) && forall i :: 0 <= i < |steps| ==> !IsStore(steps[i])
    requires forall c :: 0 <= c < |states[|steps|].calls| ==> !states[|steps|].calls[c].Picked?
    ensures var n := Tickets(states, steps, |steps|);
            && ReturnedTargets(states[|steps|].calls) == SequentialPicks(states[0].flags, states[0].counter, n)
            && states[|steps|].counter == (states[0].counter + n) % WORD
  {
    hide Tickets, SequentialPicks, ReturnedTargets, Drawn, AliveOf;
    AlwaysLockstep(states, steps, |steps|);
    NothingPending(states[|steps|].calls);
  }

  lemma {:induction false} MultisetCounts(ps: seq<nat>, t: nat)
    ensures multiset(ps)[t] == RoundRobinRun.PicksOf(ps, t)
  {
    if |ps| > 0 {
      MultisetCounts(ps[..|ps| - 1], t);
      assert ps == ps[..|ps| - 1] + [ps[|ps| - 1]];
    }
  }

  /**
   So fairness does not depend on the interleaving: with k alive targets and n tickets drawn, all
   returned, every target has been returned floor or ceiling of n/k times while the counter does not
   wrap, and no two targets are more than two apart across one wrap.
   */
  lemma {:induction false} FairInEveryInterleaving(states: seq<State>, steps: seq<Step>, i: nat, j: nat)
    requires Run(states, steps) && forall m :: 0 <= m < |steps| ==> !IsStore(steps[m])
    requires forall c :: 0 <= c < |states[|steps|].calls| ==> !states[|steps|].calls[c].Picked?
    requires i < |AliveOf(states[0].flags)| && j < |AliveOf(states[0].flags)|
    requires Tickets(states, steps, |steps|) <= WORD
    ensures var alive, n := AliveOf(states[0].flags), Tickets(states, steps, |steps|);
            var k, returned := |alive|, ReturnedTargets(states[|steps|].calls);
            && (states[0].counter + n <= WORD ==>
                  returned[alive[i]] == n / k || (returned[alive[i]] == n / k + 1 && n % k != 0))
            && Fairness.Distance(returned[alive[i]], returned[alive[j]]) <= 2
            && (WORD % k == 0 ==> Fairness.Distance(returned[alive[i]], returned[alive[j]]) <= 1)
  {
    hide AliveOf, Tickets, ReturnedTargets, RoundRobinRun.Picks, RoundRobinRun.PicksOf, Fairness.Distance;
    var flags, c, n := states[0].flags, states[0].counter, Tickets(states, steps, |steps|);
    SameAsSequential(states, steps);
    var ps := RoundRobinRun.Picks(flags, c, n);
    MultisetCounts(ps, AliveOf(flags)[i]);
    MultisetCounts(ps, AliveOf(flags)[j]);
    RoundRobinRun.RoundRobinFair(flags, c, n, i, j);
  }
}
