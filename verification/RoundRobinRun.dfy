/** Sequences of round-robin calls with fixed liveness flags, and what fairness means for them. */
module RoundRobinRun {
  import opened Balancer
  import Fairness

  /** The targets `n` calls return in turn, the counter standing at `c` before the first. */
  function Picks(flags: seq<bool>, c: nat, n: nat): (ps: seq<nat>)
    requires AliveOf(flags) != []
    ensures |ps| == n
    decreases n
  {
    if n == 0 then [] else [Select(flags, c).value] + Picks(flags, NextCounter(flags, c), n - 1)
  }

  lemma TicketShift(c: nat, i: nat)
    requires i > 0
    ensures Fairness.Ticket(WORD, (c + 1) % WORD, i - 1) == Fairness.Ticket(WORD, c, i)
  {
  }

  lemma FirstTicket(c: nat)
    requires c < WORD
    ensures Fairness.Ticket(WORD, c, 0) == c
  {
  }

  /** Call `i` draws ticket c + i, modulo 2^64. */
  lemma {:induction false} PickIsTicket(flags: seq<bool>, c: nat, n: nat, i: nat)
    requires AliveOf(flags) != [] && c < WORD && i < n
    ensures Picks(flags, c, n)[i] == AliveOf(flags)[Fairness.Ticket(WORD, c, i) % |AliveOf(flags)|]
    decreases n
  {
    hide AliveOf, Fairness.Ticket;
    if i == 0 {
      FirstTicket(c);
    } else {
      PickIsTicket(flags, NextCounter(flags, c), n - 1, i - 1);
      TicketShift(c, i);
    }
  }

  function PicksOf(ps: seq<nat>, t: nat): (count: nat) {
    if |ps| == 0 then 0 else PicksOf(ps[..|ps| - 1], t) + (if ps[|ps| - 1] == t then 1 else 0)
  }

  lemma {:induction false} PicksPrefix(flags: seq<bool>, c: nat, n: nat)
    requires AliveOf(flags) != [] && n > 0
    ensures Picks(flags, c, n)[..n - 1] == Picks(flags, c, n - 1)
    decreases n
  {
    hide AliveOf, Select;
    if n > 1 {
      PicksPrefix(flags, NextCounter(flags, c), n - 1);
    }
  }

  lemma {:induction false} PicksCounted(flags: seq<bool>, c: nat, n: nat, j: nat)
    requires j < |AliveOf(flags)| && c < WORD
    ensures PicksOf(Picks(flags, c, n), AliveOf(flags)[j]) == Fairness.Count(WORD, |AliveOf(flags)|, c, n, j)
    decreases n
  {
    hide AliveOf, Picks, Fairness.Ticket;
    if n > 0 {
      PicksCounted(flags, c, n - 1, j);
      PicksPrefix(flags, c, n);
      PickIsTicket(flags, c, n, n - 1);
      AliveSorted(flags);
      var x := Fairness.Ticket(WORD, c, n - 1) % |AliveOf(flags)|;
      assert AliveOf(flags)[x] == AliveOf(flags)[j] <==> x == j;
    }
  }

  /**
   Fairness of the balancer with k alive targets: floor or ceiling of n/k for everyone while the
   64-bit counter does not wrap, and never more than two apart across one wrap.
   */
  lemma RoundRobinFair(flags: seq<bool>, c: nat, n: nat, i: nat, j: nat)
    requires i < |AliveOf(flags)| && j < |AliveOf(flags)| && c < WORD && n <= WORD
    ensures var k, alive, ps := |AliveOf(flags)|, AliveOf(flags), Picks(flags, c, n);
            && (c + n <= WORD ==> PicksOf(ps, alive[i]) == n / k || (PicksOf(ps, alive[i]) == n / k + 1 && n % k != 0))
            && Fairness.Distance(PicksOf(ps, alive[i]), PicksOf(ps, alive[j])) <= 2
            && (WORD % k == 0 ==> Fairness.Distance(PicksOf(ps, alive[i]), PicksOf(ps, alive[j])) <= 1)
  {
    hide AliveOf, Picks, PicksOf, Fairness.Count;
    var k := |AliveOf(flags)|;
    PicksCounted(flags, c, n, i);
    PicksCounted(flags, c, n, j);
    Fairness.FairAcrossWrap(WORD, k, c, n, i, j);
    if c + n <= WORD { Fairness.FairWithoutWrap(WORD, k, c, n, i); }
    if WORD % k == 0 { Fairness.AlwaysFairIff(WORD, k); }
  }

  /** No window of calls ever favours one alive target over another by more than one pick. */
  ghost predicate NeverFavours(flags: seq<bool>)
    requires AliveOf(flags) != []
  {
    forall c: nat, n: nat, i: nat, j: nat :: c < WORD && i < |AliveOf(flags)| && j < |AliveOf(flags)| ==>
      Fairness.Distance(PicksOf(Picks(flags, c, n), AliveOf(flags)[i]),
                        PicksOf(Picks(flags, c, n), AliveOf(flags)[j])) <= 1
  }

  /** The bound of one holds in every window exactly when the number of alive targets divides 2^64. */
  lemma RoundRobinFairIff(flags: seq<bool>)
    requires AliveOf(flags) != []
    ensures NeverFavours(flags) <==> WORD % |AliveOf(flags)| == 0
  {
    hide AliveOf, Picks, PicksOf, Fairness.Count, Fairness.Distance;
    var k := |AliveOf(flags)|;
    Fairness.AlwaysFairIff(WORD, k);
    forall c: nat, n: nat, i: nat, j: nat | c < WORD && i < k && j < k
      ensures Fairness.Distance(PicksOf(Picks(flags, c, n), AliveOf(flags)[i]), PicksOf(Picks(flags, c, n), AliveOf(flags)[j]))
              == Fairness.Distance(Fairness.Count(WORD, k, c, n, i), Fairness.Count(WORD, k, c, n, j))
    {
      PicksCounted(flags, c, n, i);
      PicksCounted(flags, c, n, j);
    }
  }
}
