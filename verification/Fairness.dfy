/**
 Round-robin counting over a ticket counter that wraps at `w`: how often each of `k` alive targets is
 picked by a window of calls.  The counter of src/upstream/balancer.rs wraps at Balancer.WORD.
 */
module Fairness {
  import DivMod

  /** The ticket of call `i` when the counter stood at `c`. */
  function Ticket(w: nat, c: nat, i: nat): (t: nat)
    requires w > 0
  {
    (c + i) % w
  }

  /** How many of `n` calls from counter `c` pick position `j` of `k`. */
  function Count(w: nat, k: nat, c: nat, n: nat, j: nat): (count: nat)
    requires w > 0 && k > 0
  {
    if n == 0 then 0 else Count(w, k, c, n - 1, j) + (if Ticket(w, c, n - 1) % k == j then 1 else 0)
  }

  /** The same count if the counter were unbounded. */
  function CountStraight(k: nat, c: nat, n: nat, j: nat): (count: nat)
    requires k > 0
  {
    if n == 0 then 0 else CountStraight(k, c, n - 1, j) + (if (c + n - 1) % k == j then 1 else 0)
  }

  // ---- An unbounded counter ----

  /** How many numbers below `m` leave remainder `j`. */
  function Below(k: nat, m: nat, j: nat): (count: nat)
    requires k > 0
  {
    m / k + (if m % k > j then 1 else 0)
  }

  lemma {:induction false} StraightIsBelow(k: nat, c: nat, n: nat, j: nat)
    requires k > 0 && j < k
    ensures CountStraight(k, c, n, j) == Below(k, c + n, j) - Below(k, c, j)
  {
    if n > 0 {
      StraightIsBelow(k, c, n - 1, j);
      DivMod.Next(c + n - 1, k);
    }
  }

  /** Every position gets the floor or the ceiling of n/k. */
  lemma StraightFair(k: nat, c: nat, n: nat, j: nat)
    requires k > 0 && j < k
    ensures CountStraight(k, c, n, j) == n / k || (CountStraight(k, c, n, j) == n / k + 1 && n % k != 0)
  {
    StraightIsBelow(k, c, n, j);
    DivMod.Difference(c, n, k);
  }

  // ---- The wrapping counter ----

  lemma {:induction false} NoWrap(w: nat, k: nat, c: nat, n: nat, j: nat)
    requires k > 0 && c + n <= w && w > 0
    ensures Count(w, k, c, n, j) == CountStraight(k, c, n, j)
  {
    if n > 0 {
      NoWrap(w, k, c, n - 1, j);
      DivMod.Small(c + n - 1, w);
    }
  }

  /** Without a wrap in the window each position gets the floor or the ceiling of n/k. */
  lemma FairWithoutWrap(w: nat, k: nat, c: nat, n: nat, j: nat)
    requires k > 0 && j < k && c + n <= w && w > 0
    ensures Count(w, k, c, n, j) == n / k || (Count(w, k, c, n, j) == n / k + 1 && n % k != 0)
  {
    NoWrap(w, k, c, n, j);
    StraightFair(k, c, n, j);
  }

  lemma {:induction false} SplitAtWrap(w: nat, k: nat, c: nat, n: nat, j: nat)
    requires k > 0 && c < w && w <= c + n && c + n <= 2 * w
    ensures Count(w, k, c, n, j) == CountStraight(k, c, w - c, j) + CountStraight(k, 0, c + n - w, j)
    decreases n
  {
    if c + n == w {
      NoWrap(w, k, c, n, j);
    } else {
      SplitAtWrap(w, k, c, n - 1, j);
      DivMod.Unique(w, c + n - 1, 1, c + n - 1 - w);
    }
  }

  function Distance(a: int, b: int): (d: nat) {
    if a <= b then b - a else a - b
  }

  /** Across one wrap two positions differ by at most two picks. */
  lemma FairAcrossWrap(w: nat, k: nat, c: nat, n: nat, i: nat, j: nat)
    requires k > 0 && i < k && j < k && c < w && n <= w
    ensures Distance(Count(w, k, c, n, i), Count(w, k, c, n, j)) <= 2
    ensures c + n <= w ==> Distance(Count(w, k, c, n, i), Count(w, k, c, n, j)) <= 1
  {
    if c + n <= w {
      FairWithoutWrap(w, k, c, n, i);
      FairWithoutWrap(w, k, c, n, j);
    } else {
      SplitAtWrap(w, k, c, n, i);
      SplitAtWrap(w, k, c, n, j);
      StraightFair(k, c, w - c, i);
      StraightFair(k, c, w - c, j);
      StraightFair(k, 0, c + n - w, i);
      StraightFair(k, 0, c + n - w, j);
    }
  }

  lemma {:induction false} WrapIsInvisible(w: nat, k: nat, c: nat, n: nat, j: nat)
    requires k > 0 && w > 0 && w % k == 0
    ensures Count(w, k, c, n, j) == CountStraight(k, c, n, j)
  {
    if n > 0 {
      WrapIsInvisible(w, k, c, n - 1, j);
      DivMod.ModOfMod(c + n - 1, w, k);
    }
  }

  /** No window ever favours a position by more than one pick. */
  ghost predicate AlwaysFair(w: nat, k: nat)
    requires w > 0 && k > 0
  {
    forall c: nat, n: nat, i: nat, j: nat :: c < w && i < k && j < k ==>
      Distance(Count(w, k, c, n, i), Count(w, k, c, n, j)) <= 1
  }

  /** The picks of the 2r calls that straddle the wrap, r being w % k. */
  lemma {:induction false} StraddleCount(w: nat, k: nat, n: nat, j: nat)
    requires k > 0 && w > 0 && n <= 2 * (w % k)
    ensures var r := w % k;
            && r <= w
            && Count(w, k, w - r, n, j) == (if j < r && j < n then 1 else 0) + (if r + j < n then 1 else 0)
  {
    var r := w % k;
    DivMod.Split(w, k);
    assert r <= w by { assert w / k * k >= 0; }
    if n > 0 {
      StraddleCount(w, k, n - 1, j);
      StraddleTicket(w, k, n - 1);
    }
  }

  lemma StraddleTicket(w: nat, k: nat, i: nat)
    requires k > 0 && w > 0 && i < 2 * (w % k) && w % k <= w
    ensures Ticket(w, w - w % k, i) % k == if i < w % k then i else i - w % k
  {
    var r := w % k;
    DivMod.Split(w, k);
    if i < r {
      DivMod.Small(w - r + i, w);
      DivMod.Unique(k, w - r + i, w / k, i);
    } else {
      DivMod.Unique(w, w - r + i, 1, i - r);
      DivMod.Small(i - r, k);
    }
  }

  /** Round robin is fair in every window, over any number of wraps, exactly when k divides w. */
  lemma AlwaysFairIff(w: nat, k: nat)
    requires w > 0 && 0 < k
    ensures AlwaysFair(w, k) <==> w % k == 0
  {
    if w % k == 0 {
      forall c: nat, n: nat, i: nat, j: nat | c < w && i < k && j < k
        ensures Distance(Count(w, k, c, n, i), Count(w, k, c, n, j)) <= 1
      {
        WrapIsInvisible(w, k, c, n, i);
        WrapIsInvisible(w, k, c, n, j);
        StraightFair(k, c, n, i);
        StraightFair(k, c, n, j);
      }
    } else {
      var r := w % k;
      StraddleCount(w, k, 2 * r, 0);
      StraddleCount(w, k, 2 * r, k - 1);
      assert Distance(Count(w, k, w - r, 2 * r, 0), Count(w, k, w - r, 2 * r, k - 1)) == 2;
    }
  }
}
