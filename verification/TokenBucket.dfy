/**
 What one execution of plugins/rate_limit.lua decides, on values: one bucket per key, refilled by
 whole seconds.  CAPACITY and REFILL_RATE are a parameter; the clock may step backwards.
 */
module TokenBucket {

  datatype Config = Config(capacity: int, rate: int)

  ghost predicate ValidConfig(cfg: Config) {
    cfg.capacity >= 1 && cfg.rate >= 1
  }

  datatype Bucket = Bucket(tokens: int, last: int)

  function Fresh(cfg: Config, created: int): (b: Bucket) {
    Bucket(cfg.capacity, created)
  }

  function Min(a: int, b: int): (m: int) {
    if a <= b then a else b
  }

  function Max(a: int, b: int): (m: int) {
    if a >= b then a else b
  }

  /** `refill(bucket, now)`. */
  function Refill(cfg: Config, b: Bucket, now: int): (r: Bucket) {
    if now - b.last > 0 then Bucket(Min(cfg.capacity, b.tokens + (now - b.last) * cfg.rate), now) else b
  }

  /** The rest of `on_request`: the decision and the bucket it leaves. */
  function Admits(b: Bucket): (d: bool) {
    b.tokens >= 1
  }

  function Take(b: Bucket): (r: Bucket) {
    if Admits(b) then b.(tokens := b.tokens - 1) else b
  }

  // ---- One bucket over a sequence of calls ----

  /** The bucket before call `n`, when the calls read the clock as `nows`. */
  function Before(cfg: Config, start: Bucket, nows: seq<int>, n: nat): (b: Bucket)
    requires n <= |nows|
  {
    if n == 0 then start else Take(Refill(cfg, Before(cfg, start, nows, n - 1), nows[n - 1]))
  }

  function Refilled(cfg: Config, start: Bucket, nows: seq<int>, n: nat): (b: Bucket)
    requires n < |nows|
  {
    Refill(cfg, Before(cfg, start, nows, n), nows[n])
  }

  function Decision(cfg: Config, start: Bucket, nows: seq<int>, n: nat): (d: bool)
    requires n < |nows|
  {
    Admits(Refilled(cfg, start, nows, n))
  }

  function Decisions(cfg: Config, start: Bucket, nows: seq<int>): (ds: seq<bool>)
    ensures |ds| == |nows| && forall n :: 0 <= n < |nows| ==> ds[n] == Decision(cfg, start, nows, n)
  {
    seq(|nows|, n requires 0 <= n < |nows| => Decision(cfg, start, nows, n))
  }

  // ---- An independent account: windows of calls and the running maximum of the clock ----

  /** The running maximum of the clock at call `n`, starting from the bucket's creation. */
  function Clock(created: int, nows: seq<int>, n: nat): (t: int)
    requires n < |nows|
  {
    Max(if n == 0 then created else Clock(created, nows, n - 1), nows[n])
  }

  /** Admissions in calls i, ..., j-1. */
  function Admitted(ds: seq<bool>, i: nat, j: nat): (count: nat)
    requires i <= j <= |ds|
  {
    if i == j then 0 else Admitted(ds, i, j - 1) + (if ds[j - 1] then 1 else 0)
  }

  /** What a window from call `i` to call `j` may admit at most. */
  function Allowance(cfg: Config, created: int, nows: seq<int>, i: nat, j: nat): (a: int)
    requires i <= j < |nows|
  {
    cfg.capacity + cfg.rate * (Clock(created, nows, j) - Clock(created, nows, i))
  }

  /** Every window of the choice `ds` stays within its allowance. */
  ghost predicate Obeys(cfg: Config, created: int, nows: seq<int>, ds: seq<bool>) {
    && |ds| == |nows|
    && forall i: nat, j: nat :: i <= j < |nows| ==> Admitted(ds, i, j + 1) <= Allowance(cfg, created, nows, i, j)
  }

  /** What the window from `i` leaves for call `n`. */
  function Room(cfg: Config, created: int, nows: seq<int>, ds: seq<bool>, i: nat, n: nat): (r: int)
    requires i <= n < |nows| == |ds|
  {
    Allowance(cfg, created, nows, i, n) - Admitted(ds, i, n)
  }

  // ---- The exact token formula ----

  lemma {:induction false} LastIsClock(cfg: Config, created: int, nows: seq<int>, n: nat)
    requires n < |nows|
    ensures Refilled(cfg, Fresh(cfg, created), nows, n).last == Clock(created, nows, n)
    ensures Before(cfg, Fresh(cfg, created), nows, n).last == if n == 0 then created else Clock(created, nows, n - 1)
  {
    if n > 0 {
      LastIsClock(cfg, created, nows, n - 1);
    }
  }

  lemma {:induction false} AdmittedSplit(ds: seq<bool>, i: nat, k: nat, j: nat)
    requires i <= k <= j <= |ds|
    ensures Admitted(ds, i, j) == Admitted(ds, i, k) + Admitted(ds, k, j)
    decreases j - k
  {
    if k < j { AdmittedSplit(ds, i, k, j - 1); }
  }

  lemma RoomStep(cfg: Config, created: int, nows: seq<int>, ds: seq<bool>, i: nat, n: nat)
    requires i < n < |nows| == |ds|
    ensures Room(cfg, created, nows, ds, i, n)
            == Room(cfg, created, nows, ds, i, n - 1) - (if ds[n - 1] then 1 else 0)
               + cfg.rate * (Clock(created, nows, n) - Clock(created, nows, n - 1))
  {
    hide Clock;
    Distribute(cfg.rate, Clock(created, nows, n), Clock(created, nows, n - 1), Clock(created, nows, i));
  }

  lemma RoomHere(cfg: Config, created: int, nows: seq<int>, ds: seq<bool>, n: nat)
    requires n < |nows| == |ds|
    ensures Room(cfg, created, nows, ds, n, n) == cfg.capacity
  {
  }

  lemma TokenStep(cfg: Config, created: int, nows: seq<int>, n: nat)
    requires ValidConfig(cfg) && 0 < n < |nows|
    requires 0 <= Refilled(cfg, Fresh(cfg, created), nows, n - 1).tokens <= cfg.capacity
    ensures var start := Fresh(cfg, created);
            var prev := Refilled(cfg, start, nows, n - 1);
            var gain := cfg.rate * (Clock(created, nows, n) - Clock(created, nows, n - 1));
            && Refilled(cfg, start, nows, n).tokens == Min(cfg.capacity, Take(prev).tokens + gain)
            && Refilled(cfg, start, nows, n).tokens >= 0
  {
    hide Clock, Refill;
    LastIsClock(cfg, created, nows, n - 1);
    LastIsClock(cfg, created, nows, n);
    var prev := Refilled(cfg, Fresh(cfg, created), nows, n - 1);
    assert Before(cfg, Fresh(cfg, created), nows, n) == Take(prev);
    RefillIsMin(cfg, Take(prev), nows[n]);
  }

  lemma TokensAtFirst(cfg: Config, created: int, nows: seq<int>)
    requires ValidConfig(cfg) && 0 < |nows|
    ensures Refilled(cfg, Fresh(cfg, created), nows, 0).tokens == cfg.capacity
  {
    RefillIsMin(cfg, Fresh(cfg, created), nows[0]);
  }

  /**
   After the refill at call `n` the tokens are the least room any window ending there leaves:
   none leaves less, and one leaves exactly that.
   */
  lemma {:induction false} TokensAreLeastRoom(cfg: Config, created: int, nows: seq<int>, n: nat)
    requires ValidConfig(cfg) && n < |nows|
    ensures var ds := Decisions(cfg, Fresh(cfg, created), nows);
            var tokens := Refilled(cfg, Fresh(cfg, created), nows, n).tokens;
            && 0 <= tokens <= cfg.capacity
            && (forall i: nat :: i <= n ==> tokens <= Room(cfg, created, nows, ds, i, n))
            && (exists i: nat :: i <= n && tokens == Room(cfg, created, nows, ds, i, n))
  {
    hide Refilled, Room, Clock;
    var ds := Decisions(cfg, Fresh(cfg, created), nows);
    var tokens := Refilled(cfg, Fresh(cfg, created), nows, n).tokens;
    RoomHere(cfg, created, nows, ds, n);
    if n == 0 {
      TokensAtFirst(cfg, created, nows);
    } else {
      TokensAreLeastRoom(cfg, created, nows, n - 1);
      TokenStep(cfg, created, nows, n);
      var prev := Refilled(cfg, Fresh(cfg, created), nows, n - 1);
      assert ds[n - 1] == Admits(prev);
      forall i: nat | i <= n
        ensures tokens <= Room(cfg, created, nows, ds, i, n)
      {
        if i < n { RoomStep(cfg, created, nows, ds, i, n); }
      }
      var w: nat :| w <= n - 1 && prev.tokens == Room(cfg, created, nows, ds, w, n - 1);
      RoomStep(cfg, created, nows, ds, w, n);
    }
  }

  lemma Distribute(r: int, c: int, b: int, a: int)
    ensures r * (c - a) == r * (b - a) + r * (c - b)
  {
  }

  lemma RefillIsMin(cfg: Config, b: Bucket, now: int)
    requires ValidConfig(cfg) && b.tokens <= cfg.capacity
    ensures Refill(cfg, b, now).tokens == Min(cfg.capacity, b.tokens + cfg.rate * (Max(b.last, now) - b.last))
    ensures Refill(cfg, b, now).last == Max(b.last, now)
    ensures b.tokens <= Refill(cfg, b, now).tokens <= cfg.capacity
  {
    if now > b.last {
      assert cfg.rate * (now - b.last) >= 1 by { Product(cfg.rate, now - b.last); }
    }
  }

  lemma Product(x: int, y: int)
    requires x >= 1 && y >= 1
    ensures x * y >= 1
  {
  }

  /** A call is rejected exactly when admitting it would overfill some window ending at it. */
  lemma RejectedIffOverfull(cfg: Config, created: int, nows: seq<int>, n: nat)
    requires ValidConfig(cfg) && n < |nows|
    ensures var ds := Decisions(cfg, Fresh(cfg, created), nows);
            !ds[n] <==> exists i: nat :: i <= n && Admitted(ds, i, n) + 1 > Allowance(cfg, created, nows, i, n)
  {
    hide Refilled, Clock, Admitted, Allowance;
    var ds := Decisions(cfg, Fresh(cfg, created), nows);
    var tokens := Refilled(cfg, Fresh(cfg, created), nows, n).tokens;
    TokensAreLeastRoom(cfg, created, nows, n);
    if tokens < 1 {
      var w: nat :| w <= n && tokens == Room(cfg, created, nows, ds, w, n);
      assert Admitted(ds, w, n) + 1 > Allowance(cfg, created, nows, w, n);
    } else {
      forall i: nat | i <= n
        ensures Admitted(ds, i, n) + 1 <= Allowance(cfg, created, nows, i, n)
      {
        assert tokens <= Room(cfg, created, nows, ds, i, n);
      }
    }
  }

  /** Of a burst within one second one bucket admits exactly the first CAPACITY calls. */
  lemma {:induction false} BurstExact(cfg: Config, created: int, nows: seq<int>, n: nat)
    requires ValidConfig(cfg) && n < |nows| && forall i :: 0 <= i <= n ==> nows[i] == created
    ensures Decision(cfg, Fresh(cfg, created), nows, n) <==> n < cfg.capacity
    ensures Refilled(cfg, Fresh(cfg, created), nows, n) == Bucket(Max(0, cfg.capacity - n), created)
  {
    if n > 0 { BurstExact(cfg, created, nows, n - 1); }
  }

  // ---- Optimality ----

  /** The plugin's own choice keeps every window within its allowance. */
  lemma ChoiceObeys(cfg: Config, created: int, nows: seq<int>)
    requires ValidConfig(cfg)
    ensures Obeys(cfg, created, nows, Decisions(cfg, Fresh(cfg, created), nows))
  {
    var ds := Decisions(cfg, Fresh(cfg, created), nows);
    forall i: nat, j: nat | i <= j < |nows|
      ensures Admitted(ds, i, j + 1) <= Allowance(cfg, created, nows, i, j)
    {
      TokensAreLeastRoom(cfg, created, nows, j);
      assert Refilled(cfg, Fresh(cfg, created), nows, j).tokens <= Room(cfg, created, nows, ds, i, j);
    }
  }

  /** No choice that keeps every window within its allowance is ever ahead of the plugin's. */
  lemma {:induction false} ChoiceIsGreatest(cfg: Config, created: int, nows: seq<int>, es: seq<bool>, n: nat)
    requires ValidConfig(cfg) && Obeys(cfg, created, nows, es) && n <= |nows|
    ensures Admitted(es, 0, n) <= Admitted(Decisions(cfg, Fresh(cfg, created), nows), 0, n)
  {
    var ds := Decisions(cfg, Fresh(cfg, created), nows);
    if n > 0 {
      ChoiceIsGreatest(cfg, created, nows, es, n - 1);
      if es[n - 1] && !ds[n - 1] {
        RejectedIffOverfull(cfg, created, nows, n - 1);
        var w: nat :| w <= n - 1 && Admitted(ds, w, n - 1) + 1 > Allowance(cfg, created, nows, w, n - 1);
        ChoiceIsGreatest(cfg, created, nows, es, w);
        AdmittedSplit(es, 0, w, n);
        AdmittedSplit(ds, 0, w, n - 1);
        assert Admitted(es, w, n - 1 + 1) <= Allowance(cfg, created, nows, w, n - 1);
      }
    }
  }

  // ---- Conservation ----

  /** The refill of call `n` that did not fit under the capacity. */
  function Overflow(cfg: Config, b: Bucket, now: int): (lost: int) {
    if now > b.last then Max(0, b.tokens + (now - b.last) * cfg.rate - cfg.capacity) else 0
  }

  function Lost(cfg: Config, start: Bucket, nows: seq<int>, n: nat): (lost: int)
    requires n <= |nows|
  {
    if n == 0 then 0 else Lost(cfg, start, nows, n - 1) + Overflow(cfg, Before(cfg, start, nows, n - 1), nows[n - 1])
  }

  /** Admitted calls, tokens left and refill lost to the cap account for all tokens ever granted. */
  lemma {:induction false} TokensConserved(cfg: Config, created: int, nows: seq<int>, n: nat)
    requires ValidConfig(cfg) && n <= |nows|
    ensures var start := Fresh(cfg, created);
            var b := Before(cfg, start, nows, n);
            && 0 <= b.tokens <= cfg.capacity && b.last >= created
            && Admitted(Decisions(cfg, start, nows), 0, n) + b.tokens + Lost(cfg, start, nows, n)
               == cfg.capacity + cfg.rate * (b.last - created)
  {
    var start := Fresh(cfg, created);
    if n > 0 {
      TokensConserved(cfg, created, nows, n - 1);
      var b := Before(cfg, start, nows, n - 1);
      assert Decisions(cfg, start, nows)[n - 1] == Admits(Refill(cfg, b, nows[n - 1]));
      StepConserves(cfg, b, nows[n - 1], created);
      hide Refill, Overflow, Take, Admits;
      assert Before(cfg, start, nows, n) == Take(Refill(cfg, b, nows[n - 1]));
    }
  }

  lemma StepConserves(cfg: Config, b: Bucket, now: int, created: int)
    requires ValidConfig(cfg) && 0 <= b.tokens <= cfg.capacity && b.last >= created
    ensures var r := Refill(cfg, b, now);
            && 0 <= Take(r).tokens <= cfg.capacity && Take(r).last >= created
            && (if Admits(r) then 1 else 0) + Take(r).tokens + Overflow(cfg, b, now)
               == b.tokens + cfg.rate * (Take(r).last - created) - cfg.rate * (b.last - created)
  {
    RefillIsMin(cfg, b, now);
    Distribute(cfg.rate, Max(b.last, now), b.last, created);
  }

  // ---- retry-after ----

  /** `math.ceil((1 - tokens) / REFILL_RATE)` of a rejected call. */
  function RetryAfter(cfg: Config, b: Bucket): (r: int)
    requires ValidConfig(cfg)
  {
    (1 - b.tokens + cfg.rate - 1) / cfg.rate
  }

  /**
   A rejected caller is told to wait one second, and a retry is admitted exactly when the clock has
   passed the bucket's time: the advice is wrong only after the clock has stepped back.
   */
  lemma RetryAfterExact(cfg: Config, created: int, nows: seq<int>, n: nat, retry: int)
    requires ValidConfig(cfg) && n < |nows| && !Decision(cfg, Fresh(cfg, created), nows, n)
    ensures var b := Refilled(cfg, Fresh(cfg, created), nows, n);
            RetryAfter(cfg, b) == 1 && (Admits(Refill(cfg, Take(b), retry)) <==> retry > Clock(created, nows, n))
  {
    TokensAreLeastRoom(cfg, created, nows, n);
    LastIsClock(cfg, created, nows, n);
    var b := Refilled(cfg, Fresh(cfg, created), nows, n);
    assert b.tokens == 0;
    assert RetryAfter(cfg, b) == 1 by { DivSelf(cfg.rate); }
    if retry > b.last { Product(retry - b.last, cfg.rate); }
  }

  lemma DivSelf(r: int)
    requires r >= 1
    ensures (1 - 0 + r - 1) / r == 1
  {
  }
}
