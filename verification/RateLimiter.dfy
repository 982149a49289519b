/**
 plugins/rate_limit.lua as the chunk keeps it: a table of buckets that `on_request` updates in
 place.  Each key's decisions are those of its own bucket, whatever the other keys do.
 */
module RateLimiter {
  import opened TokenBucket

  /** One call: its key, the reading of `now`, and the reading a new bucket would be created with. */
  datatype Call = Call(key: string, now: int, created: int)

  type Table = map<string, Bucket>

  // ---- The table on values ----

  function BucketOf(cfg: Config, t: Table, c: Call): (b: Bucket) {
    if c.key in t then t[c.key] else Fresh(cfg, c.created)
  }

  function StepTable(cfg: Config, t: Table, c: Call): (r: Table) {
    t[c.key := Take(Refill(cfg, BucketOf(cfg, t, c), c.now))]
  }

  function StepAdmits(cfg: Config, t: Table, c: Call): (d: bool) {
    Admits(Refill(cfg, BucketOf(cfg, t, c), c.now))
  }

  function RunTable(cfg: Config, t: Table, calls: seq<Call>): (r: Table)
    decreases |calls|
  {
    if |calls| == 0 then t else RunTable(cfg, StepTable(cfg, t, calls[0]), calls[1..])
  }

  function RunDecisions(cfg: Config, t: Table, calls: seq<Call>): (ds: seq<bool>)
    ensures |ds| == |calls|
    decreases |calls|
  {
    if |calls| == 0 then []
    else [StepAdmits(cfg, t, calls[0])] + RunDecisions(cfg, StepTable(cfg, t, calls[0]), calls[1..])
  }

  // ---- The plugin's table ----

  class BucketCell {
    var tokens: int
    var last: int

    constructor (tokens: int, last: int)
      ensures this.tokens == tokens && this.last == last
    {
      this.tokens := tokens;
      this.last := last;
    }

    ghost function View(): (b: Bucket)
      reads this
    {
      Bucket(tokens, last)
    }
  }

  class Limiter {
    const cfg: Config
    var buckets: map<string, BucketCell>

    ghost predicate Valid()
      reads this
    {
      && ValidConfig(cfg)
      && forall j, k :: j in buckets && k in buckets && buckets[j] == buckets[k] ==> j == k
    }

    ghost function Contents(): (t: Table)
      reads this, buckets.Values
    {
      map k | k in buckets :: buckets[k].View()
    }

    constructor (cfg: Config)
      requires ValidConfig(cfg)
      ensures Valid() && this.cfg == cfg && buckets == map[] && Contents() == map[]
    {
      this.cfg := cfg;
      buckets := map[];
    }

    method GetBucket(key: string, created: int) returns (b: BucketCell)
      requires Valid()
      modifies this`buckets
      ensures Valid() && key in buckets && buckets[key] == b
      ensures forall k :: k in old(buckets) ==> k in buckets && buckets[k] == old(buckets[k])
      ensures fresh(buckets.Values - old(buckets.Values))
      ensures Contents() == if key in old(buckets) then old(Contents()) else old(Contents())[key := Fresh(cfg, created)]
    {
      if key !in buckets {
        var cell := new BucketCell(cfg.capacity, created);
        assert forall k :: k in buckets ==> buckets[k] != cell;
        buckets := buckets[key := cell];
      }
      b := buckets[key];
    }

    method RefillCell(b: BucketCell, now: int)
      modifies b
      ensures b.View() == Refill(cfg, old(b.View()), now)
    {
      var elapsed := now - b.last;
      if elapsed > 0 {
        var filled := b.tokens + elapsed * cfg.rate;
        b.tokens := if cfg.capacity < filled then cfg.capacity else filled;
        b.last := now;
      }
    }

    method OnRequest(c: Call) returns (admitted: bool, header: int)
      requires Valid()
      modifies this, buckets.Values
      ensures Valid() && fresh(buckets.Values - old(buckets.Values))
      ensures admitted == StepAdmits(cfg, old(Contents()), c)
      ensures Contents() == StepTable(cfg, old(Contents()), c)
      ensures header == if admitted then Contents()[c.key].tokens else RetryAfter(cfg, Contents()[c.key])
    {
      hide Refill, Fresh, RetryAfter;
      var b := GetBucket(c.key, c.created);
      ghost var t := Contents();
      assert t[c.key] == b.View();
      ghost var full := Refill(cfg, b.View(), c.now);
      assert StepTable(cfg, old(Contents()), c) == t[c.key := Take(full)];
      RefillCell(b, c.now);
      admitted := b.tokens >= 1;
      if admitted {
        b.tokens := b.tokens - 1;
        header := b.tokens;
      } else {
        header := RetryAfter(cfg, Bucket(b.tokens, b.last));
      }
      assert b.View() == Take(full);
      Untouched(b, c.key, t);
    }

    /** Only the cell of `key` may differ from the table `t`: no other key shares it. */
    lemma Untouched(b: BucketCell, key: string, t: Table)
      requires Valid() && key in buckets && buckets[key] == b
      requires t.Keys == buckets.Keys && forall k :: k in buckets && buckets[k] != b ==> buckets[k].View() == t[k]
      ensures Contents() == t[key := b.View()]
    {
    }
  }

  // ---- Independence of keys ----

  function NowsOf(calls: seq<Call>, k: string): (nows: seq<int>) {
    if |calls| == 0 then []
    else (if calls[0].key == k then [calls[0].now] else []) + NowsOf(calls[1..], k)
  }

  function DecisionsOf(calls: seq<Call>, ds: seq<bool>, k: string): (r: seq<bool>)
    requires |ds| == |calls|
  {
    if |calls| == 0 then []
    else (if calls[0].key == k then [ds[0]] else []) + DecisionsOf(calls[1..], ds[1..], k)
  }

  /** The creation reading of the bucket of `k`: that of the first call with this key. */
  function CreatedOf(calls: seq<Call>, k: string): (t: int) {
    if |calls| == 0 then 0 else if calls[0].key == k then calls[0].created else CreatedOf(calls[1..], k)
  }

  function StartOf(cfg: Config, t: Table, calls: seq<Call>, k: string): (b: Bucket) {
    if k in t then t[k] else Fresh(cfg, CreatedOf(calls, k))
  }

  lemma {:induction false} BeforeShift(cfg: Config, b: Bucket, nows: seq<int>, n: nat)
    requires n < |nows|
    ensures Before(cfg, b, nows, n + 1) == Before(cfg, Take(Refill(cfg, b, nows[0])), nows[1..], n)
  {
    if n > 0 { BeforeShift(cfg, b, nows, n - 1); }
  }

  lemma DecisionsCons(cfg: Config, b: Bucket, nows: seq<int>)
    requires |nows| > 0
    ensures Decisions(cfg, b, nows)
            == [Admits(Refill(cfg, b, nows[0]))] + Decisions(cfg, Take(Refill(cfg, b, nows[0])), nows[1..])
  {
    forall n | 0 <= n < |nows| - 1
      ensures Decision(cfg, b, nows, n + 1) == Decision(cfg, Take(Refill(cfg, b, nows[0])), nows[1..], n)
    {
      BeforeShift(cfg, b, nows, n);
    }
  }

  /** In any interleaving with other keys, a key's decisions and bucket are those of its calls alone. */
  lemma {:induction false} KeysIndependent(cfg: Config, t: Table, calls: seq<Call>, k: string)
    ensures var start := StartOf(cfg, t, calls, k);
            var nows := NowsOf(calls, k);
            && DecisionsOf(calls, RunDecisions(cfg, t, calls), k) == Decisions(cfg, start, nows)
            && (k in RunTable(cfg, t, calls) <==> k in t || |nows| > 0)
            && (k in RunTable(cfg, t, calls) ==> RunTable(cfg, t, calls)[k] == Before(cfg, start, nows, |nows|))
    decreases |calls|
  {
    if |calls| > 0 {
      hide Refill, Take, Admits, Decisions;
      var t', rest := StepTable(cfg, t, calls[0]), calls[1..];
      KeysIndependent(cfg, t', rest, k);
      assert RunDecisions(cfg, t, calls)[1..] == RunDecisions(cfg, t', rest);
      var start, nows := StartOf(cfg, t, calls, k), NowsOf(calls, k);
      if calls[0].key == k {
        assert nows[0] == calls[0].now && nows[1..] == NowsOf(rest, k);
        DecisionsCons(cfg, start, nows);
        BeforeShift(cfg, start, nows, |nows| - 1);
      } else {
        assert nows == NowsOf(rest, k);
      }
    } else {
      assert Decisions(cfg, StartOf(cfg, t, calls, k), []) == [];
    }
  }

  /**
   Over any run of a fresh chunk, whatever the interleaving of keys, each key's decisions obey every
   window bound, no obeying choice is ever ahead of them, and the key's tokens are conserved.
   */
  lemma LimiterOptimal(cfg: Config, calls: seq<Call>, k: string)
    requires ValidConfig(cfg)
    ensures var nows := NowsOf(calls, k);
            var created := CreatedOf(calls, k);
            var ds := DecisionsOf(calls, RunDecisions(cfg, map[], calls), k);
            && Obeys(cfg, created, nows, ds)
            && (forall es: seq<bool>, n: nat :: Obeys(cfg, created, nows, es) && n <= |nows| ==>
                  Admitted(es, 0, n) <= Admitted(ds, 0, n))
    ensures |NowsOf(calls, k)| > 0 ==>
              && k in RunTable(cfg, map[], calls)
              && var b := RunTable(cfg, map[], calls)[k];
              && 0 <= b.tokens <= cfg.capacity
              && Admitted(DecisionsOf(calls, RunDecisions(cfg, map[], calls), k), 0, |NowsOf(calls, k)|) + b.tokens
                 + Lost(cfg, Fresh(cfg, CreatedOf(calls, k)), NowsOf(calls, k), |NowsOf(calls, k)|)
                 == cfg.capacity + cfg.rate * (b.last - CreatedOf(calls, k))
  {
    hide Decisions, Admitted, RunTable, RunDecisions, DecisionsOf;
    var nows, created := NowsOf(calls, k), CreatedOf(calls, k);
    KeysIndependent(cfg, map[], calls, k);
    ChoiceObeys(cfg, created, nows);
    forall es: seq<bool>, n: nat | Obeys(cfg, created, nows, es) && n <= |nows|
      ensures Admitted(es, 0, n) <= Admitted(Decisions(cfg, Fresh(cfg, created), nows), 0, n)
    {
      ChoiceIsGreatest(cfg, created, nows, es, n);
    }
    TokensConserved(cfg, created, nows, |nows|);
  }
}
