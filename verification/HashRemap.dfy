/**
 Which hash values keep their target when one of `k` alive targets dies (ConsistentHash of
 src/upstream/balancer.rs selects by plain modulo): a Chinese-remainder count.
 */
module HashRemap {
  import opened Wrappers
  import opened Balancer
  import DivMod

  /** The position among k targets that position `b` among the other k-1 is, `p` having died. */
  function Reindex(p: nat, b: nat): (a: nat) {
    if b < p then b else b + 1
  }

  ghost predicate Keeps(k: nat, p: nat, h: nat)
    requires k >= 2
  {
    h % k == Reindex(p, h % (k - 1))
  }

  // ---- What the flags say ----

  lemma AliveLast(flags: seq<bool>)
    requires |flags| > 0
    ensures var n: nat := |flags| - 1; AliveOf(flags) == AliveOf(flags[..n]) + (if flags[n] then [n] else [])
  {
  }

  /** `b` is `a` without the entry `d`, which stood at position `p`. */
  ghost predicate Dropped(a: seq<nat>, b: seq<nat>, p: nat, d: nat) {
    p < |a| && a[p] == d && b == a[..p] + a[p + 1..]
  }

  lemma DroppedExtend(a: seq<nat>, b: seq<nat>, p: nat, d: nat, tail: seq<nat>)
    requires Dropped(a, b, p, d)
    ensures Dropped(a + tail, b + tail, p, d)
  {
    assert (a + tail)[..p] == a[..p] && (a + tail)[p + 1..] == a[p + 1..] + tail;
    assert (a[..p] + a[p + 1..]) + tail == a[..p] + (a[p + 1..] + tail);
  }

  lemma {:induction false} AliveWithout(flags: seq<bool>, d: nat) returns (p: nat)
    requires d < |flags| && flags[d]
    ensures Dropped(AliveOf(flags), AliveOf(flags[d := false]), p, d)
  {
    var n := |flags| - 1;
    var f := flags[d := false];
    AliveLast(flags);
    AliveLast(f);
    hide AliveOf;
    var a := AliveOf(flags[..n]);
    if d == n {
      assert f[..n] == flags[..n];
      p := |a|;
      assert (a + [n])[..p] == a && (a + [n])[p + 1..] == [] && a + [] == a;
    } else {
      assert f[..n] == flags[..n][d := false];
      p := AliveWithout(flags[..n], d);
      DroppedExtend(a, AliveOf(f[..n]), p, d, if flags[n] then [n] else []);
    }
  }

  lemma KeepsIsSameTarget(flags: seq<bool>, d: nat, p: nat, h: nat)
    requires d < |flags| && flags[d] && |AliveOf(flags)| >= 2
    requires Dropped(AliveOf(flags), AliveOf(flags[d := false]), p, d)
    ensures Select(flags, h) == Select(flags[d := false], h) <==> Keeps(|AliveOf(flags)|, p, h)
  {
    hide AliveOf;
    var alive, k := AliveOf(flags), |AliveOf(flags)|;
    AliveSorted(flags);
    var b := h % (k - 1);
    assert Select(flags[d := false], h) == Some(alive[Reindex(p, b)]);
  }

  // ---- The count ----

  /** The hash in a window from `w` with remainders `a` by k and `b` by k-1. */
  function HashOf(k: int, w: int, a: int, b: int): (h: int)
    requires k >= 2
  {
    w + (b * k - a * (k - 1) - w) % (k * (k - 1))
  }

  lemma Period(k: int)
    requires k >= 2
    ensures k * (k - 1) > 0
  {
  }

  /** Taking `q` periods off, seen as a multiple of k and as a multiple of k-1. */
  lemma LeftOver(k: int, a: int, b: int, q: int)
    ensures b * k - a * (k - 1) - q * (k * (k - 1)) == (b - a - q * (k - 1)) * k + a
    ensures b * k - a * (k - 1) - q * (k * (k - 1)) == (b - a - q * k) * (k - 1) + b
  {
    var m := q * (k - 1);
    assert q * (k * (k - 1)) == m * k;
    assert m * k == (q * k) * (k - 1);
    assert (b - a - m) * k == b * k - a * k - m * k;
    assert (b - a - q * k) * (k - 1) == b * (k - 1) - a * (k - 1) - (q * k) * (k - 1);
  }

  lemma HashOfRemainders(k: int, w: int, a: int, b: int)
    requires k >= 2 && 0 <= a < k && 0 <= b < k - 1
    ensures k * (k - 1) > 0 && w <= HashOf(k, w, a, b) < w + k * (k - 1)
    ensures HashOf(k, w, a, b) % k == a && HashOf(k, w, a, b) % (k - 1) == b
  {
    Period(k);
    var m := k * (k - 1);
    var x := b * k - a * (k - 1) - w;
    var q := x / m;
    DivMod.Split(x, m);
    var h := HashOf(k, w, a, b);
    assert h == b * k - a * (k - 1) - q * m;
    LeftOver(k, a, b, q);
    DivMod.Unique(k, h, b - a - q * (k - 1), a);
    DivMod.Unique(k - 1, h, b - a - q * k, b);
  }

  /** A hash in the window is determined by its two remainders. */
  lemma HashFromRemainders(k: int, w: int, h: int)
    requires k >= 2 && w <= h < w + k * (k - 1)
    ensures HashOf(k, w, h % k, h % (k - 1)) == h
  {
    Period(k);
    var m := k * (k - 1);
    var a, p := h % k, h / k;
    var b, q := h % (k - 1), h / (k - 1);
    DivMod.Split(h, k);
    DivMod.Split(h, k - 1);
    Combine(h, k, a, p, b, q);
    DivMod.Shift(h - w, m, p - q);
    DivMod.Small(h - w, m);
  }

  lemma Combine(h: int, k: int, a: int, p: int, b: int, q: int)
    requires h == p * k + a && h == q * (k - 1) + b
    ensures b * k - a * (k - 1) == h + (p - q) * (k * (k - 1))
  {
    var m := k * (k - 1);
    DivMod.Distribute(h, q * (k - 1), k);
    DivMod.Assoc(q, k - 1, k);
    assert b * k == h * k - q * m;
    DivMod.Distribute(h, p * k, k - 1);
    DivMod.Assoc(p, k, k - 1);
    assert a * (k - 1) == h * (k - 1) - p * m;
    DivMod.Distribute(p, q, m);
    assert h * k - h * (k - 1) == h;
  }

  /** The kept hashes with remainder below `n` by k-1, one for each. */
  ghost function Listed(k: nat, p: nat, w: nat, n: nat): (s: set<nat>)
    requires k >= 2 && p < k && n <= k - 1
  {
    if n == 0 then {}
    else
      HashOfRemainders(k, w, Reindex(p, n - 1), n - 1);
      Listed(k, p, w, n - 1) + {HashOf(k, w, Reindex(p, n - 1), n - 1)}
  }

  ghost predicate InWindow(k: nat, w: nat, h: nat)
    requires k >= 2
  {
    w <= h < w + k * (k - 1)
  }

  function Remainder(k: nat, h: nat): (b: nat)
    requires k >= 2
  {
    h % (k - 1)
  }

  /** One hash of the window keeps its target with remainder `b`, and it is the one that is listed. */
  lemma OneKeptHash(k: nat, p: nat, w: nat, b: nat)
    requires k >= 2 && p < k && b < k - 1
    ensures var x := HashOf(k, w, Reindex(p, b), b);
            x >= 0 && forall h: nat :: InWindow(k, w, h) && Keeps(k, p, h) && Remainder(k, h) == b <==> h == x
  {
    hide HashOf;
    HashOfRemainders(k, w, Reindex(p, b), b);
    forall h: nat | InWindow(k, w, h) && Keeps(k, p, h) && Remainder(k, h) == b
      ensures h == HashOf(k, w, Reindex(p, b), b)
    {
      HashFromRemainders(k, w, h);
    }
  }

  lemma ListedStep(k: nat, p: nat, w: nat, n: nat) returns (x: nat)
    requires k >= 2 && p < k && 0 < n <= k - 1
    ensures Listed(k, p, w, n) == Listed(k, p, w, n - 1) + {x}
    ensures forall h: nat :: InWindow(k, w, h) && Keeps(k, p, h) && Remainder(k, h) == n - 1 <==> h == x
  {
    hide HashOf, Keeps, Reindex, InWindow, Remainder;
    OneKeptHash(k, p, w, n - 1);
    x := HashOf(k, w, Reindex(p, n - 1), n - 1);
  }

  lemma {:induction false} ListedCount(k: nat, p: nat, w: nat, n: nat)
    requires k >= 2 && p < k && n <= k - 1
    ensures |Listed(k, p, w, n)| == n
    ensures forall h: nat :: h in Listed(k, p, w, n) <==> InWindow(k, w, h) && Keeps(k, p, h) && Remainder(k, h) < n
  {
    if n > 0 {
      hide Keeps, InWindow, Remainder, Listed;
      ListedCount(k, p, w, n - 1);
      var x := ListedStep(k, p, w, n);
      assert x !in Listed(k, p, w, n - 1);
    }
  }

  /**
   When any one of k >= 2 alive targets dies, exactly k-1 of every k(k-1) consecutive hash values
   keep their target, whichever target it is.
   */
  lemma RemapExact(flags: seq<bool>, d: nat, w: nat)
    requires d < |flags| && flags[d] && |AliveOf(flags)| >= 2
    ensures var k := |AliveOf(flags)|;
            |set h: nat | w <= h < w + k * (k - 1) && Select(flags, h) == Select(flags[d := false], h)| == k - 1
  {
    hide AliveOf, Select, Keeps, Listed;
    var k := |AliveOf(flags)|;
    var p := AliveWithout(flags, d);
    ListedCount(k, p, w, k - 1);
    var kept := set h: nat | w <= h < w + k * (k - 1) && Select(flags, h) == Select(flags[d := false], h);
    forall h: nat
      ensures h in kept <==> h in Listed(k, p, w, k - 1)
    {
      KeepsIsSameTarget(flags, d, p, h);
      DivMod.Split(h, k - 1);
    }
    assert kept == Listed(k, p, w, k - 1);
  }
}
