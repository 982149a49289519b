/** Division with remainder by a variable divisor: small steps the solver does not take alone. */
module DivMod {
  lemma MulAtLeast(d: int, k: int)
    requires d >= 1 && k >= 1
    ensures d * k >= k
  {
  }

  lemma Assoc(x: int, y: int, z: int)
    ensures (x * y) * z == x * (y * z)
  {
  }

  lemma Distribute(x: int, y: int, z: int)
    ensures (x - y) * z == x * z - y * z
  {
  }

  lemma Split(m: int, k: int)
    requires k > 0
    ensures m == m / k * k + m % k && 0 <= m % k < k
  {
  }

  /** Quotient and remainder are the only numbers of their kind. */
  lemma Unique(k: int, m: int, q: int, r: int)
    requires k > 0 && m == q * k + r && 0 <= r < k
    ensures m / k == q && m % k == r
  {
    Split(m, k);
    var d := m / k - q;
    assert d * k == m / k * k - q * k;
    assert (-d) * k == -(d * k);
    if d >= 1 {
      MulAtLeast(d, k);
    } else if d <= -1 {
      MulAtLeast(-d, k);
    }
  }

  lemma Small(m: int, k: int)
    requires 0 <= m < k
    ensures m / k == 0 && m % k == m
  {
    Unique(k, m, 0, m);
  }

  /** Adding a multiple of the divisor shifts the quotient only. */
  lemma Shift(m: int, k: int, q: int)
    requires k > 0
    ensures (m + q * k) / k == m / k + q && (m + q * k) % k == m % k
  {
    Split(m, k);
    assert (m / k + q) * k == m / k * k + q * k;
    Unique(k, m + q * k, m / k + q, m % k);
  }

  lemma Next(m: int, k: int)
    requires k > 0
    ensures if m % k == k - 1 then (m + 1) / k == m / k + 1 && (m + 1) % k == 0
            else (m + 1) / k == m / k && (m + 1) % k == m % k + 1
  {
    Split(m, k);
    if m % k == k - 1 {
      assert (m / k + 1) * k == m / k * k + k;
      Unique(k, m + 1, m / k + 1, 0);
    } else {
      Unique(k, m + 1, m / k, m % k + 1);
    }
  }

  /** The quotient and remainder of a difference. */
  lemma Difference(c: int, n: int, k: int)
    requires k > 0
    ensures var q, r := (c + n) / k - c / k, (c + n) % k - c % k;
            if r >= 0 then n / k == q && n % k == r else n / k == q - 1 && n % k == k + r
  {
    Split(c, k);
    Split(c + n, k);
    var q, r := (c + n) / k - c / k, (c + n) % k - c % k;
    assert q * k == (c + n) / k * k - c / k * k;
    if r >= 0 {
      Unique(k, n, q, r);
    } else {
      assert (q - 1) * k == q * k - k;
      Unique(k, n, q - 1, k + r);
    }
  }

  /** Remainders by a divisor of the modulus ignore the modulus. */
  lemma ModOfMod(x: int, w: int, k: int)
    requires k > 0 && w > 0 && w % k == 0
    ensures x % w % k == x % k
  {
    Split(x, w);
    Split(w, k);
    var m, q := w / k, x / w;
    assert q * w == (q * m) * k;
    Shift(x % w, k, q * m);
  }
}
