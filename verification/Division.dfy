// Quotient and remainder facts the solver does not find by itself.
module Division {

  lemma AtLeast(m: int, d: nat)
    requires m >= 1
    ensures m * d >= d
  {
    assert m * d == d + (m - 1) * d;
  }

  /** The remainder is the only number in range that differs from x by a multiple of d. */
  lemma Unique(x: int, d: nat, k: int, r: nat)
    requires x == k * d + r && r < d
    ensures x % d == r && x / d == k
  {
    var q, s := x / d, x % d;
    assert x == q * d + s;
    var m := k - q;
    assert m * d == s - r by {
      assert m * d == k * d - q * d;
    }
    assert (-m) * d == -(m * d);
    if m >= 1 {
      AtLeast(m, d);
    } else if m <= -1 {
      AtLeast(-m, d);
    }
  }

  lemma Shift(x: int, d: nat, k: int)
    requires d > 0
    ensures (x + k * d) % d == x % d
  {
    assert x + k * d == (x / d + k) * d + x % d by {
      assert (x / d + k) * d == (x / d) * d + k * d;
    }
    Unique(x + k * d, d, x / d + k, x % d);
  }

  /** Numbers closer than d have different remainders. */
  lemma NearbyDiffer(a: int, b: int, d: nat)
    requires a < b < a + d
    ensures a % d != b % d
  {
    if a % d == b % d {
      assert b - a == (b / d - a / d) * d + 0 by {
        assert (b / d - a / d) * d == (b / d) * d - (a / d) * d;
      }
      Unique(b - a, d, b / d - a / d, 0);
      Unique(b - a, d, 0, b - a);
    }
  }

  lemma Successor(k: int, d: nat)
    requires d > 0
    ensures (k % d + 1) % d == (k + 1) % d
  {
    assert k + 1 == (k % d + 1) + (k / d) * d;
    Shift(k % d + 1, d, k / d);
  }

  lemma HalveModulo(x: nat, n: nat)
    requires n > 0
    ensures x % (2 * n) == x % 2 + 2 * ((x / 2) % n)
  {
    var q, r := x / 2 / n, (x / 2) % n;
    assert x == q * (2 * n) + (x % 2 + 2 * r);
    Unique(x, 2 * n, q, x % 2 + 2 * r);
  }
}
