/** Powers of two and division, as the limb and digit loops need them. */
module Powers {

  function Pow2(n: nat): (r: nat)
    ensures r >= 1
  {
    if n == 0 then 1 else 2 * Pow2(n - 1)
  }

  lemma {:induction false} Pow2Add(a: nat, b: nat)
    ensures Pow2(a + b) == Pow2(a) * Pow2(b)
  {
    if a > 0 {
      Pow2Add(a - 1, b);
      assert Pow2(a + b) == 2 * Pow2(a - 1 + b);
      Double(Pow2(a - 1), Pow2(b));
    }
  }

  lemma {:induction false} Double(x: nat, y: nat)
    ensures 2 * (x * y) == (2 * x) * y
  {
  }

  lemma {:induction false} Pow2Monotone(a: nat, b: nat)
    requires a <= b
    ensures Pow2(a) <= Pow2(b)
  {
    if a < b {
      Pow2Monotone(a, b - 1);
    }
  }

  lemma {:induction false} MulLe(c: nat, a: int, b: int)
    requires a <= b
    ensures c * a <= c * b
  {
    if c > 0 {
      MulLe(c - 1, a, b);
    }
  }

  /** The unique remainder. */
  lemma {:induction false} Remainder(v: nat, m: nat, q: int, x: int)
    requires v < m && v + m * q == x
    ensures x % m == v && x / m == q
  {
    var r, d := x % m, x / m;
    assert x == m * d + r;
    assert m * (d - q) == v - r;
    if d > q {
      MulLe(m, 1, d - q);
    } else if d < q {
      MulLe(m, d - q, -1);
    }
  }

  lemma {:induction false} Quotient(x: nat, p: nat)
    requires p > 0
    ensures 0 <= x / p <= x && x == p * (x / p) + x % p && x % p < p
  {
    MulLe(x / p, 1, p);
  }

  lemma {:induction false} Halves(x: nat, k: nat)
    requires k > 0 && x % Pow2(k) == 0
    ensures x % 2 == 0 && x / 2 % Pow2(k - 1) == 0
  {
    var p := Pow2(k - 1);
    var q := x / (2 * p);
    assert x == 2 * p * q;
    HalfOf(x, p, q);
    Remainder(0, p, q, x / 2);
  }

  lemma {:induction false} HalfOf(x: nat, p: nat, q: nat)
    requires x == 2 * p * q
    ensures x % 2 == 0 && x / 2 == p * q
  {
    assert x == 2 * (p * q);
  }
}
