/** Numbers as big-endian digits of any base: their value, their canonical digits, and powers large enough for
    the buffers of a change of base. */
module BaseDigits {
  import opened Powers

  function Pow(b: nat, e: nat): nat {
    if e == 0 then 1 else b * Pow(b, e - 1)
  }

  function Val(base: nat, s: seq<nat>): nat {
    if s == [] then 0 else base * Val(base, s[..|s| - 1]) + s[|s| - 1]
  }

  /** The digits of a number without leading zeros. */
  function Digits(base: nat, v: nat): (s: seq<nat>)
    requires base >= 2
    decreases v
  {
    if v == 0 then []
    else
      Smaller(base, v);
      Digits(base, v / base) + [v % base]
  }

  ghost predicate InBase(base: nat, s: seq<nat>) {
    forall i :: 0 <= i < |s| ==> s[i] < base
  }

  lemma {:induction false} Smaller(base: nat, v: nat)
    requires base >= 2 && v > 0
    ensures 0 <= v / base < v && v == base * (v / base) + v % base && 0 <= v % base < base
  {
    var q := v / base;
    assert v == base * q + v % base;
    MulLe(q, 2, base);
    assert q * base == base * q;
  }

  lemma {:induction false} DigitsValue(base: nat, v: nat)
    requires base >= 2
    ensures Val(base, Digits(base, v)) == v && InBase(base, Digits(base, v))
    ensures v > 0 ==> Digits(base, v) != [] && Digits(base, v)[0] != 0
    ensures v == 0 ==> Digits(base, v) == []
    decreases v
  {
    if v > 0 {
      hide Digits;
      var q, r := DigitsNext(base, v);
      DigitsValue(base, q);
      var d := Digits(base, q);
      assert (d + [r])[..|d|] == d;
    }
  }

  lemma {:induction false} DigitsNext(base: nat, v: nat) returns (q: nat, r: nat)
    requires base >= 2 && v > 0
    ensures q < v && r < base && v == base * q + r && Digits(base, v) == Digits(base, q) + [r]
  {
    Smaller(base, v);
    q, r := v / base, v % base;
  }

  lemma {:induction false} DigitsMore(base: nat, v: nat, x: nat)
    requires base >= 2 && x < base && (v > 0 || x > 0)
    ensures base * v + x > 0 && Digits(base, base * v + x) == Digits(base, v) + [x]
  {
    if v > 0 {
      MulLe(base, 1, v);
    }
    Remainder(x, base, v, base * v + x);
  }

  /** A list of digits without a leading zero is the list of its number. */
  lemma {:induction false} ValueDigits(base: nat, s: seq<nat>)
    requires base >= 2 && InBase(base, s) && (s != [] ==> s[0] != 0)
    ensures Digits(base, Val(base, s)) == s
    ensures s != [] ==> Val(base, s) > 0
  {
    if s != [] {
      hide Digits;
      var n := |s| - 1;
      assert n > 0 ==> s[..n][0] == s[0];
      ValueDigits(base, s[..n]);
      DigitsMore(base, Val(base, s[..n]), s[n]);
      assert s == s[..n] + [s[n]];
    }
  }

  lemma {:induction false} ValConcat(base: nat, a: seq<nat>, b: seq<nat>)
    ensures Val(base, a + b) == Pow(base, |b|) * Val(base, a) + Val(base, b)
  {
    if b == [] {
      assert a + b == a;
    } else {
      var n, x := |b| - 1, b[|b| - 1];
      ValConcat(base, a, b[..n]);
      assert (a + b)[..|a + b| - 1] == a + b[..n];
      Spread(base, Pow(base, n), Val(base, a), Val(base, b[..n]), x);
    }
  }

  lemma {:induction false} Spread(base: nat, p: nat, v: nat, w: nat, x: nat)
    ensures base * (p * v + w) + x == (base * p) * v + (base * w + x)
  {
    assert base * (p * v) == (base * p) * v;
  }

  lemma {:induction false} ValZeros(base: nat, s: seq<nat>)
    requires forall i :: 0 <= i < |s| ==> s[i] == 0
    ensures Val(base, s) == 0
  {
    if s != [] {
      ValZeros(base, s[..|s| - 1]);
    }
  }

  lemma {:induction false} ValBound(base: nat, s: seq<nat>)
    requires base >= 1 && InBase(base, s)
    ensures Val(base, s) < Pow(base, |s|)
  {
    if s != [] {
      var n := |s| - 1;
      ValBound(base, s[..n]);
      MulLe(base, Val(base, s[..n]) + 1, Pow(base, n));
      assert base * (Val(base, s[..n]) + 1) == base * Val(base, s[..n]) + base;
    }
  }

  // ---------- powers ----------

  lemma {:induction false} PowPositive(b: nat, e: nat)
    requires b >= 1
    ensures Pow(b, e) >= 1
  {
    if e > 0 {
      PowPositive(b, e - 1);
      MulLe(b, 1, Pow(b, e - 1));
    }
  }

  lemma {:induction false} PowAdd(b: nat, m: nat, n: nat)
    ensures Pow(b, m + n) == Pow(b, m) * Pow(b, n)
  {
    if m > 0 {
      PowAdd(b, m - 1, n);
      assert Pow(b, m + n) == b * Pow(b, m - 1 + n);
      Assoc(b, Pow(b, m - 1), Pow(b, n));
    }
  }

  lemma {:induction false} Assoc(a: nat, b: nat, c: nat)
    ensures a * (b * c) == (a * b) * c
  {
  }

  lemma {:induction false} PowMul(b: nat, m: nat, n: nat)
    ensures Pow(b, m * n) == Pow(Pow(b, m), n)
    decreases n
  {
    if n == 0 {
      assert m * n == 0;
    } else {
      PowMul(b, m, n - 1);
      assert m * n == m + m * (n - 1);
      PowAdd(b, m, m * (n - 1));
    }
  }

  lemma {:induction false} PowMonotone(b: nat, m: nat, n: nat)
    requires b >= 1 && m <= n
    ensures Pow(b, m) <= Pow(b, n)
  {
    if m < n {
      PowMonotone(b, m, n - 1);
      PowPositive(b, n - 1);
      MulLe(Pow(b, n - 1), 1, b);
    }
  }

  lemma {:induction false} PowBases(a: nat, b: nat, e: nat)
    requires a <= b
    ensures Pow(a, e) <= Pow(b, e)
    ensures a < b && e > 0 ==> Pow(a, e) < Pow(b, e)
  {
    if e > 0 {
      PowBases(a, b, e - 1);
      MulLe(a, Pow(a, e - 1), Pow(b, e - 1));
      MulLe(Pow(b, e - 1), a, b);
      if a < b {
        PowPositive(b, e - 1);
        MulLe(Pow(b, e - 1), a + 1, b);
        assert Pow(b, e - 1) * (a + 1) == Pow(b, e - 1) * a + Pow(b, e - 1);
      }
    }
  }

  /** If p digits of base a fit into q digits of base b, then n fit into s whenever s / n is at least q / p. */
  lemma {:induction false} Fits(a: nat, b: nat, p: nat, q: nat, n: nat, s: nat)
    requires a >= 1 && b >= 1 && p >= 1 && Pow(a, p) <= Pow(b, q) && q * n <= p * s
    ensures Pow(a, n) <= Pow(b, s)
  {
    hide Pow;
    assert p * n == n * p && p * s == s * p;
    Raised(a, b, p, q, n, s, p * n, q * n, p * s);
    Root(Pow(a, n), Pow(b, s), p);
  }

  lemma {:induction false} Raised(a: nat, b: nat, p: nat, q: nat, n: nat, s: nat, pn: nat, qn: nat, ps: nat)
    requires b >= 1 && Pow(a, p) <= Pow(b, q) && qn <= ps
    requires pn == p * n && pn == n * p && qn == q * n && ps == s * p
    ensures Pow(Pow(a, n), p) <= Pow(Pow(b, s), p)
  {
    hide Pow;
    PowMul(a, p, n);
    PowMul(a, n, p);
    PowMul(b, q, n);
    PowMul(b, s, p);
    PowBases(Pow(a, p), Pow(b, q), n);
    PowMonotone(b, qn, ps);
  }

  lemma {:induction false} Root(x: nat, y: nat, e: nat)
    requires e >= 1 && Pow(x, e) <= Pow(y, e)
    ensures x <= y
  {
    hide Pow;
    if x > y {
      PowBases(y, x, e);
    }
  }

  /** 2^64 <= 58^11. */
  lemma {:induction false} EightBytes()
    ensures Pow(256, 8) <= Pow(58, 11)
  {
    assert Pow(256, 4) == 4294967296;
    PowAdd(256, 4, 4);
    assert Pow(58, 4) == 11316496;
    PowAdd(58, 4, 4);
    assert Pow(58, 3) == 195112;
    PowAdd(58, 8, 3);
  }

  lemma {:induction false} Powers58()
    ensures Pow(58, 71) == 159730386663078066345306447337161584696769904898410078913243029577507397293846405390982563136983769384625594118558891106107392
  {
    assert Pow(58, 4) == 11316496;
    PowAdd(58, 4, 4);
    assert Pow(58, 8) == 128063081718016;
    PowAdd(58, 8, 8);
    assert Pow(58, 16) == 16400152899115243850138976256;
    PowAdd(58, 16, 16);
    assert Pow(58, 32) == 268965015114358137726910587140455987105619365599731777536;
    PowAdd(58, 32, 32);
    assert Pow(58, 64) == 72342179355466901471258927612150153907721848234316445933056526044582001260898145151856420451025374266490194231296;
    assert Pow(58, 3) == 195112;
    PowAdd(58, 4, 3);
    assert Pow(58, 7) == 2207984167552;
    PowAdd(58, 64, 7);
  }

  lemma {:induction false} Powers256()
    ensures Pow(256, 52) == 169230328010303641331690318856389386196071598838855992136870091590247882556495704531248437872567112920983350278405979725889536
  {
    assert Pow(256, 4) == 4294967296;
    PowAdd(256, 4, 4);
    assert Pow(256, 8) == 18446744073709551616;
    PowAdd(256, 8, 8);
    assert Pow(256, 16) == 340282366920938463463374607431768211456;
    PowAdd(256, 16, 16);
    assert Pow(256, 32) == 115792089237316195423570985008687907853269984665640564039457584007913129639936;
    PowAdd(256, 16, 4);
    assert Pow(256, 20) == 1461501637330902918203684832716283019655932542976;
    PowAdd(256, 32, 20);
  }

  /** 58^71 <= 256^52. */
  lemma {:induction false} SeventyOneDigits()
    ensures Pow(58, 71) <= Pow(256, 52)
  {
    hide Pow;
    Powers58();
    Powers256();
  }
}
