/** Numbers as little-endian lists of 32-bit limbs: their value, powers of two, and the bit operations on a limb
    that the limb loops use. */
module ArithBase {
  import opened Powers

  const B := 0x1_0000_0000

  type Word = x: nat | x < B

  /** B to the power j. */
  function PowB(j: nat): (r: nat)
    ensures r >= 1
  {
    if j == 0 then 1 else B * PowB(j - 1)
  }

  lemma {:induction false} PowBAdd(a: nat, b: nat)
    ensures PowB(a + b) == PowB(a) * PowB(b)
  {
    if a > 0 {
      PowBAdd(a - 1, b);
      assert PowB(a + b) == B * PowB(a - 1 + b);
      Scale(PowB(a - 1), PowB(b));
    }
  }

  lemma {:induction false} Scale(x: nat, y: nat)
    ensures B * (x * y) == (B * x) * y
  {
  }

  lemma {:induction false} WordBits()
    ensures Pow2(32) == B
  {
    assert Pow2(8) == 256;
    assert Pow2(16) == 65536 by { Pow2Add(8, 8); }
    Pow2Add(16, 16);
  }

  lemma {:induction false} PowBIsPow2(j: nat)
    ensures PowB(j) == Pow2(32 * j)
  {
    if j > 0 {
      PowBIsPow2(j - 1);
      WordBits();
      Pow2Add(32, 32 * (j - 1));
    }
  }

  // ---------- values ----------

  function Value(s: seq<Word>): nat {
    if s == [] then 0 else Value(s[..|s| - 1]) + PowB(|s| - 1) * s[|s| - 1]
  }

  lemma {:induction false} ValueMore(s: seq<Word>, x: Word)
    ensures Value(s + [x]) == Value(s) + PowB(|s|) * x
  {
    assert (s + [x])[..|s|] == s;
  }

  lemma {:induction false} ValueNext(s: seq<Word>, i: nat)
    requires i < |s|
    ensures Value(s[..i + 1]) == Value(s[..i]) + PowB(i) * s[i]
  {
    assert s[..i + 1] == s[..i] + [s[i]];
    ValueMore(s[..i], s[i]);
  }

  lemma {:induction false} ValueBound(s: seq<Word>)
    ensures Value(s) < PowB(|s|)
  {
    if s != [] {
      var n := |s| - 1;
      ValueBound(s[..n]);
      Grows(PowB(n), s[n]);
    }
  }

  lemma {:induction false} Grows(p: nat, x: Word)
    ensures p * x + p <= B * p
  {
    MulLe(p, x + 1, B);
  }

  lemma {:induction false} ValueConcat(a: seq<Word>, b: seq<Word>)
    ensures Value(a + b) == Value(a) + PowB(|a|) * Value(b)
  {
    if b == [] {
      assert a + b == a;
    } else {
      var n, x := |b| - 1, b[|b| - 1];
      ValueConcat(a, b[..n]);
      assert a + b == (a + b[..n]) + [x];
      ValueMore(a + b[..n], x);
      PowBAdd(|a|, n);
      Spread(PowB(|a|), Value(b[..n]), PowB(n), x);
    }
  }

  lemma {:induction false} Spread(p: nat, v: nat, q: nat, x: nat)
    ensures p * (v + q * x) == p * v + (p * q) * x
  {
    assert q * x * p == (p * q) * x;
  }

  lemma {:induction false} ValueZeros(s: seq<Word>)
    requires forall i :: 0 <= i < |s| ==> s[i] == 0
    ensures Value(s) == 0
  {
    if s != [] {
      ValueZeros(s[..|s| - 1]);
    }
  }

  // ---------- bits of a limb ----------

  /** Bitwise disjunction. */
  function Or(a: nat, b: nat): nat {
    if a == 0 then b
    else 2 * Or(a / 2, b / 2) + (if a % 2 == 1 || b % 2 == 1 then 1 else 0)
  }

  /** Where the bits do not overlap, disjunction is addition. */
  lemma {:induction false} OrIsAdd(high: nat, low: nat, k: nat)
    requires high % Pow2(k) == 0 && low < Pow2(k)
    ensures Or(high, low) == high + low && Or(low, high) == high + low
    decreases k
  {
    OrZero(high);
    if k > 0 {
      Halves(high, k);
      OrIsAdd(high / 2, low / 2, k - 1);
    }
  }

  lemma {:induction false} OrZero(a: nat)
    ensures Or(a, 0) == a
  {
    if a > 0 {
      OrZero(a / 2);
    }
  }

  /** Shifts of a 32-bit word; the one to the left loses what does not fit. */
  function Shl(x: Word, s: nat): Word {
    x * Pow2(s) % B
  }

  function Shr(x: Word, s: nat): (r: Word)
    ensures r <= x
  {
    Quotient(x, Pow2(s));
    x / Pow2(s)
  }

  /** What a shift to the left loses is what the opposite shift yields. */
  lemma {:induction false} ShiftWord(x: Word, s: nat)
    requires s <= 32
    ensures Shl(x, s) + B * Shr(x, 32 - s) == x * Pow2(s)
    ensures Shl(x, s) == x % Pow2(32 - s) * Pow2(s) && Shl(x, s) % Pow2(s) == 0
    ensures Shr(x, 32 - s) < Pow2(s)
  {
    hide Pow2;
    WordBits();
    Pow2Add(32 - s, s);
    var p, q := Pow2(32 - s), Pow2(s);
    Quotient(x, p);
    ShiftBy(x, p, q, x / p, x % p);
  }

  lemma {:induction false} ShiftBy(x: Word, p: nat, q: nat, hi: nat, lo: nat)
    requires p * q == B && x == p * hi + lo && lo < p && q >= 1
    ensures x * q % B + B * hi == x * q && x * q % B == lo * q && x * q % B % q == 0 && hi < q
  {
    ShiftParts(x, p, q, hi, lo);
    Remainder(lo * q, B, hi, x * q);
    Remainder(0, q, lo, lo * q);
  }

  lemma {:induction false} ShiftParts(x: Word, p: nat, q: nat, hi: nat, lo: nat)
    requires p * q == B && x == p * hi + lo && lo < p && q >= 1
    ensures x * q == lo * q + B * hi && lo * q < B && hi < q
  {
    assert x * q == (p * hi) * q + lo * q;
    assert (p * hi) * q == (p * q) * hi;
    MulLe(q, lo + 1, p);
    assert hi >= q ==> p * hi >= p * q by {
      if hi >= q {
        MulLe(p, q, hi);
      }
    }
  }
}
