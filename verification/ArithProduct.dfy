/** The steps of schoolbook multiplication on 32-bit limbs. */
module ArithProduct {
  import opened Powers
  import opened ArithBase

  /** A product of two words and two words more: it fits into 64 bits, so that the carry is a word again. */
  function Limb(carry: Word, y: Word, x: Word, z: Word): (n: nat)
    ensures n < B * B && n / B < B
  {
    LimbFits(carry, y, x, z);
    carry + y + x * z
  }

  lemma {:induction false} LimbFits(carry: Word, y: Word, x: Word, z: Word)
    ensures 0 <= carry + y + x * z < B * B && (carry + y + x * z) / B < B
  {
    MulLe(x, 0, z);
    MulLe(x, z, B - 1);
    MulLe(B - 1, x, B - 1);
    CarryFits(carry + y + x * z);
  }

  lemma {:induction false} CarryFits(n: nat)
    requires n < B * B
    ensures n / B < B
  {
  }

  /** One limb of a row: digit and carry together are what comes in. */
  lemma {:induction false} RowStep(p: nat, q: nat, done: nat, before: nat, x: nat, v: nat, carry: nat, y: nat, z: nat)
    requires done + p * q * carry == before + p * (x * v)
    ensures var n := carry + y + x * z;
      done + p * q * (n % B) + B * (p * q) * (n / B) == before + p * q * y + p * (x * (v + q * z))
  {
    var n := carry + y + x * z;
    var pq := p * q;
    Quotient(n, B);
    Split(pq, n % B, n / B);
    TimesSum(pq, carry, y, x * z);
    TimesSum(p, x * v, x * (q * z), 0);
    TimesSum(x, v, q * z, 0);
    Shuffle(p, q, x, z);
  }

  lemma {:induction false} Split(p: nat, lo: nat, hi: nat)
    ensures p * lo + B * p * hi == p * (lo + B * hi)
  {
    assert B * p * hi == p * (B * hi);
  }

  lemma {:induction false} TimesSum(p: nat, a: nat, b: nat, c: nat)
    ensures p * (a + b + c) == p * a + p * b + p * c
  {
  }

  lemma {:induction false} Shuffle(p: nat, q: nat, x: nat, z: nat)
    ensures p * (x * (q * z)) == p * q * (x * z)
  {
    assert x * (q * z) == q * (x * z);
    assert p * (q * (x * z)) == p * q * (x * z);
  }

  /** What a row leaves out is a multiple of what the limbs can hold. */
  lemma {:induction false} RowRest(b: seq<Word>, j: nat, x: Word)
    requires j <= |b|
    ensures var k := |b| - j;
      PowB(j) * (x * Value(b)) == PowB(j) * (x * Value(b[..k])) + PowB(|b|) * (x * Value(b[k..]))
  {
    hide PowB, Value;
    var k := |b| - j;
    assert b == b[..k] + b[k..];
    ValueConcat(b[..k], b[k..]);
    PowBAdd(j, k);
    TimesSum(x, Value(b[..k]), PowB(k) * Value(b[k..]), 0);
    TimesSum(PowB(j), x * Value(b[..k]), x * (PowB(k) * Value(b[k..])), 0);
    Shuffle(PowB(j), PowB(k), x, Value(b[k..]));
  }

  // ---------- a number times a word ----------

  /** The first i limbs of x times a, and the carry. */
  ghost predicate Scaled(r: seq<Word>, a: seq<Word>, x: Word, i: nat, carry: Word) {
    |r| == |a| && i <= |a| && Value(r[..i]) + PowB(i) * carry == x * Value(a[..i])
  }

  lemma {:induction false} ScaledStart(a: seq<Word>, x: Word)
    ensures Scaled(a, a, x, 0, 0)
  {
  }

  lemma {:induction false} ScaledStep(r: seq<Word>, a: seq<Word>, x: Word, i: nat, carry: Word, r': seq<Word>)
    requires Scaled(r, a, x, i, carry) && i < |a| && r' == r[i := Limb(carry, 0, x, a[i]) % B]
    ensures Scaled(r', a, x, i + 1, Limb(carry, 0, x, a[i]) / B)
  {
    hide Value;
    assert r'[..i] == r[..i];
    ValueNext(r', i);
    ValueNext(a, i);
    RowStep(1, PowB(i), Value(r[..i]), 0, x, Value(a[..i]), carry, 0, a[i]);
  }

  lemma {:induction false} ScaledEnd(r: seq<Word>, a: seq<Word>, x: Word, carry: Word)
    requires Scaled(r, a, x, |a|, carry)
    ensures Value(r) == Value(a) * x % PowB(|a|)
  {
    hide PowB, Value;
    assert r[..|a|] == r && a[..|a|] == a;
    ValueBound(r);
    Reduced(Value(r), PowB(|a|), carry, x, Value(a));
  }

  lemma {:induction false} Reduced(r: nat, m: nat, over: nat, x: nat, v: nat)
    requires r < m && r + m * over == x * v
    ensures r == v * x % m
  {
    Remainder(r, m, over, x * v);
  }

  // ---------- one row ----------

  /** The limbs up to i + j with the first i limbs of x times b added from limb j on, and the carry. */
  ghost predicate RowDone(r: seq<Word>, a: seq<Word>, b: seq<Word>, j: nat, x: Word, i: nat, carry: Word) {
    && |r| == |a| == |b| && i + j <= |a|
    && Value(r[..i + j]) + PowB(j) * PowB(i) * carry == Value(a[..i + j]) + PowB(j) * (x * Value(b[..i]))
  }

  lemma {:induction false} RowStart(a: seq<Word>, b: seq<Word>, j: nat, x: Word)
    requires |a| == |b| && j <= |a|
    ensures RowDone(a, a, b, j, x, 0, 0)
  {
  }

  lemma {:induction false} RowNext(r: seq<Word>, a: seq<Word>, b: seq<Word>, j: nat, x: Word, i: nat, carry: Word, r': seq<Word>)
    requires RowDone(r, a, b, j, x, i, carry) && i + j < |a| && r' == r[i + j := Limb(carry, a[i + j], x, b[i]) % B]
    ensures RowDone(r', a, b, j, x, i + 1, Limb(carry, a[i + j], x, b[i]) / B)
  {
    hide Value, PowB;
    var k := i + j;
    assert r'[..k] == r[..k] && i + 1 + j == k + 1;
    ValueNext(r', k);
    ValueNext(a, k);
    ValueNext(b, i);
    PowBAdd(j, i);
    RowStep(PowB(j), PowB(i), Value(r[..k]), Value(a[..k]), x, Value(b[..i]), carry, a[k], b[i]);
    ShiftedNext(j, i);
  }

  lemma {:induction false} ShiftedNext(j: nat, i: nat)
    ensures PowB(j) * PowB(i + 1) == B * (PowB(j) * PowB(i))
  {
    assert PowB(j) * (B * PowB(i)) == B * (PowB(j) * PowB(i));
  }

  /** The number r is a and p, but for a multiple of what the limbs can hold. */
  ghost predicate Sums(r: seq<Word>, a: seq<Word>, p: int, over: nat) {
    |r| == |a| && Value(r) + PowB(|a|) * over == Value(a) + p
  }

  lemma {:induction false} RowEnd(r: seq<Word>, a: seq<Word>, b: seq<Word>, j: nat, x: Word, carry: Word) returns (over: nat)
    requires j <= |a| && RowDone(r, a, b, j, x, |a| - j, carry)
    ensures Sums(r, a, PowB(j) * (x * Value(b)), over)
  {
    hide PowB, Value;
    var k := |a| - j;
    assert r[..k + j] == r && a[..k + j] == a;
    PowBAdd(j, k);
    RowRest(b, j, x);
    over := carry + x * Value(b[k..]);
    TimesSum(PowB(|a|), carry, x * Value(b[k..]), 0);
  }

  // ---------- all rows ----------

  /** The first j limbs of s times b, but for a multiple of what the limbs can hold. */
  ghost predicate RowsDone(r: seq<Word>, s: seq<Word>, b: seq<Word>, j: nat, over: nat) {
    |r| == |s| && j <= |s| && Value(r) + PowB(|s|) * over == Value(s[..j]) * Value(b)
  }

  lemma {:induction false} RowsStart(r: seq<Word>, s: seq<Word>, b: seq<Word>)
    requires |r| == |s| && Value(r) == 0
    ensures RowsDone(r, s, b, 0, 0)
  {
  }

  lemma {:induction false} RowsNext(r: seq<Word>, s: seq<Word>, b: seq<Word>, j: nat, over: nat, r': seq<Word>, more: nat)
    requires RowsDone(r, s, b, j, over) && j < |s| && Sums(r', r, PowB(j) * (s[j] * Value(b)), more)
    ensures RowsDone(r', s, b, j + 1, over + more)
  {
    hide PowB, Value;
    ValueNext(s, j);
    NextRow(Value(s[..j]), PowB(j), s[j], Value(b));
    TimesSum(PowB(|s|), over, more, 0);
  }

  lemma {:induction false} RowsEnd(r: seq<Word>, s: seq<Word>, b: seq<Word>, over: nat)
    requires RowsDone(r, s, b, |s|, over)
    ensures Value(r) == Value(s) * Value(b) % PowB(|s|)
  {
    hide PowB, Value;
    assert s[..|s|] == s;
    ValueBound(r);
    Reduced(Value(r), PowB(|s|), over, Value(b), Value(s));
  }

  /** The rows so far and the next one. */
  lemma {:induction false} NextRow(front: nat, p: nat, x: nat, v: nat)
    ensures (front + p * x) * v == front * v + p * (x * v)
  {
    assert p * x * v == p * (x * v);
  }
}
