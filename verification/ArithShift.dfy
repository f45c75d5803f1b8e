/** The two shifts: what the limb loops leave in each limb, and that this is multiplication and division by a
    power of two. */
module ArithShift {
  import opened Powers
  import opened ArithBase

  lemma {:induction false} OrBound(a: nat, b: nat, n: nat)
    requires a < Pow2(n) && b < Pow2(n)
    ensures Or(a, b) < Pow2(n)
  {
    if a > 0 {
      OrBound(a / 2, b / 2, n - 1);
    }
  }

  function OrWord(a: Word, b: Word): Word {
    WordBits();
    OrBound(a, b, 32);
    Or(a, b)
  }

  // ---------- to the left ----------

  /** The bits that limb number m of the source hands to the next limb. */
  function CarryLeft(a: seq<Word>, s: nat, m: nat): Word
    requires m <= |a| && s < 32
  {
    if m == 0 then 0 else Shr(a[m - 1], 32 - s)
  }

  function LeftLimb(a: seq<Word>, k: nat, s: nat, j: nat): Word
    requires j < |a| && s < 32
  {
    if j < k then 0 else OrWord(CarryLeft(a, s, j - k), Shl(a[j - k], s))
  }

  ghost predicate ShiftedLeft(a: seq<Word>, n: seq<Word>, k: nat, s: nat)
    requires s < 32
  {
    |n| == |a| && forall j :: 0 <= j < |a| ==> n[j] == LeftLimb(a, k, s, j)
  }

  lemma {:induction false} LimbLeft(a: seq<Word>, k: nat, s: nat, m: nat)
    requires m + k < |a| && s < 32
    ensures LeftLimb(a, k, s, m + k) + B * CarryLeft(a, s, m + 1) == a[m] * Pow2(s) + CarryLeft(a, s, m)
  {
    hide Pow2, Shl, Shr, Or;
    ShiftWord(a[m], s);
    CarryBound(a, s, m);
    OrIsAdd(Shl(a[m], s), CarryLeft(a, s, m), s);
  }

  lemma {:induction false} CarryBound(a: seq<Word>, s: nat, m: nat)
    requires m <= |a| && s < 32
    ensures CarryLeft(a, s, m) < Pow2(s)
  {
    if m > 0 {
      ShiftWord(a[m - 1], s);
    }
  }

  lemma {:induction false} LeftPrefix(a: seq<Word>, n: seq<Word>, k: nat, s: nat, m: nat)
    requires s < 32 && ShiftedLeft(a, n, k, s) && m + k <= |a|
    ensures Value(n[..m + k]) + PowB(m + k) * CarryLeft(a, s, m) == Value(a[..m]) * (Pow2(s) * PowB(k))
  {
    hide Pow2, CarryLeft, LeftLimb, PowB;
    if m == 0 {
      LeftStart(a, n, k, s);
    } else {
      LeftPrefix(a, n, k, s, m - 1);
      LimbLeft(a, k, s, m - 1);
      ValueNext(n, m - 1 + k);
      ValueNext(a, m - 1);
      PowBAdd(m - 1, k);
      PowBNext(m - 1 + k);
      LeftStep(Value(n[..m - 1 + k]), PowB(m - 1), PowB(k), Pow2(s), CarryLeft(a, s, m - 1), CarryLeft(a, s, m),
        LeftLimb(a, k, s, m - 1 + k), a[m - 1], Value(a[..m - 1]));
    }
  }

  lemma {:induction false} LeftStart(a: seq<Word>, n: seq<Word>, k: nat, s: nat)
    requires s < 32 && ShiftedLeft(a, n, k, s) && k <= |a|
    ensures Value(n[..k]) == 0 && CarryLeft(a, s, 0) == 0 && Value(a[..0]) == 0
  {
    ValueZeros(n[..k]);
  }

  lemma {:induction false} PowBNext(j: nat)
    ensures PowB(j + 1) == B * PowB(j)
  {
  }

  lemma {:induction false} LeftStep(v: nat, pm: nat, pk: nat, q: nat, c: nat, d: nat, limb: nat, x: nat, w: nat)
    requires v + (pm * pk) * c == w * (q * pk) && limb + B * d == x * q + c
    ensures v + (pm * pk) * limb + (B * (pm * pk)) * d == (w + pm * x) * (q * pk)
  {
    var p := pm * pk;
    assert p * limb + (B * p) * d == p * (limb + B * d);
    assert p * (x * q + c) == p * (x * q) + p * c;
    assert p * (x * q) == (pm * x) * (q * pk) by { Shuffle(pm, pk, x, q); }
  }

  lemma {:induction false} Shuffle(a: nat, b: nat, x: nat, q: nat)
    ensures (a * b) * (x * q) == (a * x) * (q * b)
  {
    assert (a * b) * (x * q) == a * (b * (x * q));
    assert b * (x * q) == x * (q * b);
    assert a * (x * (q * b)) == (a * x) * (q * b);
  }

  /** Shifting the limbs multiplies by a power of two, modulo what the limbs can hold. */
  lemma {:induction false} LeftValue(a: seq<Word>, n: seq<Word>, k: nat, s: nat)
    requires s < 32 && ShiftedLeft(a, n, k, s)
    ensures Value(n) == Value(a) * Pow2(32 * k + s) % PowB(|a|)
  {
    hide Pow2, PowB, Value, CarryLeft, LeftLimb;
    PowBIsPow2(k);
    Pow2Add(32 * k, s);
    if k >= |a| {
      LeftAllOut(a, n, k, s);
    } else {
      var m := |a| - k;
      LeftPrefix(a, n, k, s, m);
      assert n[..m + k] == n;
      assert a[..m] + a[m..] == a;
      ValueConcat(a[..m], a[m..]);
      PowBAdd(m, k);
      ValueBound(n);
      LeftTotal(Value(n), PowB(m), PowB(k), Pow2(s), CarryLeft(a, s, m), Value(a[..m]), Value(a[m..]));
    }
  }

  lemma {:induction false} LeftAllOut(a: seq<Word>, n: seq<Word>, k: nat, s: nat)
    requires s < 32 && ShiftedLeft(a, n, k, s) && k >= |a|
    ensures Value(n) == 0 && Value(a) * (PowB(k) * Pow2(s)) % PowB(|a|) == 0
  {
    ValueZeros(n);
    PowBAdd(|a|, k - |a|);
    Divisible(PowB(|a|), PowB(k - |a|), Pow2(s), Value(a));
  }

  lemma {:induction false} Divisible(m: nat, p: nat, q: nat, v: nat)
    requires m > 0
    ensures v * ((m * p) * q) % m == 0
  {
    assert v * ((m * p) * q) == m * (v * (p * q)) by { Shuffle3(m, p, q, v); }
    Remainder(0, m, v * (p * q), v * ((m * p) * q));
  }

  lemma {:induction false} Shuffle3(m: nat, p: nat, q: nat, v: nat)
    ensures v * ((m * p) * q) == m * (v * (p * q))
  {
    assert (m * p) * q == m * (p * q);
    assert v * (m * (p * q)) == m * (v * (p * q));
  }

  lemma {:induction false} LeftTotal(v: nat, pm: nat, pk: nat, q: nat, c: nat, low: nat, high: nat)
    requires pm >= 1 && pk >= 1 && v < pm * pk && v + (pm * pk) * c == low * (q * pk)
    ensures v == (low + pm * high) * (pk * q) % (pm * pk)
  {
    assert (pm * high) * (pk * q) == (pm * pk) * (high * q) by { Shuffle(pm, pk, high, q); }
    assert (low + pm * high) * (pk * q) == low * (pk * q) + (pm * high) * (pk * q);
    assert (pm * pk) * (c + high * q) == (pm * pk) * c + (pm * pk) * (high * q);
    Remainder(v, pm * pk, c + high * q, (low + pm * high) * (pk * q));
  }

  // ---------- to the right ----------

  function CarryRight(a: seq<Word>, s: nat, m: nat): Word
    requires s < 32
  {
    if m < |a| then Shl(a[m], 32 - s) else 0
  }

  function RightLimb(a: seq<Word>, k: nat, s: nat, j: nat): Word
    requires j < |a| && s < 32
  {
    if j + k < |a| then OrWord(Shr(a[j + k], s), CarryRight(a, s, j + k + 1)) else 0
  }

  ghost predicate ShiftedRight(a: seq<Word>, n: seq<Word>, k: nat, s: nat)
    requires s < 32
  {
    |n| == |a| && forall j :: 0 <= j < |a| ==> n[j] == RightLimb(a, k, s, j)
  }

  /** The bits of a limb that fall out of it to the right. */
  function Rest(a: seq<Word>, s: nat, m: nat): nat {
    if m < |a| then a[m] % Pow2(s) else 0
  }

  lemma {:induction false} LimbRight(a: seq<Word>, k: nat, s: nat, j: nat)
    requires j + k < |a| && s < 32
    ensures Pow2(s) * RightLimb(a, k, s, j) + Rest(a, s, j + k) == a[j + k] + B * Rest(a, s, j + k + 1)
  {
    hide Pow2, Shl, Shr, Or, CarryRight, Rest;
    var x, c := a[j + k], CarryRight(a, s, j + k + 1);
    ShiftWord(x, 32 - s);
    RestShifted(a, s, j + k + 1);
    OrIsAdd(c, Shr(x, s), 32 - s);
    RightParts(a, s, j + k);
    Distribute(Pow2(s), Shr(x, s), c);
  }

  lemma {:induction false} Distribute(d: nat, a: nat, b: nat)
    ensures d * (a + b) == d * a + d * b
  {
  }

  lemma {:induction false} RightParts(a: seq<Word>, s: nat, m: nat)
    requires m < |a|
    ensures Pow2(s) * Shr(a[m], s) + Rest(a, s, m) == a[m]
  {
    hide Pow2;
    Quotient(a[m], Pow2(s));
  }

  lemma {:induction false} RestShifted(a: seq<Word>, s: nat, m: nat)
    requires s < 32
    ensures Pow2(s) * CarryRight(a, s, m) == B * Rest(a, s, m)
    ensures CarryRight(a, s, m) % Pow2(32 - s) == 0
  {
    hide Pow2;
    if m < |a| {
      hide Shl;
      ShiftWord(a[m], 32 - s);
      WordBits();
      Pow2Add(s, 32 - s);
      Regroup(Pow2(s), a[m] % Pow2(s), Pow2(32 - s));
    }
  }

  lemma {:induction false} Regroup(q: nat, r: nat, p: nat)
    ensures q * (r * p) == (q * p) * r
  {
  }

  lemma {:induction false} RightPrefix(a: seq<Word>, n: seq<Word>, k: nat, s: nat, m: nat)
    requires s < 32 && ShiftedRight(a, n, k, s) && m + k <= |a|
    ensures Pow2(s) * Value(n[..m]) + Rest(a, s, k) == Value(a[k..k + m]) + PowB(m) * Rest(a, s, k + m)
  {
    hide Pow2, Rest, RightLimb;
    if m > 0 {
      hide PowB;
      RightPrefix(a, n, k, s, m - 1);
      LimbRight(a, k, s, m - 1);
      ValueNext(n, m - 1);
      assert a[k..k + m] == a[k..k + m - 1] + [a[k + m - 1]];
      ValueMore(a[k..k + m - 1], a[k + m - 1]);
      PowBNext(m - 1);
      RightStep(Pow2(s), Value(n[..m - 1]), Rest(a, s, k), Value(a[k..k + m - 1]), PowB(m - 1), Rest(a, s, k + m - 1),
        RightLimb(a, k, s, m - 1), a[k + m - 1], Rest(a, s, k + m));
    }
  }

  lemma {:induction false} RightStep(q: nat, v: nat, r0: nat, w: nat, p: nat, r: nat, limb: nat, x: nat, next: nat)
    requires q * v + r0 == w + p * r && q * limb + r == x + B * next
    ensures q * (v + p * limb) + r0 == (w + p * x) + (B * p) * next
  {
    assert q * (v + p * limb) == q * v + p * (q * limb) by { Spread2(q, v, p, limb); }
    assert p * (q * limb + r) == p * (q * limb) + p * r;
    assert p * (x + B * next) == p * x + (B * p) * next;
  }

  lemma {:induction false} Spread2(q: nat, v: nat, p: nat, x: nat)
    ensures q * (v + p * x) == q * v + p * (q * x)
  {
    assert q * (p * x) == p * (q * x);
  }

  /** Shifting the limbs divides by a power of two. */
  lemma {:induction false} RightValue(a: seq<Word>, n: seq<Word>, k: nat, s: nat)
    requires s < 32 && ShiftedRight(a, n, k, s)
    ensures Value(n) == Value(a) / Pow2(32 * k + s)
  {
    hide Pow2, PowB, Value, RightLimb, Rest;
    PowBIsPow2(k);
    Pow2Add(32 * k, s);
    if k >= |a| {
      RightAllOut(a, n, k, s);
    } else {
      var m := |a| - k;
      RightPrefix(a, n, k, s, m);
      NoRest(a, s);
      assert a[k..k + m] == a[k..];
      assert a[..k] + a[k..] == a;
      ValueConcat(a[..k], a[k..]);
      ValueBound(a[..k]);
      assert n[..m] + n[m..] == n;
      UpperZeros(a, n, k, s);
      ValueConcat(n[..m], n[m..]);
      RestBound(a, s, k);
      RightTotal(Value(a[..k]), PowB(k), Pow2(s), Value(n[..m]), Rest(a, s, k), Value(a[k..]));
    }
  }

  lemma {:induction false} NoRest(a: seq<Word>, s: nat)
    ensures Rest(a, s, |a|) == 0
  {
  }

  lemma {:induction false} RestBound(a: seq<Word>, s: nat, m: nat)
    ensures Rest(a, s, m) < Pow2(s)
  {
  }

  lemma {:induction false} UpperZeros(a: seq<Word>, n: seq<Word>, k: nat, s: nat)
    requires s < 32 && ShiftedRight(a, n, k, s) && k <= |a|
    ensures Value(n[|a| - k..]) == 0
  {
    ValueZeros(n[|a| - k..]);
  }

  lemma {:induction false} RightAllOut(a: seq<Word>, n: seq<Word>, k: nat, s: nat)
    requires s < 32 && ShiftedRight(a, n, k, s) && k >= |a|
    ensures Value(n) == 0 && Value(a) / (PowB(k) * Pow2(s)) == 0
  {
    ValueZeros(n);
    ValueBound(a);
    PowBAdd(|a|, k - |a|);
    MulLe(PowB(|a|), 1, PowB(k - |a|));
    MulLe(PowB(k), 1, Pow2(s));
    Remainder(Value(a), PowB(k) * Pow2(s), 0, Value(a));
  }

  lemma {:induction false} RightTotal(low: nat, p: nat, q: nat, v: nat, r: nat, high: nat)
    requires low < p && r < q && q * v + r == high
    ensures (low + p * high) / (p * q) == v
  {
    assert p * high == p * (q * v) + p * r;
    assert p * (q * v) == (p * q) * v;
    MulLe(p, r + 1, q);
    Remainder(low + p * r, p * q, v, low + p * high);
  }
}
