/** Numbers as compact targets: rounding down to the nearest compact number, and the round trip with reading a
    compact target. */
module ArithCompact {
  import opened Powers
  import opened ArithBase
  import opened ArithShift
  import opened ArithUint
  import opened ArithWork

  /** 256 to the power k. */
  function Pow256(k: nat): (r: nat)
    ensures r >= 1
  {
    Pow2(8 * k)
  }

  lemma {:induction false} Pow256Add(a: nat, b: nat)
    ensures Pow256(a + b) == Pow256(a) * Pow256(b)
  {
    hide Pow2;
    Pow2Add(8 * a, 8 * b);
  }

  lemma {:induction false} Pow256Next(k: nat)
    ensures Pow256(k + 1) == 0x100 * Pow256(k)
  {
    hide Pow256;
    Pow256Add(1, k);
    Byte();
  }

  lemma {:induction false} Byte()
    ensures Pow256(1) == 0x100 && Pow256(0) == 1
  {
    Pow2Literals();
  }

  // ---------- what a compact target is ----------

  /** The two fields of a compact target. */
  function Exponent(n: Word): nat {
    n / 0x100_0000
  }

  function Mantissa(n: Word): nat {
    n % SIGN
  }

  predicate SignBit(n: Word) {
    n / SIGN % 2 == 1
  }

  lemma {:induction false} Fields(n: Word, m: Word)
    requires Exponent(n) == Exponent(m) && Mantissa(n) == Mantissa(m) && (SignBit(n) <==> SignBit(m))
    ensures n == m
  {
  }

  ghost function Over(x: nat, p: nat): nat
    requires p > 0
  {
    x / p
  }

  /** What is left of a number, scaled by 2^24, after dropping s bytes. */
  ghost function Digits(v: nat, s: nat): nat {
    Over(v * Pow256(3), Pow256(s))
  }

  /** The compact form of a number, in lowest terms: the mantissa is what is left of the number after dropping as
      many bytes as the exponent says, and has no more leading zeros than the sign needs. */
  ghost predicate CompactOf(n: Word, v: nat, negative: bool) {
    if v == 0 then n == 0
    else
      && 0x8000 <= Mantissa(n) == Digits(v, Exponent(n))
      && (SignBit(n) <==> negative)
  }

  /** The forms that are in lowest terms: no byte is shifted out, and the mantissa is as large as the sign bit allows. */
  ghost predicate Canonical(n: Word) {
    n == 0 ||
    (0x8000 <= Mantissa(n) && 0 < Exponent(n) && (Exponent(n) < 3 ==> Mantissa(n) % Pow256(3 - Exponent(n)) == 0))
  }

  // ---------- divisions ----------

  lemma {:induction false} DivScaled(x: nat, p: nat, c: nat)
    requires p > 0 && c > 0
    ensures p * c > 0 && x * c / (p * c) == x / p
  {
    var q, r := x / p, x % p;
    Quotient(x, p);
    MulLe(c, r + 1, p);
    MulLe(p, 1, c);
    Distribute(c, r, 1);
    Distribute(c, p * q, r);
    assert c * (p * q) == (p * c) * q;
    Remainder(c * r, p * c, q, x * c);
  }

  lemma {:induction false} DivDiv(x: nat, p: nat)
    requires p > 0
    ensures x / p / 0x100 == x / (0x100 * p)
  {
    var q, r := x / p, x % p;
    Quotient(x, p);
    var a, b := q / 0x100, q % 0x100;
    TwoDigits(p, a, b, r);
    Remainder(p * b + r, 0x100 * p, a, x);
  }

  lemma {:induction false} TwoDigits(p: nat, a: nat, b: nat, r: nat)
    requires r < p && b < 0x100
    ensures p * (0x100 * a + b) + r == p * b + r + (0x100 * p) * a && p * b + r < 0x100 * p
  {
    MulLe(p, b + 1, 0x100);
    Distribute(p, b, 1);
    Distribute(p, 0x100 * a, b);
  }

  lemma {:induction false} DivBounds(x: nat, p: nat, low: nat, high: nat)
    requires p > 0 && low <= x / p < high
    ensures low * p <= x < high * p && x / p * p <= x
  {
    Quotient(x, p);
    MulLe(p, low, x / p);
    MulLe(p, x / p + 1, high);
    Distribute(p, x / p, 1);
  }

  lemma {:induction false} DivLeast(x: nat, p: nat, k: nat)
    requires p > 0 && k * p <= x
    ensures k <= x / p
  {
    Quotient(x, p);
    if x / p < k {
      MulLe(p, x / p + 1, k);
      Distribute(p, x / p, 1);
    }
  }

  lemma {:induction false} DivBelow(x: nat, p: nat, k: nat)
    requires p > 0 && x < k * p
    ensures x / p < k
  {
    Quotient(x, p);
    if x / p >= k {
      MulLe(p, k, x / p);
    }
  }

  // ---------- one form for each number ----------

  lemma {:induction false} SameExponent(x: nat, s: nat, t: nat)
    requires 0x8000 <= x / Pow256(s) < SIGN && 0x8000 <= x / Pow256(t) < SIGN
    ensures s == t
  {
    hide Pow256;
    if s < t {
      Larger(x, s, t);
    } else if t < s {
      Larger(x, t, s);
    }
  }

  lemma {:induction false} Larger(x: nat, s: nat, t: nat)
    requires s < t && x / Pow256(s) < SIGN
    ensures x / Pow256(t) < 0x8000
  {
    hide Pow256;
    DivBounds(x, Pow256(s), 0, SIGN);
    Pow256Next(s);
    Pow256Monotone(s + 1, t);
    MulLe(0x8000, Pow256(s + 1), Pow256(t));
    DivBelow(x, Pow256(t), 0x8000);
  }

  lemma {:induction false} Pow256Monotone(a: nat, b: nat)
    requires a <= b
    ensures Pow256(a) <= Pow256(b)
  {
    hide Pow2;
    Pow2Monotone(8 * a, 8 * b);
  }

  /** A number and a sign have one compact form at most. */
  lemma {:induction false} CompactUnique(n: Word, m: Word, v: nat, negative: bool)
    requires CompactOf(n, v, negative) && CompactOf(m, v, negative)
    ensures n == m
  {
    hide Pow256;
    if v > 0 {
      SameExponent(v * Pow256(3), Exponent(n), Exponent(m));
      Fields(n, m);
    }
  }

  // ---------- reading ----------

  /** A compact target stands for its scaled mantissa, rounded down. */
  lemma {:induction false} TargetScaled(n: Word)
    ensures CompactTarget(n) == Mantissa(n) * Pow256(Exponent(n)) / Pow256(3)
    ensures CompactTarget(n) * Pow256(3) <= Mantissa(n) * Pow256(Exponent(n))
    ensures CompactTarget(n) * Pow256(3) == Mantissa(n) * Pow256(Exponent(n))
      <==> Exponent(n) >= 3 || Mantissa(n) % Pow256(3 - Exponent(n)) == 0
  {
    hide Pow2, Pow256;
    var s, w := Exponent(n), Mantissa(n);
    if s <= 3 {
      Pow256Add(3 - s, s);
      DivScaled(w, Pow256(3 - s), Pow256(s));
      assert CompactTarget(n) == w / Pow256(3 - s) by { SmallTarget(n); }
      Lost(w, Pow256(3 - s), Pow256(s));
      if s == 3 {
        Byte();
      }
    } else {
      Pow256Add(s - 3, 3);
      LargeTarget(n);
      var t := w * Pow256(s - 3);
      assert t * Pow256(3) == w * Pow256(s);
      Remainder(0, Pow256(3), t, w * Pow256(s));
    }
  }

  lemma {:induction false} SmallTarget(n: Word)
    requires Exponent(n) <= 3
    ensures CompactTarget(n) == Mantissa(n) / Pow256(3 - Exponent(n))
  {
    hide Pow2;
  }

  lemma {:induction false} LargeTarget(n: Word)
    requires Exponent(n) > 3
    ensures CompactTarget(n) == Mantissa(n) * Pow256(Exponent(n) - 3)
  {
    hide Pow2;
  }

  lemma {:induction false} Lost(w: nat, p: nat, q: nat)
    requires p > 0 && q > 0
    ensures w / p * (p * q) <= w * q
    ensures w / p * (p * q) == w * q <==> w % p == 0
  {
    var d, r := w / p, w % p;
    Quotient(w, p);
    assert w * q == (p * d) * q + r * q;
    assert (p * d) * q == d * (p * q);
    MulLe(q, 0, r);
    if r > 0 {
      MulLe(q, 1, r);
    }
  }

  // ---------- rounding down ----------

  /** The compact form of a number stands for the greatest number not above it that has a compact form. */
  lemma {:induction false} GreatestBelow(n: Word, v: nat, negative: bool, other: Word)
    requires CompactOf(n, v, negative)
    ensures CompactTarget(n) <= v
    ensures CompactTarget(other) <= v ==> CompactTarget(other) <= CompactTarget(n)
  {
    hide Pow256, CompactTarget;
    TargetScaled(n);
    if v > 0 {
      var x, p := v * Pow256(3), Pow256(Exponent(n));
      DivBounds(x, p, 0x8000, SIGN);
      CompareScaled(v, CompactTarget(n), Pow256(3));
      if CompactTarget(other) <= v {
        BelowMantissa(n, v, negative, other);
        DivLeast(Mantissa(n) * p, Pow256(3), CompactTarget(other));
      }
    } else {
      ZeroTargets(n);
    }
  }

  lemma {:induction false} ZeroTargets(n: Word)
    requires n == 0
    ensures CompactTarget(n) == 0
  {
    TargetScaled(n);
  }

  lemma {:induction false} BelowMantissa(n: Word, v: nat, negative: bool, other: Word)
    requires CompactOf(n, v, negative) && v > 0 && CompactTarget(other) <= v
    ensures CompactTarget(other) * Pow256(3) <= Mantissa(n) * Pow256(Exponent(n))
  {
    hide Pow256, CompactTarget, Digits, Exponent, Mantissa;
    var s, t := Exponent(n), Exponent(other);
    TargetScaled(other);
    MulLe(Pow256(3), CompactTarget(other), v);
    if t < s {
      MantissaBound(other);
      FewerDigits(Mantissa(other), t, s);
      MulLe(Pow256(s), 0x8000, Mantissa(n));
    } else if s < 3 {
      NoneDropped(v, s);
    } else {
      WholeDigits(Mantissa(other), t, s, v);
    }
  }

  lemma {:induction false} MantissaBound(n: Word)
    ensures Mantissa(n) < SIGN
  {
  }

  lemma {:induction false} NoneDropped(v: nat, s: nat)
    requires s <= 3
    ensures Digits(v, s) * Pow256(s) == v * Pow256(3)
    ensures Digits(v, s) == v * Pow256(3 - s)
  {
    hide Pow256;
    Pow256Add(3 - s, s);
    assert v * Pow256(3) == Pow256(s) * (v * Pow256(3 - s));
    Remainder(0, Pow256(s), v * Pow256(3 - s), v * Pow256(3));
  }

  lemma {:induction false} WholeDigits(w: nat, t: nat, s: nat, v: nat)
    requires s <= t && w * Pow256(t) <= v * Pow256(3)
    ensures w * Pow256(t) <= Digits(v, s) * Pow256(s)
  {
    hide Pow256;
    Pow256Add(t - s, s);
    var k := w * Pow256(t - s);
    assert w * Pow256(t) == k * Pow256(s);
    DivLeast(v * Pow256(3), Pow256(s), k);
    MulLe(Pow256(s), k, Digits(v, s));
  }

  lemma {:induction false} FewerDigits(w: nat, t: nat, s: nat)
    requires w < SIGN && t < s
    ensures w * Pow256(t) <= 0x8000 * Pow256(s)
  {
    hide Pow256;
    Pow256Next(t);
    Pow256Monotone(t + 1, s);
    MulLe(Pow256(t), w, SIGN);
    MulLe(0x8000, Pow256(t + 1), Pow256(s));
  }

  /** Nothing is lost exactly if the number has a compact form at all. */
  lemma {:induction false} LosslessExact(n: Word, v: nat, negative: bool)
    requires CompactOf(n, v, negative)
    ensures CompactTarget(n) == v <==> exists other: Word :: CompactTarget(other) == v
  {
    hide CompactTarget, CompactOf;
    if other: Word :| CompactTarget(other) == v {
      GreatestBelow(n, v, negative, other);
    }
  }

  // ---------- the round trip ----------

  lemma {:induction false} FormCanonical(n: Word, v: nat, negative: bool)
    requires CompactOf(n, v, negative)
    ensures Canonical(n)
  {
    hide Pow256;
    var s := Exponent(n);
    if v > 0 && s < 3 {
      NoneDropped(v, s);
      Remainder(0, Pow256(3 - s), v, Mantissa(n));
      if s == 0 {
        MulLe(Pow256(3), 1, v);
        ThreeBytes();
        Byte();
      }
    }
  }

  lemma {:induction false} ThreeBytes()
    ensures Pow256(3) == 0x100_0000
  {
    Pow2Literals();
  }

  /** Reading a compact target into 256 bits and writing the number and the sign again gives the same target
      exactly if it is in lowest terms and has not overflowed. */
  lemma {:induction false} CompactRoundTrip(n: Word, again: Word)
    requires CompactOf(again, CompactTarget(n) % Pow2(256), CompactTarget(n) != 0 && SignBit(n))
    ensures again == n <==> Canonical(n) && CompactTarget(n) < Pow2(256)
  {
    hide Pow256, CompactTarget, Pow2, Canonical, Exponent, Mantissa, SignBit, Digits;
    var t, v := CompactTarget(n), CompactTarget(n) % Pow2(256);
    if t < Pow2(256) {
      Remainder(t, Pow2(256), 0, t);
      FormCanonical(again, v, t != 0 && SignBit(n));
      if n == 0 {
        ZeroTargets(n);
      } else if Canonical(n) {
        OwnForm(n);
        CompactUnique(n, again, v, SignBit(n));
      }
    } else {
      GreatestBelow(again, v, t != 0 && SignBit(n), n);
    }
  }

  lemma {:induction false} OwnForm(n: Word)
    requires Canonical(n) && n != 0
    ensures CompactTarget(n) != 0 && CompactOf(n, CompactTarget(n), SignBit(n))
  {
    hide Pow256, CompactTarget, Pow2, Exponent, Mantissa;
    TargetScaled(n);
    Remainder(0, Pow256(Exponent(n)), Mantissa(n), CompactTarget(n) * Pow256(3));
    Scaled(Mantissa(n), Exponent(n), CompactTarget(n));
  }

  lemma {:induction false} Scaled(w: nat, s: nat, v: nat)
    requires w > 0 && v * Pow256(3) == w * Pow256(s)
    ensures v != 0
  {
    hide Pow256;
    MulLe(w, 1, Pow256(s));
  }

  // ---------- writing ----------

  lemma {:induction false} ByteCount(v: nat, bits: nat)
    requires v < Pow2(bits) && (bits > 0 ==> Pow2(bits - 1) <= v)
    ensures var size := (bits + 7) / 8;
      v < Pow256(size) && (size > 0 ==> Pow256(size - 1) <= v)
  {
    hide Pow2;
    var size := (bits + 7) / 8;
    Pow2Monotone(bits, 8 * size);
    if size > 0 {
      Pow2Monotone(8 * (size - 1), bits - 1);
    }
  }

  /** The leading three bytes. */
  lemma {:induction false} Leading(v: nat, size: nat)
    requires v < Pow256(size) && (size > 0 ==> Pow256(size - 1) <= v)
    ensures Digits(v, size) < 2 * SIGN
    ensures if v == 0 then size == 0 && Digits(v, size) == 0 else Digits(v, size) >= 0x1_0000
  {
    hide Pow256;
    ThreeBytes();
    var x := v * Pow256(3);
    MulLe(Pow256(3), v + 1, Pow256(size));
    DivBelow(x, Pow256(size), 0x100_0000);
    if size > 0 {
      Pow256Next(size - 1);
      MulLe(Pow256(3), Pow256(size - 1), v);
      DivLeast(x, Pow256(size), 0x1_0000);
    } else {
      Byte();
    }
  }

  lemma {:induction false} DigitsShift(v: nat, size: nat)
    ensures Digits(v, size) == if size <= 3 then v * Pow256(3 - size) else v / Pow256(size - 3)
  {
    hide Pow256;
    if size <= 3 {
      NoneDropped(v, size);
    } else {
      Pow256Add(size - 3, 3);
      DivScaled(v, Pow256(size - 3), Pow256(3));
    }
  }

  lemma {:induction false} Lowered(v: nat, size: nat)
    ensures Digits(v, size) / 0x100 == Digits(v, size + 1)
  {
    hide Pow256;
    Pow256Next(size);
    DivDiv(v * Pow256(3), Pow256(size));
  }

  lemma {:induction false} OrStep(y: nat, r: nat, p: nat)
    ensures Or(2 * y + r, 2 * p) == 2 * Or(y + r / 2, p) + r % 2
  {
    assert (2 * y + r) / 2 == y + r / 2 && (2 * y + r) % 2 == r % 2 && 2 * p / 2 == p && 2 * p % 2 == 0;
  }

  /** Setting a bit that is clear, with r below it. */
  lemma {:induction false} OrBit(q: nat, r: nat, k: nat)
    requires r < Pow2(k)
    ensures Or(2 * Pow2(k) * q + r, Pow2(k)) == 2 * Pow2(k) * q + r + Pow2(k)
    decreases k
  {
    if k == 0 {
      OrOne(q);
    } else {
      OrBit(q, r / 2, k - 1);
      var y := 2 * Pow2(k - 1) * q;
      Double(2 * Pow2(k - 1), q);
      OrStep(y, r, Pow2(k - 1));
    }
  }

  lemma {:induction false} OrOne(q: nat)
    ensures Or(2 * q, 1) == 2 * q + 1
  {
    OrZero(q);
    if q > 0 {
      assert 2 * q / 2 == q;
    }
  }

  lemma {:induction false} LowLimbs(s: seq<Word>)
    requires |s| >= 2
    ensures Value(s) < B ==> Value(s) == s[0] && s[1] == 0
  {
    hide Value, PowB;
    FirstLimb(s);
    FirstLimb(s[1..]);
  }

  lemma {:induction false} FirstLimb(s: seq<Word>)
    requires |s| >= 1
    ensures Value(s) == s[0] + B * Value(s[1..])
  {
    hide Value;
    assert s == [s[0]] + s[1..];
    ValueConcat([s[0]], s[1..]);
    SmallValue(s[0]);
    assert PowB(1) == B;
  }

  /** Shifts the low 64 bits to the left within 64 bits and keeps the low 32. */
  method LowWord(u: Uint, shift: nat) returns (r: Word)
    requires u.pn.Length == 8
    ensures u.Val() * Pow2(shift) < B ==> r == u.Val() * Pow2(shift)
  {
    hide Value, Pow2, PowB;
    var low := u.pn[0] + B * u.pn[1];
    LowLimbs(u.pn[..]);
    MulLe(u.Val(), 1, Pow2(shift));
    r := low * Pow2(shift) % (B * B) % B;
  }

  lemma {:induction false} SignPower()
    ensures Pow2(0) == 1 && Pow2(23) == SIGN && Pow2(24) == 0x100_0000
  {
    Pow2Literals();
  }

  lemma {:induction false} NoFields(n: Word)
    requires Exponent(n) == 0 && Mantissa(n) == 0 && !SignBit(n)
    ensures n == 0
  {
  }

  lemma {:induction false} HighByte(size: nat)
    requires size < 0x100
    ensures Shl(size, 24) == size * 0x100_0000 && size * 0x100_0000 % Pow2(24) == 0
  {
    SignPower();
  }

  lemma {:induction false} OrSign(size: nat, mantissa: nat)
    requires mantissa < SIGN
    ensures Or(size * 0x100_0000 + mantissa, SIGN) == size * 0x100_0000 + mantissa + SIGN
  {
    hide Or, Pow2;
    SignPower();
    OrBit(size, mantissa, 23);
  }

  /** Puts the fields together. */
  method Pack(mantissa: Word, size: nat, negative: bool) returns (n: Word)
    requires mantissa < SIGN && size < 0x100
    ensures Exponent(n) == size && Mantissa(n) == mantissa && (SignBit(n) <==> negative && mantissa != 0)
  {
    hide Or, Pow2, Shl;
    HighByte(size);
    SignPower();
    OrIsAdd(size * 0x100_0000, mantissa, 24);
    n := Or(mantissa, Shl(size, 24));
    OrSign(size, mantissa);
    if negative && n % SIGN != 0 {
      n := Or(n, SIGN);
    }
  }

  /** The leading three bytes of a number of the given size, shifted down or up. */
  method LeadingBytes(u: Uint, size: nat) returns (m: Word)
    requires u.pn.Length == 8
    requires u.Val() < Pow256(size) && (size > 0 ==> Pow256(size - 1) <= u.Val())
    ensures m == Digits(u.Val(), size)
  {
    hide Pow2, Value, PowB, Digits;
    Leading(u.Val(), size);
    DigitsShift(u.Val(), size);
    if size <= 3 {
      m := LowWord(u, 8 * (3 - size));
    } else {
      var bn := new Uint.Copy(u.pn[..]);
      bn.ShiftRight(8 * (size - 3));
      SignPower();
      m := LowWord(bn, 0);
    }
  }

  /** The compact form of a number; the mantissa moves down a byte where it would reach the sign bit. */
  method GetCompact(u: Uint, negative: bool) returns (n: Word)
    requires u.pn.Length == 8
    ensures CompactOf(n, u.Val(), negative)
  {
    hide Pow2, Pow256, Value, PowB, Exponent, Mantissa, SignBit, Digits;
    var bits := u.Bits();
    var size := (bits + 7) / 8;
    ByteCount(u.Val(), bits);
    Leading(u.Val(), size);
    var mantissa := LeadingBytes(u, size);
    if mantissa / SIGN % 2 == 1 {
      Lowered(u.Val(), size);
      mantissa := mantissa / 0x100;
      size := size + 1;
    }
    n := Pack(mantissa, size, negative);
    if u.Val() == 0 {
      NoFields(n);
    }
  }
}
