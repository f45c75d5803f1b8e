/** Division by shifting and subtracting, compact targets, and the proof of work of a target. */
module ArithWork {
  import opened Powers
  import opened ArithBase
  import opened ArithShift
  import opened ArithUint

  // ---------- division ----------

  /** The lowest t bits are zero. */
  ghost predicate LowClear(s: seq<Word>, t: nat) {
    && (forall j :: 0 <= j < |s| && j < t / 32 ==> s[j] == 0)
    && (t / 32 < |s| ==> s[t / 32] % Pow2(t % 32) == 0)
  }

  /** The quotient replaces the dividend; a zero divisor throws and leaves zero. */
  method Divide(u: Uint, b: seq<Word>) returns (threw: bool)
    requires |b| == u.pn.Length
    modifies u.pn
    ensures threw <==> Value(b) == 0
    ensures threw ==> u.Val() == 0
    ensures !threw ==> u.Val() == old(u.Val()) / Value(b)
  {
    hide Value, PowB, Pow2, LowClear;
    ghost var N, D := u.Val(), Value(b);
    var div := new Uint.Copy(b);
    var num := new Uint.Copy(u.pn[..]);
    u.Clear();
    ValueZeros(u.pn[..]);
    var numBits := num.Bits();
    var divBits := div.Bits();
    if divBits == 0 {
      NoBits(D);
      return true;
    }
    BitsPositive(divBits - 1);
    threw := false;
    if divBits > numBits {
      Smaller(N, D, numBits, divBits);
      return;
    }
    var shift := numBits - divBits;
    Align(N, D, numBits, divBits, u.pn.Length);
    div.ShiftLeft(shift);
    ClearAll(u.pn[..], shift + 1);
    Subtractions(u, num, div, shift, N, D);
    Remainder(num.Val(), D, u.Val(), N);
  }

  /** The loop of the division, from the highest bit of the quotient down. */
  method Subtractions(u: Uint, num: Uint, div: Uint, first: nat, ghost N: nat, ghost D: nat)
    requires u.pn != num.pn && u.pn != div.pn && num.pn != div.pn
    requires u.pn.Length == num.pn.Length == div.pn.Length && first < 32 * u.pn.Length && D > 0
    requires u.Val() == 0 && num.Val() == N < D * Pow2(first + 1) && div.Val() == D * Pow2(first)
    requires LowClear(u.pn[..], first + 1)
    modifies u.pn, num.pn, div.pn
    ensures num.Val() + D * u.Val() == N && num.Val() < D
  {
    hide Value, PowB, Pow2, LowClear;
    var shift := first;
    assert D * 0 == 0;
    while shift >= 0
      invariant -1 <= shift <= first
      invariant num.Val() + D * u.Val() == N && num.Val() < D * Pow2(shift + 1)
      invariant shift >= 0 ==> div.Val() == D * Pow2(shift)
      invariant LowClear(u.pn[..], shift + 1)
    {
      PowNext(D, shift);
      var cmp := num.CompareTo(div.pn[..]);
      if cmp >= 0 {
        ghost var v := num.Val();
        ValueBound(num.pn[..]);
        num.Subtract(div.pn[..]);
        NoBorrow(num.pn.Length, v, div.Val(), num.Val());
        ghost var was := u.Val();
        SetBit(u, shift);
        Distribute(D, was, Pow2(shift));
      } else {
        LowerClear(u.pn[..], shift);
      }
      div.ShiftRight(1);
      HalfOfShifted(D, shift);
      shift := shift - 1;
    }
    PowZero(D);
  }

  lemma {:induction false} PowZero(d: nat)
    ensures d * Pow2(0) == d
  {
  }

  lemma {:induction false} PowNext(d: nat, s: nat)
    ensures d * Pow2(s + 1) == 2 * (d * Pow2(s)) && Pow2(s) >= 1
  {
    Distribute(d, Pow2(s), Pow2(s));
  }

  lemma {:induction false} HalfOfShifted(d: nat, s: nat)
    ensures Pow2(1) == 2
    ensures s > 0 ==> d * Pow2(s) / Pow2(1) == d * Pow2(s - 1)
  {
    if s > 0 {
      PowNext(d, s - 1);
    }
  }

  lemma {:induction false} NoBorrow(width: nat, v: nat, w: nat, r: nat)
    requires w <= v < PowB(width) && r == (v - w) % PowB(width)
    ensures r == v - w
  {
    hide PowB;
    Remainder(v - w, PowB(width), 0, v - w);
  }

  lemma {:induction false} NoBits(v: nat)
    requires v < Pow2(0)
    ensures v == 0
  {
  }

  lemma {:induction false} BitsPositive(n: nat)
    ensures Pow2(n) >= 1
  {
  }

  lemma {:induction false} Smaller(n: nat, d: nat, nBits: nat, dBits: nat)
    requires nBits < dBits && n < Pow2(nBits) && Pow2(dBits - 1) <= d
    ensures n / d == 0
  {
    hide Pow2;
    Pow2Monotone(nBits, dBits - 1);
    Remainder(n, d, 0, n);
  }

  /** The divisor shifted to the dividend's highest bit fits, and twice that exceeds the dividend. */
  lemma {:induction false} Align(n: nat, d: nat, nBits: nat, dBits: nat, width: nat)
    requires 0 < dBits <= nBits <= 32 * width
    requires n < Pow2(nBits) && Pow2(dBits - 1) <= d < Pow2(dBits)
    ensures var s := nBits - dBits;
      n < d * Pow2(s + 1) && d * Pow2(s) < PowB(width) && d * Pow2(s) % PowB(width) == d * Pow2(s)
  {
    hide Pow2, PowB;
    var s := nBits - dBits;
    Pow2Add(dBits - 1, s + 1);
    MulLe(Pow2(s + 1), Pow2(dBits - 1), d);
    Pow2Add(dBits, s);
    MulLe(Pow2(s), d + 1, Pow2(dBits));
    Distribute(Pow2(s), d, 1);
    BitsPositive(s);
    Pow2Monotone(nBits, 32 * width);
    PowBIsPow2(width);
    Remainder(d * Pow2(s), PowB(width), 0, d * Pow2(s));
  }

  lemma {:induction false} ClearAll(s: seq<Word>, t: nat)
    requires forall j :: 0 <= j < |s| ==> s[j] == 0
    ensures LowClear(s, t)
  {
    ZeroMod(Pow2(t % 32));
  }

  lemma {:induction false} ZeroMod(m: nat)
    requires m > 0
    ensures 0 % m == 0
  {
  }

  /** The limb that holds bit number t is a multiple of twice that bit. */
  lemma {:induction false} ClearBit(s: seq<Word>, t: nat)
    requires LowClear(s, t + 1) && t / 32 < |s|
    ensures s[t / 32] % Pow2(t % 32 + 1) == 0 && s[t / 32] % Pow2(t % 32) == 0
  {
    ZeroMod(Pow2(t % 32 + 1));
    if t % 32 == 31 {
      assert (t + 1) / 32 == t / 32 + 1;
    } else {
      assert (t + 1) / 32 == t / 32 && (t + 1) % 32 == t % 32 + 1;
    }
    DividesLess(s[t / 32], Pow2(t % 32));
  }

  lemma {:induction false} DividesLess(x: nat, p: nat)
    requires p > 0 && x % (2 * p) == 0
    ensures x % p == 0
  {
    var q := x / (2 * p);
    assert x == (2 * p) * q;
    assert (2 * p) * q == p * (2 * q);
    Remainder(0, p, 2 * q, x);
  }

  lemma {:induction false} LowerClear(s: seq<Word>, t: nat)
    requires LowClear(s, t + 1)
    ensures LowClear(s, t)
  {
    if t / 32 < |s| {
      ClearBit(s, t);
    }
  }

  method SetBit(u: Uint, t: nat)
    requires t < 32 * u.pn.Length && LowClear(u.pn[..], t + 1)
    modifies u.pn
    ensures u.Val() == old(u.Val()) + Pow2(t) && LowClear(u.pn[..], t)
  {
    hide Value, PowB, Pow2, Or, Shl;
    var l, bit := t / 32, t % 32;
    ghost var a := u.pn[..];
    ClearBit(a, t);
    OneBit(bit);
    OrIsAdd(a[l], Pow2(bit), bit + 1);
    u.pn[l] := OrWord(u.pn[l], Shl(1, bit));
    BitValue(a, u.pn[..], l, bit);
    BitClears(a, u.pn[..], t);
  }

  lemma {:induction false} OneBit(bit: nat)
    requires bit < 32
    ensures Shl(1, bit) == Pow2(bit) < Pow2(bit + 1)
  {
    WordBits();
    Pow2Monotone(bit + 1, 32);
    BitsPositive(bit);
    Remainder(Pow2(bit), B, 0, 1 * Pow2(bit));
  }

  lemma {:induction false} BitValue(a: seq<Word>, r: seq<Word>, l: nat, bit: nat)
    requires l < |a| == |r| && bit < 32 && r[l] == a[l] + Pow2(bit)
    requires forall j :: 0 <= j < |a| && j != l ==> r[j] == a[j]
    ensures Value(r) == Value(a) + Pow2(32 * l + bit)
  {
    hide Value, PowB, Pow2;
    ValueNext(a, l);
    ValueNext(r, l);
    assert a[..l] == r[..l];
    assert a[..l + 1] + a[l + 1..] == a && r[..l + 1] + r[l + 1..] == r;
    assert a[l + 1..] == r[l + 1..];
    ValueConcat(a[..l + 1], a[l + 1..]);
    ValueConcat(r[..l + 1], r[l + 1..]);
    PowBIsPow2(l);
    Pow2Add(32 * l, bit);
    Distribute(PowB(l), a[l], Pow2(bit));
  }

  lemma {:induction false} BitClears(a: seq<Word>, r: seq<Word>, t: nat)
    requires t / 32 < |a| == |r| && LowClear(a, t) && r[t / 32] == a[t / 32] + Pow2(t % 32)
    requires forall j :: 0 <= j < |a| && j != t / 32 ==> r[j] == a[j]
    ensures LowClear(r, t)
  {
    var p, x := Pow2(t % 32), a[t / 32];
    assert x == p * (x / p);
    Distribute(p, x / p, 1);
    Remainder(0, p, x / p + 1, x + p);
  }

  // ---------- compact targets ----------

  const SIGN := 0x80_0000

  /** The number that a compact target stands for, before it is cut to 256 bits. */
  function CompactTarget(n: Word): nat {
    var size, word := n / 0x100_0000, n % SIGN;
    if size <= 3 then Shr(word, 8 * (3 - size)) else word * Pow2(8 * (size - 3))
  }

  lemma {:induction false} Pow2Literals()
    ensures Pow2(8) == 0x100 && Pow2(16) == 0x1_0000 && Pow2(24) == 0x100_0000
  {
    assert Pow2(8) == 0x100;
    Pow2Add(8, 8);
    Pow2Add(16, 8);
  }

  /** The overflow test is exact. */
  lemma {:induction false} OverflowExact(size: nat, word: nat)
    requires word < SIGN && size > 3
    ensures word * Pow2(8 * (size - 3)) >= Pow2(256)
      <==> word != 0 && (size > 34 || (word > 0xff && size > 33) || (word > 0xffff && size > 32))
  {
    hide Pow2;
    Pow2Literals();
    var e := 8 * (size - 3);
    if size > 34 {
      FarOut(word, e);
    } else {
      Fits(word, e);
      if size < 33 {
        Pow2Monotone(24, 256 - e);
      }
    }
  }

  lemma {:induction false} FarOut(word: nat, e: nat)
    requires e >= 256
    ensures word * Pow2(e) >= Pow2(256) <==> word != 0
  {
    hide Pow2;
    Pow2Monotone(256, e);
    BitsPositive(256);
    MulLe(Pow2(e), if word == 0 then 0 else 1, word);
  }

  lemma {:induction false} Fits(word: nat, e: nat)
    requires e <= 256
    ensures word * Pow2(e) >= Pow2(256) <==> word >= Pow2(256 - e)
  {
    hide Pow2;
    Pow2Add(256 - e, e);
    CompareScaled(word, Pow2(256 - e), Pow2(e));
  }

  lemma {:induction false} CompareScaled(a: nat, b: nat, p: nat)
    requires p >= 1
    ensures a * p >= b * p <==> a >= b
  {
    if a >= b {
      MulLe(p, b, a);
    } else {
      MulLe(p, a + 1, b);
      Distribute(p, a, 1);
    }
  }

  method FromWord(width: nat, x: Word) returns (u: Uint)
    requires width > 0
    ensures fresh(u) && fresh(u.pn) && u.pn.Length == width && u.Val() == x
  {
    u := new Uint(width);
    ghost var a := u.pn[..];
    u.pn[0] := x;
    assert u.pn[..] == [x] + u.pn[1..];
    assert a == [a[0]] + a[1..];
    assert a[1..] == u.pn[1..];
    ValueConcat([x], u.pn[1..]);
    ValueConcat([a[0]], a[1..]);
    SmallValue(x);
    SmallValue(a[0]);
  }

  lemma {:induction false} SmallValue(x: Word)
    ensures Value([x]) == x
  {
    ValueMore([], x);
    assert [] + [x] == [x];
  }

  method SetCompact(n: Word) returns (u: Uint, negative: bool, overflow: bool)
    ensures fresh(u) && fresh(u.pn) && u.pn.Length == 8
    ensures u.Val() == CompactTarget(n) % PowB(8)
    ensures negative <==> CompactTarget(n) != 0 && n / SIGN % 2 == 1
    ensures overflow <==> CompactTarget(n) >= PowB(8)
  {
    hide PowB, Pow2, Value;
    var size := n / 0x100_0000;
    var word := n % SIGN;
    PowBIsPow2(8);
    WordBound();
    if size <= 3 {
      word := Shr(word, 8 * (3 - size));
      u := FromWord(8, word);
      Remainder(word, PowB(8), 0, word);
    } else {
      u := FromWord(8, word);
      u.ShiftLeft(8 * (size - 3));
      OverflowExact(size, word);
      NonZero(word, 8 * (size - 3));
    }
    negative := word != 0 && n / SIGN % 2 == 1;
    overflow := word != 0 && (size > 34 || (word > 0xff && size > 33) || (word > 0xffff && size > 32));
  }

  lemma {:induction false} WordBound()
    ensures PowB(8) > SIGN
  {
    PowBAdd(1, 7);
    assert PowB(1) == B;
    MulLe(B, 1, PowB(7));
  }

  lemma {:induction false} NonZero(w: nat, e: nat)
    ensures w * Pow2(e) == 0 <==> w == 0
  {
    MulLe(w, 1, Pow2(e));
  }

  // ---------- work ----------

  /** A target that has not overflowed is far enough below the largest number to be incremented. */
  lemma {:induction false} TargetBound(n: Word)
    requires CompactTarget(n) < PowB(8)
    ensures CompactTarget(n) + 1 < PowB(8)
  {
    hide PowB, Pow2;
    var size, word := n / 0x100_0000, n % SIGN;
    WordBound();
    if size > 3 {
      EvenTarget(word, 8 * (size - 3));
      EvenPower();
    }
  }

  lemma {:induction false} EvenTarget(w: nat, e: nat)
    requires e > 0
    ensures w * Pow2(e) % 2 == 0
  {
    assert w * Pow2(e) == 2 * (w * Pow2(e - 1));
  }

  lemma {:induction false} EvenPower()
    ensures PowB(8) % 2 == 0
  {
    hide PowB;
    PowBNext(7);
  }

  /** The largest number minus t, divided by t + 1, plus one, is 2^256 divided by t + 1. */
  lemma {:induction false} WorkFormula(m: nat, t: nat)
    requires 1 <= t && t + 1 < m
    ensures (m - 1 - t) / (t + 1) + 1 == m / (t + 1)
    ensures m / (t + 1) < m
  {
    var d := t + 1;
    var q, r := m / d, m % d;
    Quotient(m, d);
    Distribute(d, q - 1, 1);
    Remainder(r, d, q - 1, m - d);
    MulLe(q, 2, d);
    assert q * d == d * q;
  }

  /** The expected number of hashes for a compact target. */
  method GetBlockProof(bits: Word) returns (r: Uint)
    ensures r.pn.Length == 8
    ensures var t := CompactTarget(bits);
      if t == 0 || t >= Pow2(256) || bits / SIGN % 2 == 1 then r.Val() == 0
      else r.Val() == Pow2(256) / (t + 1)
  {
    hide PowB, Pow2, Value, CompactTarget;
    PowBIsPow2(8);
    var target, negative, overflow := SetCompact(bits);
    ghost var t := CompactTarget(bits);
    var zero := target.EqualTo(0);
    ZeroTarget(t, PowB(8));
    if negative || overflow || zero {
      r := new Uint(8);
      return;
    }
    Remainder(t, PowB(8), 0, t);
    TargetBound(bits);
    r := target.Complement();
    var one := FromWord(8, 1);
    target.Add(one.pn[..]);
    Remainder(t + 1, PowB(8), 0, t + 1);
    var threw := Divide(r, target.pn[..]);
    WorkFormula(PowB(8), t);
    r.Add(one.pn[..]);
    Remainder(PowB(8) / (t + 1), PowB(8), 0, PowB(8) / (t + 1));
  }

  lemma {:induction false} ZeroTarget(t: nat, m: nat)
    requires m > 0
    ensures t < m ==> t % m == t
  {
    if t < m {
      Remainder(t, m, 0, t);
    }
  }
}
