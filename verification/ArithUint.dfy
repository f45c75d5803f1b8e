/** Unsigned integers of any fixed number of 32-bit limbs, changed in place by limb loops. Every operation is
    stated on the number the limbs stand for. */
module ArithUint {
  import opened Powers
  import opened ArithBase
  import opened ArithProduct
  import opened ArithShift

  class Uint {
    const pn: array<Word>

    ghost function Val(): nat
      reads pn
    {
      Value(pn[..])
    }

    constructor (width: nat)
      ensures fresh(pn) && pn.Length == width && Val() == 0
    {
      pn := new Word[width](_ => 0);
      new;
      ValueZeros(pn[..]);
    }

    constructor Copy(b: seq<Word>)
      ensures fresh(pn) && pn[..] == b
    {
      pn := new Word[|b|](i requires 0 <= i < |b| => b[i]);
    }

    /** Addition with carries. */
    method Add(b: seq<Word>)
      requires |b| == pn.Length
      modifies pn
      ensures Val() == (old(Val()) + Value(b)) % PowB(pn.Length)
    {
      hide PowB, Value;
      ghost var a := pn[..];
      var carry: nat := 0;
      ValueEmpty(pn[..0], a[..0], b[..0]);
      for i := 0 to pn.Length
        invariant carry <= 1 && forall j :: i <= j < pn.Length ==> pn[j] == a[j]
        invariant Value(pn[..i]) + PowB(i) * carry == Value(a[..i]) + Value(b[..i])
      {
        var n := carry + pn[i] + b[i];
        ghost var before := pn[..i];
        pn[i] := n % B;
        assert pn[..i] == before;
        AddStep(pn[..], a, b, i, carry, n);
        carry := n / B;
      }
      assert pn[..] == pn[..pn.Length] && a[..pn.Length] == a && b[..pn.Length] == b;
      ValueBound(pn[..]);
      Remainder(Value(pn[..]), PowB(pn.Length), carry, Value(a) + Value(b));
    }

    /** Multiplication by one limb. */
    method MultiplyWord(x: Word)
      modifies pn
      ensures Val() == old(Val()) * x % PowB(pn.Length)
    {
      hide PowB, Value, Scaled, Limb;
      ghost var a := pn[..];
      var carry: Word := 0;
      ScaledStart(a, x);
      for i := 0 to pn.Length
        invariant forall j :: i <= j < pn.Length ==> pn[j] == a[j]
        invariant Scaled(pn[..], a, x, i, carry)
      {
        var n := Limb(carry, 0, x, pn[i]);
        ghost var before := pn[..];
        pn[i] := n % B;
        ScaledStep(before, a, x, i, carry, pn[..]);
        carry := n / B;
      }
      ScaledEnd(pn[..], a, x, carry);
    }

    /** The inner loop of multiplication: adds a limb times a number, shifted by j limbs, as far as there is room. */
    method AddRow(x: Word, b: seq<Word>, j: nat) returns (ghost over: nat)
      requires |b| == pn.Length && j < pn.Length
      modifies pn
      ensures Sums(pn[..], old(pn[..]), PowB(j) * (x * Value(b)), over)
    {
      hide PowB, Value, RowDone, Sums, Limb;
      ghost var a := pn[..];
      var carry: Word := 0;
      var i := 0;
      RowStart(a, b, j, x);
      while i + j < pn.Length
        invariant 0 <= i && i + j <= pn.Length && forall k :: i + j <= k < pn.Length ==> pn[k] == a[k]
        invariant RowDone(pn[..], a, b, j, x, i, carry)
      {
        var n := Limb(carry, pn[i + j], x, b[i]);
        ghost var before := pn[..];
        pn[i + j] := n % B;
        RowNext(before, a, b, j, x, i, carry, pn[..]);
        carry := n / B;
        i := i + 1;
      }
      over := RowEnd(pn[..], a, b, j, x, carry);
    }

    /** Schoolbook multiplication, without what does not fit. */
    method Multiply(b: seq<Word>)
      requires |b| == pn.Length
      modifies pn
      ensures Val() == old(Val()) * Value(b) % PowB(pn.Length)
    {
      hide PowB, Value, RowsDone, Sums;
      ghost var s := pn[..];
      var a := new Uint(pn.Length);
      ghost var over: nat := 0;
      RowsStart(a.pn[..], s, b);
      for j := 0 to pn.Length
        invariant pn[..] == s && RowsDone(a.pn[..], s, b, j, over)
      {
        ghost var before := a.pn[..];
        ghost var more := a.AddRow(pn[j], b, j);
        RowsNext(before, s, b, j, over, a.pn[..], more);
        over := over + more;
      }
      ghost var r := a.pn[..];
      RowsEnd(r, s, b, over);
      forall i | 0 <= i < pn.Length {
        pn[i] := a.pn[i];
      }
      assert pn[..] == r;
    }

    /** Flips every bit: the distance to the largest number. */
    method Complement() returns (r: Uint)
      ensures fresh(r) && fresh(r.pn) && r.pn.Length == pn.Length
      ensures r.Val() == PowB(pn.Length) - 1 - Val()
    {
      r := new Uint(pn.Length);
      for i := 0 to pn.Length
        invariant forall j :: 0 <= j < i ==> r.pn[j] == B - 1 - pn[j]
      {
        r.pn[i] := B - 1 - pn[i];
      }
      ComplementValue(pn[..], r.pn[..]);
    }

    method Increment()
      modifies pn
      ensures Val() == (old(Val()) + 1) % PowB(pn.Length)
    {
      ghost var a := pn[..];
      var i := 0;
      assert pn[..0] == a[..0] == [];
      while i < pn.Length && pn[i] == B - 1
        invariant 0 <= i <= pn.Length && forall j :: i <= j < pn.Length ==> pn[j] == a[j]
        invariant forall j :: 0 <= j < i ==> pn[j] == 0 && a[j] == B - 1
      {
        pn[i] := 0;
        i := i + 1;
      }
      if i < pn.Length {
        pn[i] := pn[i] + 1;
      }
      IncrementValue(a, pn[..], i);
    }

    /** The additive inverse modulo what the limbs can hold. */
    method Negate() returns (r: Uint)
      ensures fresh(r) && fresh(r.pn) && r.pn.Length == pn.Length
      ensures r.Val() == (PowB(pn.Length) - Val()) % PowB(pn.Length)
    {
      r := Complement();
      r.Increment();
    }

    method Subtract(b: seq<Word>)
      requires |b| == pn.Length
      modifies pn
      ensures Val() == (old(Val()) - Value(b)) % PowB(pn.Length)
    {
      hide PowB, Value;
      ghost var v, m := Val(), PowB(pn.Length);
      var c := new Uint.Copy(b);
      var minus := c.Negate();
      Add(minus.pn[..]);
      ValueBound(b);
      SubtractMod(v, Value(b), m);
    }

    /** Whether this is less than, equal to or greater than b, as -1, 0 or 1. */
    method CompareTo(b: seq<Word>) returns (r: int)
      requires |b| == pn.Length
      ensures r == if Val() < Value(b) then -1 else if Val() > Value(b) then 1 else 0
    {
      var i := pn.Length;
      while i > 0
        invariant 0 <= i <= pn.Length && pn[i..] == b[i..]
      {
        i := i - 1;
        if pn[i] < b[i] {
          CompareValue(pn[..], b, i);
          return -1;
        }
        if pn[i] > b[i] {
          CompareValue(b, pn[..], i);
          return 1;
        }
        assert pn[i..] == [pn[i]] + pn[i + 1..];
        assert b[i..] == [b[i]] + b[i + 1..];
      }
      assert pn[..] == pn[0..] && b[0..] == b;
      r := 0;
    }

    /** Whether this is the given 64-bit number. */
    method EqualTo(b: nat) returns (r: bool)
      requires pn.Length >= 2 && b < B * B
      ensures r <==> Val() == b
    {
      var i := pn.Length - 1;
      while i >= 2
        invariant 1 <= i < pn.Length && forall j :: i < j < pn.Length ==> pn[j] == 0
      {
        if pn[i] != 0 {
          LargeValue(pn[..], i, b);
          return false;
        }
        i := i - 1;
      }
      LowTwo(pn[..]);
      r := pn[1] == b / B && pn[0] == b % B;
    }

    /** The position of the highest bit set plus one. */
    method Bits() returns (r: nat)
      ensures Val() < Pow2(r) && (r > 0 ==> Pow2(r - 1) <= Val())
      ensures r <= 32 * pn.Length
    {
      var pos := pn.Length;
      while pos > 0
        invariant 0 <= pos <= pn.Length && forall j :: pos <= j < pn.Length ==> pn[j] == 0
      {
        pos := pos - 1;
        if pn[pos] != 0 {
          var bit := TopBit(pn[pos]);
          TopLimb(pn[..], pos, bit);
          return 32 * pos + bit + 1;
        }
      }
      ValueZeros(pn[..]);
      r := 0;
    }

    method ShiftLeft(shift: nat)
      modifies pn
      ensures Val() == old(Val()) * Pow2(shift) % PowB(pn.Length)
    {
      hide Or, Shl, Shr, Pow2;
      ghost var was := pn[..];
      var a := pn[..];
      Clear();
      var k, s := shift / 32, shift % 32;
      for i := 0 to pn.Length
        invariant pn.Length == |a|
        invariant forall j :: 0 <= j < pn.Length && j < i + k ==> pn[j] == LeftLimb(a, k, s, j)
        invariant i + k < pn.Length ==> pn[i + k] == CarryLeft(a, s, i)
        invariant forall j :: i + k < j < pn.Length ==> pn[j] == 0
      {
        if i + k + 1 < pn.Length && s != 0 {
          pn[i + k + 1] := OrWord(pn[i + k + 1], Shr(a[i], 32 - s));
        }
        if i + k < pn.Length {
          pn[i + k] := OrWord(pn[i + k], Shl(a[i], s));
        }
        NoCarryUnshifted(a[i], Shr(a[i], 32 - s));
      }
      assert ShiftedLeft(a, pn[..], k, s);
      LeftValue(a, pn[..], k, s);
    }

    method ShiftRight(shift: nat)
      modifies pn
      ensures Val() == old(Val()) / Pow2(shift)
    {
      hide Or, Shl, Shr, Pow2;
      var a := pn[..];
      Clear();
      var k, s := shift / 32, shift % 32;
      for i := 0 to pn.Length
        invariant pn.Length == |a|
        invariant forall j :: 0 <= j && j + k + 1 < i ==> pn[j] == RightLimb(a, k, s, j)
        invariant i - k - 1 >= 0 ==> pn[i - k - 1] == Shr(a[i - 1], s)
        invariant forall j :: 0 <= j < pn.Length && i <= j + k ==> pn[j] == 0
      {
        if i - k - 1 >= 0 && s != 0 {
          pn[i - k - 1] := OrWord(pn[i - k - 1], Shl(a[i], 32 - s));
        }
        if i - k >= 0 {
          pn[i - k] := OrWord(pn[i - k], Shr(a[i], s));
        }
        NoCarryUnshifted(a[i], Shr(a[i], s));
        OrNothing(if i - k - 1 >= 0 then Shr(a[i - 1], s) else 0);
      }
      LastLimb(a, k, s);
      assert ShiftedRight(a, pn[..], k, s);
      RightValue(a, pn[..], k, s);
    }

    method Clear()
      modifies pn
      ensures forall j :: 0 <= j < pn.Length ==> pn[j] == 0
    {
      for i := 0 to pn.Length
        invariant forall j :: 0 <= j < i ==> pn[j] == 0
      {
        pn[i] := 0;
      }
    }
  }

  lemma {:induction false} ValueEmpty(x: seq<Word>, y: seq<Word>, z: seq<Word>)
    requires |x| == |y| == |z| == 0
    ensures Value(x) == 0 && Value(y) == 0 && Value(z) == 0
  {
  }

  lemma {:induction false} AddStep(r: seq<Word>, a: seq<Word>, b: seq<Word>, i: nat, carry: nat, n: nat)
    requires i < |r| == |a| == |b| && n == carry + a[i] + b[i] && r[i] == n % B
    requires Value(r[..i]) + PowB(i) * carry == Value(a[..i]) + Value(b[..i])
    ensures Value(r[..i + 1]) + PowB(i + 1) * (n / B) == Value(a[..i + 1]) + Value(b[..i + 1])
  {
    hide Value, PowB;
    ValueNext(r, i);
    ValueNext(a, i);
    ValueNext(b, i);
    PowBNext(i);
    CarryStep(PowB(i), carry, a[i], b[i], r[i], n / B);
  }

  lemma {:induction false} CarryStep(p: nat, carry: nat, x: nat, y: nat, low: nat, high: nat)
    requires low + B * high == carry + x + y
    ensures p * low + (B * p) * high == p * carry + p * x + p * y
  {
    assert p * (low + B * high) == p * (carry + x + y);
  }

  lemma {:induction false} ComplementValue(a: seq<Word>, r: seq<Word>)
    requires |a| == |r| && forall j :: 0 <= j < |a| ==> r[j] == B - 1 - a[j]
    ensures Value(r) == PowB(|a|) - 1 - Value(a)
  {
    if a != [] {
      var n := |a| - 1;
      ComplementValue(a[..n], r[..n]);
      assert PowB(n) * r[n] == PowB(n) * (B - 1) - PowB(n) * a[n];
    }
  }

  /** Ones become zeros up to the first limb that is not full. */
  lemma {:induction false} IncrementValue(a: seq<Word>, r: seq<Word>, i: nat)
    requires |a| == |r| && i <= |a|
    requires forall j :: 0 <= j < i ==> r[j] == 0 && a[j] == B - 1
    requires i < |a| ==> a[i] < B - 1 && r[i] == a[i] + 1
    requires forall j :: i < j < |a| ==> r[j] == a[j]
    ensures Value(r) == (Value(a) + 1) % PowB(|a|)
  {
    hide Value, PowB;
    FullAndEmpty(a[..i], r[..i]);
    ValueBound(r);
    if i == |a| {
      assert a[..i] == a && r[..i] == r;
      Remainder(0, PowB(|a|), 1, Value(a) + 1);
    } else {
      ValueNext(a, i);
      ValueNext(r, i);
      assert PowB(i) * (a[i] + 1) == PowB(i) * a[i] + PowB(i);
      assert a[..i + 1] + a[i + 1..] == a && r[..i + 1] + r[i + 1..] == r;
      assert a[i + 1..] == r[i + 1..];
      ValueConcat(a[..i + 1], a[i + 1..]);
      ValueConcat(r[..i + 1], r[i + 1..]);
      Remainder(Value(r), PowB(|a|), 0, Value(a) + 1);
    }
  }

  lemma {:induction false} FullAndEmpty(a: seq<Word>, r: seq<Word>)
    requires |a| == |r| && forall j :: 0 <= j < |a| ==> r[j] == 0 && a[j] == B - 1
    ensures Value(r) == 0 && Value(a) + 1 == PowB(|a|)
  {
    if a != [] {
      var n := |a| - 1;
      FullAndEmpty(a[..n], r[..n]);
      assert PowB(n) * (B - 1) == B * PowB(n) - PowB(n);
    }
  }

  lemma {:induction false} SubtractMod(v: nat, w: nat, m: nat)
    requires w < m
    ensures (v + (m - w) % m) % m == (v - w) % m
  {
    var d := if w == 0 then 0 else m - w;
    Remainder(d, m, if w == 0 then 1 else 0, m - w);
    var r, q := (v - w) % m, (v - w) / m;
    assert v - w == m * q + r;
    var q1 := if w == 0 then q else q + 1;
    assert m * (q + 1) == m * q + m;
    Remainder(r, m, q1, v + d);
  }

  lemma {:induction false} CompareValue(a: seq<Word>, b: seq<Word>, i: nat)
    requires i < |a| == |b| && a[i] < b[i] && a[i + 1..] == b[i + 1..]
    ensures Value(a) < Value(b)
  {
    hide Value, PowB;
    ValueNext(a, i);
    ValueNext(b, i);
    ValueBound(a[..i]);
    MulLe(PowB(i), a[i] + 1, b[i]);
    assert PowB(i) * (a[i] + 1) == PowB(i) * a[i] + PowB(i);
    assert a[..i + 1] + a[i + 1..] == a && b[..i + 1] + b[i + 1..] == b;
    ValueConcat(a[..i + 1], a[i + 1..]);
    ValueConcat(b[..i + 1], b[i + 1..]);
  }

  lemma {:induction false} LowTwo(s: seq<Word>)
    requires |s| >= 2 && forall j :: 2 <= j < |s| ==> s[j] == 0
    ensures Value(s) == s[0] + B * s[1]
  {
    hide Value;
    assert s[..2] + s[2..] == s;
    ValueConcat(s[..2], s[2..]);
    ValueZeros(s[2..]);
    ValueEmpty(s[..0], [], []);
    ValueNext(s, 0);
    ValueNext(s, 1);
  }

  lemma {:induction false} LargeValue(s: seq<Word>, i: nat, b: nat)
    requires 2 <= i < |s| && s[i] != 0 && b < B * B
    ensures Value(s) > b
  {
    hide Value, PowB;
    assert s[..i + 1] + s[i + 1..] == s;
    ValueConcat(s[..i + 1], s[i + 1..]);
    ValueNext(s, i);
    MulLe(PowB(i), 1, s[i]);
    LargePower(i);
  }

  lemma {:induction false} LargePower(i: nat)
    requires i >= 2
    ensures PowB(i) >= B * B
  {
    PowBAdd(2, i - 2);
    assert PowB(2) == B * PowB(1) == B * B;
    MulLe(PowB(2), 1, PowB(i - 2));
  }

  /** Tests the bits of a word from the top. */
  method TopBit(x: Word) returns (bit: nat)
    requires x != 0
    ensures bit < 32 && Pow2(bit) <= x < Pow2(bit + 1)
  {
    WordBits();
    bit := 31;
    while bit > 0
      invariant bit < 32 && x < Pow2(bit + 1)
    {
      TestBit(x, bit);
      if Shr(x, bit) % 2 == 1 {
        return;
      }
      bit := bit - 1;
    }
  }

  lemma {:induction false} TestBit(x: Word, bit: nat)
    requires x < Pow2(bit + 1)
    ensures Shr(x, bit) % 2 == 1 <==> Pow2(bit) <= x
  {
    var p := Pow2(bit);
    if p <= x {
      Remainder(x - p, p, 1, x);
    } else {
      Remainder(x, p, 0, x);
    }
  }

  lemma {:induction false} TopLimb(s: seq<Word>, pos: nat, bit: nat)
    requires pos < |s| && bit < 32 && Pow2(bit) <= s[pos] < Pow2(bit + 1)
    requires forall j :: pos < j < |s| ==> s[j] == 0
    ensures Pow2(32 * pos + bit) <= Value(s) < Pow2(32 * pos + bit + 1)
  {
    hide Value, PowB, Pow2;
    ValueNext(s, pos);
    ValueBound(s[..pos]);
    assert s[..pos + 1] + s[pos + 1..] == s;
    ValueConcat(s[..pos + 1], s[pos + 1..]);
    ValueZeros(s[pos + 1..]);
    PowBIsPow2(pos);
    Pow2Add(32 * pos, bit);
    Pow2Add(32 * pos, bit + 1);
    var x: nat := s[pos];
    MulLe(PowB(pos), Pow2(bit), x);
    MulLe(PowB(pos), x + 1, Pow2(bit + 1));
    assert PowB(pos) * (x + 1) == PowB(pos) * x + PowB(pos);
  }

  /** Shifts by a whole word leave nothing, and a disjunction with nothing changes nothing. */
  lemma {:induction false} NoCarryUnshifted(x: Word, y: Word)
    ensures Shr(x, 32) == 0 && Shl(x, 32) == 0 && OrWord(0, y) == y
  {
    WordBits();
    Remainder(0, B, x, x * B);
  }

  lemma {:induction false} OrNothing(x: Word)
    ensures OrWord(x, 0) == x
  {
    OrZero(x);
  }

  lemma {:induction false} LastLimb(a: seq<Word>, k: nat, s: nat)
    requires s < 32
    ensures forall j :: 0 <= j && j + k + 1 == |a| ==> RightLimb(a, k, s, j) == Shr(a[j + k], s)
  {
    forall j | 0 <= j && j + k + 1 == |a| ensures RightLimb(a, k, s, j) == Shr(a[j + k], s) {
      OrNothing(Shr(a[j + k], s));
    }
  }
}
