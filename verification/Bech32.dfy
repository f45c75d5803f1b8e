/** Bech32 and Bech32m: the checksum as a remainder over GF(32), encoding and decoding. Characters are bytes,
    data symbols have five bits. */
module Bech32 {
  import opened Options

  type Char = bv8
  type Symbol = bv5

  datatype Encoding = Invalid | Plain | M

  datatype DecodeResult = DecodeResult(encoding: Encoding, hrp: seq<Char>, data: seq<Symbol>)

  const FAILED := DecodeResult(Invalid, [], [])
  /** The character that ends the human-readable part. */
  const SEPARATOR: Char := 49

  // ---------- the remainder ----------

  function Xor(a: bv32, b: bv32): bv32 {
    a ^ b
  }

  function SymbolXor(v: Symbol, w: Symbol): Symbol {
    v ^ w
  }

  /** A multiple of the generator's tail, if the bit is set. */
  function Pick(on: bool, k: bv32): bv32 {
    if on then k else 0
  }

  /** The leading coefficient, bit by bit, times x to the sixth, reduced. */
  function Reduce5(b1: bool, b2: bool, b4: bool, b8: bool, b16: bool): bv32 {
    Xor(Pick(b1, 0x3b6a57b2),
        Xor(Pick(b2, 0x26508e6d), Xor(Pick(b4, 0x1ea119fa), Xor(Pick(b8, 0x3d4233dd), Pick(b16, 0x2a1462b3)))))
  }

  function Reduce(c0: bv32): bv32 {
    Reduce5(c0 & 1 != 0, c0 & 2 != 0, c0 & 4 != 0, c0 & 8 != 0, c0 & 16 != 0)
  }

  function Shifted(c: bv32, v: Symbol): bv32 {
    ((c & 0x1ffffff) << 5) ^ (v as bv32)
  }

  /** One more symbol: multiply the remainder by x, add the symbol, reduce. */
  function Step(c: bv32, v: Symbol): bv32 {
    Xor(Shifted(c, v), Reduce(c >> 25))
  }

  function Poly(c: bv32, v: seq<Symbol>): bv32
    decreases |v|
  {
    if v == [] then c else Poly(Step(c, v[0]), v[1..])
  }

  method PolyMod(v: seq<Symbol>) returns (c: bv32)
    ensures c == Poly(1, v)
  {
    hide Step;
    c := 1;
    assert v[0..] == v;
    for i := 0 to |v|
      invariant Poly(1, v) == Poly(c, v[i..])
    {
      assert v[i..][1..] == v[i + 1..];
      c := Advance(c, v[i]);
    }
  }

  method Advance(c: bv32, v: Symbol) returns (d: bv32)
    ensures d == Step(c, v)
  {
    hide Xor, Pick, Shifted;
    var c0 := c >> 25;
    d := Shifted(c, v);
    StepOrder(d, c0 & 1 != 0, c0 & 2 != 0, c0 & 4 != 0, c0 & 8 != 0, c0 & 16 != 0);
    if c0 & 1 != 0 {
      d := Xor(d, 0x3b6a57b2);
    }
    if c0 & 2 != 0 {
      d := Xor(d, 0x26508e6d);
    }
    if c0 & 4 != 0 {
      d := Xor(d, 0x1ea119fa);
    }
    if c0 & 8 != 0 {
      d := Xor(d, 0x3d4233dd);
    }
    if c0 & 16 != 0 {
      d := Xor(d, 0x2a1462b3);
    }
  }

  function Apply(d: bv32, on: bool, k: bv32): bv32 {
    if on then Xor(d, k) else d
  }

  lemma {:induction false} ApplyPick(d: bv32, on: bool, k: bv32, rest: bv32)
    ensures Xor(Apply(d, on, k), rest) == Xor(d, Xor(Pick(on, k), rest)) && Apply(d, on, k) == Xor(d, Pick(on, k))
  {
    hide Xor;
    XorZero(d);
    XorZero(rest);
    Associates(d, k, rest);
  }

  /** The order in which the multiples are added does not matter. */
  lemma {:induction false} StepOrder(d: bv32, b1: bool, b2: bool, b4: bool, b8: bool, b16: bool)
    ensures Xor(d, Reduce5(b1, b2, b4, b8, b16))
      == Apply(Apply(Apply(Apply(Apply(d, b1, 0x3b6a57b2), b2, 0x26508e6d), b4, 0x1ea119fa), b8, 0x3d4233dd), b16, 0x2a1462b3)
  {
    hide Xor, Pick, Apply;
    var p8 := Xor(Pick(b8, 0x3d4233dd), Pick(b16, 0x2a1462b3));
    var p4 := Xor(Pick(b4, 0x1ea119fa), p8);
    var p2 := Xor(Pick(b2, 0x26508e6d), p4);
    var d1 := Apply(d, b1, 0x3b6a57b2);
    var d2 := Apply(d1, b2, 0x26508e6d);
    var d4 := Apply(d2, b4, 0x1ea119fa);
    var d8 := Apply(d4, b8, 0x3d4233dd);
    ApplyPick(d, b1, 0x3b6a57b2, p2);
    ApplyPick(d1, b2, 0x26508e6d, p4);
    ApplyPick(d2, b4, 0x1ea119fa, p8);
    ApplyPick(d4, b8, 0x3d4233dd, Pick(b16, 0x2a1462b3));
    ApplyPick(d8, b16, 0x2a1462b3, 0);
  }

  lemma {:induction false} StepBound(c: bv32, v: Symbol)
    ensures Step(c, v) < 0x4000_0000
  {
  }

  lemma {:induction false} XorZero(k: bv32)
    ensures Xor(k, k) == 0 && Xor(k, 0) == k && Xor(0, k) == k
  {
  }

  lemma {:induction false} PickXor(p: bool, q: bool, k: bv32)
    ensures Pick(p != q, k) == Xor(Pick(p, k), Pick(q, k))
  {
    hide Xor;
    XorZero(k);
    XorZero(0);
  }

  lemma {:induction false} BitXor(a: bv32, b: bv32)
    ensures (Xor(a, b) & 1 != 0) == ((a & 1 != 0) != (b & 1 != 0))
    ensures (Xor(a, b) & 2 != 0) == ((a & 2 != 0) != (b & 2 != 0))
    ensures (Xor(a, b) & 4 != 0) == ((a & 4 != 0) != (b & 4 != 0))
    ensures (Xor(a, b) & 8 != 0) == ((a & 8 != 0) != (b & 8 != 0))
    ensures (Xor(a, b) & 16 != 0) == ((a & 16 != 0) != (b & 16 != 0))
  {
  }

  lemma {:induction false} Associates(a: bv32, b: bv32, c: bv32)
    ensures Xor(Xor(a, b), c) == Xor(a, Xor(b, c)) && Xor(a, b) == Xor(b, a)
  {
    assert (a ^ b) ^ c == a ^ (b ^ c);
    assert a ^ b == b ^ a;
  }

  lemma {:induction false} Pairs(a: bv32, b: bv32, c: bv32, d: bv32)
    ensures Xor(Xor(a, b), Xor(c, d)) == Xor(Xor(a, c), Xor(b, d))
  {
    hide Xor;
    Associates(a, b, Xor(c, d));
    Associates(b, c, d);
    Associates(c, b, d);
    Associates(a, c, Xor(b, d));
  }

  /** One coefficient more in a sum. */
  lemma {:induction false} MoreXor(p: bool, q: bool, k: bv32, x: bv32, y: bv32)
    ensures Xor(Pick(p != q, k), Xor(x, y)) == Xor(Xor(Pick(p, k), x), Xor(Pick(q, k), y))
  {
    hide Pick, Xor;
    PickXor(p, q, k);
    Pairs(Pick(p, k), Pick(q, k), x, y);
  }

  lemma {:induction false} Reduce5Xor(p1: bool, p2: bool, p4: bool, p8: bool, p16: bool, q1: bool, q2: bool, q4: bool, q8: bool, q16: bool)
    ensures Reduce5(p1 != q1, p2 != q2, p4 != q4, p8 != q8, p16 != q16)
      == Xor(Reduce5(p1, p2, p4, p8, p16), Reduce5(q1, q2, q4, q8, q16))
  {
    hide Pick, Xor;
    var x16, y16 := Pick(p16, 0x2a1462b3), Pick(q16, 0x2a1462b3);
    var x8, y8 := Xor(Pick(p8, 0x3d4233dd), x16), Xor(Pick(q8, 0x3d4233dd), y16);
    var x4, y4 := Xor(Pick(p4, 0x1ea119fa), x8), Xor(Pick(q4, 0x1ea119fa), y8);
    var x2, y2 := Xor(Pick(p2, 0x26508e6d), x4), Xor(Pick(q2, 0x26508e6d), y4);
    PickXor(p16, q16, 0x2a1462b3);
    MoreXor(p8, q8, 0x3d4233dd, x16, y16);
    MoreXor(p4, q4, 0x1ea119fa, x8, y8);
    MoreXor(p2, q2, 0x26508e6d, x4, y4);
    MoreXor(p1, q1, 0x3b6a57b2, x2, y2);
  }

  lemma {:induction false} ReduceXor(a: bv32, b: bv32)
    ensures Reduce(Xor(a, b)) == Xor(Reduce(a), Reduce(b))
  {
    hide Pick, Xor, Reduce5;
    BitXor(a, b);
    Reduce5Xor(a & 1 != 0, a & 2 != 0, a & 4 != 0, a & 8 != 0, a & 16 != 0,
      b & 1 != 0, b & 2 != 0, b & 4 != 0, b & 8 != 0, b & 16 != 0);
  }

  lemma {:induction false} ShiftedXor(a: bv32, b: bv32, v: Symbol, w: Symbol)
    ensures Shifted(Xor(a, b), SymbolXor(v, w)) == Xor(Shifted(a, v), Shifted(b, w))
    ensures Xor(a, b) >> 25 == Xor(a >> 25, b >> 25)
  {
  }

  /** The step is linear. */
  lemma {:induction false} StepXor(a: bv32, b: bv32, v: Symbol, w: Symbol)
    ensures Step(Xor(a, b), SymbolXor(v, w)) == Xor(Step(a, v), Step(b, w))
  {
    hide Reduce, Shifted, Xor, SymbolXor;
    ShiftedXor(a, b, v, w);
    ReduceXor(a >> 25, b >> 25);
    Pairs(Shifted(a, v), Reduce(a >> 25), Shifted(b, w), Reduce(b >> 25));
  }

  function Horner(c: bv32, v: Symbol): bv32 {
    (c << 5) ^ (v as bv32)
  }

  /** The generator has a constant term, so multiplying by x loses nothing. */
  lemma {:induction false} StepInjective(c: bv32)
    requires c < 0x4000_0000 && Step(c, 0) == 0
    ensures c == 0
  {
  }

  /** A remainder of degree below five is only shifted. */
  lemma {:induction false} StepSmall(c: bv32, v: Symbol)
    requires c < 0x200_0000
    ensures Step(c, v) == Horner(c, v)
  {
  }

  // ---------- errors in bursts ----------

  function Diff(x: seq<Symbol>, y: seq<Symbol>): (e: seq<Symbol>)
    requires |x| == |y|
    ensures |e| == |x| && forall i :: 0 <= i < |x| ==> e[i] == SymbolXor(x[i], y[i])
  {
    seq(|x|, i requires 0 <= i < |x| => SymbolXor(x[i], y[i]))
  }

  function Zeros(n: nat): (z: seq<Symbol>)
    ensures |z| == n && forall i :: 0 <= i < n ==> z[i] == 0
  {
    seq(n, _ => 0)
  }

  lemma {:induction false} PolyXor(a: bv32, b: bv32, x: seq<Symbol>, y: seq<Symbol>)
    requires |x| == |y|
    ensures Poly(Xor(a, b), Diff(x, y)) == Xor(Poly(a, x), Poly(b, y))
    decreases |x|
  {
    hide Step, Xor, SymbolXor;
    if x != [] {
      StepXor(a, b, x[0], y[0]);
      PolyXor(Step(a, x[0]), Step(b, y[0]), x[1..], y[1..]);
      assert Diff(x, y)[1..] == Diff(x[1..], y[1..]);
    }
  }

  lemma {:induction false} PolyConcat(c: bv32, x: seq<Symbol>, y: seq<Symbol>)
    ensures Poly(c, x + y) == Poly(Poly(c, x), y)
    decreases |x|
  {
    hide Step;
    if x == [] {
      assert x + y == y;
    } else {
      PolyConcat(Step(c, x[0]), x[1..], y);
      assert (x + y)[1..] == x[1..] + y;
    }
  }

  /** A difference that is there does not go away. */
  lemma {:induction false} PolyKeeps(c: bv32, n: nat)
    requires c != 0 && c < 0x4000_0000
    ensures Poly(c, Zeros(n)) != 0
    decreases n
  {
    hide Step;
    if n > 0 {
      StepKeeps(c);
      PolyKeeps(Step(c, 0), n - 1);
      assert Zeros(n)[1..] == Zeros(n - 1);
    }
  }

  lemma {:induction false} StepKeeps(c: bv32)
    requires c != 0 && c < 0x4000_0000
    ensures Step(c, 0) != 0 && Step(c, 0) < 0x4000_0000
  {
    StepBound(c, 0);
    hide Step;
    if Step(c, 0) == 0 {
      StepInjective(c);
    }
  }

  lemma {:induction false} PolyOfZeros(n: nat)
    ensures Poly(0, Zeros(n)) == 0
  {
    hide Step;
    if n > 0 {
      PolyOfZeros(n - 1);
      assert Zeros(n)[1..] == Zeros(n - 1);
      StepZero();
    }
  }

  lemma {:induction false} StepZero()
    ensures Step(0, 0) == 0
  {
  }

  /** Two to the power of five times k. */
  function Limit(k: nat): bv32 {
    if k == 0 then 1 else if k == 1 then 0x20 else if k == 2 then 0x400 else if k == 3 then 0x8000
    else if k == 4 then 0x10_0000 else if k == 5 then 0x200_0000 else 0x4000_0000
  }

  lemma {:induction false} PackStep(c: bv32, v: Symbol, k: nat)
    requires k <= 5 && c < Limit(k)
    ensures Horner(c, v) < Limit(k + 1)
    ensures Horner(c, v) == 0 ==> c == 0 && v == 0
    ensures c < 0x200_0000
  {
  }

  /** Up to six symbols are packed side by side, so that only zeros give zero. */
  lemma {:induction false} PolyShort(e: seq<Symbol>)
    requires |e| <= 6
    ensures Poly(0, e) < Limit(|e|)
    ensures Poly(0, e) == 0 ==> forall i :: 0 <= i < |e| ==> e[i] == 0
  {
    hide Step, Limit, Horner;
    if e == [] {
      assert Limit(0) == 1 by { FirstLimit(); }
    } else {
      var n := |e| - 1;
      PolyShort(e[..n]);
      assert e == e[..n] + [e[n]];
      PolyConcat(0, e[..n], [e[n]]);
      var c := Poly(0, e[..n]);
      PackStep(c, e[n], n);
      StepSmall(c, e[n]);
      assert Poly(c, [e[n]]) == Step(c, e[n]);
    }
  }

  lemma {:induction false} FirstLimit()
    ensures Limit(0) == 1
  {
  }

  lemma {:induction false} SixthLimit()
    ensures Limit(6) == 0x4000_0000
  {
  }

  /** Two lists that differ at most within six consecutive positions, anywhere, have different remainders. */
  lemma {:induction false} BurstDetected(c: bv32, x: seq<Symbol>, y: seq<Symbol>, start: nat)
    requires |x| == |y|
    requires forall i :: 0 <= i < |x| && (i < start || i >= start + 6) ==> x[i] == y[i]
    ensures Poly(c, x) == Poly(c, y) <==> x == y
  {
    hide Step, Xor, SymbolXor, Poly;
    var e := Diff(x, y);
    var s := if start <= |x| then start else |x|;
    var t := if start + 6 <= |x| then start + 6 else |x|;
    EqualSymbols(x, y);
    PolyXor(c, c, x, y);
    SelfXor(c, Poly(c, x), Poly(c, y));
    assert e[..s] == Zeros(s) && e[t..] == Zeros(|x| - t);
    assert e == e[..s] + (e[s..t] + e[t..]);
    PolyConcat(0, e[..s], e[s..t] + e[t..]);
    PolyConcat(0, e[s..t], e[t..]);
    PolyOfZeros(s);
    PolyShort(e[s..t]);
    Within(e[s..t]);
    var d := Poly(0, e[s..t]);
    if d != 0 {
      PolyKeeps(d, |x| - t);
    } else {
      forall i | 0 <= i < |x| ensures e[i] == 0 {
        if s <= i < t {
          assert e[s..t][i - s] == 0;
        }
      }
    }
  }

  lemma {:induction false} Within(e: seq<Symbol>)
    requires |e| <= 6
    ensures Poly(0, e) < 0x4000_0000
  {
    hide Step;
    PolyShort(e);
    LimitBound(|e|);
  }

  lemma {:induction false} LimitBound(k: nat)
    ensures Limit(k) <= 0x4000_0000
  {
  }

  lemma {:induction false} SelfXor(c: bv32, p: bv32, q: bv32)
    ensures Xor(c, c) == 0 && (Xor(p, q) == 0 <==> p == q)
  {
    hide Xor;
    XorZero(c);
    XorZero(q);
    XorZero(p);
    Associates(p, q, q);
  }

  lemma {:induction false} SameSymbol(v: Symbol, w: Symbol)
    ensures SymbolXor(v, w) == 0 <==> v == w
  {
  }

  lemma {:induction false} EqualSymbols(x: seq<Symbol>, y: seq<Symbol>)
    requires |x| == |y|
    ensures (forall i :: 0 <= i < |x| ==> Diff(x, y)[i] == 0) <==> x == y
    ensures forall i :: 0 <= i < |x| && x[i] == y[i] ==> Diff(x, y)[i] == 0
  {
    hide SymbolXor;
    forall i | 0 <= i < |x| ensures Diff(x, y)[i] == 0 <==> x[i] == y[i] {
      SameSymbol(x[i], y[i]);
    }
  }

  // ---------- checksums ----------

  function Constant(encoding: Encoding): bv32 {
    if encoding.Plain? then 1 else 0x2bc830a3
  }

  function Last5(m: bv32): Symbol {
    (m & 31) as bv5
  }

  function Shift5(m: bv32): bv32 {
    m >> 5
  }

  /** The lowest k groups of five bits, the highest first. */
  function Groups(m: bv32, k: nat): (g: seq<Symbol>)
    ensures |g| == k
  {
    if k == 0 then [] else Groups(Shift5(m), k - 1) + [Last5(m)]
  }

  lemma {:induction false} Unpack(m: bv32, k: nat)
    requires 1 <= k <= 6 && m < Limit(k)
    ensures Shift5(m) < Limit(k - 1) && Shift5(m) < 0x200_0000 && Horner(Shift5(m), Last5(m)) == m
  {
  }

  /** The groups of a remainder are packed back into it. */
  lemma {:induction false} PolyGroups(m: bv32, k: nat)
    requires k <= 6 && m < Limit(k)
    ensures Poly(0, Groups(m, k)) == m
    decreases k
  {
    hide Step, Horner, Last5, Shift5, Limit;
    if k == 0 {
      FirstLimit();
    } else {
      Unpack(m, k);
      PolyGroups(Shift5(m), k - 1);
      PolyConcat(0, Groups(Shift5(m), k - 1), [Last5(m)]);
      PolyMore(Shift5(m), Last5(m), []);
      StepSmall(Shift5(m), Last5(m));
      assert [Last5(m)] + [] == [Last5(m)];
    }
  }

  lemma {:induction false} PolyMore(c: bv32, v: Symbol, rest: seq<Symbol>)
    ensures Poly(c, [v] + rest) == Poly(Step(c, v), rest)
  {
    hide Step;
    assert ([v] + rest)[1..] == rest;
  }

  function Expand(hrp: seq<Char>): (r: seq<Symbol>)
    ensures |r| == 2 * |hrp| + 1
  {
    seq(|hrp|, i requires 0 <= i < |hrp| => High(hrp[i])) + [0] + seq(|hrp|, i requires 0 <= i < |hrp| => Low(hrp[i]))
  }

  function High(c: Char): Symbol {
    ((c >> 5) & 31) as bv5
  }

  function Low(c: Char): Symbol {
    (c & 31) as bv5
  }

  function Checksum(encoding: Encoding, hrp: seq<Char>, values: seq<Symbol>): (r: seq<Symbol>)
    ensures |r| == 6
  {
    Groups(Xor(Poly(1, Expand(hrp) + values + Zeros(6)), Constant(encoding)), 6)
  }

  lemma {:induction false} PolyBound(c: bv32, v: seq<Symbol>)
    requires c < 0x4000_0000
    ensures Poly(c, v) < 0x4000_0000
    decreases |v|
  {
    hide Step;
    if v != [] {
      StepBound(c, v[0]);
      PolyBound(Step(c, v[0]), v[1..]);
    }
  }

  /** The checksum is the only six symbols that complete a list to the constant. */
  lemma {:induction false} ChecksumExact(encoding: Encoding, hrp: seq<Char>, values: seq<Symbol>, tail: seq<Symbol>)
    requires |tail| == 6
    ensures Poly(1, Expand(hrp) + (values + tail)) == Constant(encoding) <==> tail == Checksum(encoding, hrp, values)
  {
    hide Step, Groups, Constant;
    var head := Expand(hrp) + values;
    var sum := Checksum(encoding, hrp, values);
    assert Expand(hrp) + (values + tail) == head + tail;
    Completes(Poly(1, head), encoding, hrp, values);
    PolyConcat(1, head, sum);
    var x, y := head + tail, head + sum;
    BurstDetected(1, x, y, |head|);
    if tail != sum {
      assert x[|head|..] == tail && y[|head|..] == sum;
    }
  }

  lemma {:induction false} Completes(c: bv32, encoding: Encoding, hrp: seq<Char>, values: seq<Symbol>)
    requires c == Poly(1, Expand(hrp) + values)
    ensures Poly(c, Checksum(encoding, hrp, values)) == Constant(encoding)
  {
    hide Step, Groups, Xor, SymbolXor, Constant, Poly;
    var head := Expand(hrp) + values;
    PolyConcat(1, head, Zeros(6));
    var z := Poly(c, Zeros(6));
    PolyBound(1, head + Zeros(6));
    var m := Xor(z, Constant(encoding));
    XorBound(z, encoding);
    SixthLimit();
    PolyGroups(m, 6);
    var sum := Groups(m, 6);
    PolyXor(c, 0, Zeros(6), sum);
    DiffZeros(sum);
    XorBack(c, z, Constant(encoding));
  }

  lemma {:induction false} XorBound(z: bv32, encoding: Encoding)
    requires z < 0x4000_0000
    ensures Xor(z, Constant(encoding)) < 0x4000_0000
  {
  }

  lemma {:induction false} DiffZeros(x: seq<Symbol>)
    ensures Diff(Zeros(|x|), x) == x
  {
    hide SymbolXor;
    forall i | 0 <= i < |x| ensures Diff(Zeros(|x|), x)[i] == x[i] {
      ZeroXor(x[i]);
    }
  }

  lemma {:induction false} ZeroXor(v: Symbol)
    ensures SymbolXor(0, v) == v
  {
  }

  lemma {:induction false} XorBack(c: bv32, z: bv32, k: bv32)
    ensures Xor(c, 0) == c && Xor(z, Xor(z, k)) == k
  {
    hide Xor;
    XorZero(c);
    XorZero(z);
    XorZero(k);
    Associates(z, z, k);
  }

  // ---------- characters ----------

  function CharOf(v: Symbol): Char {
    if v == 0 then 113
    else if v == 1 then 112
    else if v == 2 then 122
    else if v == 3 then 114
    else if v == 4 then 121
    else if v == 5 then 57
    else if v == 6 then 120
    else if v == 7 then 56
    else if v == 8 then 103
    else if v == 9 then 102
    else if v == 10 then 50
    else if v == 11 then 116
    else if v == 12 then 118
    else if v == 13 then 100
    else if v == 14 then 119
    else if v == 15 then 48
    else if v == 16 then 115
    else if v == 17 then 51
    else if v == 18 then 106
    else if v == 19 then 110
    else if v == 20 then 53
    else if v == 21 then 52
    else if v == 22 then 107
    else if v == 23 then 104
    else if v == 24 then 99
    else if v == 25 then 101
    else if v == 26 then 54
    else if v == 27 then 109
    else if v == 28 then 117
    else if v == 29 then 97
    else if v == 30 then 55
    else 108
  }

  /** The row of the digits in the decoding table. */
  function Digits(n: Char): Option<Symbol> {
    if n == 0 then Some(15)
    else if n == 2 then Some(10)
    else if n == 3 then Some(17)
    else if n == 4 then Some(21)
    else if n == 5 then Some(20)
    else if n == 6 then Some(26)
    else if n == 7 then Some(30)
    else if n == 8 then Some(7)
    else if n == 9 then Some(5)
    else None
  }

  /** The rows of the letters up to O. */
  function FirstLetters(n: Char): Option<Symbol> {
    if n == 1 then Some(29)
    else if n == 3 then Some(24)
    else if n == 4 then Some(13)
    else if n == 5 then Some(25)
    else if n == 6 then Some(9)
    else if n == 7 then Some(8)
    else if n == 8 then Some(23)
    else if n == 10 then Some(18)
    else if n == 11 then Some(22)
    else if n == 12 then Some(31)
    else if n == 13 then Some(27)
    else if n == 14 then Some(19)
    else None
  }

  /** The rows of the letters from P on. */
  function LastLetters(n: Char): Option<Symbol> {
    if n == 0 then Some(1)
    else if n == 1 then Some(0)
    else if n == 2 then Some(3)
    else if n == 3 then Some(16)
    else if n == 4 then Some(11)
    else if n == 5 then Some(28)
    else if n == 6 then Some(12)
    else if n == 7 then Some(14)
    else if n == 8 then Some(6)
    else if n == 9 then Some(4)
    else if n == 10 then Some(2)
    else None
  }

  /** The table for decoding, sixteen characters to a row, which takes letters of either case. */
  function SymbolOf(c: Char): Option<Symbol> {
    var row, n := c >> 4, c & 15;
    if row == 3 then Digits(n)
    else if row == 4 || row == 6 then FirstLetters(n)
    else if row == 5 || row == 7 then LastLetters(n)
    else None
  }

  predicate IsLower(c: Char) {
    97 <= c <= 122
  }

  predicate IsUpper(c: Char) {
    65 <= c <= 90
  }

  predicate Printable(c: Char) {
    33 <= c <= 126
  }

  function LowerCase(c: Char): Char {
    if IsUpper(c) then (c - 65) + 97 else c
  }

  /** The two tables are inverse up to case. */
  lemma {:induction false} Tables(c: Char)
    ensures SymbolOf(c).Some? ==> CharOf(SymbolOf(c).value) == LowerCase(c)
  {
  }

  lemma {:induction false} TableBack(v: Symbol)
    ensures SymbolOf(CharOf(v)) == Some(v)
  {
  }

  lemma {:induction false} TableRange(v: Symbol)
    ensures CharOf(v) != SEPARATOR && Printable(CharOf(v)) && !IsUpper(CharOf(v))
  {
  }
}
