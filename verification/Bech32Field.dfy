/** The field GF(32) of the checksum: polynomials in a over GF(2) modulo a^5 + a^3 + 1. */
module Bech32Field {
  import opened Bech32

  /** Multiplication by a. */
  function Twice(b: Symbol): Symbol {
    if b & 16 != 0 then (b << 1) ^ 9 else b << 1
  }

  function Part(on: bool, b: Symbol): Symbol {
    if on then b else 0
  }

  predicate Odd(a: Symbol) {
    a & 1 != 0
  }

  function Half(a: Symbol): Symbol {
    a >> 1
  }

  /** The sum of a to the k times b, over the lowest n bits k of a. */
  function TimesN(a: Symbol, b: Symbol, n: nat): Symbol
    decreases n
  {
    if n == 0 then 0 else SymbolXor(Part(Odd(a), b), TimesN(Half(a), Twice(b), n - 1))
  }

  function Times(a: Symbol, b: Symbol): Symbol {
    TimesN(a, b, 5)
  }

  // ---------- addition ----------

  lemma {:induction false} AddLaws(a: Symbol, b: Symbol, c: Symbol)
    ensures SymbolXor(a, b) == SymbolXor(b, a)
    ensures SymbolXor(SymbolXor(a, b), c) == SymbolXor(a, SymbolXor(b, c))
    ensures SymbolXor(a, 0) == a && SymbolXor(0, a) == a && SymbolXor(a, a) == 0
  {
  }

  /** (a + b) + (c + d) == (a + c) + (b + d). */
  lemma {:induction false} AddPairs(a: Symbol, b: Symbol, c: Symbol, d: Symbol)
    ensures SymbolXor(SymbolXor(a, b), SymbolXor(c, d)) == SymbolXor(SymbolXor(a, c), SymbolXor(b, d))
  {
  }

  lemma {:induction false} BitLaws(a: Symbol, b: Symbol)
    ensures Odd(SymbolXor(a, b)) == (Odd(a) != Odd(b))
    ensures Half(SymbolXor(a, b)) == SymbolXor(Half(a), Half(b))
    ensures Twice(SymbolXor(a, b)) == SymbolXor(Twice(a), Twice(b))
    ensures Twice(0) == 0 && Half(0) == 0 && !Odd(0)
  {
  }

  lemma {:induction false} PartLaws(on: bool, off: bool, b: Symbol, c: Symbol)
    ensures Part(on, SymbolXor(b, c)) == SymbolXor(Part(on, b), Part(on, c))
    ensures Part(on != off, b) == SymbolXor(Part(on, b), Part(off, b))
    ensures Twice(Part(on, b)) == Part(on, Twice(b))
  {
    hide SymbolXor, Twice;
    AddLaws(b, c, 0);
    AddLaws(0, 0, 0);
    BitLaws(b, c);
  }

  // ---------- multiplication is bilinear ----------

  lemma {:induction false} TimesAdd(a: Symbol, b: Symbol, c: Symbol, n: nat)
    ensures TimesN(a, SymbolXor(b, c), n) == SymbolXor(TimesN(a, b, n), TimesN(a, c, n))
    decreases n
  {
    hide SymbolXor, Twice, Half, Odd, Part;
    if n == 0 {
      AddLaws(0, 0, 0);
    } else {
      BitLaws(b, c);
      PartLaws(Odd(a), false, b, c);
      TimesAdd(Half(a), Twice(b), Twice(c), n - 1);
      AddPairs(Part(Odd(a), b), Part(Odd(a), c), TimesN(Half(a), Twice(b), n - 1), TimesN(Half(a), Twice(c), n - 1));
    }
  }

  lemma {:induction false} AddTimes(a: Symbol, b: Symbol, c: Symbol, n: nat)
    ensures TimesN(SymbolXor(a, b), c, n) == SymbolXor(TimesN(a, c, n), TimesN(b, c, n))
    decreases n
  {
    hide SymbolXor, Twice, Half, Odd, Part;
    if n == 0 {
      AddLaws(0, 0, 0);
    } else {
      BitLaws(a, b);
      PartLaws(Odd(a), Odd(b), c, c);
      AddTimes(Half(a), Half(b), Twice(c), n - 1);
      AddPairs(Part(Odd(a), c), Part(Odd(b), c), TimesN(Half(a), Twice(c), n - 1), TimesN(Half(b), Twice(c), n - 1));
    }
  }

  lemma {:induction false} TimesTwice(a: Symbol, b: Symbol, n: nat)
    ensures TimesN(a, Twice(b), n) == Twice(TimesN(a, b, n))
    decreases n
  {
    hide SymbolXor, Twice, Half, Odd, Part;
    if n == 0 {
      BitLaws(0, 0);
    } else {
      TimesTwice(Half(a), Twice(b), n - 1);
      PartLaws(Odd(a), false, b, b);
      BitLaws(Part(Odd(a), b), TimesN(Half(a), Twice(b), n - 1));
    }
  }

  /** Below 2^n. */
  predicate Small(a: Symbol, n: nat) {
    if n == 0 then a == 0 else if n == 1 then a < 2 else if n == 2 then a < 4 else if n == 3 then a < 8
    else if n == 4 then a < 16 else true
  }

  lemma {:induction false} SmallLaws(a: Symbol, n: nat)
    requires Small(a, n + 1) && n < 5
    ensures Small(Half(a), n)
    ensures a == SymbolXor(Twice(Half(a)), Part(Odd(a), 1))
  {
  }

  lemma {:induction false} ZeroTimes(a: Symbol, n: nat)
    ensures TimesN(a, 0, n) == 0
    decreases n
  {
    hide SymbolXor, Twice, Half, Odd;
    if n > 0 {
      BitLaws(0, 0);
      AddLaws(0, 0, 0);
      ZeroTimes(Half(a), n - 1);
    }
  }

  /** The product written out. */
  function Product(a: Symbol, b: Symbol): Symbol {
    var b2 := Twice(b);
    var b4 := Twice(b2);
    var b8 := Twice(b4);
    SymbolXor(Part(a & 1 != 0, b), SymbolXor(Part(a & 2 != 0, b2), SymbolXor(Part(a & 4 != 0, b4),
      SymbolXor(Part(a & 8 != 0, b8), Part(a & 16 != 0, Twice(b8))))))
  }

  lemma {:induction false} TimesStep(a: Symbol, b: Symbol, n: nat)
    ensures TimesN(a, b, n + 1) == SymbolXor(Part(Odd(a), b), TimesN(Half(a), Twice(b), n))
  {
  }

  lemma {:induction false} Bits(a: Symbol)
    ensures Odd(a) == (a & 1 != 0) && Odd(Half(a)) == (a & 2 != 0) && Odd(Half(Half(a))) == (a & 4 != 0)
    ensures Odd(Half(Half(Half(a)))) == (a & 8 != 0) && Odd(Half(Half(Half(Half(a))))) == (a & 16 != 0)
  {
  }

  lemma {:induction false} TimesUnrolled(a: Symbol, b: Symbol)
    ensures Times(a, b) == Product(a, b)
  {
    hide Twice, Part, SymbolXor, Odd, Half, TimesN;
    Bits(a);
    var a1 := Half(a);
    var a2 := Half(a1);
    var a3 := Half(a2);
    var a4 := Half(a3);
    var b2 := Twice(b);
    var b4 := Twice(b2);
    var b8 := Twice(b4);
    var b16 := Twice(b8);
    TimesStep(a, b, 4);
    TimesStep(a1, b2, 3);
    TimesStep(a2, b4, 2);
    TimesStep(a3, b8, 1);
    TimesStep(a4, b16, 0);
    Nothing(Half(a4), Twice(b16));
    AddLaws(Part(a & 16 != 0, b16), 0, 0);
  }

  lemma {:induction false} Nothing(a: Symbol, b: Symbol)
    ensures TimesN(a, b, 0) == 0
  {
  }

  lemma {:induction false} ProductFacts(b: Symbol)
    ensures Product(b, 1) == b && Product(1, b) == b && Product(9, b) == Twice(Product(16, b))
  {
  }

  lemma {:induction false} TimesOne(b: Symbol)
    ensures Times(b, 1) == b && Times(1, b) == b && Times(b, 0) == 0 && Times(9, b) == Twice(Times(16, b))
  {
    hide Times, Product, Twice;
    TimesUnrolled(b, 1);
    TimesUnrolled(1, b);
    TimesUnrolled(9, b);
    TimesUnrolled(16, b);
    ProductFacts(b);
    assert Times(b, 0) == 0 by { NoTimes(b); }
  }

  lemma {:induction false} NoTimes(b: Symbol)
    ensures Times(b, 0) == 0
  {
    hide TimesN;
    ZeroTimes(b, 5);
  }

  // ---------- the ring laws ----------

  lemma {:induction false} TopBit(a: Symbol)
    ensures var low := SymbolXor(a, Part(a & 16 != 0, 16));
      low < 16 && Half(low << 1) == low && !Odd(low << 1) && Twice(low) == low << 1
    ensures var low := SymbolXor(a, Part(a & 16 != 0, 16));
      a == SymbolXor(low, Part(a & 16 != 0, 16)) && Twice(a) == SymbolXor(Twice(low), Part(a & 16 != 0, 9))
  {
  }

  lemma {:induction false} ShortTimes(a: Symbol, b: Symbol, n: nat)
    requires Small(a, n) && n < 5
    ensures TimesN(a, b, n) == TimesN(a, b, n + 1)
    decreases n
  {
    hide SymbolXor, Twice, Half, Odd;
    if n == 0 {
      Nothing(Half(a), Twice(b));
      SmallZero(b);
    } else {
      SmallHalf(a, n);
      ShortTimes(Half(a), Twice(b), n - 1);
    }
  }

  lemma {:induction false} SmallZero(b: Symbol)
    ensures !Odd(0) && SymbolXor(0, 0) == 0
  {
  }

  lemma {:induction false} SmallHalf(a: Symbol, n: nat)
    requires Small(a, n) && 0 < n < 5
    ensures Small(Half(a), n - 1)
  {
  }

  /** (2a) b == 2 (a b) for a below 16, where doubling is a shift. */
  lemma {:induction false} LowTwice(a: Symbol, b: Symbol)
    requires a < 16 && Half(Twice(a)) == a && !Odd(Twice(a))
    ensures Times(Twice(a), b) == Twice(Times(a, b))
  {
    hide SymbolXor, Twice, Half, Odd, TimesN, Small;
    TimesStep(Twice(a), b, 4);
    AddLaws(TimesN(a, Twice(b), 4), 0, 0);
    assert Small(a, 4) by { FourBits(a); }
    ShortTimes(a, Twice(b), 4);
    TimesTwice(a, b, 5);
  }

  lemma {:induction false} FourBits(a: Symbol)
    requires a < 16
    ensures Small(a, 4)
  {
  }

  lemma {:induction false} TwiceTimes(a: Symbol, b: Symbol)
    ensures Times(Twice(a), b) == Twice(Times(a, b))
  {
    hide SymbolXor, Twice, Half, Odd, TimesN;
    var top := a & 16 != 0;
    var low := SymbolXor(a, Part(top, 16));
    TopBit(a);
    LowTwice(low, b);
    AddTimes(Twice(low), Part(top, 9), b, 5);
    AddTimes(low, Part(top, 16), b, 5);
    BitLaws(Times(low, b), Times(Part(top, 16), b));
    TimesOne(b);
    assert Times(Part(top, 9), b) == Twice(Times(Part(top, 16), b)) by {
      TimesOne(b);
      ZeroFirst(b);
      BitLaws(0, 0);
    }
  }

  lemma {:induction false} ZeroFirst(b: Symbol)
    ensures Times(0, b) == 0
  {
    hide Times;
    TimesUnrolled(0, b);
    ZeroProduct(b);
  }

  lemma {:induction false} ZeroProduct(b: Symbol)
    ensures Product(0, b) == 0
  {
  }

  lemma {:induction false} CommutesN(a: Symbol, b: Symbol, n: nat)
    requires Small(a, n) && n <= 5
    ensures TimesN(a, b, n) == Times(b, a)
    decreases n
  {
    hide SymbolXor, Twice, Half, Odd, TimesN, Small;
    if n == 0 {
      Nothing(a, b);
      TimesOne(b);
      IsZero(a);
    } else {
      SmallLaws(a, n - 1);
      TimesStep(a, b, n - 1);
      CommutesN(Half(a), b, n - 1);
      TimesTwice(Half(a), b, n - 1);
      TimesTwice(b, Half(a), 5);
      TimesAdd(b, Twice(Half(a)), Part(Odd(a), 1), 5);
      TimesOne(b);
      AddLaws(Part(Odd(a), b), TimesN(Half(a), Twice(b), n - 1), 0);
    }
  }

  lemma {:induction false} IsZero(a: Symbol)
    requires Small(a, 0)
    ensures a == 0
  {
  }

  lemma {:induction false} Anything(a: Symbol)
    ensures Small(a, 5)
  {
  }

  lemma {:induction false} AssociatesN(a: Symbol, b: Symbol, c: Symbol, n: nat)
    ensures TimesN(a, Times(b, c), n) == Times(TimesN(a, b, n), c)
    decreases n
  {
    hide SymbolXor, Twice, Half, Odd, TimesN;
    if n == 0 {
      Nothing(a, Times(b, c));
      Nothing(a, b);
      ZeroFirst(c);
    } else {
      TimesStep(a, Times(b, c), n - 1);
      TimesStep(a, b, n - 1);
      TwiceTimes(b, c);
      AssociatesN(Half(a), Twice(b), c, n - 1);
      AddTimes(Part(Odd(a), b), TimesN(Half(a), Twice(b), n - 1), c, 5);
      ZeroFirst(c);
    }
  }

  lemma {:induction false} NoDivisors(a: Symbol, b: Symbol)
    ensures Product(a, b) == 0 ==> a == 0 || b == 0
  {
  }

  /** A commutative ring with unit and without zero divisors. */
  lemma {:induction false} FieldLaws(a: Symbol, b: Symbol, c: Symbol)
    ensures Times(a, b) == Times(b, a) && Times(1, b) == b && Times(0, b) == 0
    ensures Times(a, Times(b, c)) == Times(Times(a, b), c)
    ensures Times(a, SymbolXor(b, c)) == SymbolXor(Times(a, b), Times(a, c))
    ensures Times(SymbolXor(a, b), c) == SymbolXor(Times(a, c), Times(b, c))
    ensures Times(a, b) == 0 <==> a == 0 || b == 0
  {
    hide SymbolXor, TimesN, Product;
    Anything(a);
    CommutesN(a, b, 5);
    TimesOne(b);
    TimesOne(a);
    ZeroFirst(b);
    AssociatesN(a, b, c, 5);
    TimesAdd(a, b, c, 5);
    AddTimes(a, b, c, 5);
    TimesUnrolled(a, b);
    NoDivisors(a, b);
  }

  // ---------- the generator ----------

  /** The coefficient of x to the i in a packed remainder. */
  function Coefficient(c: bv32, i: nat): Symbol
    requires i < 6
  {
    if i == 0 then Last5(c)
    else if i == 1 then Last5(c >> 5)
    else if i == 2 then Last5(c >> 10)
    else if i == 3 then Last5(c >> 15)
    else if i == 4 then Last5(c >> 20)
    else Last5(c >> 25)
  }

  /** The generator below its leading term: {29}x^5 + {22}x^4 + {20}x^3 + {21}x^2 + {29}x + {18}. */
  function Generator(i: nat): Symbol {
    if i == 0 then 18 else if i == 1 then 29 else if i == 2 then 21 else if i == 3 then 20 else if i == 4 then 22 else 29
  }

  lemma {:induction false} ReduceIs(t: Symbol, i: nat)
    requires i < 6
    ensures Coefficient(Reduce(t as bv32), i) == Product(t, Generator(i))
  {
    hide Reduce, Product, Last5;
    LowReduce(t);
    HighReduce(t);
  }

  lemma {:induction false} LowReduce(t: Symbol)
    ensures var r := Reduce(t as bv32);
      Last5(r) == Product(t, 18) && Last5(r >> 5) == Product(t, 29) && Last5(r >> 10) == Product(t, 21)
  {
  }

  lemma {:induction false} HighReduce(t: Symbol)
    ensures var r := Reduce(t as bv32);
      Last5(r >> 15) == Product(t, 20) && Last5(r >> 20) == Product(t, 22) && Last5(r >> 25) == Product(t, 29)
  {
  }

  lemma {:induction false} ShiftedIs(c: bv32, v: Symbol, i: nat)
    requires c < 0x4000_0000 && i < 6
    ensures Coefficient(Shifted(c, v), i) == if i == 0 then v else Coefficient(c, i - 1)
    ensures c >> 25 == Coefficient(c, 5) as bv32
  {
  }

  lemma {:induction false} CoefficientXor(c: bv32, d: bv32, i: nat)
    requires i < 6
    ensures Coefficient(Xor(c, d), i) == SymbolXor(Coefficient(c, i), Coefficient(d, i))
  {
    hide Xor, SymbolXor, Last5;
    LastXor(c, d);
    Last5Xor(c, d);
    Last10Xor(c, d);
    Last15Xor(c, d);
    Last20Xor(c, d);
    Last25Xor(c, d);
  }

  lemma {:induction false} LastXor(c: bv32, d: bv32)
    ensures Last5(Xor(c, d)) == SymbolXor(Last5(c), Last5(d))
  {
  }

  lemma {:induction false} Last5Xor(c: bv32, d: bv32)
    ensures Last5(Xor(c, d) >> 5) == SymbolXor(Last5(c >> 5), Last5(d >> 5))
  {
  }

  lemma {:induction false} Last10Xor(c: bv32, d: bv32)
    ensures Last5(Xor(c, d) >> 10) == SymbolXor(Last5(c >> 10), Last5(d >> 10))
  {
  }

  lemma {:induction false} Last15Xor(c: bv32, d: bv32)
    ensures Last5(Xor(c, d) >> 15) == SymbolXor(Last5(c >> 15), Last5(d >> 15))
  {
  }

  lemma {:induction false} Last20Xor(c: bv32, d: bv32)
    ensures Last5(Xor(c, d) >> 20) == SymbolXor(Last5(c >> 20), Last5(d >> 20))
  {
  }

  lemma {:induction false} Last25Xor(c: bv32, d: bv32)
    ensures Last5(Xor(c, d) >> 25) == SymbolXor(Last5(c >> 25), Last5(d >> 25))
  {
  }

  /** One step of the checksum multiplies the remainder by x, adds the symbol and reduces modulo the generator
      x^6 + {29}x^5 + {22}x^4 + {20}x^3 + {21}x^2 + {29}x + {18}: each coefficient is the one below it, plus the
      leading one times that of the generator. */
  lemma {:induction false} StepMultiplies(c: bv32, v: Symbol, i: nat)
    requires c < 0x4000_0000 && i < 6
    ensures Coefficient(Step(c, v), i)
      == SymbolXor(if i == 0 then v else Coefficient(c, i - 1), Times(Coefficient(c, 5), Generator(i)))
  {
    hide Xor, SymbolXor, Shifted, Reduce, Coefficient, Times, Product, Generator;
    ShiftedIs(c, v, i);
    ReduceIs(Coefficient(c, 5), i);
    CoefficientXor(Shifted(c, v), Reduce(c >> 25), i);
    TimesUnrolled(Coefficient(c, 5), Generator(i));
  }
}
