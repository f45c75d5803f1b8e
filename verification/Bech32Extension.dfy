/** The field GF(1024) as GF(32)[e] modulo e^2 + {9}e + {23}, in which the generator of the checksum has three
    consecutive powers of e as roots. */
module Bech32Extension {
  import opened Bech32
  import opened Bech32Field

  /** The element u e + v. */
  datatype Ext = Ext(u: Symbol, v: Symbol)

  const ZERO := Ext(0, 0)
  const ONE := Ext(0, 1)
  const E := Ext(1, 0)

  function Add(a: Ext, b: Ext): Ext {
    Ext(SymbolXor(a.u, b.u), SymbolXor(a.v, b.v))
  }

  function Scale(s: Symbol, a: Ext): Ext {
    Ext(Times(s, a.u), Times(s, a.v))
  }

  /** Multiplication by e: u e^2 + v e, with e^2 == {9}e + {23}. */
  function ByE(a: Ext): Ext {
    Ext(SymbolXor(Times(9, a.u), a.v), Times(23, a.u))
  }

  function Mul(a: Ext, b: Ext): Ext {
    Add(Scale(a.u, ByE(b)), Scale(a.v, b))
  }

  // ---------- the ring laws ----------

  lemma {:induction false} AddExt(a: Ext, b: Ext, c: Ext)
    ensures Add(a, b) == Add(b, a) && Add(Add(a, b), c) == Add(a, Add(b, c))
    ensures Add(a, ZERO) == a && Add(ZERO, a) == a && Add(a, a) == ZERO
  {
    hide SymbolXor;
    AddLaws(a.u, b.u, c.u);
    AddLaws(a.v, b.v, c.v);
  }

  lemma {:induction false} AddExtPairs(a: Ext, b: Ext, c: Ext, d: Ext)
    ensures Add(Add(a, b), Add(c, d)) == Add(Add(a, c), Add(b, d))
  {
    hide SymbolXor;
    AddPairs(a.u, b.u, c.u, d.u);
    AddPairs(a.v, b.v, c.v, d.v);
  }

  lemma {:induction false} ScaleLaws(s: Symbol, t: Symbol, a: Ext, b: Ext)
    ensures Scale(s, Add(a, b)) == Add(Scale(s, a), Scale(s, b))
    ensures Scale(SymbolXor(s, t), a) == Add(Scale(s, a), Scale(t, a))
    ensures Scale(s, Scale(t, a)) == Scale(Times(s, t), a) && Scale(t, Scale(s, a)) == Scale(Times(s, t), a)
    ensures Scale(1, a) == a && Scale(0, a) == ZERO && Scale(s, ZERO) == ZERO
  {
    hide SymbolXor, Times;
    FieldLaws(s, a.u, b.u);
    FieldLaws(s, a.v, b.v);
    FieldLaws(s, t, a.u);
    FieldLaws(s, t, a.v);
    FieldLaws(t, s, a.u);
    FieldLaws(t, s, a.v);
    FieldLaws(s, 0, 0);
  }

  lemma {:induction false} ByELaws(s: Symbol, a: Ext, b: Ext)
    ensures ByE(Add(a, b)) == Add(ByE(a), ByE(b))
    ensures ByE(Scale(s, a)) == Scale(s, ByE(a))
    ensures ByE(ByE(a)) == Add(Scale(9, ByE(a)), Scale(23, a))
  {
    hide SymbolXor, Times;
    FieldLaws(9, a.u, b.u);
    FieldLaws(23, a.u, b.u);
    AddPairs(Times(9, a.u), Times(9, b.u), a.v, b.v);
    FieldLaws(s, Times(9, a.u), a.v);
    Swapped3(9, s, a.u);
    Swapped3(23, s, a.u);
    FieldLaws(23, Times(9, a.u), a.v);
    Swapped3(9, 23, a.u);
  }

  lemma {:induction false} Swapped3(a: Symbol, b: Symbol, c: Symbol)
    ensures Times(a, Times(b, c)) == Times(b, Times(a, c))
  {
    hide SymbolXor, Times;
    FieldLaws(a, b, c);
    FieldLaws(b, a, c);
  }

  lemma {:induction false} MulAdd(a: Ext, b: Ext, c: Ext)
    ensures Mul(a, Add(b, c)) == Add(Mul(a, b), Mul(a, c))
    ensures Mul(Add(a, b), c) == Add(Mul(a, c), Mul(b, c))
  {
    hide SymbolXor, Times, Add, Scale, ByE;
    ByELaws(0, b, c);
    ScaleLaws(a.u, b.u, ByE(b), ByE(c));
    ScaleLaws(a.v, b.v, b, c);
    AddExtPairs(Scale(a.u, ByE(b)), Scale(a.u, ByE(c)), Scale(a.v, b), Scale(a.v, c));
    AddParts(a, b);
    ScaleLaws(a.u, b.u, ByE(c), ZERO);
    ScaleLaws(a.v, b.v, c, ZERO);
    AddExtPairs(Scale(a.u, ByE(c)), Scale(b.u, ByE(c)), Scale(a.v, c), Scale(b.v, c));
  }

  lemma {:induction false} AddParts(a: Ext, b: Ext)
    ensures Add(a, b).u == SymbolXor(a.u, b.u) && Add(a, b).v == SymbolXor(a.v, b.v)
  {
  }

  lemma {:induction false} MulScale(s: Symbol, a: Ext, b: Ext)
    ensures Mul(Scale(s, a), b) == Scale(s, Mul(a, b)) && Mul(a, Scale(s, b)) == Scale(s, Mul(a, b))
  {
    hide SymbolXor, Times, Add, ByE;
    ByELaws(s, b, b);
    ScaleLaws(s, a.u, ByE(b), b);
    ScaleLaws(s, a.v, b, b);
    ScaleLaws(s, 0, Scale(a.u, ByE(b)), Scale(a.v, b));
    FieldLaws(s, a.u, 0);
    FieldLaws(s, a.v, 0);
  }

  lemma {:induction false} MulByE(a: Ext, b: Ext)
    ensures Mul(ByE(a), b) == ByE(Mul(a, b))
  {
    hide SymbolXor, Times, Add, Scale;
    var x := ByE(b);
    ScaleLaws(Times(9, a.u), a.v, x, x);
    ScaleLaws(a.u, 9, x, x);
    ScaleLaws(a.u, 23, b, b);
    FieldLaws(a.u, 9, 0);
    FieldLaws(a.u, 23, 0);
    ScaleLaws(a.u, 0, Scale(9, x), Scale(23, b));
    ByELaws(a.u, b, b);
    ByELaws(a.u, x, x);
    ByELaws(a.v, b, b);
    ByELaws(0, Scale(a.u, x), Scale(a.v, b));
    AddExt(Scale(a.u, Scale(9, x)), Scale(a.v, x), Scale(a.u, Scale(23, b)));
    AddExt(Scale(a.u, Scale(9, x)), Scale(a.u, Scale(23, b)), Scale(a.v, x));
    AddExt(Scale(a.v, x), Scale(a.u, Scale(23, b)), ZERO);
  }

  lemma {:induction false} MulAssociates(a: Ext, b: Ext, c: Ext)
    ensures Mul(Mul(a, b), c) == Mul(a, Mul(b, c))
  {
    hide SymbolXor, Times, Add, Scale, ByE;
    MulAdd(Scale(a.u, ByE(b)), Scale(a.v, b), c);
    MulScale(a.u, ByE(b), c);
    MulScale(a.v, b, c);
    MulByE(b, c);
  }

  lemma {:induction false} MulCommutes(a: Ext, b: Ext)
    ensures Mul(a, b) == Mul(b, a)
  {
    hide SymbolXor, Times;
    FieldLaws(a.u, Times(9, b.u), b.v);
    FieldLaws(b.u, Times(9, a.u), a.v);
    Swapped3(a.u, 9, b.u);
    Swapped3(b.u, 9, a.u);
    Swapped3(a.u, 23, b.u);
    Swapped3(b.u, 23, a.u);
    FieldLaws(a.u, b.u, 0);
    FieldLaws(a.u, b.v, 0);
    FieldLaws(a.v, b.u, 0);
    FieldLaws(a.v, b.v, 0);
    var x, y, z := Times(9, Times(a.u, b.u)), Times(a.u, b.v), Times(a.v, b.u);
    AddLaws(x, y, z);
    AddLaws(x, z, y);
    AddLaws(y, z, 0);
  }

  lemma {:induction false} MulOne(a: Ext)
    ensures Mul(ONE, a) == a && Mul(a, ONE) == a && Mul(ZERO, a) == ZERO && Mul(a, ZERO) == ZERO
  {
    hide SymbolXor, Times, Add, Scale, ByE;
    ScaleLaws(0, 1, ByE(a), a);
    ScaleLaws(0, 1, a, a);
    AddExt(a, ZERO, ZERO);
    AddExt(ZERO, a, ZERO);
    MulCommutes(a, ONE);
    MulCommutes(a, ZERO);
  }

  // ---------- no zero divisors ----------

  /** The product written out. */
  function Form(a: Ext, b: Ext): Ext {
    Ext(SymbolXor(Product(a.u, SymbolXor(Product(9, b.u), b.v)), Product(a.v, b.u)),
        SymbolXor(Product(a.u, Product(23, b.u)), Product(a.v, b.v)))
  }

  lemma {:induction false} MulUnrolled(a: Ext, b: Ext)
    ensures Mul(a, b) == Form(a, b)
  {
    hide SymbolXor, Times, Product;
    TimesUnrolled(9, b.u);
    TimesUnrolled(23, b.u);
    TimesUnrolled(a.u, SymbolXor(Times(9, b.u), b.v));
    TimesUnrolled(a.v, b.u);
    TimesUnrolled(a.u, Times(23, b.u));
    TimesUnrolled(a.v, b.v);
  }

  /** The image under the automorphism that exchanges the two roots, e and e + {9}. */
  function Conjugate(a: Ext): Ext {
    Ext(a.u, SymbolXor(Product(9, a.u), a.v))
  }

  function Norm(a: Ext): Symbol {
    SymbolXor(Product(23, Product(a.u, a.u)), SymbolXor(Product(9, Product(a.u, a.v)), Product(a.v, a.v)))
  }

  lemma {:induction false} NormIs(a: Ext)
    ensures Mul(Conjugate(a), a) == Ext(0, Norm(a))
  {
    hide SymbolXor, Times, Product;
    var n := Times(9, a.u);
    TimesUnrolled(9, a.u);
    TimesUnrolled(a.u, a.u);
    TimesUnrolled(23, Times(a.u, a.u));
    TimesUnrolled(a.u, a.v);
    TimesUnrolled(9, Times(a.u, a.v));
    TimesUnrolled(a.v, a.v);
    var w := SymbolXor(n, a.v);
    FieldLaws(a.u, w, 0);
    FieldLaws(w, a.u, 0);
    AddLaws(Times(w, a.u), 0, 0);
    Swapped3(a.u, 23, a.u);
    FieldLaws(n, a.v, a.v);
    FieldLaws(9, a.u, a.v);
  }

  /** The inverse, as the power 30. */
  function Inverse(a: Symbol): Symbol {
    var a2 := Product(a, a);
    var a4 := Product(a2, a2);
    var a8 := Product(a4, a4);
    Product(a2, Product(a4, Product(a8, Product(a8, a8))))
  }

  lemma {:induction false} InverseIs(a: Symbol)
    ensures a != 0 ==> Product(Inverse(a), a) == 1
  {
  }

  /** The polynomial of e has no root in GF(32). */
  lemma {:induction false} NoRoot(w: Symbol)
    ensures SymbolXor(23, SymbolXor(Product(9, w), Product(w, w))) != 0
  {
  }

  lemma {:induction false} Quotient(i: Symbol, x: Symbol, y: Symbol)
    ensures Times(i, Times(i, Times(x, y))) == Times(Times(i, x), Times(i, y))
  {
    hide SymbolXor, Times;
    FieldLaws(i, x, y);
    FieldLaws(i, Times(i, x), y);
    FieldLaws(Times(i, x), i, y);
    FieldLaws(Times(i, x), y, 0);
  }

  lemma {:induction false} NormZero(a: Ext)
    ensures Norm(a) == 0 ==> a == ZERO
  {
    hide SymbolXor, Times, Product, Inverse;
    NormTimes(a);
    if a.u == 0 {
      FieldLaws(0, 0, 0);
      FieldLaws(0, a.v, 0);
      FieldLaws(23, 0, 0);
      FieldLaws(9, 0, 0);
      FieldLaws(a.v, a.v, 0);
      AddLaws(Times(a.v, a.v), 0, 0);
    } else {
      var i := Inverse(a.u);
      var w := Times(i, a.v);
      InverseIs(a.u);
      TimesUnrolled(i, a.u);
      var x, y, z := Times(23, Times(a.u, a.u)), Times(9, Times(a.u, a.v)), Times(a.v, a.v);
      FieldLaws(i, x, SymbolXor(y, z));
      FieldLaws(i, y, z);
      FieldLaws(i, Times(i, x), SymbolXor(Times(i, y), Times(i, z)));
      FieldLaws(i, Times(i, y), Times(i, z));
      Scaled(i, 23, a.u, a.u);
      Scaled(i, 9, a.u, a.v);
      Quotient(i, a.v, a.v);
      FieldLaws(1, 1, 0);
      FieldLaws(1, w, 0);
      FieldLaws(23, 1, 0);
      FieldLaws(1, 23, 0);
      NoRoot(w);
      TimesUnrolled(9, w);
      TimesUnrolled(w, w);
      FieldLaws(i, 0, 0);
    }
  }

  lemma {:induction false} NormTimes(a: Ext)
    ensures Norm(a) == SymbolXor(Times(23, Times(a.u, a.u)), SymbolXor(Times(9, Times(a.u, a.v)), Times(a.v, a.v)))
  {
    hide SymbolXor, Times, Product;
    TimesUnrolled(a.u, a.u);
    TimesUnrolled(23, Times(a.u, a.u));
    TimesUnrolled(a.u, a.v);
    TimesUnrolled(9, Times(a.u, a.v));
    TimesUnrolled(a.v, a.v);
  }

  lemma {:induction false} Scaled(i: Symbol, s: Symbol, x: Symbol, y: Symbol)
    ensures Times(i, Times(i, Times(s, Times(x, y)))) == Times(s, Times(Times(i, x), Times(i, y)))
  {
    hide SymbolXor, Times;
    Swapped3(i, s, Times(x, y));
    Swapped3(i, s, Times(i, Times(x, y)));
    Quotient(i, x, y);
  }

  lemma {:induction false} NoZeroDivisors(a: Ext, b: Ext)
    ensures Mul(a, b) == ZERO ==> a == ZERO || b == ZERO
  {
    hide SymbolXor, Times, Add, ByE, Norm, Conjugate, Mul;
    if Mul(a, b) == ZERO {
      var n := Norm(a);
      NormIs(a);
      NormZero(a);
      MulAssociates(Conjugate(a), a, b);
      MulOne(Conjugate(a));
      ByScalar(n, b);
      FieldLaws(n, b.u, 0);
      FieldLaws(n, b.v, 0);
    }
  }

  lemma {:induction false} ByScalar(s: Symbol, a: Ext)
    ensures Mul(Ext(0, s), a) == Scale(s, a)
  {
    hide SymbolXor, Times, Add, Scale, ByE;
    ScaleLaws(0, s, ByE(a), a);
    AddExt(Scale(s, a), ZERO, ZERO);
  }

  // ---------- powers ----------

  function Pow(a: Ext, n: nat): Ext {
    if n == 0 then ONE else Mul(a, Pow(a, n - 1))
  }

  lemma {:induction false} PowAdd(a: Ext, m: nat, n: nat)
    ensures Pow(a, m + n) == Mul(Pow(a, m), Pow(a, n))
    decreases m
  {
    hide Mul;
    if m == 0 {
      MulOne(Pow(a, n));
    } else {
      PowAdd(a, m - 1, n);
      MulAssociates(a, Pow(a, m - 1), Pow(a, n));
      assert Pow(a, m + n) == Mul(a, Pow(a, m - 1 + n));
    }
  }

  lemma {:induction false} PowOne(n: nat)
    ensures Pow(ONE, n) == ONE
  {
    hide Mul;
    if n > 0 {
      PowOne(n - 1);
      MulOne(ONE);
    }
  }

  lemma {:induction false} PowPow(a: Ext, m: nat, n: nat)
    ensures Pow(Pow(a, m), n) == Pow(a, m * n)
    decreases n
  {
    hide Mul;
    if n > 0 {
      PowPow(a, m, n - 1);
      PowAdd(a, m, m * (n - 1));
      assert m * n == m + m * (n - 1);
    }
  }

  lemma {:induction false} PowNonZero(a: Ext, n: nat)
    requires a != ZERO
    ensures Pow(a, n) != ZERO
  {
    hide Mul;
    if n > 0 {
      PowNonZero(a, n - 1);
      NoZeroDivisors(a, Pow(a, n - 1));
    }
  }

  lemma {:induction false} Cancel(a: Ext, b: Ext)
    requires a != ZERO && Mul(a, b) == a
    ensures b == ONE
  {
    hide Mul, Add;
    MulAdd(a, b, ONE);
    MulOne(a);
    AddExt(a, b, ONE);
    NoZeroDivisors(a, Add(b, ONE));
    AddExt(b, ONE, ONE);
    AddExt(ONE, ONE, ONE);
  }

  // ---------- the powers of e that matter ----------

  ghost predicate PowIs(m: nat, a: Ext) {
    Pow(E, m) == a
  }

  lemma {:induction false} Multiplied(a: Ext, b: Ext, m: nat, n: nat)
    ensures PowIs(m, a) && PowIs(n, b) ==> PowIs(m + n, Form(a, b))
  {
    hide Mul, Form, Pow;
    PowAdd(E, m, n);
    MulUnrolled(a, b);
  }

  lemma {:induction false} FirstPower()
    ensures PowIs(1, E)
  {
    hide Mul;
    MulOne(E);
    assert PowIs(0, ONE);
  }

  /** A number times e, written out. */
  function FormE(a: Ext): Ext {
    Ext(SymbolXor(Product(a.u, 9), a.v), Product(a.u, 23))
  }

  lemma {:induction false} MultipliedByE(a: Ext, m: nat)
    ensures PowIs(m, a) ==> PowIs(m + 1, FormE(a))
  {
    hide Mul, FormE, Pow;
    FirstPower();
    PowAdd(E, m, 1);
    MulE(a);
  }

  lemma {:induction false} MulE(a: Ext)
    ensures Mul(a, E) == FormE(a)
  {
    hide Times, Product, SymbolXor;
    FieldLaws(1, 9, 0);
    FieldLaws(1, 23, 0);
    FieldLaws(a.v, 1, 0);
    FieldLaws(1, a.v, 0);
    FieldLaws(a.v, 0, 0);
    FieldLaws(0, a.v, 0);
    FieldLaws(9, 1, 0);
    FieldLaws(23, 1, 0);
    AddLaws(9, 0, 0);
    AddLaws(Times(a.u, 23), 0, 0);
    TimesUnrolled(a.u, 9);
    TimesUnrolled(a.u, 23);
  }

  /** The products that the powers need. */
  lemma {:induction false} TimesE()
    ensures FormE(Ext(1, 0)) == Ext(9, 23)
    ensures FormE(Ext(1, 9)) == Ext(0, 23)
    ensures FormE(Ext(18, 21)) == Ext(26, 22)
    ensures FormE(Ext(24, 12)) == Ext(11, 13)
    ensures FormE(Ext(19, 6)) == Ext(0, 1)
    ensures FormE(Ext(27, 17)) == Ext(13, 29)
    ensures FormE(Ext(13, 29)) == Ext(3, 5)
    ensures FormE(Ext(3, 5)) == Ext(30, 16)
  {
  }

  lemma {:induction false} Squares()
    ensures Form(Ext(9, 23), Ext(9, 23)) == Ext(6, 14)
    ensures Form(Ext(6, 14), Ext(6, 14)) == Ext(16, 25)
    ensures Form(Ext(16, 25), Ext(16, 25)) == Ext(21, 3)
    ensures Form(Ext(21, 3), Ext(21, 3)) == Ext(1, 9)
  {
  }

  lemma {:induction false} MiddleSquare()
    ensures Form(Ext(1, 9), Ext(1, 9)) == Ext(9, 4)
  {
  }

  lemma {:induction false} MoreSquares()
    ensures Form(Ext(9, 4), Ext(9, 4)) == Ext(6, 17)
    ensures Form(Ext(6, 17), Ext(6, 17)) == Ext(16, 4)
    ensures Form(Ext(16, 4), Ext(16, 4)) == Ext(21, 26)
  {
  }

  lemma {:induction false} Products()
    ensures Form(Ext(9, 4), Ext(21, 3)) == Ext(19, 22)
    ensures Form(Ext(19, 22), Ext(16, 25)) == Ext(31, 19)
    ensures Form(Ext(31, 19), Ext(6, 14)) == Ext(18, 21)
    ensures Form(Ext(16, 4), Ext(9, 4)) == Ext(28, 4)
    ensures Form(Ext(28, 4), Ext(21, 3)) == Ext(4, 26)
    ensures Form(Ext(4, 26), Ext(6, 14)) == Ext(24, 12)
  {
  }

  lemma {:induction false} MoreProducts()
    ensures Form(Ext(21, 26), Ext(16, 4)) == Ext(31, 30)
    ensures Form(Ext(31, 30), Ext(6, 17)) == Ext(8, 3)
    ensures Form(Ext(8, 3), Ext(9, 4)) == Ext(7, 6)
    ensures Form(Ext(1, 9), Ext(7, 6)) == Ext(6, 1)
  {
  }

  lemma {:induction false} LastProducts()
    ensures Form(Ext(21, 3), Ext(6, 1)) == Ext(27, 26)
    ensures Form(Ext(27, 26), Ext(16, 25)) == Ext(9, 30)
    ensures Form(Ext(9, 30), Ext(6, 14)) == Ext(2, 3)
    ensures Form(Ext(2, 3), Ext(9, 23)) == Ext(19, 6)
    ensures Form(Ext(6, 1), Ext(6, 14)) == Ext(27, 17)
  {
  }

  /** The powers whose exponents divide 1023, and those at which the generator vanishes. */
  const POWERS: map<nat, Ext> := map[33 := Ext(0, 23), 93 := Ext(26, 22), 341 := Ext(11, 13), 1023 := ONE,
                                     997 := Ext(13, 29), 998 := Ext(3, 5), 999 := Ext(30, 16)]

  ghost predicate Known(powers: map<nat, Ext>) {
    forall m :: m in powers ==> PowIs(m, powers[m])
  }

  lemma {:induction false} Powers()
    ensures Known(POWERS)
  {
    hide Form, PowIs, FormE;
    FirstPower();
    TimesE();
    Squares();
    MiddleSquare();
    MoreSquares();
    Products();
    MoreProducts();
    LastProducts();
    MultipliedByE(E, 1);
    Multiplied(Ext(9, 23), Ext(9, 23), 2, 2);
    Multiplied(Ext(6, 14), Ext(6, 14), 4, 4);
    Multiplied(Ext(16, 25), Ext(16, 25), 8, 8);
    Multiplied(Ext(21, 3), Ext(21, 3), 16, 16);
    Multiplied(Ext(1, 9), Ext(1, 9), 32, 32);
    Multiplied(Ext(9, 4), Ext(9, 4), 64, 64);
    Multiplied(Ext(6, 17), Ext(6, 17), 128, 128);
    Multiplied(Ext(16, 4), Ext(16, 4), 256, 256);
    MultipliedByE(Ext(1, 9), 32);
    Multiplied(Ext(9, 4), Ext(21, 3), 64, 16);
    Multiplied(Ext(19, 22), Ext(16, 25), 80, 8);
    Multiplied(Ext(31, 19), Ext(6, 14), 88, 4);
    MultipliedByE(Ext(18, 21), 92);
    Multiplied(Ext(16, 4), Ext(9, 4), 256, 64);
    Multiplied(Ext(28, 4), Ext(21, 3), 320, 16);
    Multiplied(Ext(4, 26), Ext(6, 14), 336, 4);
    MultipliedByE(Ext(24, 12), 340);
    Multiplied(Ext(21, 26), Ext(16, 4), 512, 256);
    Multiplied(Ext(31, 30), Ext(6, 17), 768, 128);
    Multiplied(Ext(8, 3), Ext(9, 4), 896, 64);
    Multiplied(Ext(1, 9), Ext(7, 6), 32, 960);
    Multiplied(Ext(21, 3), Ext(6, 1), 16, 992);
    Multiplied(Ext(27, 26), Ext(16, 25), 1008, 8);
    Multiplied(Ext(9, 30), Ext(6, 14), 1016, 4);
    Multiplied(Ext(2, 3), Ext(9, 23), 1020, 2);
    MultipliedByE(Ext(19, 6), 1022);
    Multiplied(Ext(6, 1), Ext(6, 14), 992, 4);
    MultipliedByE(Ext(27, 17), 996);
    MultipliedByE(Ext(13, 29), 997);
    MultipliedByE(Ext(3, 5), 998);
  }

  // ---------- the order of e ----------

  lemma {:induction false} Reduces(a: Ext, p: nat, k: nat)
    requires p > 0 && Pow(a, p) == ONE && Pow(a, k) == ONE
    ensures Pow(a, k % p) == ONE
  {
    hide Mul, Pow;
    var q, r := k / p, k % p;
    assert k == p * q + r;
    PowAdd(a, p * q, r);
    PowPow(a, p, q);
    PowOne(q);
    MulOne(Pow(a, r));
  }

  predicate Factors(p: nat, d: nat, q: nat) {
    d * q == p
  }

  ghost predicate Prime(p: nat) {
    forall d, q :: 1 < d < p && 1 < q ==> !Factors(p, d, q)
  }

  lemma {:induction false} NotDivided(p: nat, k: nat)
    requires Prime(p) && 1 < k < p
    ensures 0 < p % k < k
  {
    var q := p / k;
    assert p == k * q + p % k;
    if q > 1 {
      assert !Factors(p, k, q);
    }
  }

  /** An element other than one of prime order p has no smaller power equal to one. */
  lemma {:induction false} PrimeOrder(a: Ext, p: nat, k: nat)
    requires Prime(p) && 0 < k < p && Pow(a, p) == ONE && Pow(a, k) == ONE
    ensures a == ONE
    decreases k
  {
    hide Mul, Pow;
    if k == 1 {
      PowFirst(a);
    } else {
      NotDivided(p, k);
      Reduces(a, k, p);
      PrimeOrder(a, p, p % k);
    }
  }

  lemma {:induction false} PowFirst(a: Ext)
    ensures Pow(a, 1) == a
  {
    hide Mul;
    MulOne(a);
    assert Pow(a, 0) == ONE;
  }

  lemma {:induction false} Primes()
    ensures Prime(3) && Prime(11) && Prime(31)
  {
    forall d, q | 1 < d && 1 < q ensures !Factors(3, d, q) && !Factors(11, d, q) && !Factors(31, d, q) {
      NotProduct(3, d, q);
      NotProduct(11, d, q);
      NotProduct(31, d, q);
    }
  }

  lemma {:induction false} NotProduct(p: nat, d: nat, q: nat)
    requires (p == 3 || p == 11 || p == 31) && d > 1 && q > 1
    ensures d * q != p
  {
    if d <= 5 {
      SmallFactor(p, d, q);
    } else if q <= 5 {
      SmallFactor(p, q, d);
    } else {
      assert d * q >= 6 * q;
    }
  }

  lemma {:induction false} SmallFactor(p: nat, d: nat, q: nat)
    requires (p == 3 || p == 11 || p == 31) && 1 < d <= 5 && q > 1
    ensures d * q != p && q * d != p
  {
    assert d == 2 || d == 3 || d == 4 || d == 5;
    if d == 2 {
    } else if d == 3 {
    } else if d == 4 {
    } else {
    }
  }

  lemma {:induction false} Divides(p: nat, c: nat, m: nat)
    requires Prime(p) && p > 0 && Pow(E, p * c) == ONE && Pow(E, c) != ONE && Pow(E, m) == ONE
    ensures m % p == 0
  {
    hide Mul, Pow;
    var a := Pow(E, c);
    PowPow(E, c, p);
    PowPow(E, c, m);
    PowPow(E, m, c);
    PowOne(c);
    assert c * m == m * c && c * p == p * c;
    Reduces(a, p, m);
    if m % p != 0 {
      PrimeOrder(a, p, m % p);
    }
  }

  lemma {:induction false} Multiple(m: int, i: int, j: int, k: int)
    requires m == 3 * i && m == 11 * j && m == 31 * k
    ensures m == 1023 * (4 * (5 * j - 14 * k) - (i - 10 * k))
  {
  }

  /** The powers of e are different from one below the exponent 1023. */
  lemma {:induction false} OrderOfE(m: nat)
    requires 0 < m < 1023
    ensures Pow(E, m) != ONE
  {
    hide Mul, Pow;
    if Pow(E, m) == ONE {
      Powers();
      assert PowIs(33, POWERS[33]) && PowIs(93, POWERS[93]) && PowIs(341, POWERS[341]) && PowIs(1023, POWERS[1023]);
      Primes();
      Divides(3, 341, m);
      Divides(11, 93, m);
      Divides(31, 33, m);
      Multiple(m, m / 3, m / 11, m / 31);
    }
  }

  /** So different exponents below 1023 give different powers. */
  lemma {:induction false} PowersDiffer(m: nat, n: nat)
    requires m < n && n - m < 1023
    ensures Pow(E, m) != Pow(E, n)
  {
    hide Mul, Pow;
    if Pow(E, m) == Pow(E, n) {
      PowAdd(E, m, n - m);
      PowNonZero(E, m);
      Cancel(Pow(E, m), Pow(E, n - m));
      OrderOfE(n - m);
    }
  }
}
