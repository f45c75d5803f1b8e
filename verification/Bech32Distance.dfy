/** The distance of the code: the generator vanishes at three consecutive powers of an element of order 1023, so no
    two lists of up to 1023 symbols with the same remainder differ in one, two or three places. */
module Bech32Distance {
  import opened Bech32
  import opened Bech32Field
  import opened Bech32Extension

  // ---------- the remainder at a point ----------

  /** The sum of the lowest n terms of a remainder, at y. */
  ghost function EvalN(y: Ext, c: bv32, n: nat): Ext
    requires n <= 6
  {
    if n == 0 then ZERO else Add(EvalN(y, c, n - 1), Scale(Coefficient(c, n - 1), Pow(y, n - 1)))
  }

  /** The same for the generator without its leading term. */
  ghost function GeneratorN(y: Ext, n: nat): Ext
    requires n <= 6
  {
    if n == 0 then ZERO else Add(GeneratorN(y, n - 1), Scale(Generator(n - 1), Pow(y, n - 1)))
  }

  ghost function Eval(y: Ext, c: bv32): Ext {
    EvalN(y, c, 6)
  }

  ghost predicate Root(y: Ext) {
    GeneratorN(y, 6) == Pow(y, 6)
  }

  /** One term more: (w + t g) y^n == y (w y^(n-1)) + t (g y^n). */
  lemma {:induction false} OneTerm(y: Ext, w: Symbol, t: Symbol, g: Symbol, n: nat)
    requires n > 0
    ensures Scale(SymbolXor(w, Times(t, g)), Pow(y, n)) == Add(Mul(y, Scale(w, Pow(y, n - 1))), Scale(t, Scale(g, Pow(y, n))))
  {
    hide SymbolXor, Times, Add, Scale, Mul;
    ScaleLaws(w, Times(t, g), Pow(y, n), ZERO);
    ScaleLaws(t, g, Pow(y, n), ZERO);
    MulScale(w, y, Pow(y, n - 1));
  }

  /** The lowest n terms after a step: the symbol, y times the terms below, and the leading coefficient times those of
      the generator. */
  lemma {:induction false} StepTerms(y: Ext, c: bv32, v: Symbol, n: nat)
    requires c < 0x4000_0000 && 0 < n <= 6
    ensures EvalN(y, Step(c, v), n)
      == Add(Add(Ext(0, v), Mul(y, EvalN(y, c, n - 1))), Scale(Coefficient(c, 5), GeneratorN(y, n)))
  {
    hide SymbolXor, Times, Add, Scale, Mul, Step, Coefficient, Generator, Pow;
    var t := Coefficient(c, 5);
    StepMultiplies(c, v, n - 1);
    var g := Generator(n - 1);
    if n == 1 {
      FirstTerm(y, v, t, g);
      MulOne(y);
      AddExt(Ext(0, v), ZERO, ZERO);
      AddExt(Scale(SymbolXor(v, Times(t, g)), ONE), ZERO, ZERO);
      AddExt(Scale(g, ONE), ZERO, ZERO);
      PowZero(y);
    } else {
      var w := Coefficient(c, n - 2);
      StepTerms(y, c, v, n - 1);
      OneTerm(y, w, t, g, n - 1);
      var low, gen := EvalN(y, c, n - 2), GeneratorN(y, n - 1);
      MulAdd(y, low, Scale(w, Pow(y, n - 2)));
      ScaleLaws(t, 0, gen, Scale(g, Pow(y, n - 1)));
      Shuffle(Ext(0, v), Mul(y, low), Scale(t, gen), Mul(y, Scale(w, Pow(y, n - 2))), Scale(t, Scale(g, Pow(y, n - 1))));
    }
  }

  lemma {:induction false} PowZero(y: Ext)
    ensures Pow(y, 0) == ONE
  {
  }

  lemma {:induction false} FirstTerm(y: Ext, v: Symbol, t: Symbol, g: Symbol)
    ensures Scale(SymbolXor(v, Times(t, g)), ONE) == Add(Ext(0, v), Scale(t, Scale(g, ONE)))
  {
    hide SymbolXor, Times;
    FieldLaws(SymbolXor(v, Times(t, g)), 1, 0);
    FieldLaws(1, SymbolXor(v, Times(t, g)), 0);
    FieldLaws(SymbolXor(v, Times(t, g)), 0, 0);
    FieldLaws(g, 1, 0);
    FieldLaws(1, g, 0);
    FieldLaws(g, 0, 0);
    FieldLaws(t, 0, 0);
    AddLaws(0, 0, 0);
  }

  /** ((a + b) + c) + (d + e) == (a + (b + d)) + (c + e). */
  lemma {:induction false} Shuffle(a: Ext, b: Ext, c: Ext, d: Ext, e: Ext)
    ensures Add(Add(Add(a, b), c), Add(d, e)) == Add(Add(a, Add(b, d)), Add(c, e))
  {
    hide Add;
    AddExtPairs(Add(a, b), c, d, e);
    AddExt(a, b, d);
  }

  /** At a root of the generator a step multiplies by y and adds the symbol. */
  lemma {:induction false} StepEval(y: Ext, c: bv32, v: Symbol)
    requires Root(y) && c < 0x4000_0000
    ensures Eval(y, Step(c, v)) == Add(Mul(y, Eval(y, c)), Ext(0, v))
  {
    hide SymbolXor, Times, Add, Scale, Mul, Step, Coefficient, Generator, Pow, GeneratorN;
    StepTerms(y, c, v, 6);
    var t, low := Coefficient(c, 5), EvalN(y, c, 5);
    MulAdd(y, low, Scale(t, Pow(y, 5)));
    MulScale(t, y, Pow(y, 5));
    PowNext(y, 5);
    AddExt(Ext(0, v), Mul(y, low), Scale(t, Pow(y, 6)));
    AddExt(Ext(0, v), Mul(y, Eval(y, c)), ZERO);
  }

  lemma {:induction false} PowNext(y: Ext, n: nat)
    ensures Pow(y, n + 1) == Mul(y, Pow(y, n))
  {
    hide Mul;
  }

  // ---------- lists of symbols at a point ----------

  /** The polynomial with the given coefficients, the highest first, at y. */
  ghost function Sum(y: Ext, e: seq<Symbol>): Ext {
    if e == [] then ZERO else Add(Scale(e[0], Pow(y, |e| - 1)), Sum(y, e[1..]))
  }

  lemma {:induction false} PolyEval(y: Ext, c: bv32, e: seq<Symbol>)
    requires Root(y) && c < 0x4000_0000
    ensures Eval(y, Poly(c, e)) == Add(Mul(Pow(y, |e|), Eval(y, c)), Sum(y, e))
    decreases |e|
  {
    hide SymbolXor, Times, Add, Scale, Mul, Step, Eval, Root;
    if e == [] {
      MulOne(Eval(y, c));
      AddExt(Eval(y, c), ZERO, ZERO);
    } else {
      var n, x, v := |e| - 1, Eval(y, c), e[0];
      StepBound(c, v);
      StepEval(y, c, v);
      PolyEval(y, Step(c, v), e[1..]);
      var p := Pow(y, n);
      MulAdd(p, Mul(y, x), Ext(0, v));
      MulAssociates(p, y, x);
      MulCommutes(p, y);
      MulCommutes(p, Ext(0, v));
      ByScalar(v, p);
      AddExt(Mul(Mul(y, p), x), Scale(v, p), Sum(y, e[1..]));
    }
  }

  lemma {:induction false} EvalZero(y: Ext, n: nat)
    requires n <= 6
    ensures EvalN(y, 0, n) == ZERO
  {
    hide Add, Scale, Pow;
    if n > 0 {
      EvalZero(y, n - 1);
      NoCoefficient(n - 1);
      ScaleLaws(0, 0, Pow(y, n - 1), ZERO);
      AddExt(ZERO, ZERO, ZERO);
    }
  }

  lemma {:induction false} NoCoefficient(i: nat)
    requires i < 6
    ensures Coefficient(0, i) == 0
  {
  }

  /** A list with remainder zero vanishes at every root of the generator. */
  lemma {:induction false} Vanishes(y: Ext, e: seq<Symbol>)
    requires Root(y) && Poly(0, e) == 0
    ensures Sum(y, e) == ZERO
  {
    hide SymbolXor, Times, Add, Scale, Mul, Step, Root, Poly, EvalN, Pow;
    PolyEval(y, 0, e);
    EvalZero(y, 6);
    MulOne(Pow(y, |e|));
    AddExt(Sum(y, e), ZERO, ZERO);
  }

  /** One coefficient taken out. */
  lemma {:induction false} SumWithout(y: Ext, e: seq<Symbol>, p: nat)
    requires p < |e|
    ensures Sum(y, e) == Add(Scale(e[p], Pow(y, |e| - 1 - p)), Sum(y, e[p := 0]))
    decreases |e|
  {
    hide SymbolXor, Times, Add, Scale, Mul, Pow;
    var f := e[p := 0];
    if p == 0 {
      assert f[1..] == e[1..];
      ScaleLaws(0, 0, Pow(y, |e| - 1), ZERO);
      AddExt(ZERO, Sum(y, e[1..]), ZERO);
      AddExt(Sum(y, e[1..]), ZERO, ZERO);
    } else {
      SumWithout(y, e[1..], p - 1);
      assert f[1..] == e[1..][p - 1 := 0];
      var a, b, c := Scale(e[0], Pow(y, |e| - 1)), Scale(e[p], Pow(y, |e| - 1 - p)), Sum(y, f[1..]);
      AddExt(a, b, c);
      AddExt(b, a, c);
    }
  }

  lemma {:induction false} SumZeros(y: Ext, e: seq<Symbol>)
    requires forall i :: 0 <= i < |e| ==> e[i] == 0
    ensures Sum(y, e) == ZERO
    decreases |e|
  {
    hide SymbolXor, Times, Add, Scale, Mul, Pow;
    if e != [] {
      SumZeros(y, e[1..]);
      ScaleLaws(0, 0, Pow(y, |e| - 1), ZERO);
      AddExt(ZERO, ZERO, ZERO);
    }
  }

  /** Zero except at three places. */
  ghost predicate AtMostThree(e: seq<Symbol>, p: nat, q: nat, r: nat) {
    p < q < r < |e| && forall i :: 0 <= i < |e| && i != p && i != q && i != r ==> e[i] == 0
  }

  lemma {:induction false} SumThree(y: Ext, e: seq<Symbol>, p: nat, q: nat, r: nat)
    requires AtMostThree(e, p, q, r)
    ensures var n := |e| - 1;
      Sum(y, e) == Add(Scale(e[p], Pow(y, n - p)), Add(Scale(e[q], Pow(y, n - q)), Scale(e[r], Pow(y, n - r))))
  {
    hide SymbolXor, Times, Add, Scale, Mul, Pow, Sum;
    var f := e[p := 0];
    var g := f[q := 0];
    SumWithout(y, e, p);
    SumWithout(y, f, q);
    SumWithout(y, g, r);
    SumZeros(y, g[r := 0]);
    AddExt(Scale(e[r], Pow(y, |e| - 1 - r)), ZERO, ZERO);
  }

  // ---------- three consecutive roots ----------

  /** The generator vanishes at the powers 997, 998 and 999 of e. */
  lemma {:induction false} Roots(j: nat)
    requires 997 <= j <= 999
    ensures Root(Pow(E, j))
  {
    hide Pow, Root;
    Powers();
    assert PowIs(j, POWERS[j]);
    RootValues();
  }

  lemma {:induction false} RootValues()
    ensures Root(Ext(13, 29)) && Root(Ext(3, 5)) && Root(Ext(30, 16))
  {
    hide Root;
    FirstRoot();
    SecondRoot();
    ThirdRoot();
  }

  /** The terms of the generator at y, from its powers. */
  lemma {:induction false} RootFrom(y: Ext, y2: Ext, y3: Ext, y4: Ext, y5: Ext)
    requires y2 == Form(y, y) && y3 == Form(y, y2) && y4 == Form(y, y3) && y5 == Form(y, y4)
    ensures Pow(y, 6) == Form(y, y5)
    ensures GeneratorN(y, 6) == Add(Add(Add(Add(Add(Scale(18, ONE), Scale(29, y)), Scale(21, y2)), Scale(20, y3)), Scale(22, y4)), Scale(29, y5))
  {
    hide Form, Mul, Add, Scale, Pow, GeneratorN, Generator;
    PowZero(y);
    PowFirst(y);
    PowNext(y, 1);
    PowNext(y, 2);
    PowNext(y, 3);
    PowNext(y, 4);
    PowNext(y, 5);
    MulUnrolled(y, y);
    MulUnrolled(y, y2);
    MulUnrolled(y, y3);
    MulUnrolled(y, y4);
    MulUnrolled(y, y5);
    GeneratorTerm(y, 0);
    GeneratorTerm(y, 1);
    GeneratorTerm(y, 2);
    GeneratorTerm(y, 3);
    GeneratorTerm(y, 4);
    GeneratorTerm(y, 5);
    NoTerms(y);
    Coefficients();
    AddExt(Scale(18, ONE), ZERO, ZERO);
  }

  lemma {:induction false} Coefficients()
    ensures Generator(0) == 18 && Generator(1) == 29 && Generator(2) == 21
    ensures Generator(3) == 20 && Generator(4) == 22 && Generator(5) == 29
  {
  }

  lemma {:induction false} GeneratorTerm(y: Ext, n: nat)
    requires n < 6
    ensures GeneratorN(y, n + 1) == Add(GeneratorN(y, n), Scale(Generator(n), Pow(y, n)))
  {
    hide Add, Scale, Pow;
  }

  lemma {:induction false} NoTerms(y: Ext)
    ensures GeneratorN(y, 0) == ZERO
  {
  }

  /** The same sum written out. */
  function Combined(y: Ext, y2: Ext, y3: Ext, y4: Ext, y5: Ext): Ext {
    Ext(SymbolXor(SymbolXor(SymbolXor(SymbolXor(Product(29, y.u), Product(21, y2.u)), Product(20, y3.u)), Product(22, y4.u)), Product(29, y5.u)),
        SymbolXor(SymbolXor(SymbolXor(SymbolXor(SymbolXor(18, Product(29, y.v)), Product(21, y2.v)), Product(20, y3.v)), Product(22, y4.v)), Product(29, y5.v)))
  }

  lemma {:induction false} CombinedIs(y: Ext, y2: Ext, y3: Ext, y4: Ext, y5: Ext)
    ensures Combined(y, y2, y3, y4, y5)
      == Add(Add(Add(Add(Add(Scale(18, ONE), Scale(29, y)), Scale(21, y2)), Scale(20, y3)), Scale(22, y4)), Scale(29, y5))
  {
    hide SymbolXor, Times, Product;
    FieldLaws(18, 0, 0);
    FieldLaws(18, 1, 0);
    FieldLaws(1, 18, 0);
    AddLaws(Times(29, y.u), 0, 0);
    TimesUnrolled(29, y.u);
    TimesUnrolled(29, y.v);
    TimesUnrolled(21, y2.u);
    TimesUnrolled(21, y2.v);
    TimesUnrolled(20, y3.u);
    TimesUnrolled(20, y3.v);
    TimesUnrolled(22, y4.u);
    TimesUnrolled(22, y4.v);
    TimesUnrolled(29, y5.u);
    TimesUnrolled(29, y5.v);
  }

  lemma {:induction false} FirstProducts()
    ensures Form(Ext(13, 29), Ext(13, 29)) == Ext(27, 9)
    ensures Form(Ext(13, 29), Ext(27, 9)) == Ext(26, 15)
    ensures Form(Ext(13, 29), Ext(26, 15)) == Ext(30, 22)
    ensures Form(Ext(13, 29), Ext(30, 22)) == Ext(3, 20)
    ensures Form(Ext(13, 29), Ext(3, 20)) == Ext(23, 21)
    ensures Combined(Ext(13, 29), Ext(27, 9), Ext(26, 15), Ext(30, 22), Ext(3, 20)) == Ext(23, 21)
  {
  }

  lemma {:induction false} FirstRoot()
    ensures Root(Ext(13, 29))
  {
    hide Form, Combined, GeneratorN, Add, Scale, Pow;
    FirstProducts();
    RootFrom(Ext(13, 29), Ext(27, 9), Ext(26, 15), Ext(30, 22), Ext(3, 20));
    CombinedIs(Ext(13, 29), Ext(27, 9), Ext(26, 15), Ext(30, 22), Ext(3, 20));
  }

  lemma {:induction false} SecondProducts()
    ensures Form(Ext(3, 5), Ext(3, 5)) == Ext(4, 8)
    ensures Form(Ext(3, 5), Ext(4, 8)) == Ext(27, 19)
    ensures Form(Ext(3, 5), Ext(27, 19)) == Ext(29, 3)
    ensures Form(Ext(3, 5), Ext(29, 3)) == Ext(18, 26)
    ensures Form(Ext(3, 5), Ext(18, 26)) == Ext(30, 26)
    ensures Combined(Ext(3, 5), Ext(4, 8), Ext(27, 19), Ext(29, 3), Ext(18, 26)) == Ext(30, 26)
  {
  }

  lemma {:induction false} SecondRoot()
    ensures Root(Ext(3, 5))
  {
    hide Form, Combined, GeneratorN, Add, Scale, Pow;
    SecondProducts();
    RootFrom(Ext(3, 5), Ext(4, 8), Ext(27, 19), Ext(29, 3), Ext(18, 26));
    CombinedIs(Ext(3, 5), Ext(4, 8), Ext(27, 19), Ext(29, 3), Ext(18, 26));
  }

  lemma {:induction false} ThirdProducts()
    ensures Form(Ext(30, 16), Ext(30, 16)) == Ext(10, 25)
    ensures Form(Ext(30, 16), Ext(10, 25)) == Ext(22, 6)
    ensures Form(Ext(30, 16), Ext(22, 6)) == Ext(2, 17)
    ensures Form(Ext(30, 16), Ext(2, 17)) == Ext(2, 2)
    ensures Form(Ext(30, 16), Ext(2, 2)) == Ext(5, 1)
    ensures Combined(Ext(30, 16), Ext(10, 25), Ext(22, 6), Ext(2, 17), Ext(2, 2)) == Ext(5, 1)
  {
  }

  lemma {:induction false} ThirdRoot()
    ensures Root(Ext(30, 16))
  {
    hide Form, Combined, GeneratorN, Add, Scale, Pow;
    ThirdProducts();
    RootFrom(Ext(30, 16), Ext(10, 25), Ext(22, 6), Ext(2, 17), Ext(2, 2));
    CombinedIs(Ext(30, 16), Ext(10, 25), Ext(22, 6), Ext(2, 17), Ext(2, 2));
  }

  /** (a b) c, where b and c may change places. */
  lemma {:induction false} PowSwap(d: nat, j: nat)
    ensures Pow(Pow(E, j), d) == Pow(Pow(E, d), j)
  {
    hide Pow;
    PowPow(E, j, d);
    PowPow(E, d, j);
    assert j * d == d * j;
  }

  /** f + g + h, f x + g y + h z and f x^2 + g y^2 + h z^2 vanish only if f does, for different x, y and z. */
  lemma {:induction false} Vandermonde(f: Ext, g: Ext, h: Ext, x: Ext, y: Ext, z: Ext)
    requires x != y && x != z
    requires Add(f, Add(g, h)) == ZERO
    requires Add(Mul(f, x), Add(Mul(g, y), Mul(h, z))) == ZERO
    requires Add(Mul(Mul(f, x), x), Add(Mul(Mul(g, y), y), Mul(Mul(h, z), z))) == ZERO
    ensures f == ZERO
  {
    hide Add, Mul;
    Eliminate(f, g, h, x, y, z);
    Eliminate(Mul(f, x), Mul(g, y), Mul(h, z), x, y, z);
    var s, t := Add(x, z), Add(y, z);
    var f1, g1 := Mul(f, s), Mul(g, t);
    Reordered(f, x, s);
    Reordered(g, y, t);
    EliminateTwo(f1, g1, x, y);
    DifferentSum(x, z);
    DifferentSum(x, y);
    NoZeroDivisors(f1, Add(x, y));
    NoZeroDivisors(f, s);
  }

  lemma {:induction false} Reordered(f: Ext, x: Ext, s: Ext)
    ensures Mul(Mul(f, x), s) == Mul(Mul(f, s), x)
  {
    hide Add, Mul;
    MulAssociates(f, x, s);
    MulAssociates(f, s, x);
    MulCommutes(x, s);
  }

  lemma {:induction false} DifferentSum(x: Ext, y: Ext)
    ensures Add(x, y) == ZERO <==> x == y
  {
    hide Add;
    AddExt(x, y, y);
    AddExt(y, y, y);
    AddExt(x, ZERO, ZERO);
    AddExt(ZERO, y, ZERO);
  }

  /** Adding z times the first equation to the second removes h. */
  lemma {:induction false} Eliminate(f: Ext, g: Ext, h: Ext, x: Ext, y: Ext, z: Ext)
    requires Add(f, Add(g, h)) == ZERO
    requires Add(Mul(f, x), Add(Mul(g, y), Mul(h, z))) == ZERO
    ensures Add(Mul(f, Add(x, z)), Mul(g, Add(y, z))) == ZERO
  {
    hide Add, Mul;
    MulAdd(f, Add(g, h), z);
    MulAdd(g, h, z);
    MulOne(z);
    MulAdd(f, x, z);
    MulAdd(g, y, z);
    var fx, gy, hz, fz, gz := Mul(f, x), Mul(g, y), Mul(h, z), Mul(f, z), Mul(g, z);
    AddExtPairs(fx, Add(gy, hz), fz, Add(gz, hz));
    AddExtPairs(gy, hz, gz, hz);
    AddExt(hz, hz, hz);
    AddExt(Add(gy, gz), ZERO, ZERO);
    AddExt(ZERO, ZERO, ZERO);
  }

  lemma {:induction false} EliminateTwo(f: Ext, g: Ext, x: Ext, y: Ext)
    requires Add(f, g) == ZERO && Add(Mul(f, x), Mul(g, y)) == ZERO
    ensures Mul(f, Add(x, y)) == ZERO
  {
    hide Add, Mul;
    DifferentSum(f, g);
    MulAdd(f, x, y);
  }

  // ---------- the distance ----------

  /** The sum at the power j of e, with the three places as powers of their own. */
  lemma {:induction false} SumAt(e: seq<Symbol>, p: nat, q: nat, r: nat, j: nat)
    requires AtMostThree(e, p, q, r) && Poly(0, e) == 0 && 997 <= j <= 999
    ensures var n := |e| - 1;
      Equation(e[p], e[q], e[r], Pow(E, n - p), Pow(E, n - q), Pow(E, n - r), j)
  {
    hide SymbolXor, Times, Add, Scale, Mul, Pow, Sum, Poly, Root;
    Roots(j);
    Vanishes(Pow(E, j), e);
    SumThree(Pow(E, j), e, p, q, r);
    var n := |e| - 1;
    PowSwap(n - p, j);
    PowSwap(n - q, j);
    PowSwap(n - r, j);
  }

  lemma {:induction false} NextPower(s: Symbol, x: Ext, j: nat)
    ensures Scale(s, Pow(x, j + 1)) == Mul(Scale(s, Pow(x, j)), x)
  {
    hide SymbolXor, Times, Add, Scale, Mul;
    MulCommutes(x, Pow(x, j));
    MulScale(s, Pow(x, j), x);
  }

  /** The three equations as far as one of the three places is concerned. */
  lemma {:induction false} PlaceZero(u: Symbol, v: Symbol, w: Symbol, x: Ext, y: Ext, z: Ext, j: nat)
    requires x != y && x != z && x != ZERO
    requires forall k :: j <= k <= j + 2 ==> Equation(u, v, w, x, y, z, k)
    ensures u == 0
  {
    hide SymbolXor, Times, Add, Scale, Mul, Pow;
    assert Equation(u, v, w, x, y, z, j) && Equation(u, v, w, x, y, z, j + 1) && Equation(u, v, w, x, y, z, j + 2);
    var f, g, h := Scale(u, Pow(x, j)), Scale(v, Pow(y, j)), Scale(w, Pow(z, j));
    NextPower(u, x, j);
    NextPower(v, y, j);
    NextPower(w, z, j);
    NextPower(u, x, j + 1);
    NextPower(v, y, j + 1);
    NextPower(w, z, j + 1);
    Vandermonde(f, g, h, x, y, z);
    PowNonZero(x, j);
    ScaleZero(u, Pow(x, j));
  }

  ghost predicate Equation(u: Symbol, v: Symbol, w: Symbol, x: Ext, y: Ext, z: Ext, k: nat) {
    Add(Scale(u, Pow(x, k)), Add(Scale(v, Pow(y, k)), Scale(w, Pow(z, k)))) == ZERO
  }

  lemma {:induction false} ScaleZero(s: Symbol, a: Ext)
    requires a != ZERO && Scale(s, a) == ZERO
    ensures s == 0
  {
    hide SymbolXor, Times;
    FieldLaws(s, a.u, 0);
    FieldLaws(s, a.v, 0);
  }

  lemma {:induction false} EquationsTurn(u: Symbol, v: Symbol, w: Symbol, x: Ext, y: Ext, z: Ext, k: nat)
    requires Equation(u, v, w, x, y, z, k)
    ensures Equation(v, u, w, y, x, z, k) && Equation(w, u, v, z, x, y, k)
  {
    hide SymbolXor, Times, Add, Scale, Pow;
    var a, b, c := Scale(u, Pow(x, k)), Scale(v, Pow(y, k)), Scale(w, Pow(z, k));
    AddExt(a, b, c);
    AddExt(b, a, c);
    AddExt(c, a, b);
    AddExt(b, c, ZERO);
    AddExt(Add(a, b), c, ZERO);
  }

  /** A list of at most 1023 symbols with at most three that are not zero has remainder zero only if none is. */
  lemma {:induction false} NoLightWord(e: seq<Symbol>, p: nat, q: nat, r: nat)
    requires |e| <= 1023 && AtMostThree(e, p, q, r) && Poly(0, e) == 0
    ensures forall i :: 0 <= i < |e| ==> e[i] == 0
  {
    hide SymbolXor, Times, Add, Scale, Mul, Pow, Sum, Poly, Equation;
    var n := |e| - 1;
    var x, y, z := Pow(E, n - p), Pow(E, n - q), Pow(E, n - r);
    PowersDiffer(n - q, n - p);
    PowersDiffer(n - r, n - p);
    PowersDiffer(n - r, n - q);
    PowNonZero(E, n - p);
    PowNonZero(E, n - q);
    PowNonZero(E, n - r);
    forall k | 997 <= k <= 999
      ensures Equation(e[p], e[q], e[r], x, y, z, k)
      ensures Equation(e[q], e[p], e[r], y, x, z, k) && Equation(e[r], e[p], e[q], z, x, y, k)
    {
      SumAt(e, p, q, r, k);
      EquationsTurn(e[p], e[q], e[r], x, y, z, k);
    }
    PlaceZero(e[p], e[q], e[r], x, y, z, 997);
    PlaceZero(e[q], e[p], e[r], y, x, z, 997);
    PlaceZero(e[r], e[p], e[q], z, x, y, 997);
  }

  /** Two lists of up to 1023 symbols that differ in at most three places, wherever they are, have different
      remainders. */
  lemma {:induction false} ThreeErrorsDetected(c: bv32, x: seq<Symbol>, y: seq<Symbol>, p: nat, q: nat, r: nat)
    requires |x| == |y| <= 1023 && p < q < r < |x|
    requires forall i :: 0 <= i < |x| && i != p && i != q && i != r ==> x[i] == y[i]
    ensures Poly(c, x) == Poly(c, y) <==> x == y
  {
    hide Step, Xor, SymbolXor, Poly;
    var e := Diff(x, y);
    EqualSymbols(x, y);
    PolyXor(c, c, x, y);
    SelfXor(c, Poly(c, x), Poly(c, y));
    if Poly(c, x) == Poly(c, y) {
      NoLightWord(e, p, q, r);
    }
  }
}
