/** The heights that skip pointers lead to, and how many steps a search along them takes. */
module ChainSkip {
  import opened Powers

  /** Bitwise conjunction. */
  function And(a: nat, b: nat): (r: nat)
    ensures r <= a && r <= b
  {
    if a == 0 || b == 0 then 0
    else 2 * And(a / 2, b / 2) + (if a % 2 == 1 && b % 2 == 1 then 1 else 0)
  }

  function InvertLowestOne(n: nat): nat {
    if n == 0 then 0 else And(n, n - 1)
  }

  /** Clearing the lowest one takes away the largest power of two that divides the number. */
  lemma {:induction false} InvertClears(n: nat) returns (k: nat, q: nat)
    requires n > 0
    ensures q % 2 == 1 && n == q * Pow2(k) && InvertLowestOne(n) == n - Pow2(k)
  {
    if n % 2 == 1 {
      k, q := 0, n;
      AndSelf(n / 2);
    } else {
      k, q := InvertClears(n / 2);
      assert n / 2 - 1 == (n - 1) / 2;
      Twice(q, Pow2(k));
      k := k + 1;
    }
  }

  lemma {:induction false} AndSelf(n: nat)
    ensures And(n, n) == n
  {
    if n > 0 {
      AndSelf(n / 2);
    }
  }

  lemma {:induction false} Twice(q: nat, p: nat)
    ensures 2 * (q * p) == q * (2 * p)
  {
  }

  /** The height a skip pointer leads to: always below. */
  function GetSkipHeight(height: int): (r: nat)
    ensures height >= 1 ==> r < height
  {
    if height < 2 then 0
    else if height % 2 == 1 then InvertLowestOne(InvertLowestOne(height - 1)) + 1
    else InvertLowestOne(height)
  }

  /** In powers of two: an even height loses the lowest power in its binary form, an odd one the two lowest powers of
      the height below it, or the one it has, and keeps its last bit. */
  lemma {:induction false} SkipHeightPowers(height: nat) returns (k: nat, q: nat, j: nat, r: nat)
    requires height >= 2
    ensures q % 2 == 1 && height - height % 2 == q * Pow2(k)
    ensures height % 2 == 0 ==> GetSkipHeight(height) == height - Pow2(k)
    ensures height % 2 == 1 && q == 1 ==> GetSkipHeight(height) == 1
    ensures height % 2 == 1 && q > 1 ==>
      r % 2 == 1 && height - 1 - Pow2(k) == r * Pow2(j) && GetSkipHeight(height) == height - Pow2(k) - Pow2(j)
  {
    hide InvertLowestOne, Pow2;
    k, q := InvertClears(height - height % 2);
    j, r := 0, 1;
    if height % 2 == 1 {
      var n := height - 1 - Pow2(k);
      if q > 1 {
        MulLe(Pow2(k), 2, q);
        j, r := InvertClears(n);
      } else {
        InvertZero();
      }
    }
  }

  lemma {:induction false} InvertZero()
    ensures InvertLowestOne(0) == 0
  {
  }

  // ---------- how many steps a search takes ----------

  function Ones(n: nat): nat {
    if n == 0 then 0 else n % 2 + Ones(n / 2)
  }

  lemma {:induction false} OnesFewer(n: nat)
    requires n > 0
    ensures Ones(InvertLowestOne(n)) == Ones(n) - 1
  {
    if n % 2 == 1 {
      AndSelf(n / 2);
      assert InvertLowestOne(n) == 2 * (n / 2);
    } else {
      OnesFewer(n / 2);
      assert n / 2 - 1 == (n - 1) / 2;
      assert InvertLowestOne(n) == 2 * InvertLowestOne(n / 2);
    }
  }

  /** Where the search goes from height w on its way to height t, if all skip pointers are set. */
  function NextHeight(w: nat, t: nat): nat
    requires t < w
  {
    var skip, skipPrev := GetSkipHeight(w), GetSkipHeight(w - 1);
    if skip == t || (skip > t && !(skipPrev < skip - 2 && skipPrev >= t)) then skip else w - 1
  }

  function Steps(w: nat, t: nat): nat
    requires t <= w
  {
    if w == t then 0 else 1 + Steps(NextHeight(w, t), t)
  }

  /** The number of bits below which two heights differ, and the ones of the first among them. */
  function Level(w: nat, t: nat): nat
    requires t <= w
  {
    if w == t then 0 else 1 + Level(w / 2, t / 2)
  }

  function LowOnes(w: nat, t: nat): (r: nat)
    requires t <= w
    ensures r <= Level(w, t)
  {
    if w == t then 0 else w % 2 + LowOnes(w / 2, t / 2)
  }

  lemma {:induction false} LevelLess(v: nat, w: nat, t: nat)
    requires t <= v <= w
    ensures Level(v, t) <= Level(w, t)
    ensures Level(v, t) == Level(w, t) ==> LowOnes(w, t) - LowOnes(v, t) == Ones(w) - Ones(v)
  {
    if v != t {
      LevelLess(v / 2, w / 2, t / 2);
    } else if w == t {
    } else {
    }
  }

  function Effort(w: nat, t: nat): nat
    requires t <= w
  {
    var n := Level(w, t);
    n * n + n + 2 * LowOnes(w, t)
  }

  lemma {:induction false} Squares(m: nat, n: nat)
    requires m < n
    ensures m * m + 3 * m + 2 <= n * n + n
  {
    MulLe(m + 1, m + 2, n + 1);
    MulLe(n + 1, m + 1, n);
    assert (m + 1) * (m + 2) == m * m + 3 * m + 2;
    assert (n + 1) * n == n * n + n;
  }

  /** Below a lower level the effort is smaller by two at least; on the same level it shrinks with the ones. */
  lemma {:induction false} EffortLess(v: nat, w: nat, t: nat)
    requires t <= v < w
    requires Level(v, t) < Level(w, t) || Ones(v) < Ones(w)
    ensures Effort(v, t) + 2 <= Effort(w, t)
  {
    hide Level, LowOnes, Ones;
    LevelLess(v, w, t);
    if Level(v, t) < Level(w, t) {
      Squares(Level(v, t), Level(w, t));
    }
  }

  /** A skip pointer clears a one, or two. */
  lemma {:induction false} SkipOnes(w: nat)
    requires w > 0
    ensures Ones(GetSkipHeight(w)) < Ones(w)
  {
    hide InvertLowestOne, Ones;
    InvertZero();
    if w % 2 == 0 {
      OnesFewer(w);
    } else {
      OnesOdd(w);
      if w > 1 {
        OnesFewer(w - 1);
        var n := InvertLowestOne(w - 1);
        if n > 0 {
          OnesFewer(n);
        }
        EvenInvert(w - 1);
        OnesOdd(InvertLowestOne(n) + 1);
      }
    }
  }

  lemma {:induction false} OnesOdd(w: nat)
    requires w % 2 == 1
    ensures Ones(w) == Ones(w - 1) + 1
  {
    assert w / 2 == (w - 1) / 2;
  }

  lemma {:induction false} SomeOnes(n: nat)
    ensures n > 0 ==> Ones(n) > 0
  {
    if n > 0 {
      SomeOnes(n / 2);
    }
  }

  lemma {:induction false} EvenInvert(n: nat)
    requires n % 2 == 0
    ensures InvertLowestOne(n) % 2 == 0 && InvertLowestOne(InvertLowestOne(n)) % 2 == 0
  {
  }

  /** If t is not below w without its lowest one, then w - 1 agrees with t in more bits than w does. */
  lemma {:induction false} LevelDrops(w: nat, t: nat)
    requires InvertLowestOne(w) <= t < w
    ensures Level(w - 1, t) < Level(w, t)
    decreases w
  {
    hide InvertLowestOne;
    if w % 2 == 0 {
      InvertEven(w);
      LevelDrops(w / 2, t / 2);
      assert (w - 1) / 2 == w / 2 - 1;
    } else {
      InvertOdd(w);
    }
  }

  lemma {:induction false} InvertOdd(w: nat)
    requires w % 2 == 1
    ensures InvertLowestOne(w) == w - 1
  {
    AndSelf(w / 2);
  }

  lemma {:induction false} InvertEven(w: nat)
    requires w % 2 == 0
    ensures InvertLowestOne(w) == 2 * InvertLowestOne(w / 2)
  {
    if w > 0 {
      assert w / 2 - 1 == (w - 1) / 2;
    }
  }

  lemma {:induction false} InvertBelow(n: nat)
    ensures InvertLowestOne(n) <= n && (n > 0 ==> InvertLowestOne(n) < n)
  {
  }

  /** From an even height whose parent has the better skip pointer the search goes on with that. */
  lemma {:induction false} TwoSteps(w: nat, t: nat)
    requires w % 2 == 0 && t < w && NextHeight(w, t) == w - 1 && InvertLowestOne(w) > t
    ensures var b := GetSkipHeight(w - 1); t <= b < w - 1 && NextHeight(w - 1, t) == b && Ones(b) < Ones(w)
  {
    hide InvertLowestOne, Ones;
    var b := GetSkipHeight(w - 1);
    InvertBelow(w - 2);
    InvertBelow(InvertLowestOne(w - 2));
    InvertBelow(w);
    EvenFar(w);
    assert b >= t && b < GetSkipHeight(w) - 2;
    BetterSkip(w);
  }

  /** The better skip pointer clears more ones. */
  lemma {:induction false} BetterSkip(w: nat)
    requires w % 2 == 0 && w >= 4 && GetSkipHeight(w - 1) < GetSkipHeight(w) - 2
    ensures Ones(GetSkipHeight(w - 1)) < Ones(w)
  {
    hide InvertLowestOne;
    var v := w / 2;
    var n := v - 1;
    InvertEven(w);
    InvertEven(w - 2);
    InvertEven(2 * InvertLowestOne(n));
    assert GetSkipHeight(w - 1) == 2 * InvertLowestOne(InvertLowestOne(n)) + 1;
    OnesTwice(InvertLowestOne(InvertLowestOne(n)));
    assert Ones(w) == Ones(v);
    if v % 2 == 1 {
      OnesOdd(v);
      ClearTwo(n);
      SomeOnes(n);
    } else {
      HalfBetter(v);
    }
  }

  lemma {:induction false} OnesTwice(n: nat)
    ensures Ones(2 * n + 1) == Ones(n) + 1 && Ones(2 * n) == Ones(n)
  {
    OnesHalf(2 * n + 1, n);
    OnesHalf(2 * n, n);
  }

  lemma {:induction false} OnesHalf(w: nat, n: nat)
    requires w / 2 == n
    ensures Ones(w) == w % 2 + Ones(n)
  {
  }

  lemma {:induction false} ClearTwo(n: nat)
    ensures Ones(InvertLowestOne(InvertLowestOne(n))) <= Ones(n)
    ensures Ones(n) >= 2 ==> Ones(InvertLowestOne(InvertLowestOne(n))) == Ones(n) - 2
    ensures Ones(n) < 2 ==> Ones(InvertLowestOne(InvertLowestOne(n))) == 0
  {
    hide InvertLowestOne;
    InvertZero();
    SomeOnes(n);
    if n > 0 {
      OnesFewer(n);
      SomeOnes(InvertLowestOne(n));
      if InvertLowestOne(n) > 0 {
        OnesFewer(InvertLowestOne(n));
      }
    }
  }

  lemma {:induction false} HalfBetter(v: nat)
    requires v % 2 == 0 && v >= 2 && 2 * InvertLowestOne(InvertLowestOne(v - 1)) + 1 < 2 * InvertLowestOne(v) - 2
    ensures Ones(InvertLowestOne(InvertLowestOne(v - 1))) + 1 < Ones(v)
  {
    hide InvertLowestOne, Ones;
    var u := v / 2;
    InvertOdd(v - 1);
    InvertEven(v - 2);
    InvertEven(v);
    OnesTwice(u);
    OnesTwice(InvertLowestOne(u - 1));
    if u % 2 == 0 {
      InvertOdd(u - 1);
      EvenFar(u);
      assert false;
    } else {
      InvertOdd(u);
      InvertZero();
      OnesOdd(u);
      OnesFewer(u - 1);
    }
  }

  lemma {:induction false} EvenFar(u: nat)
    requires u % 2 == 0 && u > 0
    ensures InvertLowestOne(u) <= u - 2
  {
    hide InvertLowestOne;
    InvertEven(u);
    InvertBelow(u / 2);
  }

  /** The search takes no more steps than its effort, which is quadratic in the number of bits in which the heights
      differ. */
  lemma {:induction false} StepsBound(w: nat, t: nat)
    requires t <= w
    ensures Steps(w, t) <= Effort(w, t)
    decreases w
  {
    hide InvertLowestOne, Ones, Effort, Level;
    if t < w {
      var v := NextHeight(w, t);
      if v == GetSkipHeight(w) {
        SkipOnes(w);
        EffortLess(v, w, t);
        StepsBound(v, t);
      } else if w % 2 == 1 {
        OnesOdd(w);
        EffortLess(v, w, t);
        StepsBound(v, t);
      } else if InvertLowestOne(w) <= t {
        LevelDrops(w, t);
        EffortLess(v, w, t);
        StepsBound(v, t);
      } else {
        TwoSteps(w, t);
        var b := GetSkipHeight(w - 1);
        EffortLess(b, w, t);
        StepsBound(b, t);
      }
    }
  }

  lemma {:induction false} LevelBits(w: nat, t: nat, bits: nat)
    requires t <= w < Pow2(bits)
    ensures Level(w, t) <= bits
    decreases bits
  {
    if w != t {
      LevelBits(w / 2, t / 2, bits - 1);
    }
  }

  lemma {:induction false} EffortBits(n: nat, ones: nat, bits: nat)
    requires ones <= n <= bits
    ensures n * n + n + 2 * ones <= bits * (bits + 3)
  {
    MulLe(n, n + 3, bits + 3);
    MulLe(bits + 3, n, bits);
    assert n * (n + 3) == n * n + 3 * n;
  }

  /** At most n(n + 3) for every n with the height below 2^n. */
  ghost predicate Quick(steps: nat, height: nat) {
    forall n: nat :: height < Pow2(n) ==> steps <= n * (n + 3)
  }

  /** So from a height below 2^n any ancestor is found in at most n(n + 3) steps. */
  lemma {:induction false} StepsLogSquared(w: nat, t: nat)
    requires t <= w
    ensures Quick(Steps(w, t), w)
  {
    hide Level, LowOnes, Steps, Pow2;
    StepsBound(w, t);
    forall n: nat | w < Pow2(n) ensures Steps(w, t) <= n * (n + 3) {
      LevelBits(w, t, n);
      EffortBits(Level(w, t), LowOnes(w, t), n);
    }
  }
}
