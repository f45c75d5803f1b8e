/** Base58: byte strings as numbers in base 58, with one leading '1' for each leading zero byte. */
module Base58 {
  import opened Options
  import opened Powers
  import opened BaseDigits

  type Byte = x: nat | x < 256

  const ONE: Byte := 49

  predicate IsSpace(c: Byte) {
    c == 32 || c == 12 || c == 10 || c == 13 || c == 9 || c == 11
  }

  /** The character of a digit: digits and letters without 0, I, O and l. */
  function CharOf(d: nat): Byte
    requires d < 58
  {
    if d < 9 then 49 + d
    else if d < 17 then 65 + (d - 9)
    else if d < 22 then 74 + (d - 17)
    else if d < 33 then 80 + (d - 22)
    else if d < 44 then 97 + (d - 33)
    else 109 + (d - 44)
  }

  /** The digit of a character, or -1. */
  function DigitOf(c: Byte): (d: int)
    ensures -1 <= d < 58
    ensures d >= 0 ==> CharOf(d) == c && !IsSpace(c)
  {
    if 49 <= c <= 57 then c - 49
    else if 65 <= c <= 72 then c - 65 + 9
    else if 74 <= c <= 78 then c - 74 + 17
    else if 80 <= c <= 90 then c - 80 + 22
    else if 97 <= c <= 107 then c - 97 + 33
    else if 109 <= c <= 122 then c - 109 + 44
    else -1
  }

  lemma {:induction false} DigitBack(d: nat)
    requires d < 58
    ensures DigitOf(CharOf(d)) == d && (CharOf(d) == ONE <==> d == 0)
  {
  }

  // ---------- what the two directions mean ----------

  /** How many elements at the front equal x. */
  function Leading(s: seq<Byte>, x: Byte): (n: nat)
    ensures n <= |s| && (forall i :: 0 <= i < n ==> s[i] == x) && (n < |s| ==> s[n] != x)
  {
    if s == [] || s[0] != x then 0 else 1 + Leading(s[1..], x)
  }

  function Repeat(x: Byte, n: nat): (r: seq<Byte>)
    ensures |r| == n && forall i :: 0 <= i < n ==> r[i] == x
  {
    seq(n, _ => x)
  }

  function Chars(digits: seq<nat>): (r: seq<Byte>)
    requires InBase(58, digits)
    ensures |r| == |digits| && forall i :: 0 <= i < |r| ==> r[i] == CharOf(digits[i])
  {
    seq(|digits|, i requires 0 <= i < |digits| => CharOf(digits[i]))
  }

  function Encoded(input: seq<Byte>): seq<Byte> {
    var z := Leading(input, 0);
    DigitsValue(58, Val(256, input[z..]));
    Repeat(ONE, z) + Chars(Digits(58, Val(256, input[z..])))
  }

  /** The number of spaces at the front. */
  function Spaces(s: seq<Byte>): (n: nat)
    ensures n <= |s| && (forall i :: 0 <= i < n ==> IsSpace(s[i])) && (n < |s| ==> !IsSpace(s[n]))
  {
    if s == [] || !IsSpace(s[0]) then 0 else 1 + Spaces(s[1..])
  }

  /** The number of characters before the first space. */
  function Word(s: seq<Byte>): (n: nat)
    ensures n <= |s| && (forall i :: 0 <= i < n ==> !IsSpace(s[i])) && (n < |s| ==> IsSpace(s[n]))
  {
    if s == [] || IsSpace(s[0]) then 0 else 1 + Word(s[1..])
  }

  predicate AllDigits(s: seq<Byte>) {
    forall i :: 0 <= i < |s| ==> DigitOf(s[i]) >= 0
  }

  function DigitsOf(s: seq<Byte>): (r: seq<nat>)
    requires AllDigits(s)
    ensures |r| == |s| && InBase(58, r) && forall i :: 0 <= i < |r| ==> r[i] == DigitOf(s[i])
  {
    seq(|s|, i requires 0 <= i < |s| => DigitOf(s[i]) as nat)
  }

  function ToBytes(s: seq<nat>): (r: seq<Byte>)
    requires InBase(256, s)
    ensures r == s
  {
    seq(|s|, i requires 0 <= i < |s| => s[i] as Byte)
  }

  /** The bytes of a word of Base58 characters. */
  function WordBytes(w: seq<Byte>): seq<Byte>
    requires AllDigits(w)
  {
    var z := Leading(w, ONE);
    DigitsValue(256, Val(58, DigitsOf(w[z..])));
    Repeat(0, z) + ToBytes(Digits(256, Val(58, DigitsOf(w[z..]))))
  }

  /** One word of Base58 characters, with spaces around it. */
  predicate Legal(s: seq<Byte>) {
    var t := s[Spaces(s)..];
    AllDigits(t[..Word(t)]) && Word(t) + Spaces(t[Word(t)..]) == |t|
  }

  function Decoded(s: seq<Byte>): Option<seq<Byte>> {
    var t := s[Spaces(s)..];
    if Legal(s) then Some(WordBytes(t[..Word(t)])) else None
  }

  predicate NoSpaces(s: seq<Byte>) {
    forall i :: 0 <= i < |s| ==> !IsSpace(s[i])
  }

  // ---------- inverse to each other ----------

  lemma {:induction false} CharsBack(digits: seq<nat>)
    requires InBase(58, digits)
    ensures AllDigits(Chars(digits)) && DigitsOf(Chars(digits)) == digits
    ensures digits != [] && digits[0] != 0 ==> Chars(digits)[0] != ONE
  {
    hide CharOf, DigitOf;
    forall i | 0 <= i < |digits| ensures DigitOf(Chars(digits)[i]) == digits[i] {
      DigitBack(digits[i]);
    }
    if digits != [] {
      DigitBack(digits[0]);
    }
  }

  lemma {:induction false} DigitsBack(s: seq<Byte>)
    requires AllDigits(s)
    ensures Chars(DigitsOf(s)) == s && NoSpaces(s)
    ensures s != [] && s[0] != ONE ==> DigitsOf(s)[0] != 0
  {
    hide CharOf, IsSpace;
    if s != [] {
      DigitBack(DigitOf(s[0]));
    }
  }

  lemma {:induction false} LeadingOf(x: Byte, n: nat, s: seq<Byte>)
    requires s != [] ==> s[0] != x
    ensures Leading(Repeat(x, n) + s, x) == n
    ensures (Repeat(x, n) + s)[n..] == s
  {
    var t := Repeat(x, n) + s;
    assert n < |t| ==> t[n] == s[0];
    LeadingUnique(t, x, n);
  }

  lemma {:induction false} LeadingUnique(s: seq<Byte>, x: Byte, n: nat)
    requires n <= |s| && (forall i :: 0 <= i < n ==> s[i] == x) && (n < |s| ==> s[n] != x)
    ensures Leading(s, x) == n
  {
    if n > 0 {
      LeadingUnique(s[1..], x, n - 1);
    }
  }

  lemma {:induction false} ByteVal(s: seq<Byte>)
    requires s != [] ==> s[0] != 0
    ensures Digits(256, Val(256, s)) == s
  {
    ValueDigits(256, s);
  }

  lemma {:induction false} OneWord(s: seq<Byte>)
    requires NoSpaces(s)
    ensures Spaces(s) == 0 && s[0..] == s && Word(s) == |s| && s[..|s|] == s && Spaces(s[|s|..]) == 0
  {
    hide IsSpace;
  }

  /** Decoding the encoding of any byte string gives it back. */
  lemma {:induction false} DecodeEncoded(input: seq<Byte>)
    ensures NoSpaces(Encoded(input)) && Decoded(Encoded(input)) == Some(input)
  {
    hide Leading, IsSpace, CharOf, DigitOf, Spaces, Word, Val, Digits;
    var z := Leading(input, 0);
    var rest := input[z..];
    var v := Val(256, rest);
    var digits := Digits(58, v);
    DigitsValue(58, v);
    CharsBack(digits);
    var s := Encoded(input);
    assert s == Repeat(ONE, z) + Chars(digits);
    LeadingOf(ONE, z, Chars(digits));
    OnesAreDigits(z, Chars(digits));
    DigitsBack(s);
    OneWord(s);
    ByteVal(rest);
    WordIs(s, z, digits, v, rest);
    assert Repeat(0, z) + rest == input;
  }

  lemma {:induction false} OnesAreDigits(z: nat, s: seq<Byte>)
    requires AllDigits(s)
    ensures AllDigits(Repeat(ONE, z) + s)
  {
  }

  lemma {:induction false} WordIs(w: seq<Byte>, z: nat, digits: seq<nat>, v: nat, rest: seq<Byte>)
    requires AllDigits(w) && Leading(w, ONE) == z && DigitsOf(w[z..]) == digits
    requires Val(58, digits) == v && Digits(256, v) == rest
    ensures WordBytes(w) == Repeat(0, z) + rest
  {
    hide Leading, Val, Digits;
  }

  /** Encoding what a word without spaces is decoded to gives the word back. */
  lemma {:induction false} EncodeDecoded(s: seq<Byte>)
    requires NoSpaces(s) && Decoded(s).Some?
    ensures Encoded(Decoded(s).value) == s
  {
    hide Leading, IsSpace, CharOf, DigitOf, Spaces, Word, Val, Digits;
    OneWord(s);
    var z := Leading(s, ONE);
    var digits := DigitsOf(s[z..]);
    var v := Val(58, digits);
    DigitsBack(s[z..]);
    DigitsValue(256, v);
    var bytes := ToBytes(Digits(256, v));
    var r := Repeat(0, z) + bytes;
    assert Decoded(s).value == r;
    LeadingOf(0, z, bytes);
    ValueDigits(58, digits);
    assert Val(256, bytes) == v;
    assert Encoded(r) == Repeat(ONE, z) + Chars(digits);
    assert Repeat(ONE, z) + s[z..] == s;
  }

  // ---------- the carry loop ----------

  /** The last digits of a buffer, as many as length says, are those of its number without leading zeros. */
  ghost predicate Canonical(base: nat, b: seq<nat>, length: nat) {
    && InBase(base, b) && length <= |b|
    && (forall i :: 0 <= i < |b| - length ==> b[i] == 0)
    && (length > 0 ==> b[|b| - length] != 0)
  }

  lemma {:induction false} CanonicalDigits(base: nat, b: seq<nat>, length: nat)
    requires base >= 2 && Canonical(base, b, length)
    ensures b[|b| - length..] == Digits(base, Val(base, b))
  {
    hide Val, Digits;
    UpperZeros(base, b, length);
    ValueDigits(base, b[|b| - length..]);
  }

  function Times(a: nat, b: nat): nat {
    a * b
  }

  function Scaled(factor: nat, v: nat, add: nat): nat {
    factor * v + add
  }

  /** The suffix of i digits, with the carry above it, is the result for that suffix. */
  ghost predicate Carried(base: nat, factor: nat, add: nat, a: seq<nat>, b: seq<nat>, i: nat, carry: nat)
    requires i <= |a| == |b|
  {
    Val(base, b[|b| - i..]) + Times(Pow(base, i), carry) == Scaled(factor, Val(base, a[|a| - i..]), add)
  }

  method DivMod(base: nat, v: nat) returns (q: nat, r: nat)
    requires base >= 2
    ensures v == base * q + r && r < base && (q == 0 ==> r == v)
  {
    if v > 0 {
      Smaller(base, v);
    }
    q, r := v / base, v % base;
  }

  /** Multiplies the number in the buffer and adds to it, in place. Where the result fits into the buffer no
      carry is left over. */
  method MulAdd(b: array<nat>, base: nat, factor: nat, add: nat, length: nat) returns (n: nat)
    requires base >= 2 && factor >= 1 && Canonical(base, b[..], length)
    requires Scaled(factor, Val(base, b[..]), add) < Pow(base, b.Length)
    modifies b
    ensures Canonical(base, b[..], n) && length <= n
    ensures Val(base, b[..]) == Scaled(factor, old(Val(base, b[..])), add)
  {
    hide Val, Pow, Times, Scaled, Carried;
    ghost var a, size := b[..], b.Length;
    var carry: nat := add;
    var i := 0;
    StartSuffix(base, factor, add, a, b[..]);
    while (carry != 0 || i < length) && i < b.Length
      invariant 0 <= i <= size == b.Length
      invariant forall k :: 0 <= k < size - i ==> b[k] == a[k]
      invariant forall k :: 0 <= k < size ==> b[k] < base
      invariant Carried(base, factor, add, a, b[..], i, carry)
      invariant i > 0 && carry == 0 && i >= length ==> b[size - i] != 0
    {
      var p := b.Length - 1 - i;
      ghost var before := b[..];
      var sum := Scaled(factor, b[p], carry);
      TopDigit(factor, b[p], carry);
      var q, r := DivMod(base, sum);
      b[p] := r;
      SuffixStep(base, factor, add, a, before, b[..], p, i, carry, sum, q, r);
      carry := q;
      i := i + 1;
    }
    WholeBuffer(base, factor, add, a, b[..], i, length, carry);
    n := i;
  }

  lemma {:induction false} StartSuffix(base: nat, factor: nat, add: nat, a: seq<nat>, b: seq<nat>)
    requires |a| == |b|
    ensures Carried(base, factor, add, a, b, 0, add)
  {
    assert b[|b|..] == [] && a[|a|..] == [];
  }

  lemma {:induction false} TopDigit(factor: nat, digit: nat, carry: nat)
    requires factor >= 1
    ensures digit > 0 || carry > 0 ==> Scaled(factor, digit, carry) > 0
  {
    if digit > 0 {
      MulLe(digit, 1, factor);
    }
  }

  lemma {:induction false} SuffixStep(base: nat, factor: nat, add: nat, a: seq<nat>, before: seq<nat>, b: seq<nat>, p: nat, i: nat, carry: nat, sum: nat, q: nat, r: nat)
    requires p < |a| == |b| == |before| && i == |a| - 1 - p && before[p] == a[p]
    requires b == before[p := r] && sum == Scaled(factor, a[p], carry) && sum == base * q + r
    requires Carried(base, factor, add, a, before, i, carry)
    ensures Carried(base, factor, add, a, b, i + 1, q)
  {
    hide Val, Pow, Times, Scaled;
    FirstDigit(base, a, p);
    FirstDigit(base, b, p);
    assert b[p + 1..] == before[p + 1..];
    PowNext(base, i);
    StepSum(base, Pow(base, i), factor, add, carry, q, r, a[p], Val(base, a[p + 1..]), Val(base, b[p + 1..]));
  }

  lemma {:induction false} PowNext(base: nat, i: nat)
    ensures Pow(base, i + 1) == base * Pow(base, i)
  {
  }

  lemma {:induction false} FirstDigit(base: nat, s: seq<nat>, p: nat)
    requires p < |s|
    ensures Val(base, s[p..]) == Times(Pow(base, |s| - 1 - p), s[p]) + Val(base, s[p + 1..])
  {
    assert s[p..] == [s[p]] + s[p + 1..];
    ValConcat(base, [s[p]], s[p + 1..]);
    assert [s[p]][..0] == [];
    assert Val(base, [s[p]]) == s[p];
  }

  lemma {:induction false} StepSum(base: nat, pow: nat, factor: nat, add: nat, carry: nat, q: nat, r: nat, x: nat, va: nat, vb: nat)
    requires Scaled(factor, x, carry) == base * q + r
    requires vb + Times(pow, carry) == Scaled(factor, va, add)
    ensures (Times(pow, r) + vb) + Times(base * pow, q) == Scaled(factor, Times(pow, x) + va, add)
  {
    assert pow * (factor * x + carry) == pow * (factor * x) + pow * carry;
    assert pow * (base * q + r) == pow * (base * q) + pow * r;
    assert pow * (base * q) == (base * pow) * q;
    assert factor * (pow * x + va) == factor * (pow * x) + factor * va;
    assert factor * (pow * x) == pow * (factor * x);
  }

  lemma {:induction false} WholeBuffer(base: nat, factor: nat, add: nat, a: seq<nat>, b: seq<nat>, i: nat, length: nat, carry: nat)
    requires base >= 2 && |a| == |b| && i <= |b| && InBase(base, b) && Canonical(base, a, length)
    requires Scaled(factor, Val(base, a), add) < Pow(base, |b|)
    requires forall k :: 0 <= k < |b| - i ==> b[k] == a[k]
    requires Carried(base, factor, add, a, b, i, carry)
    requires i > 0 && carry == 0 && i >= length ==> b[|b| - i] != 0
    requires (carry == 0 && i >= length) || i == |b|
    ensures Canonical(base, b, i) && length <= i && carry == 0
    ensures Val(base, b) == Scaled(factor, Val(base, a), add)
  {
    hide Val, Pow, Times, Scaled;
    if i == |b| {
      assert a[0..] == a && b[0..] == b;
      NoCarry(Pow(base, i), carry, Val(base, b), Scaled(factor, Val(base, a), add));
    } else {
      NoCarryAbove(Pow(base, i));
      UpperZeros(base, a, i);
      UpperZeros(base, b, i);
    }
  }

  lemma {:induction false} UpperZeros(base: nat, s: seq<nat>, i: nat)
    requires i <= |s| && forall k :: 0 <= k < |s| - i ==> s[k] == 0
    ensures Val(base, s) == Val(base, s[|s| - i..])
  {
    hide Val, Pow;
    var n := |s| - i;
    assert s == s[..n] + s[n..];
    ValConcat(base, s[..n], s[n..]);
    ValZeros(base, s[..n]);
  }

  lemma {:induction false} NoCarryAbove(pow: nat)
    ensures Times(pow, 0) == 0
  {
  }

  lemma {:induction false} NoCarry(pow: nat, carry: nat, v: nat, total: nat)
    requires v + Times(pow, carry) == total < pow
    ensures carry == 0 && Times(pow, 0) == 0
  {
    if carry > 0 {
      MulLe(pow, 1, carry);
    }
  }

  // ---------- the two conversions ----------

  /** 138 digits of base 58 are enough for 100 bytes, at every length. */
  lemma {:induction false} EncodeFits(n: nat)
    ensures Pow(256, n) <= Pow(58, n * 138 / 100 + 1)
  {
    hide Pow;
    EightBytes();
    Fits(256, 58, 8, 11, n, n * 138 / 100 + 1);
  }

  /** 733 bytes are enough for 1000 digits of base 58, at every length. */
  lemma {:induction false} DecodeFits(n: nat)
    ensures Pow(58, n) <= Pow(256, n * 733 / 1000 + 1)
  {
    hide Pow;
    SeventyOneDigits();
    Fits(58, 256, 71, 52, n, n * 733 / 1000 + 1);
  }

  lemma {:induction false} NextValue(base: nat, s: seq<nat>, k: nat, bound: nat)
    requires base >= 1 && k < |s| && InBase(base, s) && Pow(base, |s|) <= bound
    ensures Val(base, s[..k + 1]) == Scaled(base, Val(base, s[..k]), s[k])
    ensures Val(base, s[..k + 1]) < bound
  {
    hide Pow, Val, Scaled;
    assert s[..k + 1] == s[..k] + [s[k]];
    ValMore(base, s[..k], s[k]);
    ValBound(base, s[..k + 1]);
    PowMonotone(base, k + 1, |s|);
  }

  lemma {:induction false} EmptyBuffer(base: nat, b: seq<nat>)
    requires base >= 1 && forall i :: 0 <= i < |b| ==> b[i] == 0
    ensures Canonical(base, b, 0) && Val(base, b) == 0
  {
    ValZeros(base, b);
  }

  method EncodeBase58(input: seq<Byte>) returns (str: seq<Byte>)
    ensures str == Encoded(input)
  {
    hide Val, Pow, CharOf, Digits, Canonical, Leading, Scaled;
    var zeroes := CountLeading(input, 0);
    var rest := input[zeroes..];
    var size := |rest| * 138 / 100 + 1;
    var b58 := new nat[size](_ => 0);
    EncodeFits(|rest|);
    EmptyBuffer(58, b58[..]);
    NoValue(256, rest[..0]);
    var length := 0;
    for k := 0 to |rest|
      invariant Canonical(58, b58[..], length) && Val(58, b58[..]) == Val(256, rest[..k])
    {
      NextValue(256, rest, k, Pow(58, size));
      length := MulAdd(b58, 58, 256, rest[k], length);
    }
    assert rest[..|rest|] == rest;
    CanonicalLength(58, b58[..], length);
    var it := SkipZeros(b58, size - length);
    CanonicalParts(58, b58[..], length);
    assert it == size - length;
    CanonicalDigits(58, b58[..], length);
    DigitsValue(58, Val(256, rest));
    str := Translate(b58, it);
    str := Repeat(ONE, zeroes) + str;
  }

  method Translate(b: array<nat>, from: nat) returns (str: seq<Byte>)
    requires from <= b.Length && InBase(58, b[from..])
    ensures str == Chars(b[from..])
  {
    hide CharOf;
    str := [];
    var it := from;
    while it < b.Length
      invariant from <= it <= b.Length
      invariant |str| == it - from && forall k :: 0 <= k < |str| ==> str[k] == CharOf(b[from..][k])
    {
      str := str + [CharOf(b[from..][it - from])];
      it := it + 1;
    }
  }

  method SkipZeros(b: array<nat>, from: nat) returns (it: nat)
    requires from <= b.Length
    ensures from <= it <= b.Length && (forall k :: from <= k < it ==> b[k] == 0) && (it < b.Length ==> b[it] != 0)
  {
    it := from;
    while it < b.Length && b[it] == 0
      invariant from <= it <= b.Length && forall k :: from <= k < it ==> b[k] == 0
    {
      it := it + 1;
    }
  }

  lemma {:induction false} NoValue(base: nat, s: seq<nat>)
    requires s == []
    ensures Val(base, s) == 0
  {
  }

  lemma {:induction false} CanonicalLength(base: nat, b: seq<nat>, length: nat)
    requires Canonical(base, b, length)
    ensures length <= |b|
  {
  }

  lemma {:induction false} CanonicalParts(base: nat, b: seq<nat>, length: nat)
    requires Canonical(base, b, length)
    ensures length <= |b| && InBase(base, b) && InBase(base, b[|b| - length..])
    ensures length > 0 ==> b[|b| - length] != 0
  {
  }

  method CountLeading(s: seq<Byte>, x: Byte) returns (n: nat)
    ensures n == Leading(s, x)
  {
    n := 0;
    while n < |s| && s[n] == x
      invariant n <= |s| && forall i :: 0 <= i < n ==> s[i] == x
    {
      n := n + 1;
    }
  }

  method CountSpaces(s: seq<Byte>) returns (n: nat)
    ensures n == Spaces(s)
  {
    n := 0;
    while n < |s| && IsSpace(s[n])
      invariant n <= |s| && forall i :: 0 <= i < n ==> IsSpace(s[i])
    {
      n := n + 1;
    }
  }

  /** Decodes a string, unless it is not legal or the result would be longer than maxLength. */
  method DecodeBase58(str: seq<Byte>, maxLength: int) returns (ok: bool, out: seq<Byte>)
    ensures ok <==> Legal(str) && (|Decoded(str).value| <= maxLength || Decoded(str).value == [])
    ensures ok ==> out == Decoded(str).value
  {
    hide Legal, Decoded;
    for i := 0 to |str|
      invariant forall k :: 0 <= k < i ==> str[k] != 0
    {
      if str[i] == 0 {
        NotLegal(str, i);
        return false, [];
      }
    }
    var skip := CountSpaces(str);
    ok, out := DecodeTrimmed(str[skip..], maxLength);
    TrimmedMeaning(str);
  }

  /** What is asked of a string without leading spaces. */
  predicate LegalTrimmed(t: seq<Byte>) {
    AllDigits(t[..Word(t)]) && Word(t) + Spaces(t[Word(t)..]) == |t|
  }

  lemma {:induction false} TrimmedMeaning(s: seq<Byte>)
    ensures var t := s[Spaces(s)..];
      && (Legal(s) <==> LegalTrimmed(t))
      && (Legal(s) ==> Decoded(s) == Some(WordBytes(t[..Word(t)])))
  {
  }

  /** Every character of a legal string is a space or a digit. */
  lemma {:induction false} LegalCharacter(s: seq<Byte>, i: nat)
    requires Legal(s) && i < |s|
    ensures IsSpace(s[i]) || DigitOf(s[i]) >= 0
  {
    hide IsSpace, DigitOf;
    var a := Spaces(s);
    if i >= a {
      var t := s[a..];
      var w := Word(t);
      assert t[i - a] == s[i];
      if i - a < w {
        assert t[..w][i - a] == s[i];
      } else {
        assert t[w..][i - a - w] == s[i];
      }
    }
  }

  lemma {:induction false} NotLegal(s: seq<Byte>, i: nat)
    requires i < |s| && s[i] == 0
    ensures !Legal(s)
  {
    hide Legal;
    if Legal(s) {
      LegalCharacter(s, i);
    }
  }

  /** The bytes of a word that has no leading ones. */
  function Magnitude(w: seq<Byte>): (r: seq<Byte>)
    requires AllDigits(w)
  {
    DigitsValue(256, Val(58, DigitsOf(w)));
    ToBytes(Digits(256, Val(58, DigitsOf(w))))
  }

  method DecodeTrimmed(t: seq<Byte>, maxLength: int) returns (ok: bool, out: seq<Byte>)
    ensures ok <==> LegalTrimmed(t) && (|WordBytes(t[..Word(t)])| <= maxLength || WordBytes(t[..Word(t)]) == [])
    ensures ok ==> out == WordBytes(t[..Word(t)])
  {
    hide IsSpace, DigitOf, Leading, Word, Spaces, WordBytes, LegalTrimmed, Magnitude;
    var zeroes := CountLeading(t, ONE);
    AfterOnes(t);
    if zeroes > 0 && zeroes > maxLength {
      return false, [];
    }
    var bytes;
    ok, bytes := DecodeDigits(t[zeroes..], zeroes, maxLength);
    out := Repeat(0, zeroes) + bytes;
  }

  /** Leading ones are part of the word and stand for zero bytes; what follows them is zero only if empty. */
  lemma {:induction false} AfterOnes(t: seq<Byte>)
    ensures var z := Leading(t, ONE); var rest := t[z..]; var w := rest[..Word(rest)];
      && (LegalTrimmed(t) <==> LegalTrimmed(rest))
      && (LegalTrimmed(rest) ==>
        && AllDigits(t[..Word(t)]) && AllDigits(w)
        && WordBytes(t[..Word(t)]) == Repeat(0, z) + Magnitude(w) && (Magnitude(w) == [] <==> w == []))
  {
    hide IsSpace, DigitOf, Leading, Word, Spaces, Magnitude;
    var z := Leading(t, ONE);
    var rest := t[z..];
    WordAfterOnes(t, z);
    var n := Word(rest);
    var w, word := rest[..n], t[..z + n];
    assert word == t[..z] + w && word[..z] == t[..z] && word[z..] == w;
    assert t[z + n..] == rest[n..];
    OnesThenDigits(t[..z], w);
    if LegalTrimmed(rest) {
      WordLeading(t, z, n);
      MagnitudeEmpty(w);
      WordMagnitude(word, z, w);
    }
  }

  lemma {:induction false} OnesThenDigits(ones: seq<Byte>, w: seq<Byte>)
    requires forall i :: 0 <= i < |ones| ==> ones[i] == ONE
    ensures AllDigits(ones + w) <==> AllDigits(w)
  {
    if AllDigits(ones + w) {
      forall i | 0 <= i < |w| ensures DigitOf(w[i]) >= 0 {
        assert (ones + w)[|ones| + i] == w[i];
      }
    }
  }

  lemma {:induction false} WordAfterOnes(t: seq<Byte>, z: nat)
    requires z <= |t| && forall i :: 0 <= i < z ==> t[i] == ONE
    ensures Word(t) == z + Word(t[z..])
  {
    if z > 0 {
      WordAfterOnes(t[1..], z - 1);
      assert t[1..][z - 1..] == t[z..];
    } else {
      assert t[0..] == t;
    }
  }

  lemma {:induction false} WordLeading(t: seq<Byte>, z: nat, n: nat)
    requires z == Leading(t, ONE) && z + n <= |t|
    ensures Leading(t[..z + n], ONE) == z
  {
    LeadingUnique(t[..z + n], ONE, z);
  }

  lemma {:induction false} WordMagnitude(word: seq<Byte>, z: nat, w: seq<Byte>)
    requires AllDigits(word) && AllDigits(w) && z == Leading(word, ONE) && word[z..] == w
    ensures WordBytes(word) == Repeat(0, z) + Magnitude(w)
  {
    hide Leading, DigitOf;
  }

  lemma {:induction false} MagnitudeEmpty(w: seq<Byte>)
    requires AllDigits(w) && (w != [] ==> w[0] != ONE)
    ensures Magnitude(w) == [] <==> w == []
  {
    var digits := DigitsOf(w);
    if w != [] {
      DigitBack(digits[0]);
      ValueDigits(58, digits);
    }
    DigitsValue(256, Val(58, digits));
  }

  /** The loop over the characters. It gives up as soon as the result is too long. */
  method DecodeDigits(rest: seq<Byte>, zeroes: nat, maxLength: int) returns (ok: bool, bytes: seq<Byte>)
    ensures ok <==>
      && LegalTrimmed(rest)
      && (zeroes + |Magnitude(rest[..Word(rest)])| <= maxLength || rest[..Word(rest)] == [])
    ensures ok ==> bytes == Magnitude(rest[..Word(rest)])
  {
    hide IsSpace, DigitOf, Word, Spaces, Magnitude, Val, Pow, Digits, Canonical, Scaled, LegalTrimmed;
    var size := |rest| * 733 / 1000 + 1;
    var b256 := new nat[size](_ => 0);
    DecodeFits(|rest|);
    EmptyBuffer(256, b256[..]);
    NoDigits(rest[..0]);
    var length, k := 0, 0;
    while k < |rest| && !IsSpace(rest[k])
      invariant k <= |rest| && (forall i :: 0 <= i < k ==> !IsSpace(rest[i])) && AllDigits(rest[..k])
      invariant Canonical(256, b256[..], length) && Val(256, b256[..]) == Val(58, DigitsOf(rest[..k]))
      invariant k > 0 ==> length + zeroes <= maxLength
    {
      WordAtLeast(rest, k);
      var carry := DigitOf(rest[k]);
      if carry == -1 {
        BadCharacter(rest, k);
        return false, [];
      }
      NextDigit(rest, k, Pow(256, size));
      length := MulAdd(b256, 256, 58, carry, length);
      k := k + 1;
      if length + zeroes > maxLength {
        TooLong(rest, k, b256[..], length);
        return false, [];
      }
    }
    WordIsExactly(rest, k);
    TrimmedParts(rest);
    MagnitudeOf(rest[..k], b256[..], length);
    var spaces := CountSpaces(rest[k..]);
    if k + spaces != |rest| {
      return false, [];
    }
    var it := size - length;
    bytes := [];
    while it < size
      invariant size - length <= it <= size
      invariant bytes == Magnitude(rest[..k])[..it - (size - length)]
      decreases size - it
    {
      bytes := bytes + [b256[it]];
      it := it + 1;
    }
    ok := true;
  }

  lemma {:induction false} NoDigits(s: seq<Byte>)
    requires s == []
    ensures AllDigits(s) && Val(58, DigitsOf(s)) == 0
  {
  }

  lemma {:induction false} NextDigit(rest: seq<Byte>, k: nat, bound: nat)
    requires k < |rest| && AllDigits(rest[..k]) && DigitOf(rest[k]) >= 0 && Pow(58, |rest|) <= bound
    ensures AllDigits(rest[..k + 1])
    ensures Val(58, DigitsOf(rest[..k + 1])) == Scaled(58, Val(58, DigitsOf(rest[..k])), DigitOf(rest[k])) < bound
  {
    hide Pow, DigitOf, Val, Scaled;
    assert rest[..k + 1] == rest[..k] + [rest[k]];
    var d, e := DigitsOf(rest[..k]), DigitsOf(rest[..k + 1]);
    forall i | 0 <= i < k ensures e[i] == d[i] {
    }
    assert e == d + [e[k]];
    ValMore(58, d, e[k]);
    ValBound(58, e);
    PowMonotone(58, k + 1, |rest|);
  }

  lemma {:induction false} ValMore(base: nat, s: seq<nat>, x: nat)
    ensures Val(base, s + [x]) == Scaled(base, Val(base, s), x)
  {
    assert (s + [x])[..|s|] == s;
  }

  lemma {:induction false} WordAtLeast(s: seq<Byte>, k: nat)
    requires k < |s| && (forall i :: 0 <= i < k ==> !IsSpace(s[i])) && !IsSpace(s[k])
    ensures Word(s) > k
  {
    hide IsSpace, Word;
    var n := Word(s);
  }

  lemma {:induction false} WordIsExactly(s: seq<Byte>, k: nat)
    requires k <= |s| && (forall i :: 0 <= i < k ==> !IsSpace(s[i])) && (k < |s| ==> IsSpace(s[k]))
    ensures Word(s) == k
  {
    if k > 0 {
      WordIsExactly(s[1..], k - 1);
    }
  }

  lemma {:induction false} TrimmedParts(s: seq<Byte>)
    ensures LegalTrimmed(s) <==> AllDigits(s[..Word(s)]) && Word(s) + Spaces(s[Word(s)..]) == |s|
  {
  }

  lemma {:induction false} BadCharacter(s: seq<Byte>, k: nat)
    requires k < Word(s) && DigitOf(s[k]) == -1
    ensures !LegalTrimmed(s)
  {
    hide DigitOf, Word, Spaces;
    assert s[..Word(s)][k] == s[k];
  }

  lemma {:induction false} MagnitudeOf(w: seq<Byte>, b: seq<nat>, length: nat)
    requires AllDigits(w) && Canonical(256, b, length) && Val(256, b) == Val(58, DigitsOf(w))
    ensures length <= |b| && Magnitude(w) == b[|b| - length..] && |Magnitude(w)| == length && InBase(256, b)
  {
    hide DigitOf;
    CanonicalDigits(256, b, length);
  }

  lemma {:induction false} TooLong(s: seq<Byte>, k: nat, b: seq<nat>, length: nat)
    requires 0 < k <= Word(s) && AllDigits(s[..k])
    requires Canonical(256, b, length) && Val(256, b) == Val(58, DigitsOf(s[..k]))
    ensures LegalTrimmed(s) ==> |Magnitude(s[..Word(s)])| >= length && s[..Word(s)] != []
  {
    hide DigitOf, Spaces, Word, Canonical, Val;
    MagnitudeOf(s[..k], b, length);
    if LegalTrimmed(s) {
      var w := s[..Word(s)];
      var d, e := DigitsOf(s[..k]), DigitsOf(w);
      assert e[..k] == d;
      ValPrefix(58, e, k);
      LongerDigits(256, Val(58, d), Val(58, e));
    }
  }

  lemma {:induction false} ValPrefix(base: nat, s: seq<nat>, k: nat)
    requires base >= 1 && k <= |s|
    ensures Val(base, s[..k]) <= Val(base, s)
  {
    if k < |s| {
      var n := |s| - 1;
      ValPrefix(base, s[..n], k);
      assert s[..n][..k] == s[..k];
      MulLe(Val(base, s[..n]), 1, base);
    } else {
      assert s[..k] == s;
    }
  }

  lemma {:induction false} LongerDigits(base: nat, v: nat, w: nat)
    requires base >= 2 && v <= w
    ensures |Digits(base, v)| <= |Digits(base, w)|
    decreases w
  {
    if v > 0 {
      hide Digits;
      var q, r := DigitsNext(base, v);
      var p, x := DigitsNext(base, w);
      QuotientsOrdered(base, q, r, p, x);
      LongerDigits(base, q, p);
    }
  }

  lemma {:induction false} QuotientsOrdered(base: nat, q: nat, r: nat, p: nat, x: nat)
    requires r < base && x < base && base * q + r <= base * p + x
    ensures q <= p
  {
    assert base * (p + 1) == base * p + base;
    if q > p {
      MulLe(base, p + 1, q);
    }
  }
}
