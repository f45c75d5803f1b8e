/** Encoding and decoding of whole strings: what each accepts, that they are inverse to each other, and the
    loops that compute them. */
module Bech32Codec {
  import opened Options
  import opened Bech32

  // ---------- what the two directions mean ----------

  function Chars(values: seq<Symbol>): (r: seq<Char>)
    ensures |r| == |values| && forall i :: 0 <= i < |values| ==> r[i] == CharOf(values[i])
  {
    seq(|values|, i requires 0 <= i < |values| => CharOf(values[i]))
  }

  function Lower(s: seq<Char>): (r: seq<Char>)
    ensures |r| == |s| && forall i :: 0 <= i < |s| ==> r[i] == LowerCase(s[i])
  {
    seq(|s|, i requires 0 <= i < |s| => LowerCase(s[i]))
  }

  predicate NoUpper(s: seq<Char>) {
    forall i :: 0 <= i < |s| ==> !IsUpper(s[i])
  }

  predicate NoLower(s: seq<Char>) {
    forall i :: 0 <= i < |s| ==> !IsLower(s[i])
  }

  predicate AllPrintable(s: seq<Char>) {
    forall i :: 0 <= i < |s| ==> Printable(s[i])
  }

  /** Printable characters, and letters of one case only. */
  predicate Acceptable(s: seq<Char>) {
    AllPrintable(s) && (NoUpper(s) || NoLower(s))
  }

  function Encoded(encoding: Encoding, hrp: seq<Char>, values: seq<Symbol>): seq<Char> {
    hrp + [SEPARATOR] + Chars(values + Checksum(encoding, hrp, values))
  }

  /** The position of the last separator, or -1. */
  function LastSeparator(s: seq<Char>): (r: int)
    ensures -1 <= r < |s| && (r >= 0 ==> s[r] == SEPARATOR)
    ensures forall i :: r < i < |s| ==> s[i] != SEPARATOR
  {
    if s == [] then -1
    else if s[|s| - 1] == SEPARATOR then |s| - 1
    else LastSeparator(s[..|s| - 1])
  }

  predicate AllSymbols(s: seq<Char>) {
    forall i :: 0 <= i < |s| ==> SymbolOf(s[i]).Some?
  }

  function Symbols(s: seq<Char>): (r: seq<Symbol>)
    requires AllSymbols(s)
    ensures |r| == |s| && forall i :: 0 <= i < |s| ==> r[i] == SymbolOf(s[i]).value
  {
    seq(|s|, i requires 0 <= i < |s| => SymbolOf(s[i]).value)
  }

  function Verified(hrp: seq<Char>, values: seq<Symbol>): Encoding {
    var check := Poly(1, Expand(hrp) + values);
    if check == Constant(Plain) then Plain else if check == Constant(M) then M else Invalid
  }

  predicate WellCut(s: seq<Char>, pos: int) {
    |s| <= 90 && pos > 0 && pos + 7 <= |s|
  }

  function Decoded(s: seq<Char>): DecodeResult {
    var pos := LastSeparator(s);
    if !Acceptable(s) || !WellCut(s, pos) || !AllSymbols(s[pos + 1..]) then FAILED
    else
      var hrp, values := Lower(s[..pos]), Symbols(s[pos + 1..]);
      var encoding := Verified(hrp, values);
      if encoding.Invalid? then FAILED else DecodeResult(encoding, hrp, values[..|values| - 6])
  }

  // ---------- decoding an encoded string ----------

  lemma {:induction false} ConstantsDiffer()
    ensures Constant(Plain) != Constant(M)
  {
  }

  lemma {:induction false} VerifiedExact(encoding: Encoding, hrp: seq<Char>, values: seq<Symbol>, tail: seq<Symbol>)
    requires !encoding.Invalid? && |tail| == 6
    ensures Verified(hrp, values + tail) == encoding <==> tail == Checksum(encoding, hrp, values)
  {
    hide Constant, Poly, Checksum;
    ConstantsDiffer();
    ChecksumExact(encoding, hrp, values, tail);
  }

  lemma {:induction false} CharsBack(values: seq<Symbol>)
    ensures AllSymbols(Chars(values)) && Symbols(Chars(values)) == values
    ensures AllPrintable(Chars(values)) && NoUpper(Chars(values))
    ensures forall i :: 0 <= i < |values| ==> Chars(values)[i] != SEPARATOR
  {
    hide CharOf, SymbolOf, Printable, IsUpper;
    forall i | 0 <= i < |values|
      ensures SymbolOf(Chars(values)[i]) == Some(values[i])
      ensures Printable(Chars(values)[i]) && !IsUpper(Chars(values)[i]) && Chars(values)[i] != SEPARATOR
    {
      TableBack(values[i]);
      TableRange(values[i]);
    }
  }

  lemma {:induction false} LowerSame(s: seq<Char>)
    requires NoUpper(s)
    ensures Lower(s) == s
  {
    hide IsUpper;
    forall i | 0 <= i < |s| ensures Lower(s)[i] == s[i] {
      LowerFixed(s[i]);
    }
  }

  lemma {:induction false} LowerFixed(c: Char)
    ensures !IsUpper(c) ==> LowerCase(c) == c
    ensures !IsUpper(LowerCase(c))
  {
  }

  lemma {:induction false} SeparatorPrintable()
    ensures Printable(SEPARATOR) && !IsUpper(SEPARATOR)
  {
  }

  lemma {:induction false} SeparatorFound(hrp: seq<Char>, tail: seq<Char>)
    requires forall i :: 0 <= i < |tail| ==> tail[i] != SEPARATOR
    ensures LastSeparator(hrp + [SEPARATOR] + tail) == |hrp|
  {
    hide LastSeparator;
    var s := hrp + [SEPARATOR] + tail;
    var r := LastSeparator(s);
    assert s[|hrp|] == SEPARATOR;
    forall i | |hrp| < i < |s| ensures s[i] != SEPARATOR {
      assert s[i] == tail[i - |hrp| - 1];
    }
  }

  lemma {:induction false} Acceptance(hrp: seq<Char>, tail: seq<Char>)
    requires NoUpper(hrp) && NoUpper(tail) && AllPrintable(tail)
    ensures Acceptable(hrp + [SEPARATOR] + tail) <==> AllPrintable(hrp)
  {
    hide IsUpper, IsLower, Printable;
    var s := hrp + [SEPARATOR] + tail;
    SeparatorPrintable();
    assert NoUpper(s);
    if AllPrintable(hrp) {
      assert AllPrintable(s);
    }
    if AllPrintable(s) {
      forall i | 0 <= i < |hrp| ensures Printable(hrp[i]) {
        assert s[i] == hrp[i];
      }
    }
  }

  /** Decoding gives back what was encoded, for either encoding, exactly when the human-readable part is not
      empty, consists of printable characters, and the string has at most 90 characters. */
  lemma {:induction false} DecodeEncoded(encoding: Encoding, hrp: seq<Char>, values: seq<Symbol>)
    requires !encoding.Invalid? && NoUpper(hrp)
    ensures Decoded(Encoded(encoding, hrp, values)) == DecodeResult(encoding, hrp, values)
      <==> hrp != [] && AllPrintable(hrp) && |hrp| + |values| + 7 <= 90
  {
    hide Checksum, Acceptable, LastSeparator, Verified, AllPrintable, NoUpper, AllSymbols;
    var sum := Checksum(encoding, hrp, values);
    var s, tail := Encoded(encoding, hrp, values), Chars(values + sum);
    CharsBack(values + sum);
    SeparatorFound(hrp, tail);
    Acceptance(hrp, tail);
    LowerSame(hrp);
    VerifiedExact(encoding, hrp, values, sum);
    assert s[..|hrp|] == hrp && s[|hrp| + 1..] == tail;
    assert (values + sum)[..|values|] == values;
  }

  // ---------- encoding a decoded string ----------

  lemma {:induction false} SymbolsBack(s: seq<Char>)
    requires AllSymbols(s)
    ensures Chars(Symbols(s)) == Lower(s)
  {
    hide SymbolOf, CharOf, LowerCase;
    forall i | 0 <= i < |s| ensures Chars(Symbols(s))[i] == Lower(s)[i] {
      Tables(s[i]);
    }
  }

  lemma {:induction false} LowerConcat(a: seq<Char>, b: seq<Char>)
    ensures Lower(a + [SEPARATOR] + b) == Lower(a) + [SEPARATOR] + Lower(b)
  {
    SeparatorPrintable();
    LowerFixed(SEPARATOR);
    hide LowerCase;
    var s, t := Lower(a + [SEPARATOR] + b), Lower(a) + [SEPARATOR] + Lower(b);
    forall i | 0 <= i < |s| ensures s[i] == t[i] {
    }
  }

  lemma {:induction false} LowerNoUpper(s: seq<Char>)
    ensures NoUpper(Lower(s))
  {
    hide LowerCase, IsUpper;
    forall i | 0 <= i < |s| ensures !IsUpper(Lower(s)[i]) {
      LowerFixed(s[i]);
    }
  }

  /** A string that is decoded successfully is, up to case, the encoding of what it is decoded to. So no two
      strings, up to case, are decoded to the same thing. */
  lemma {:induction false} EncodeDecoded(s: seq<Char>)
    requires !Decoded(s).encoding.Invalid?
    ensures var r := Decoded(s); NoUpper(r.hrp) && Encoded(r.encoding, r.hrp, r.data) == Lower(s)
  {
    hide Checksum, Acceptable, LastSeparator, Verified, NoUpper, AllSymbols, Symbols, Lower, Chars;
    var r, pos := Decoded(s), LastSeparator(s);
    var values := Symbols(s[pos + 1..]);
    var n := |values| - 6;
    assert values == values[..n] + values[n..];
    VerifiedExact(r.encoding, r.hrp, values[..n], values[n..]);
    SymbolsBack(s[pos + 1..]);
    LowerNoUpper(s[..pos]);
    assert s == s[..pos] + [SEPARATOR] + s[pos + 1..];
    LowerConcat(s[..pos], s[pos + 1..]);
  }

  /** Valid data parts for one human-readable part and one encoding that differ only within six consecutive
      characters are the same. */
  lemma {:induction false} ValidStringsApart(encoding: Encoding, hrp: seq<Char>, x: seq<Symbol>, y: seq<Symbol>, start: nat)
    requires !encoding.Invalid? && |x| == |y|
    requires forall i :: 0 <= i < |x| && (i < start || i >= start + 6) ==> x[i] == y[i]
    requires Verified(hrp, x) == encoding && Verified(hrp, y) == encoding
    ensures x == y
  {
    hide Poly;
    var head := Expand(hrp);
    BurstDetected(1, head + x, head + y, |head| + start);
    assert (head + x)[|head|..] == x && (head + y)[|head|..] == y;
  }

  // ---------- the loops ----------

  lemma {:induction false} LettersPrintable(c: Char)
    ensures IsLower(c) || IsUpper(c) ==> Printable(c)
    ensures !(IsLower(c) && IsUpper(c))
  {
  }

  /** Collects the positions of characters that do not belong. */
  method CheckCharacters(s: seq<Char>) returns (errors: seq<nat>)
    ensures errors == [] <==> Acceptable(s)
  {
    hide IsLower, IsUpper, Printable;
    errors := [];
    var lower, upper := false, false;
    for i := 0 to |s|
      invariant !(lower && upper)
      invariant lower ==> !NoLower(s[..i])
      invariant upper ==> !NoUpper(s[..i])
      invariant errors == [] ==> AllPrintable(s[..i]) && (!lower ==> NoLower(s[..i])) && (!upper ==> NoUpper(s[..i]))
      invariant errors != [] ==> !Acceptable(s[..i])
    {
      var c := s[i];
      LettersPrintable(c);
      OneMore(s, i);
      if IsLower(c) {
        if upper {
          errors := errors + [i];
        } else {
          lower := true;
        }
      } else if IsUpper(c) {
        if lower {
          errors := errors + [i];
        } else {
          upper := true;
        }
      } else if !Printable(c) {
        errors := errors + [i];
      }
    }
    assert s[..|s|] == s;
  }

  lemma {:induction false} OneMore(s: seq<Char>, i: nat)
    requires i < |s|
    ensures NoLower(s[..i + 1]) <==> NoLower(s[..i]) && !IsLower(s[i])
    ensures NoUpper(s[..i + 1]) <==> NoUpper(s[..i]) && !IsUpper(s[i])
    ensures AllPrintable(s[..i + 1]) <==> AllPrintable(s[..i]) && Printable(s[i])
  {
    hide IsLower, IsUpper, Printable;
    var t := s[..i + 1];
    assert t[i] == s[i];
    forall k | 0 <= k < i ensures t[k] == s[..i][k] {
    }
  }

  method FindSeparator(s: seq<Char>) returns (r: int)
    ensures r == LastSeparator(s)
  {
    r := |s| - 1;
    while r >= 0 && s[r] != SEPARATOR
      invariant -1 <= r < |s| && forall i :: r < i < |s| ==> s[i] != SEPARATOR
    {
      r := r - 1;
    }
  }

  method ExpandHRP(hrp: seq<Char>) returns (r: array<Symbol>)
    ensures r[..] == Expand(hrp)
  {
    hide High, Low;
    var n := |hrp|;
    r := new Symbol[2 * n + 1](_ => 0);
    for i := 0 to n
      invariant forall k :: 0 <= k < i ==> r[k] == High(hrp[k]) && r[k + n + 1] == Low(hrp[k])
      invariant r[n] == 0
    {
      r[i] := High(hrp[i]);
      r[i + n + 1] := Low(hrp[i]);
    }
    r[n] := 0;
    assert r[..] == Expand(hrp);
  }

  method VerifyChecksum(hrp: seq<Char>, values: seq<Symbol>) returns (e: Encoding)
    ensures e == Verified(hrp, values)
  {
    hide Poly, Constant;
    var expanded := ExpandHRP(hrp);
    var check := PolyMod(expanded[..] + values);
    if check == Constant(Plain) {
      return Plain;
    }
    if check == Constant(M) {
      return M;
    }
    return Invalid;
  }

  /** Group number i of the six that a remainder consists of. */
  function Group(m: bv32, i: nat): Symbol
    requires i < 6
  {
    if i == 0 then Last5(m >> 25)
    else if i == 1 then Last5(m >> 20)
    else if i == 2 then Last5(m >> 15)
    else if i == 3 then Last5(m >> 10)
    else if i == 4 then Last5(m >> 5)
    else Last5(m)
  }

  function ShiftN(m: bv32, n: nat): bv32 {
    if n == 0 then m else ShiftN(Shift5(m), n - 1)
  }

  lemma {:induction false} GroupAt(m: bv32, k: nat, i: nat)
    requires i < k
    ensures Groups(m, k)[i] == Last5(ShiftN(m, k - 1 - i))
    decreases k
  {
    hide Last5, Shift5;
    if i < k - 1 {
      GroupAt(Shift5(m), k - 1, i);
    }
  }

  lemma {:induction false} ShiftTwice(m: bv32)
    ensures Shift5(m) == m >> 5
    ensures Shift5(m >> 5) == m >> 10 && Shift5(m >> 10) == m >> 15
    ensures Shift5(m >> 15) == m >> 20 && Shift5(m >> 20) == m >> 25
  {
  }

  lemma {:induction false} ShiftMore(m: bv32, n: nat)
    ensures ShiftN(m, 0) == m && ShiftN(m, n + 1) == ShiftN(Shift5(m), n)
  {
    hide Shift5;
  }

  lemma {:induction false} Shifts(m: bv32)
    ensures ShiftN(m, 0) == m && ShiftN(m, 1) == m >> 5 && ShiftN(m, 2) == m >> 10
    ensures ShiftN(m, 3) == m >> 15 && ShiftN(m, 4) == m >> 20 && ShiftN(m, 5) == m >> 25
  {
    hide Shift5, ShiftN;
    ShiftTwice(m);
    ShiftMore(m >> 25, 0);
    ShiftMore(m >> 20, 0);
    ShiftMore(m >> 15, 0);
    ShiftMore(m >> 15, 1);
    ShiftMore(m >> 10, 0);
    ShiftMore(m >> 10, 1);
    ShiftMore(m >> 10, 2);
    ShiftMore(m >> 5, 0);
    ShiftMore(m >> 5, 1);
    ShiftMore(m >> 5, 2);
    ShiftMore(m >> 5, 3);
    ShiftMore(m, 0);
    ShiftMore(m, 1);
    ShiftMore(m, 2);
    ShiftMore(m, 3);
    ShiftMore(m, 4);
  }

  lemma {:induction false} GroupsAre(m: bv32)
    ensures forall i :: 0 <= i < 6 ==> Groups(m, 6)[i] == Group(m, i)
  {
    hide Last5, Groups, ShiftN;
    Shifts(m);
    forall i | 0 <= i < 6 ensures Groups(m, 6)[i] == Group(m, i) {
      GroupAt(m, 6, i);
    }
  }

  method CreateChecksum(encoding: Encoding, hrp: seq<Char>, values: seq<Symbol>) returns (r: seq<Symbol>)
    ensures r == Checksum(encoding, hrp, values)
  {
    hide Poly, Constant, Groups, Group, Xor;
    var expanded := ExpandHRP(hrp);
    var enc := expanded[..] + values + Zeros(6);
    var mod := PolyMod(enc);
    mod := Xor(mod, Constant(encoding));
    GroupsAre(mod);
    r := [];
    for i := 0 to 6
      invariant |r| == i && forall k :: 0 <= k < i ==> r[k] == Group(mod, k)
    {
      r := r + [Group(mod, i)];
    }
    assert r == Groups(mod, 6);
  }

  /** The encoder refuses, by assertion, upper-case letters in the human-readable part. */
  method Encode(encoding: Encoding, hrp: seq<Char>, values: seq<Symbol>) returns (s: seq<Char>)
    requires !encoding.Invalid? && NoUpper(hrp)
    ensures s == Encoded(encoding, hrp, values)
  {
    hide Checksum, CharOf, IsUpper;
    var checksum := CreateChecksum(encoding, hrp, values);
    var combined := values + checksum;
    s := hrp + [SEPARATOR];
    for i := 0 to |combined|
      invariant s == hrp + [SEPARATOR] + Chars(combined[..i])
    {
      assert Chars(combined[..i + 1]) == Chars(combined[..i]) + [CharOf(combined[i])];
      s := s + [CharOf(combined[i])];
    }
    assert combined[..|combined|] == combined;
  }

  method DecodeSymbols(tail: seq<Char>) returns (values: Option<seq<Symbol>>)
    ensures values.Some? <==> AllSymbols(tail)
    ensures values.Some? ==> values.value == Symbols(tail)
  {
    hide SymbolOf;
    var r: seq<Symbol> := [];
    for i := 0 to |tail|
      invariant |r| == i && forall k :: 0 <= k < i ==> SymbolOf(tail[k]) == Some(r[k])
    {
      var rev := SymbolOf(tail[i]);
      if rev.None? {
        return None;
      }
      r := r + [rev.value];
    }
    return Some(r);
  }

  method Decode(s: seq<Char>) returns (r: DecodeResult)
    ensures r == Decoded(s)
  {
    hide Acceptable, LastSeparator, Verified, AllSymbols, LowerCase;
    var errors := CheckCharacters(s);
    if errors != [] {
      return FAILED;
    }
    var pos := FindSeparator(s);
    if |s| > 90 || pos == -1 || pos == 0 || pos + 7 > |s| {
      return FAILED;
    }
    var values := DecodeSymbols(s[pos + 1..]);
    if values.None? {
      return FAILED;
    }
    var hrp: seq<Char> := [];
    for i := 0 to pos
      invariant |hrp| == i && forall k :: 0 <= k < i ==> hrp[k] == LowerCase(s[k])
    {
      hrp := hrp + [LowerCase(s[i])];
    }
    assert hrp == Lower(s[..pos]);
    var encoding := VerifyChecksum(hrp, values.value);
    if encoding.Invalid? {
      return FAILED;
    }
    return DecodeResult(encoding, hrp, values.value[..|values.value| - 6]);
  }
}
