/** Strings from the standards, which fix the alphabet, the constants and the order of everything. */
module Bech32Known {
  import opened Options
  import opened Bech32
  import opened Bech32Codec

  /** The remainders along a list give the last one. */
  lemma {:induction false} Traced(c: seq<bv32>, v: seq<Symbol>)
    requires |c| == |v| + 1 && forall i :: 0 <= i < |v| ==> Step(c[i], v[i]) == c[i + 1]
    ensures Poly(c[0], v) == c[|v|]
    decreases |v|
  {
    hide Step;
    if v != [] {
      Traced(c[1..], v[1..]);
    }
  }

  /** A prefix and symbols whose whole list leads to the constant are encoded as these characters, and these are
      decoded to them. */
  lemma {:induction false} Known(encoding: Encoding, hrp: seq<Char>, values: seq<Symbol>, tail: seq<Symbol>, c: seq<bv32>)
    requires !encoding.Invalid? && NoUpper(hrp) && AllPrintable(hrp) && hrp != [] && |hrp| + |values| + 7 <= 90
    requires |tail| == 6 && c != [] && c[0] == 1 && c[|c| - 1] == Constant(encoding)
    requires var all := Expand(hrp) + (values + tail);
      |c| == |all| + 1 && forall i :: 0 <= i < |all| ==> Step(c[i], all[i]) == c[i + 1]
    ensures Encoded(encoding, hrp, values) == hrp + [SEPARATOR] + Chars(values + tail)
    ensures Decoded(hrp + [SEPARATOR] + Chars(values + tail)) == DecodeResult(encoding, hrp, values)
  {
    hide Step, Constant, Poly, Checksum, Expand, Chars, Decoded, NoUpper, AllPrintable;
    Traced(c, Expand(hrp) + (values + tail));
    ChecksumExact(encoding, hrp, values, tail);
    DecodeEncoded(encoding, hrp, values);
  }

  lemma {:induction false} KnownPlainSteps()
    ensures Step(0x1, 3) == 0x23
    ensures Step(0x23, 0) == 0x460
    ensures Step(0x460, 1) == 0x8c01
    ensures Step(0x8c01, 10) == 0x11802a
    ensures Step(0x11802a, 28) == 0x230055c
    ensures Step(0x230055c, 25) == 0x3d6afc2b
    ensures Step(0x3d6afc2b, 31) == 0x2f84386
    ensures Step(0x2f84386, 20) == 0x24622766
    ensures Step(0x24622766, 31) == 0x1
  {
  }

  /** The string a12uel5l of BIP 173. */
  lemma {:induction false} KnownPlain()
    ensures Encoded(Plain, [97], []) == [97, 49, 50, 117, 101, 108, 53, 108]
    ensures Decoded([97, 49, 50, 117, 101, 108, 53, 108]) == DecodeResult(Plain, [97], [])
  {
    hide Step, Constant, Poly, Checksum, Decoded, Expand, Encoded, Chars, NoUpper, AllPrintable;
    var hrp: seq<Char>, values: seq<Symbol>, tail: seq<Symbol> := [97], [], [10, 28, 25, 31, 20, 31];
    KnownPlainSteps();
    KnownPlainParts();
    Known(Plain, hrp, values, tail, [0x1, 0x23, 0x460, 0x8c01, 0x11802a, 0x230055c, 0x3d6afc2b, 0x2f84386, 0x24622766, 0x1]);
  }

  lemma {:induction false} KnownPlainParts()
    ensures Expand([97]) + ([] + [10, 28, 25, 31, 20, 31]) == [3, 0, 1, 10, 28, 25, 31, 20, 31]
    ensures [97] + [SEPARATOR] + Chars([] + [10, 28, 25, 31, 20, 31]) == [97, 49, 50, 117, 101, 108, 53, 108]
    ensures NoUpper([97]) && AllPrintable([97]) && Constant(Plain) == 0x1
  {
  }

  lemma {:induction false} KnownMSteps()
    ensures Step(0x1, 3) == 0x23
    ensures Step(0x23, 0) == 0x460
    ensures Step(0x460, 1) == 0x8c01
    ensures Step(0x8c01, 31) == 0x11803f
    ensures Step(0x11803f, 0) == 0x23007e0
    ensures Step(0x23007e0, 9) == 0x3d6aabbb
    ensures Step(0x3d6aabbb, 19) == 0x2f2b18a
    ensures Step(0x2f2b18a, 17) == 0x253c66e3
    ensures Step(0x253c66e3, 29) == 0x2bc830a3
  {
  }

  /** The string a1lqfn3a of BIP 350. */
  lemma {:induction false} KnownM()
    ensures Encoded(M, [97], []) == [97, 49, 108, 113, 102, 110, 51, 97]
    ensures Decoded([97, 49, 108, 113, 102, 110, 51, 97]) == DecodeResult(M, [97], [])
  {
    hide Step, Constant, Poly, Checksum, Decoded, Expand, Encoded, Chars, NoUpper, AllPrintable;
    var hrp: seq<Char>, values: seq<Symbol>, tail: seq<Symbol> := [97], [], [31, 0, 9, 19, 17, 29];
    KnownMSteps();
    KnownMParts();
    Known(M, hrp, values, tail, [0x1, 0x23, 0x460, 0x8c01, 0x11803f, 0x23007e0, 0x3d6aabbb, 0x2f2b18a, 0x253c66e3, 0x2bc830a3]);
  }

  lemma {:induction false} KnownMParts()
    ensures Expand([97]) + ([] + [31, 0, 9, 19, 17, 29]) == [3, 0, 1, 31, 0, 9, 19, 17, 29]
    ensures [97] + [SEPARATOR] + Chars([] + [31, 0, 9, 19, 17, 29]) == [97, 49, 108, 113, 102, 110, 51, 97]
    ensures NoUpper([97]) && AllPrintable([97]) && Constant(M) == 0x2bc830a3
  {
  }

  /** The symbols in order are qpzry9x8gf2tvdw0s3jn54khce6mua7l. */
  lemma {:induction false} Alphabet()
    ensures Chars([0, 1, 2, 3, 4, 5, 6, 7]) == [113, 112, 122, 114, 121, 57, 120, 56]
    ensures Chars([8, 9, 10, 11, 12, 13, 14, 15]) == [103, 102, 50, 116, 118, 100, 119, 48]
    ensures Chars([16, 17, 18, 19, 20, 21, 22, 23]) == [115, 51, 106, 110, 53, 52, 107, 104]
    ensures Chars([24, 25, 26, 27, 28, 29, 30, 31]) == [99, 101, 54, 109, 117, 97, 55, 108]
  {
    hide Chars, CharOf;
    FirstQuarter();
    SecondQuarter();
    ThirdQuarter();
    LastQuarter();
  }

  lemma {:induction false} FirstQuarter()
    ensures Chars([0, 1, 2, 3, 4, 5, 6, 7]) == [113, 112, 122, 114, 121, 57, 120, 56]
  {
  }

  lemma {:induction false} SecondQuarter()
    ensures Chars([8, 9, 10, 11, 12, 13, 14, 15]) == [103, 102, 50, 116, 118, 100, 119, 48]
  {
  }

  lemma {:induction false} ThirdQuarter()
    ensures Chars([16, 17, 18, 19, 20, 21, 22, 23]) == [115, 51, 106, 110, 53, 52, 107, 104]
  {
  }

  lemma {:induction false} LastQuarter()
    ensures Chars([24, 25, 26, 27, 28, 29, 30, 31]) == [99, 101, 54, 109, 117, 97, 55, 108]
  {
  }
}
