/** What a Base58 string stands for: the same number as the bytes, with as many ones in front as the bytes have zeros. */
module Base58Meaning {
  import opened Options
  import opened BaseDigits
  import opened Base58

  /** The string is a number in base 58 equal to that of the bytes in base 256, and starts with as many ones as the
      bytes with zeros. */
  ghost predicate Means(s: seq<Byte>, input: seq<Byte>) {
    AllDigits(s) && Val(58, DigitsOf(s)) == Val(256, input) && Leading(s, ONE) == Leading(input, 0)
  }

  lemma {:induction false} ValTrimmed(base: nat, s: seq<nat>, z: nat)
    requires z <= |s| && forall i :: 0 <= i < z ==> s[i] == 0
    ensures Val(base, s) == Val(base, s[z..])
  {
    hide Val, Pow;
    assert s == s[..z] + s[z..];
    ValConcat(base, s[..z], s[z..]);
    ValZeros(base, s[..z]);
  }

  lemma {:induction false} OneIsZero()
    ensures DigitOf(ONE) == 0
  {
  }

  /** The value of a word and of its bytes, without what leads. */
  lemma {:induction false} Trimmed(s: seq<Byte>, input: seq<Byte>)
    requires AllDigits(s)
    ensures Val(58, DigitsOf(s)) == Val(58, DigitsOf(s[Leading(s, ONE)..]))
    ensures Val(256, input) == Val(256, input[Leading(input, 0)..])
  {
    hide Val, Leading, DigitOf;
    var z := Leading(s, ONE);
    OneIsZero();
    ValTrimmed(58, DigitsOf(s), z);
    assert DigitsOf(s)[z..] == DigitsOf(s[z..]);
    ValTrimmed(256, input, Leading(input, 0));
  }

  /** The encoding means the bytes. */
  lemma {:induction false} EncodedMeans(input: seq<Byte>)
    ensures Means(Encoded(input), input)
  {
    hide Leading, CharOf, DigitOf, Val, Digits;
    var z := Leading(input, 0);
    var v := Val(256, input[z..]);
    var digits := Digits(58, v);
    DigitsValue(58, v);
    CharsBack(digits);
    LeadingOf(ONE, z, Chars(digits));
    OnesAreDigits(z, Chars(digits));
    Trimmed(Encoded(input), input);
  }

  /** It is the only string that does. */
  lemma {:induction false} EncodedUnique(s: seq<Byte>, input: seq<Byte>)
    requires Means(s, input)
    ensures s == Encoded(input)
  {
    hide Leading, CharOf, DigitOf, Val, Digits;
    Trimmed(s, input);
    var z := Leading(s, ONE);
    DigitsBack(s[z..]);
    ValueDigits(58, DigitsOf(s[z..]));
    assert s == Repeat(ONE, z) + s[z..];
  }

  /** A string without spaces is decoded exactly if all its characters are digits, and then to the bytes it means. */
  lemma {:induction false} DecodedMeans(s: seq<Byte>)
    requires NoSpaces(s)
    ensures Decoded(s).Some? <==> AllDigits(s)
    ensures Decoded(s).Some? ==> Means(s, Decoded(s).value)
  {
    hide Leading, CharOf, Val, Digits, IsSpace, Spaces, Word, WordBytes, Encoded;
    OneWord(s);
    if Decoded(s).Some? {
      EncodeDecoded(s);
      EncodedMeans(Decoded(s).value);
    }
  }

  /** The bytes 62 62 62 in hexadecimal are written a3gV, and three zeros 111. */
  lemma {:induction false} KnownStrings()
    ensures Encoded([0x62, 0x62, 0x62]) == [97, 51, 103, 86]
    ensures Encoded([0, 0, 0]) == [49, 49, 49]
  {
    hide Encoded, Val;
    assert DigitsOf([97, 51, 103, 86]) == [33, 2, 39, 28];
    FourDigits(58, 33, 2, 39, 28);
    ThreeDigits(256, 0x62, 0x62, 0x62);
    EncodedUnique([97, 51, 103, 86], [0x62, 0x62, 0x62]);
    assert DigitsOf([49, 49, 49]) == [0, 0, 0];
    ThreeDigits(58, 0, 0, 0);
    ThreeDigits(256, 0, 0, 0);
    LeadingUnique([49, 49, 49], ONE, 3);
    LeadingUnique([0, 0, 0], 0, 3);
    EncodedUnique([49, 49, 49], [0, 0, 0]);
  }

  lemma {:induction false} ThreeDigits(base: nat, a: nat, b: nat, c: nat)
    ensures Val(base, [a, b, c]) == base * (base * a + b) + c
  {
    assert [a, b, c][..2] == [a, b] && [a, b][..1] == [a] && [a][..0] == [];
    assert Val(base, [a]) == a && Val(base, [a, b]) == base * a + b;
  }

  lemma {:induction false} FourDigits(base: nat, a: nat, b: nat, c: nat, d: nat)
    ensures Val(base, [a, b, c, d]) == base * (base * (base * a + b) + c) + d
  {
    hide Val;
    ThreeDigits(base, a, b, c);
    LastDigit(base, [a, b, c], d);
    assert [a, b, c] + [d] == [a, b, c, d];
  }

  lemma {:induction false} LastDigit(base: nat, s: seq<nat>, d: nat)
    ensures Val(base, s + [d]) == base * Val(base, s) + d
  {
    assert (s + [d])[..|s|] == s;
  }
}
