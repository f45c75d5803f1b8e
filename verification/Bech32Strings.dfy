/** What the checksum of a whole string guarantees: the human-readable part counts, and valid strings are at least
    four changes apart. */
module Bech32Strings {
  import opened Options
  import opened Bech32
  import opened Bech32Distance
  import opened Bech32Codec

  lemma {:induction false} CharParts(c: Char, d: Char)
    ensures High(c) == High(d) && Low(c) == Low(d) <==> c == d
  {
  }

  /** The list that the checksum is taken of: the high bits of the prefix, a zero, its low bits, the data. */
  function Whole(hrp: seq<Char>, x: seq<Symbol>): (w: seq<Symbol>)
    ensures |w| == 2 * |hrp| + 1 + |x|
    ensures forall i :: 0 <= i < |hrp| ==> w[i] == High(hrp[i])
    ensures w[|hrp|] == 0
    ensures forall i :: 0 <= i < |hrp| ==> w[|hrp| + 1 + i] == Low(hrp[i])
    ensures forall i :: 0 <= i < |x| ==> w[2 * |hrp| + 1 + i] == x[i]
  {
    hide High, Low;
    Expand(hrp) + x
  }

  /** Different prefixes or data give different lists. */
  lemma {:induction false} WholeApart(hrp: seq<Char>, other: seq<Char>, x: seq<Symbol>, y: seq<Symbol>)
    requires |hrp| == |other| && |x| == |y|
    ensures Whole(hrp, x) == Whole(other, y) <==> hrp == other && x == y
  {
    hide High, Low, Whole;
    var v, w := Whole(hrp, x), Whole(other, y);
    if v == w {
      forall i | 0 <= i < |hrp| ensures hrp[i] == other[i] {
        assert v[i] == w[i] && v[|hrp| + 1 + i] == w[|hrp| + 1 + i];
        CharParts(hrp[i], other[i]);
      }
      forall i | 0 <= i < |x| ensures x[i] == y[i] {
        assert v[2 * |hrp| + 1 + i] == w[2 * |hrp| + 1 + i];
      }
    }
  }

  lemma {:induction false} SameRemainder(encoding: Encoding, hrp: seq<Char>, other: seq<Char>, x: seq<Symbol>, y: seq<Symbol>)
    requires !encoding.Invalid? && Verified(hrp, x) == encoding && Verified(other, y) == encoding
    ensures Poly(1, Whole(hrp, x)) == Poly(1, Whole(other, y)) == Constant(encoding)
  {
    hide Poly, Constant, Expand;
  }

  /** Two valid strings of one encoding do not differ in one character of the prefix and one of the data, nor in
      either alone. */
  lemma {:induction false} PrefixCounts(encoding: Encoding, hrp: seq<Char>, other: seq<Char>, x: seq<Symbol>, y: seq<Symbol>, k: nat, j: nat)
    requires !encoding.Invalid? && Verified(hrp, x) == encoding && Verified(other, y) == encoding
    requires |hrp| == |other| && |x| == |y| && k < |hrp| && j < |x| && 2 * |hrp| + 1 + |x| <= 1023
    requires forall i :: 0 <= i < |hrp| && i != k ==> hrp[i] == other[i]
    requires forall i :: 0 <= i < |x| && i != j ==> x[i] == y[i]
    ensures hrp == other && x == y
  {
    hide Poly, High, Low, Constant, Whole;
    SameRemainder(encoding, hrp, other, x, y);
    var v, w, n := Whole(hrp, x), Whole(other, y), |hrp|;
    forall i | 0 <= i < |v| && i != k && i != n + 1 + k && i != 2 * n + 1 + j ensures v[i] == w[i] {
      if i > 2 * n {
        assert v[2 * n + 1 + (i - 2 * n - 1)] == x[i - 2 * n - 1];
        assert w[2 * n + 1 + (i - 2 * n - 1)] == y[i - 2 * n - 1];
      } else if i > n {
        assert v[n + 1 + (i - n - 1)] == Low(hrp[i - n - 1]);
        assert w[n + 1 + (i - n - 1)] == Low(other[i - n - 1]);
      }
    }
    ThreeErrorsDetected(1, v, w, k, n + 1 + k, 2 * n + 1 + j);
    WholeApart(hrp, other, x, y);
  }

  /** Two valid strings of one encoding and one prefix do not differ in three characters or fewer. */
  lemma {:induction false} DataApart(encoding: Encoding, hrp: seq<Char>, x: seq<Symbol>, y: seq<Symbol>, p: nat, q: nat, r: nat)
    requires !encoding.Invalid? && Verified(hrp, x) == encoding && Verified(hrp, y) == encoding
    requires |x| == |y| && p < q < r < |x| && 2 * |hrp| + 1 + |x| <= 1023
    requires forall i :: 0 <= i < |x| && i != p && i != q && i != r ==> x[i] == y[i]
    ensures x == y
  {
    hide Poly, High, Low, Constant, Whole;
    SameRemainder(encoding, hrp, hrp, x, y);
    var v, w, m := Whole(hrp, x), Whole(hrp, y), 2 * |hrp| + 1;
    forall i | 0 <= i < |v| && i != m + p && i != m + q && i != m + r ensures v[i] == w[i] {
      if i >= m {
        assert v[m + (i - m)] == x[i - m];
        assert w[m + (i - m)] == y[i - m];
      } else if i > |hrp| {
        assert v[|hrp| + 1 + (i - |hrp| - 1)] == Low(hrp[i - |hrp| - 1]);
        assert w[|hrp| + 1 + (i - |hrp| - 1)] == Low(hrp[i - |hrp| - 1]);
      }
    }
    ThreeErrorsDetected(1, v, w, m + p, m + q, m + r);
    WholeApart(hrp, hrp, x, y);
  }

  /** Two valid strings of one encoding with the same data do not have prefixes that differ only in the low five bits
      of characters within six consecutive ones. */
  lemma {:induction false} PrefixBurst(encoding: Encoding, hrp: seq<Char>, other: seq<Char>, x: seq<Symbol>, start: nat)
    requires !encoding.Invalid? && Verified(hrp, x) == encoding && Verified(other, x) == encoding && |hrp| == |other|
    requires forall i :: 0 <= i < |hrp| ==> High(hrp[i]) == High(other[i])
    requires forall i :: 0 <= i < |hrp| && (i < start || i >= start + 6) ==> hrp[i] == other[i]
    ensures hrp == other
  {
    hide Poly, High, Low, Constant, Whole;
    SameRemainder(encoding, hrp, other, x, x);
    var v, w, n := Whole(hrp, x), Whole(other, x), |hrp|;
    forall i | 0 <= i < |v| && (i < n + 1 + start || i >= n + 1 + start + 6) ensures v[i] == w[i] {
      if i > 2 * n {
        assert v[2 * n + 1 + (i - 2 * n - 1)] == x[i - 2 * n - 1];
        assert w[2 * n + 1 + (i - 2 * n - 1)] == x[i - 2 * n - 1];
      } else if i > n {
        assert v[n + 1 + (i - n - 1)] == Low(hrp[i - n - 1]);
        assert w[n + 1 + (i - n - 1)] == Low(other[i - n - 1]);
      }
    }
    BurstDetected(1, v, w, n + 1 + start);
    WholeApart(hrp, other, x, x);
  }

  // ---------- strings ----------

  lemma {:induction false} DecodedParts(s: seq<Char>)
    requires !Decoded(s).encoding.Invalid?
    ensures var pos := LastSeparator(s);
      && 0 < pos < |s| <= 90 && AllSymbols(s[pos + 1..])
      && Verified(Lower(s[..pos]), Symbols(s[pos + 1..])) == Decoded(s).encoding
  {
    hide Acceptable, LastSeparator, Verified, AllSymbols, Lower, Symbols;
  }

  /** Apart from case a decoded string is its prefix and its symbols. */
  lemma {:induction false} Reassembled(s: seq<Char>)
    requires !Decoded(s).encoding.Invalid?
    ensures var pos := LastSeparator(s);
      0 < pos < |s| && AllSymbols(s[pos + 1..]) && Lower(s) == Lower(s[..pos]) + [SEPARATOR] + Chars(Symbols(s[pos + 1..]))
  {
    hide Decoded, LastSeparator, Verified, AllSymbols, Lower, Symbols, Chars;
    DecodedParts(s);
    var pos := LastSeparator(s);
    SymbolsBack(s[pos + 1..]);
    assert s == s[..pos] + [SEPARATOR] + s[pos + 1..];
    LowerConcat(s[..pos], s[pos + 1..]);
  }

  /** The two strings decode to one encoding, and have the same length and the separator in the same place. */
  ghost predicate Comparable(s: seq<Char>, t: seq<Char>) {
    && !Decoded(s).encoding.Invalid? && Decoded(t).encoding == Decoded(s).encoding
    && |s| == |t| && LastSeparator(s) == LastSeparator(t)
  }

  predicate SameAt(s: seq<Char>, t: seq<Char>, i: nat)
    requires i < |s| == |t|
  {
    LowerCase(s[i]) == LowerCase(t[i])
  }

  /** The symbols of the data agree where the characters do, case apart. */
  lemma {:induction false} DataAgrees(s: seq<Char>, t: seq<Char>, pos: int, i: nat)
    requires |s| == |t| && 0 <= pos < i < |s| && AllSymbols(s[pos + 1..]) && AllSymbols(t[pos + 1..]) && SameAt(s, t, i)
    ensures Symbols(s[pos + 1..])[i - pos - 1] == Symbols(t[pos + 1..])[i - pos - 1]
  {
    hide SymbolOf, LowerCase, AllSymbols, Symbols;
    SymbolAt(s, pos, i);
    SymbolAt(t, pos, i);
    SameSymbols(s[i], t[i]);
  }

  lemma {:induction false} PrefixAgrees(s: seq<Char>, t: seq<Char>, pos: nat)
    requires |s| == |t| && pos <= |s| && forall i :: 0 <= i < pos ==> SameAt(s, t, i)
    ensures Lower(s[..pos]) == Lower(t[..pos])
  {
    hide LowerCase;
    forall i | 0 <= i < pos ensures Lower(s[..pos])[i] == Lower(t[..pos])[i] {
      assert SameAt(s, t, i);
    }
  }

  /** Two strings that decode to the same encoding, with the separator in the same place, and differ, case apart, at
      most in three characters of the data are the same but for case. */
  lemma {:induction false} DecodedApart(s: seq<Char>, t: seq<Char>, p: nat, q: nat, r: nat)
    requires Comparable(s, t) && LastSeparator(s) < p < q < r < |s|
    requires forall i :: 0 <= i < |s| && i != p && i != q && i != r ==> SameAt(s, t, i)
    ensures Lower(s) == Lower(t)
  {
    hide Decoded, LastSeparator, Verified, AllSymbols, SymbolOf, LowerCase, Lower, SameAt, Symbols, Chars;
    var pos := LastSeparator(s);
    DecodedParts(s);
    DecodedParts(t);
    Reassembled(s);
    Reassembled(t);
    var x, y := Symbols(s[pos + 1..]), Symbols(t[pos + 1..]);
    var hrp, other := Lower(s[..pos]), Lower(t[..pos]);
    PrefixAgrees(s, t, pos);
    forall i | 0 <= i < |x| && i != p - pos - 1 && i != q - pos - 1 && i != r - pos - 1 ensures x[i] == y[i] {
      DataAgrees(s, t, pos, pos + 1 + i);
    }
    DataApart(Decoded(s).encoding, hrp, x, y, p - pos - 1, q - pos - 1, r - pos - 1);
  }

  /** The same for one character of the prefix and one of the data. */
  lemma {:induction false} DecodedPrefixApart(s: seq<Char>, t: seq<Char>, p: nat, q: nat)
    requires Comparable(s, t) && p < LastSeparator(s) < q < |s|
    requires forall i :: 0 <= i < |s| && i != p && i != q ==> SameAt(s, t, i)
    ensures Lower(s) == Lower(t)
  {
    hide Decoded, LastSeparator, Verified, AllSymbols, SymbolOf, LowerCase, Symbols, Chars;
    var pos := LastSeparator(s);
    DecodedParts(s);
    DecodedParts(t);
    Reassembled(s);
    Reassembled(t);
    var x, y := Symbols(s[pos + 1..]), Symbols(t[pos + 1..]);
    var hrp, other := Lower(s[..pos]), Lower(t[..pos]);
    forall i | 0 <= i < pos && i != p ensures hrp[i] == other[i] {
      assert SameAt(s, t, i);
    }
    forall i | 0 <= i < |x| && i != q - pos - 1 ensures x[i] == y[i] {
      DataAgrees(s, t, pos, pos + 1 + i);
    }
    PrefixCounts(Decoded(s).encoding, hrp, other, x, y, p, q - pos - 1);
  }

  lemma {:induction false} SymbolAt(s: seq<Char>, pos: int, i: nat)
    requires 0 <= pos < i < |s| && AllSymbols(s[pos + 1..])
    ensures SymbolOf(s[i]).Some? && Symbols(s[pos + 1..])[i - pos - 1] == SymbolOf(s[i]).value
  {
    hide SymbolOf;
    assert s[pos + 1..][i - pos - 1] == s[i];
  }

  lemma {:induction false} SameSymbols(c: Char, d: Char)
    requires SymbolOf(c).Some? && SymbolOf(d).Some?
    ensures LowerCase(c) == LowerCase(d) <==> SymbolOf(c) == SymbolOf(d)
  {
    hide SymbolOf, CharOf, LowerCase;
    Tables(c);
    Tables(d);
    SymbolLower(c);
    SymbolLower(d);
  }

  lemma {:induction false} SymbolLower(c: Char)
    ensures SymbolOf(LowerCase(c)) == SymbolOf(c)
  {
  }
}
