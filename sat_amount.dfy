/**
 * The text the amount field starts with: `(minSendable / 1000).toString()`,
 * a millisatoshi count written as satoshis. An integer millisatoshi count
 * divided by 1000 has at most three decimals, and JavaScript prints it with
 * an optional minus sign, the integer part, and the fraction digits without
 * trailing zeros (no point when the fraction is zero).
 */
module SatAmount {
  import opened Common

  predicate IsDigit(c: char)
  {
    '0' <= c <= '9'
  }

  predicate AllDigits(s: string)
  {
    forall i :: 0 <= i < |s| ==> IsDigit(s[i])
  }

  function DigitChar(d: nat): (c: char)
    requires d < 10
    ensures IsDigit(c) && c as int - '0' as int == d
  {
    ('0' as int + d) as char
  }

  function DigitValue(c: char): (d: nat)
    requires IsDigit(c)
    ensures d < 10 && DigitChar(d) == c
  {
    c as int - '0' as int
  }

  /** Decimal notation of a natural number, without leading zeros. */
  function NatToDecimal(n: nat): (s: string)
    ensures |s| >= 1 && AllDigits(s)
    ensures s[0] == '0' ==> n == 0 && |s| == 1
    decreases n
  {
    if n < 10 then [DigitChar(n)] else NatToDecimal(n / 10) + [DigitChar(n % 10)]
  }

  /** The number a string of decimal digits denotes. */
  function DigitsValue(s: string): nat
    requires AllDigits(s)
  {
    if s == [] then 0 else DigitsValue(s[..|s| - 1]) * 10 + DigitValue(s[|s| - 1])
  }

  lemma {:induction false} DigitsValueOfDecimal(n: nat)
    ensures DigitsValue(NatToDecimal(n)) == n
    decreases n
  {
    if n >= 10 {
      var s := NatToDecimal(n);
      assert s[..|s| - 1] == NatToDecimal(n / 10);
      DigitsValueOfDecimal(n / 10);
    }
  }

  /** The value in thousandths of up to three digits written after the point. */
  function FractionValue(frac: string): nat
    requires AllDigits(frac) && |frac| <= 3
  {
    if frac == [] then 0
    else if |frac| == 1 then DigitValue(frac[0]) * 100
    else if |frac| == 2 then DigitValue(frac[0]) * 100 + DigitValue(frac[1]) * 10
    else DigitValue(frac[0]) * 100 + DigitValue(frac[1]) * 10 + DigitValue(frac[2])
  }

  lemma DigitSplit(f: nat)
    requires f < 1000
    ensures f / 100 < 10 && f % 100 / 10 < 10 && f % 10 < 10
    ensures f == f / 100 * 100 + f % 100 / 10 * 10 + f % 10
  {
    var r := f % 100;
    assert f == f / 100 * 100 + r;
    assert r == r / 10 * 10 + r % 10;
    assert r % 10 == f % 10;
  }

  /**
   * The fraction digits of `d1 d2 d3` thousandths, trailing zeros dropped;
   * empty when all three are zero.
   */
  function FractionDigits(d1: nat, d2: nat, d3: nat): (s: string)
    requires d1 < 10 && d2 < 10 && d3 < 10
    ensures AllDigits(s) && |s| <= 3
    ensures s == [] <==> d1 == d2 == d3 == 0
    ensures s != [] ==> FractionValue(s) == d1 * 100 + d2 * 10 + d3 && s[|s| - 1] != '0'
  {
    if d3 != 0 then [DigitChar(d1), DigitChar(d2), DigitChar(d3)]
    else if d2 != 0 then [DigitChar(d1), DigitChar(d2)]
    else if d1 != 0 then [DigitChar(d1)]
    else []
  }

  /** The fraction digits of `f` thousandths. */
  function Fraction(f: nat): (s: string)
    requires f < 1000
    ensures AllDigits(s) && |s| <= 3
    ensures s == [] <==> f == 0
    ensures s != [] ==> FractionValue(s) == f && s[|s| - 1] != '0'
  {
    DigitSplit(f);
    FractionDigits(f / 100, f % 100 / 10, f % 10)
  }

  /**
   * The shape JavaScript prints a non-negative number with at most three
   * decimals in: digits with no leading zero (a lone `0` aside), then
   * optionally a point and one to three digits, the last of them not `0`.
   */
  predicate IsCanonicalUnsigned(u: string)
  {
    var k := PointIndex(u);
    1 <= k && AllDigits(u[..k]) && (u[0] == '0' ==> k == 1)
    && (k < |u| ==> 2 <= |u| - k <= 4 && AllDigits(u[k + 1..]) && u[|u| - 1] != '0')
  }

  /** The same, with an optional minus sign that is never put before a lone `0`. */
  predicate IsCanonicalSatText(t: string)
  {
    if t != [] && t[0] == '-' then IsCanonicalUnsigned(t[1..]) && t[1..] != "0"
    else IsCanonicalUnsigned(t)
  }

  /** The decimal notation of `n` has the canonical shape of a whole number. */
  lemma WholeCanonical(n: nat)
    ensures IsCanonicalUnsigned(NatToDecimal(n)) && PointIndex(NatToDecimal(n)) == |NatToDecimal(n)|
    ensures NatToDecimal(n) == "0" ==> n == 0
  {
    var w := NatToDecimal(n);
    PointIndexOfDigits(w, "");
    assert w + "" == w;
    assert w[..|w|] == w;
  }

  /** Whole digits, a point and dropped-zero fraction digits have the canonical shape. */
  lemma FractionCanonical(w: string, frac: string)
    requires w != [] && AllDigits(w) && (w[0] == '0' ==> |w| == 1)
    requires AllDigits(frac) && 1 <= |frac| <= 3 && frac[|frac| - 1] != '0'
    ensures var u := w + "." + frac;
            IsCanonicalUnsigned(u) && PointIndex(u) < |u| && u != "0"
  {
    var u := w + ("." + frac);
    assert u == w + "." + frac;
    PointIndexOfDigits(w, "." + frac);
    assert |u| == |w| + 1 + |frac|;
    assert u[..|w|] == w;
    assert u[|w| + 1..] == frac;
    assert u[0] == w[0] && u[|u| - 1] == frac[|frac| - 1];
  }

  /** A count and its negation are whole numbers of thousands together. */
  lemma NegatedRemainder(m: int)
    requires m < 0
    ensures ((-m) % 1000 != 0) <==> (m % 1000 != 0)
  {
    var q, r := (-m) / 1000, (-m) % 1000;
    assert -m == q * 1000 + r;
    if r == 0 {
      assert m == (-q) * 1000;
    } else {
      assert m == (-q - 1) * 1000 + (1000 - r);
    }
  }

  /** A leading minus sign moves the point one place along. */
  lemma PointIndexAfterSign(u: string)
    ensures PointIndex("-" + u) == 1 + PointIndex(u)
  {
    assert ("-" + u)[1..] == u;
  }

  /** The printed form of a non-negative count of `a` thousandths. */
  function UnsignedText(a: nat): (s: string)
    ensures s != [] && IsDigit(s[0])
    ensures IsCanonicalUnsigned(s)
    ensures PointIndex(s) < |s| <==> a % 1000 != 0
    ensures s == "0" <==> a == 0
  {
    var frac := Fraction(a % 1000);
    if frac == [] then
      WholeCanonical(a / 1000);
      NatToDecimal(a / 1000)
    else
      FractionCanonical(NatToDecimal(a / 1000), frac);
      NatToDecimal(a / 1000) + "." + frac
  }

  /**
   * `(msat / 1000).toString()` for an integer millisatoshi count: a minus
   * sign exactly for a negative count, a point exactly when the count is not
   * a whole number of satoshis, and otherwise the canonical shape.
   */
  function SatText(msat: int): (s: string)
    ensures s != []
    ensures s[0] == '-' <==> msat < 0
    ensures IsCanonicalSatText(s)
    ensures PointIndex(s) < |s| <==> msat % 1000 != 0
  {
    if msat < 0 then
      var u := UnsignedText(-msat);
      assert ("-" + u)[1..] == u;
      PointIndexAfterSign(u);
      NegatedRemainder(msat);
      "-" + u
    else
      UnsignedText(msat)
  }

  // ---------------------------------------------------------------------------
  // Reading such a text back

  /** Index of the first `.`, or the length when there is none. */
  function PointIndex(s: string): (k: nat)
    ensures k <= |s|
    ensures forall i :: 0 <= i < k ==> s[i] != '.'
    ensures k < |s| ==> s[k] == '.'
  {
    if s == [] then 0
    else if s[0] == '.' then 0
    else 1 + PointIndex(s[1..])
  }

  /** Value in thousandths of `digits[.fraction]`, the fraction having one to three digits. */
  function ParseUnsigned(s: string): (v: Option<nat>)
  {
    var k := PointIndex(s);
    ReadNumber(s[..k], if k < |s| then Some(s[k + 1..]) else None)
  }

  /** Value in thousandths of a whole part and, after a point, a fraction part. */
  function ReadNumber(whole: string, frac: Option<string>): (v: Option<nat>)
  {
    if whole == [] || !AllDigits(whole) then None
    else match frac
      case None => Some(DigitsValue(whole) * 1000)
      case Some(f) =>
        if f == [] || |f| > 3 || !AllDigits(f) then None
        else Some(DigitsValue(whole) * 1000 + FractionValue(f))
  }

  /** Reads a satoshi amount text back as millisatoshis, or `None` when it is not one. */
  function ParseSatText(s: string): (v: Option<int>)
  {
    if s != [] && s[0] == '-' then
      match ParseUnsigned(s[1..])
      case Some(n) => Some(-(n as int))
      case None => None
    else
      match ParseUnsigned(s)
      case Some(n) => Some(n)
      case None => None
  }

  lemma PointIndexOfDigits(w: string, rest: string)
    requires AllDigits(w)
    requires rest == [] || rest[0] == '.'
    ensures PointIndex(w + rest) == |w|
  {
    if w != [] {
      assert (w + rest)[1..] == w[1..] + rest;
      PointIndexOfDigits(w[1..], rest);
    } else {
      assert w + rest == rest;
    }
  }

  /** Digits alone read back as that many whole units. */
  lemma ParseWhole(w: string)
    requires w != [] && AllDigits(w)
    ensures ParseUnsigned(w) == Some(DigitsValue(w) * 1000)
  {
    PointIndexOfDigits(w, "");
    assert w + "" == w;
  }

  /** Digits, a point and one to three fraction digits read back as the whole and the thousandths. */
  lemma ParseWithFraction(w: string, frac: string)
    requires w != [] && AllDigits(w)
    requires 1 <= |frac| <= 3 && AllDigits(frac)
    ensures ParseUnsigned(w + "." + frac) == Some(DigitsValue(w) * 1000 + FractionValue(frac))
  {
    var s := w + "." + frac;
    assert s == w + ("." + frac);
    PointIndexOfDigits(w, "." + frac);
    assert s[..|w|] == w;
    assert s[|w| + 1..] == frac;
  }

  lemma ParseUnsignedOfText(a: nat)
    ensures ParseUnsigned(UnsignedText(a)) == Some(a)
  {
    var w := NatToDecimal(a / 1000);
    var frac := Fraction(a % 1000);
    DigitsValueOfDecimal(a / 1000);
    if frac == [] {
      assert UnsignedText(a) == w;
      ParseWhole(w);
    } else {
      assert UnsignedText(a) == w + "." + frac by {
        assert w + ("." + frac) == w + "." + frac;
      }
      ParseWithFraction(w, frac);
    }
  }

  lemma ParseSignedText(u: string, negative: bool, a: nat)
    requires u != [] && IsDigit(u[0]) && ParseUnsigned(u) == Some(a)
    ensures ParseSatText(if negative then "-" + u else u) == Some(if negative then -(a as int) else a as int)
  {
    if negative {
      assert ("-" + u)[0] == '-' && ("-" + u)[1..] == u;
    }
  }

  /** The printed amount reads back as the millisatoshi count it came from. */
  lemma SatTextRoundTrip(msat: int)
    ensures ParseSatText(SatText(msat)) == Some(msat)
  {
    var a: nat := if msat < 0 then -msat else msat;
    ParseUnsignedOfText(a);
    ParseSignedText(UnsignedText(a), msat < 0, a);
  }

  /** A whole number of satoshis prints as plain digits with no point. */
  lemma SatTextOfWholeSats(msat: nat)
    requires msat % 1000 == 0
    ensures SatText(msat) == NatToDecimal(msat / 1000)
    ensures AllDigits(SatText(msat))
  {
    assert Fraction(0) == [];
    assert UnsignedText(msat) == NatToDecimal(msat / 1000);
  }
  // ---------------------------------------------------------------------------
  // The printed text is the only canonical text of its amount

  /** A digit string is worth at least its first digit. */
  lemma {:induction false} LeadingDigitBound(w: string)
    requires w != [] && AllDigits(w)
    ensures DigitsValue(w) >= DigitValue(w[0])
    decreases |w|
  {
    if |w| > 1 {
      var p := w[..|w| - 1];
      assert p[0] == w[0];
      LeadingDigitBound(p);
    }
  }

  /** Digits without a leading zero are the decimal notation of their value. */
  lemma {:induction false} DecimalOfDigits(w: string)
    requires w != [] && AllDigits(w) && (w[0] == '0' ==> |w| == 1)
    ensures NatToDecimal(DigitsValue(w)) == w
    decreases |w|
  {
    var p, c := w[..|w| - 1], w[|w| - 1];
    if |w| == 1 {
      assert p == [];
      assert w == [c];
    } else {
      assert p[0] == w[0] != '0';
      LeadingDigitBound(p);
      DecimalOfDigits(p);
      var n := DigitsValue(w);
      assert n == DigitsValue(p) * 10 + DigitValue(c) && n >= 10;
      assert n / 10 == DigitsValue(p) && n % 10 == DigitValue(c);
      assert w == p + [c];
    }
  }

  /** One to three fraction digits ending in a non-zero digit are what `Fraction` prints for their value. */
  lemma FractionOfValue(frac: string)
    requires 1 <= |frac| <= 3 && AllDigits(frac) && frac[|frac| - 1] != '0'
    ensures 0 < FractionValue(frac) < 1000
    ensures Fraction(FractionValue(frac)) == frac
  {
    var f := FractionValue(frac);
    var d0 := DigitValue(frac[0]);
    var d1 := if |frac| >= 2 then DigitValue(frac[1]) else 0;
    var d2 := if |frac| == 3 then DigitValue(frac[2]) else 0;
    assert f == d0 * 100 + d1 * 10 + d2;
    assert f / 100 == d0 && f % 100 / 10 == d1 && f % 10 == d2;
    if |frac| == 1 {
      assert frac == [DigitChar(d0)];
    } else if |frac| == 2 {
      assert frac == [DigitChar(d0), DigitChar(d1)];
    } else {
      assert frac == [DigitChar(d0), DigitChar(d1), DigitChar(d2)];
    }
  }

  /** A canonical unsigned text is the printed form of the amount it reads as. */
  lemma CanonicalUnsignedUnique(u: string, a: nat)
    requires IsCanonicalUnsigned(u) && ParseUnsigned(u) == Some(a)
    ensures u == UnsignedText(a)
  {
    var k := PointIndex(u);
    var w := u[..k];
    DecimalOfDigits(w);
    if k == |u| {
      assert u == w;
      assert a == DigitsValue(w) * 1000;
      assert a / 1000 == DigitsValue(w) && a % 1000 == 0;
    } else {
      var frac := u[k + 1..];
      FractionOfValue(frac);
      assert a == DigitsValue(w) * 1000 + FractionValue(frac);
      assert a / 1000 == DigitsValue(w) && a % 1000 == FractionValue(frac);
      assert u == w + "." + frac;
    }
  }

  /**
   * Together with `SatTextRoundTrip`: `SatText(msat)` is the one canonical
   * text that reads back as `msat`, so the round trip fixes the text itself.
   */
  lemma CanonicalSatTextUnique(t: string, msat: int)
    requires IsCanonicalSatText(t) && ParseSatText(t) == Some(msat)
    ensures t == SatText(msat)
  {
    if t != [] && t[0] == '-' {
      var u := t[1..];
      var n :| ParseUnsigned(u) == Some(n);
      assert msat == -(n as int);
      CanonicalUnsignedUnique(u, n);
      assert n != 0;
      assert SatText(msat) == "-" + UnsignedText(n);
      assert t == "-" + u;
    } else {
      var n :| ParseUnsigned(t) == Some(n);
      assert msat == n;
      CanonicalUnsignedUnique(t, n);
    }
  }
}
