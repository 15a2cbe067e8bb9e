/** rust_decimal's `Decimal` as the repository uses it: a mantissa and a scale, numeric
    equality, `normalize` and `to_string`. Widths (96 bits, 28 digits) are not modelled. */
module Decimals {
  import opened Options
  import opened Text

  datatype Decimal = Decimal(mantissa: int, scale: nat)

  function Pow10(n: nat): (r: int)
    ensures r > 0
  {
    if n == 0 then 1 else 10 * Pow10(n - 1)
  }

  /** `==` on decimals: mantissa / 10^scale compared by value. */
  predicate SameValue(a: Decimal, b: Decimal) {
    a.mantissa * Pow10(b.scale) == b.mantissa * Pow10(a.scale)
  }

  function Times(a: Decimal, b: Decimal): Decimal {
    Decimal(a.mantissa * b.mantissa, a.scale + b.scale)
  }

  /** Drops trailing zeros of the fraction. */
  function Normalize(d: Decimal): Decimal
    decreases d.scale
  {
    if d.mantissa == 0 then Decimal(0, 0)
    else if d.scale > 0 && d.mantissa % 10 == 0 then Normalize(Decimal(d.mantissa / 10, d.scale - 1))
    else d
  }

  predicate Normal(d: Decimal) {
    d.scale == 0 || d.mantissa % 10 != 0
  }

  function Magnitude(d: Decimal): nat {
    if d.mantissa < 0 then -d.mantissa else d.mantissa
  }

  predicate AllDigits(s: Bytes) {
    forall i :: 0 <= i < |s| ==> IsDigit(s[i])
  }

  function PadTo(s: Bytes, width: nat): (r: Bytes)
    ensures |r| >= width && |r| >= |s|
    decreases width - |s|
  {
    if |s| >= width then s else PadTo("0" + s, width)
  }

  /** The digits with a point before the last `scale` of them. */
  function Body(digits: Bytes, scale: nat): Bytes
    requires scale <= |digits|
  {
    if scale == 0 then digits else digits[..|digits| - scale] + "." + digits[|digits| - scale..]
  }

  function Padded(d: Decimal): Bytes {
    PadTo(Digits(Magnitude(d)), d.scale + 1)
  }

  /** `to_string`. */
  function Show(d: Decimal): Bytes {
    (if d.mantissa < 0 then "-" else "") + Body(Padded(d), d.scale)
  }

  function ShowNormal(d: Decimal): Bytes {
    Show(Normalize(d))
  }

  // ----- Values -----

  lemma Tenfold(x: int, p: int, y: int, q: int)
    ensures (10 * x) * p == y * (10 * q) <==> x * p == y * q
  {
    assert (10 * x) * p == 10 * (x * p);
    assert y * (10 * q) == 10 * (y * q);
  }

  lemma DroppingZeroKeepsValue(a: Decimal, b: Decimal)
    requires a.scale > 0 && a.mantissa % 10 == 0
    ensures SameValue(a, b) <==> SameValue(Decimal(a.mantissa / 10, a.scale - 1), b)
  {
    Tenfold(a.mantissa / 10, Pow10(b.scale), b.mantissa, Pow10(a.scale - 1));
  }

  lemma {:induction false} NormalizeKeepsValue(d: Decimal)
    ensures SameValue(d, Normalize(d)) && Normal(Normalize(d))
    decreases d.scale
  {
    if d.mantissa != 0 && d.scale > 0 && d.mantissa % 10 == 0 {
      NormalizeKeepsValue(Decimal(d.mantissa / 10, d.scale - 1));
      DroppingZeroKeepsValue(d, Normalize(d));
    }
  }

  lemma {:induction false} PowSplits(m: nat, n: nat)
    ensures Pow10(m + n) == Pow10(m) * Pow10(n)
  {
    if m > 0 {
      PowSplits(m - 1, n);
      assert Pow10(m + n) == 10 * Pow10(m - 1 + n);
      assert 10 * (Pow10(m - 1) * Pow10(n)) == (10 * Pow10(m - 1)) * Pow10(n);
    }
  }

  lemma Cancel(x: int, y: int, p: int)
    requires p > 0 && x * p == y * p
    ensures x == y
  {
    assert (x - y) * p == 0;
  }

  lemma ZeroTimes(x: int, p: int)
    requires p > 0
    ensures x * p == 0 <==> x == 0
  {
    if x * p == 0 {
      Cancel(x, 0, p);
    }
  }

  /** Equal values at different scales: the longer mantissa ends in a zero. */
  lemma LongerEndsInZero(a: Decimal, b: Decimal)
    requires SameValue(a, b) && a.scale < b.scale
    ensures b.mantissa % 10 == 0
  {
    var d := b.scale - a.scale;
    var q := Pow10(d - 1);
    PowSplits(d, a.scale);
    Associate(a.mantissa, Pow10(d), Pow10(a.scale));
    Cancel(b.mantissa, a.mantissa * Pow10(d), Pow10(a.scale));
    Associate(a.mantissa, q, 10);
    assert a.mantissa * (q * 10) == (a.mantissa * q) * 10;
  }

  lemma Associate(x: int, y: int, z: int)
    ensures x * (y * z) == (x * y) * z
  {
  }

  /** Equal values have one normal form. */
  lemma {:induction false} NormalFormIsUnique(a: Decimal, b: Decimal)
    requires SameValue(a, b)
    ensures Normalize(a) == Normalize(b)
    decreases a.scale + b.scale
  {
    ZeroTimes(a.mantissa, Pow10(b.scale));
    ZeroTimes(b.mantissa, Pow10(a.scale));
    if a.mantissa == 0 {
    } else if !Normal(a) {
      DroppingZeroKeepsValue(a, b);
      NormalFormIsUnique(Decimal(a.mantissa / 10, a.scale - 1), b);
    } else if !Normal(b) {
      DroppingZeroKeepsValue(b, a);
      NormalFormIsUnique(a, Decimal(b.mantissa / 10, b.scale - 1));
    } else if a.scale < b.scale {
      LongerEndsInZero(a, b);
    } else if b.scale < a.scale {
      LongerEndsInZero(b, a);
    } else {
      Cancel(a.mantissa, b.mantissa, Pow10(a.scale));
    }
  }

  lemma SameValueTransitive(a: Decimal, b: Decimal, c: Decimal)
    requires SameValue(a, b) && SameValue(b, c)
    ensures SameValue(a, c)
  {
    var p, q, r := Pow10(a.scale), Pow10(b.scale), Pow10(c.scale);
    Exchange(a.mantissa, r, q);
    Exchange(b.mantissa, p, r);
    Exchange(c.mantissa, q, p);
    Cancel(a.mantissa * r, c.mantissa * p, q);
  }

  lemma Exchange(x: int, y: int, z: int)
    ensures (x * y) * z == (x * z) * y
  {
  }

  lemma Rearrange(x: int, y: int, p: int, q: int)
    ensures (x * y) * (p * q) == (x * p) * (y * q)
  {
    Associate(x, y, p * q);
    Associate(y, p, q);
    Associate(x, y * p, q);
    Associate(x, p, y);
    Associate(x * p, y, q);
    assert y * p == p * y;
  }

  lemma ProductsKeepValue(a: Decimal, b: Decimal, c: Decimal, d: Decimal)
    requires SameValue(a, b) && SameValue(c, d)
    ensures SameValue(Times(a, c), Times(b, d))
  {
    PowSplits(a.scale, c.scale);
    PowSplits(b.scale, d.scale);
    Rearrange(a.mantissa, c.mantissa, Pow10(b.scale), Pow10(d.scale));
    Rearrange(b.mantissa, d.mantissa, Pow10(a.scale), Pow10(c.scale));
  }

  // ----- Printing -----

  /** Reads a printed decimal without its sign. */
  function ParseMagnitude(s: Bytes): Option<Decimal> {
    var split := SplitOnce(s, '.');
    var digits := if split.None? then s else split.value.0 + split.value.1;
    var value := DigitsValue(digits);
    if value.None? then None else Some(Decimal(value.value, if split.None? then 0 else |split.value.1|))
  }

  /** Reads a printed decimal back. */
  function Parse(s: Bytes): Option<Decimal> {
    if s == [] || s[0] != '-' then ParseMagnitude(s)
    else
      var d := ParseMagnitude(s[1..]);
      if d.None? then None else Some(Decimal(-d.value.mantissa, d.value.scale))
  }

  lemma {:induction false} LeadingZero(s: Bytes)
    ensures DigitsValue("0" + s) == DigitsValue(s)
  {
    if s == [] {
      assert ("0" + s)[..0] == [];
    } else {
      var n := |s| - 1;
      LeadingZero(s[..n]);
      assert ("0" + s)[..|s|] == "0" + s[..n];
    }
  }

  lemma {:induction false} PaddingKeepsValue(s: Bytes, width: nat)
    ensures DigitsValue(PadTo(s, width)) == DigitsValue(s)
    ensures AllDigits(s) ==> AllDigits(PadTo(s, width))
    decreases width - |s|
  {
    if |s| < width {
      PaddingKeepsValue("0" + s, width);
      LeadingZero(s);
    }
  }

  lemma ParseSigned(negative: bool, body: Bytes, n: nat, scale: nat)
    requires body != [] && body[0] != '-' && ParseMagnitude(body) == Some(Decimal(n, scale))
    ensures Parse((if negative then "-" else "") + body) == Some(Decimal(if negative then -(n as int) else n, scale))
  {
    assert ("-" + body)[1..] == body && "" + body == body;
  }

  lemma ParsePointed(whole: Bytes, fraction: Bytes, value: nat)
    requires '.' !in whole && DigitsValue(whole + fraction) == Some(value)
    ensures ParseMagnitude(whole + "." + fraction) == Some(Decimal(value, |fraction|))
  {
    SplitOnceAt(whole, '.', fraction);
  }

  lemma BodyStarts(digits: Bytes, scale: nat)
    requires scale < |digits|
    ensures Body(digits, scale) != [] && Body(digits, scale)[0] == digits[0]
    ensures Body(digits, scale)[|Body(digits, scale)| - 1] == digits[|digits| - 1]
  {
  }

  lemma ParseBody(digits: Bytes, scale: nat, value: nat)
    requires scale < |digits| && AllDigits(digits) && DigitsValue(digits) == Some(value)
    ensures ParseMagnitude(Body(digits, scale)) == Some(Decimal(value, scale))
  {
    var n := |digits| - scale;
    if scale > 0 {
      assert digits[..n] + digits[n..] == digits;
      ParsePointed(digits[..n], digits[n..], value);
    }
  }

  lemma PaddedIsMagnitude(d: Decimal)
    ensures d.scale < |Padded(d)| && AllDigits(Padded(d)) && DigitsValue(Padded(d)) == Some(Magnitude(d))
  {
    DigitsValueOfDigits(Magnitude(d));
    PaddingKeepsValue(Digits(Magnitude(d)), d.scale + 1);
  }

  /** Every decimal, normal or not, can be read back from its text. */
  lemma ParseInvertsShow(d: Decimal)
    ensures Parse(Show(d)) == Some(d)
  {
    PaddedIsMagnitude(d);
    ParseBody(Padded(d), d.scale, Magnitude(d));
    BodyStarts(Padded(d), d.scale);
    ParseSigned(d.mantissa < 0, Body(Padded(d), d.scale), Magnitude(d), d.scale);
  }

  lemma ShowHasNo(c: char, d: Decimal)
    requires !IsDigit(c) && c != '-' && c != '.'
    ensures c !in Show(d)
  {
    PaddedIsMagnitude(d);
  }

  /** A printed decimal ends in a digit. */
  lemma ShowEndsInDigit(d: Decimal)
    ensures Show(d) != [] && IsDigit(Show(d)[|Show(d)| - 1])
  {
    PaddedIsMagnitude(d);
    BodyStarts(Padded(d), d.scale);
  }

  /** Two decimals print alike after normalisation exactly when they are equal. */
  lemma PrintedAlikeIffEqual(a: Decimal, b: Decimal)
    ensures ShowNormal(a) == ShowNormal(b) <==> SameValue(a, b)
  {
    if SameValue(a, b) {
      NormalFormIsUnique(a, b);
    }
    if ShowNormal(a) == ShowNormal(b) {
      ParseInvertsShow(Normalize(a));
      ParseInvertsShow(Normalize(b));
      NormalizeKeepsValue(a);
      NormalizeKeepsValue(b);
      SameValueTransitive(a, Normalize(a), b);
    }
  }
}
