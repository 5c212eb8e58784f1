/** The part of Python's `float()` that ping output exercises: an optional
    sign, decimal digits and at most one decimal point, read as an exact
    rational number. Exponents, `inf`, `nan`, underscores and surrounding
    white space are not accepted. */
module Decimal {
  import opened Wrappers
  import Text

  predicate IsDigit(c: char) { '0' <= c <= '9' }

  predicate AllDigits(s: string) { forall i :: 0 <= i < |s| ==> IsDigit(s[i]) }

  /** The characters a number accepted by `ParseDecimal` can contain. */
  predicate NumberChar(c: char) { IsDigit(c) || c == '.' || c == '+' || c == '-' }

  function DigitValue(c: char): (d: nat)
    requires IsDigit(c)
    ensures d < 10
  {
    (c as int) - ('0' as int)
  }

  /** The value of a string of digits, most significant first. */
  function DigitsValue(s: string): nat
    requires AllDigits(s)
  {
    if s == [] then 0 else DigitsValue(s[..|s| - 1]) * 10 + DigitValue(s[|s| - 1])
  }

  function Pow10(n: nat): (p: nat)
    ensures p >= 1
  {
    if n == 0 then 1 else 10 * Pow10(n - 1)
  }

  /** The value of `whole.fraction`. */
  function PointedValue(whole: string, fraction: string): (v: real)
    requires AllDigits(whole) && AllDigits(fraction)
    ensures v >= 0.0
  {
    DigitsValue(whole) as real + DigitsValue(fraction) as real / Pow10(|fraction|) as real
  }

  /** An unsigned number: digits, or digits '.' digits with at least one
      digit on either side ("5", "5.", ".5", "5.25"). */
  function ParseUnsigned(s: string): (r: Option<real>)
    ensures r.Some? ==> s != [] && forall i :: 0 <= i < |s| ==> IsDigit(s[i]) || s[i] == '.'
    ensures r.Some? ==> r.value >= 0.0
  {
    match Text.Find(s, ".")
    case None =>
      if s != [] && AllDigits(s) then Some(DigitsValue(s) as real) else None
    case Some(i) =>
      var whole, fraction := s[..i], s[i + 1..];
      if AllDigits(whole) && AllDigits(fraction) && |whole| + |fraction| > 0 then
        assert s == whole + "." + fraction;
        Some(PointedValue(whole, fraction))
      else None
  }

  /** `float(s)` on the plain decimal subset; `None` is the `ValueError`. */
  function ParseDecimal(s: string): (r: Option<real>)
    ensures r.Some? ==> s != [] && forall i :: 0 <= i < |s| ==> NumberChar(s[i])
  {
    if s != [] && s[0] == '-' then
      match ParseUnsigned(s[1..])
      case Some(v) => Some(-v)
      case None => None
    else if s != [] && s[0] == '+' then ParseUnsigned(s[1..])
    else ParseUnsigned(s)
  }

  /** A number fits on one line. */
  lemma {:induction false} NumberOnOneLine(s: string)
    requires ParseDecimal(s).Some?
    ensures Text.NoLineBreak(s)
  {
    assert forall i :: 0 <= i < |s| ==> NumberChar(s[i]);
  }

  /** The decimal digits of a natural number, without leading zeros. */
  function ShowNat(n: nat): (s: string)
    ensures s != [] && AllDigits(s)
  {
    if n < 10 then ["0123456789"[n]] else ShowNat(n / 10) + ["0123456789"[n % 10]]
  }

  lemma {:induction false} DigitsValueShowNat(n: nat)
    ensures DigitsValue(ShowNat(n)) == n
  {
    var s := ShowNat(n);
    if n >= 10 {
      DigitsValueShowNat(n / 10);
      assert s[..|s| - 1] == ShowNat(n / 10);
    }
  }

  lemma {:induction false} NoPointInDigits(s: string)
    requires AllDigits(s)
    ensures Text.Find(s, ".").None?
  {
    forall k: nat ensures !Text.OccursAt(s, ".", k) {
      if k + 1 <= |s| {
        assert s[k..k + 1][0] == s[k];
      }
    }
  }

  /** Reading back a printed natural number gives the number. */
  lemma {:induction false} ParseShowNat(n: nat)
    ensures ParseDecimal(ShowNat(n)) == Some(n as real)
  {
    var s := ShowNat(n);
    NoPointInDigits(s);
    DigitsValueShowNat(n);
    assert s[0] != '-' && s[0] != '+' by { assert IsDigit(s[0]); }
  }

  /** A number with a fractional part is its whole part plus the fraction's
      digits scaled by the number of fractional digits. */
  lemma {:induction false} ParsePointed(whole: string, fraction: string)
    requires AllDigits(whole) && AllDigits(fraction) && |whole| + |fraction| > 0
    ensures ParseDecimal(whole + "." + fraction) == Some(PointedValue(whole, fraction))
  {
    PointedUnsigned(whole, fraction);
    var s := whole + "." + fraction;
    if whole != [] {
      assert s[0] == whole[0] && IsDigit(s[0]);
    } else {
      assert s[0] == '.';
    }
    assert ParseDecimal(s) == ParseUnsigned(s);
  }

  lemma {:induction false} PointedUnsigned(whole: string, fraction: string)
    requires AllDigits(whole) && AllDigits(fraction) && |whole| + |fraction| > 0
    ensures ParseUnsigned(whole + "." + fraction) == Some(PointedValue(whole, fraction))
  {
    var s := whole + "." + fraction;
    NoPointInDigits(whole);
    var i := |whole|;
    assert Text.OccursAt(s, ".", i) by { assert s[i..i + 1] == "."; }
    forall k: nat | k < i ensures !Text.OccursAt(s, ".", k) {
      assert s[k] == whole[k];
      assert IsDigit(s[k]);
      assert s[k..k + 1][0] == s[k];
    }
    assert Text.Find(s, ".") == Some(i);
    assert s[..i] == whole && s[i + 1..] == fraction;
  }

  lemma {:induction false} ThreeDigits(f: nat)
    requires 100 <= f < 1000
    ensures |ShowNat(f)| == 3
  {
    assert |ShowNat(f / 100)| == 1;
    assert ShowNat(f / 10) == ShowNat(f / 100) + ["0123456789"[(f / 10) % 10]];
  }

  lemma {:induction false} Pow10Three()
    ensures Pow10(3) == 1000
  {
    assert Pow10(1) == 10;
    assert Pow10(2) == 100;
  }

  /** A number with three decimals, such as the millisecond readings of
      `ping` on UNIX ("0.000", "20.045", "163.633"): its value is the whole
      part plus the three fractional digits in thousandths. */
  lemma {:induction false} ParseMillis(whole: string, fraction: string)
    requires AllDigits(whole) && AllDigits(fraction) && |fraction| == 3
    ensures ParseDecimal(whole + "." + fraction)
         == Some(DigitsValue(whole) as real + DigitsValue(fraction) as real / 1000.0)
  {
    ParsePointed(whole, fraction);
    Pow10Three();
  }

  /** The same for a reading printed from its whole part and a fraction of
      three significant digits. */
  lemma {:induction false} ParseShownMillis(s: string, w: nat, f: nat)
    requires s == ShowNat(w) + "." + ShowNat(f) && 100 <= f < 1000
    ensures ParseDecimal(s) == Some(w as real + f as real / 1000.0)
  {
    ThreeDigits(f);
    DigitsValueShowNat(w);
    DigitsValueShowNat(f);
    ParseMillis(ShowNat(w), ShowNat(f));
  }
}
