/**
 * `Number.prototype.toFixed(2)` on exact reals: round to the nearest hundredth (ties upward on the
 * magnitude), write the integer part in decimal and always two digits after the point.
 */
module Fixed {
  import opened Text
  import Json

  function Abs(x: real): (r: real)
    ensures r >= 0.0 && (r == x || r == -x)
  {
    if x < 0.0 then -x else x
  }

  /** The integer n closest to 100·x, the larger one on a tie. */
  function Hundredths(x: real): (n: nat)
    requires x >= 0.0
    ensures n as real - 0.5 <= 100.0 * x < n as real + 0.5
  {
    (100.0 * x + 0.5).Floor
  }

  function DigitChar(d: nat): (c: char)
    requires d < 10
    ensures IsDigit(c) && DigitValue(c) == d
  {
    ('0' as int + d) as char
  }

  /** Decimal text of a natural number, without leading zeros. */
  function NatToDigits(n: nat): (s: string)
    ensures AllDigits(s) && |s| >= 1
  {
    if n < 10 then [DigitChar(n)] else NatToDigits(n / 10) + [DigitChar(n % 10)]
  }

  lemma {:induction false} NatToDigitsRoundTrip(n: nat)
    ensures DigitsValue(NatToDigits(n)) == n
  {
    var s := NatToDigits(n);
    if n >= 10 {
      NatToDigitsRoundTrip(n / 10);
      assert s[..|s| - 1] == NatToDigits(n / 10);
    }
  }

  /** toFixed(2) of a non-negative number. */
  function Magnitude2(x: real): (s: string)
    requires x >= 0.0
    ensures |s| >= 4 && s[|s| - 3] == '.' && IsDigit(s[|s| - 2]) && IsDigit(s[|s| - 1])
  {
    var n := Hundredths(x);
    var cents := n % 100;
    NatToDigits(n / 100) + "." + [DigitChar(cents / 10), DigitChar(cents % 10)]
  }

  /** toFixed(2): the sign is taken from x before rounding, so (-0.001).toFixed(2) is "-0.00". */
  function ToFixed2(x: real): string
  {
    (if x < 0.0 then "-" else "") + Magnitude2(Abs(x))
  }

  /** Reading the formatted text back gives x rounded to the nearest hundredth. */
  lemma Magnitude2RoundTrip(x: real)
    requires x >= 0.0
    ensures Json.IsNumericText(Magnitude2(x))
    ensures Json.NumericValue(Magnitude2(x)) == Hundredths(x) as real / 100.0
  {
    var n := Hundredths(x);
    var i := NatToDigits(n / 100);
    var f := [DigitChar(n % 100 / 10), DigitChar(n % 100 % 10)];
    assert i + "." + f == Magnitude2(x);
    NumeralParts(i, f);
    NatToDigitsRoundTrip(n / 100);
    TwoDigitsValue(n % 100);
    assert Pow10(2) == 100;
    CentsSplit(n);
  }

  /** Integer digits, a point and fraction digits split back into those parts. */
  lemma NumeralParts(i: string, f: string)
    requires AllDigits(i) && |i| >= 1
    ensures var s := i + "." + f;
            Json.Unsigned(s) == s && Json.IntPart(s) == i && Json.FracPart(s) == f
  {
    var s := i + "." + f;
    assert s[0] == i[0];
    DotPosition(i, f);
    assert s[..|i|] == i;
    assert s[|i| + 1..] == f;
  }

  lemma TwoDigitsValue(c: nat)
    requires c < 100
    ensures DigitsValue([DigitChar(c / 10), DigitChar(c % 10)]) == c
  {
    var f := [DigitChar(c / 10), DigitChar(c % 10)];
    assert f[..|f| - 1] == [f[0]] && [f[0]][..0] == [];
    assert DigitsValue([f[0]]) == DigitValue(f[0]);
    assert DigitsValue(f) == (c / 10) * 10 + c % 10;
  }

  lemma CentsSplit(n: nat)
    ensures (n / 100) as real + (n % 100) as real / 100.0 == n as real / 100.0
  {
    assert n == (n / 100) * 100 + n % 100;
  }

  lemma DotPosition(i: string, f: string)
    requires AllDigits(i)
    ensures Json.DotIndex(i + "." + f) == |i|
  {
    if i != [] {
      assert (i + "." + f)[1..] == i[1..] + "." + f;
      DotPosition(i[1..], f);
    }
  }

  /** toFixed(2) depends only on the magnitude apart from the leading '-'. */
  lemma ToFixed2Sign(x: real)
    ensures x < 0.0 ==> ToFixed2(x) == "-" + Magnitude2(-x)
    ensures x >= 0.0 ==> ToFixed2(x) == Magnitude2(x)
  {
  }

  lemma Magnitude2StartsWithDigit(x: real)
    requires x >= 0.0
    ensures IsDigit(Magnitude2(x)[0])
  {
    var n := Hundredths(x);
    var i := NatToDigits(n / 100);
    assert Magnitude2(x)[0] == i[0];
  }

  /** Reading toFixed(2) back gives x rounded to the nearest hundredth, with the sign of x. */
  lemma ToFixed2RoundTrip(x: real)
    ensures Json.IsNumericText(ToFixed2(x))
    ensures Json.NumericValue(ToFixed2(x)) == if x < 0.0 then -(Hundredths(-x) as real / 100.0) else Hundredths(x) as real / 100.0
  {
    var m := Magnitude2(Abs(x));
    Magnitude2RoundTrip(Abs(x));
    Magnitude2StartsWithDigit(Abs(x));
    assert Json.Unsigned(m) == m;
    if x < 0.0 {
      var s := "-" + m;
      assert ToFixed2(x) == s;
      assert s[1..] == m;
      assert Json.Unsigned(s) == m;
    } else {
      assert ToFixed2(x) == m;
    }
  }

  lemma ToFixed2Length(x: real)
    ensures |ToFixed2(x)| >= 4
  {
  }

  /** A whole number of cents rounds to itself. */
  lemma HundredthsOfCents(n: nat)
    ensures Hundredths(n as real / 100.0) == n
  {
    assert 100.0 * (n as real / 100.0) + 0.5 == n as real + 0.5;
  }

  /** Formatting is idempotent: a value already rounded to cents is written as the original was. */
  lemma Magnitude2OfRounded(x: real)
    requires x >= 0.0
    ensures Magnitude2(Hundredths(x) as real / 100.0) == Magnitude2(x)
  {
    HundredthsOfCents(Hundredths(x));
  }

  lemma ZeroIsWrittenWithTwoZeros()
    ensures ToFixed2(0.0) == "0.00"
  {
    assert Hundredths(0.0) == 0;
    assert NatToDigits(0) == "0";
  }
}
