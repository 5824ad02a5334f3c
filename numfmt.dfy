/**
 * Number formatting used by the parameter-template renderer (serve.py,
 * `format_num` and the `i`/`f<N>` formats of `apply_param_template`).
 * Python floats are modelled as exact reals: rounding is Python's
 * round-half-to-even applied to the exact value, and `f"{v:.Nf}"` prints
 * that rounding of `v * 10^N` with a sign taken from `v`.
 */
module NumberFormat {
  import opened Common

  /** `x * 10^n`, written as repeated multiplication by ten. */
  function Scale(x: real, n: nat): (r: real)
    ensures x >= 0.0 ==> r >= 0.0
  {
    if n == 0 then x else 10.0 * Scale(x, n - 1)
  }

  function Abs(x: real): (a: real)
    ensures a >= 0.0
  {
    if x < 0.0 then -x else x
  }

  /** Python's `round(x)`: the nearest integer, ties going to the even one. */
  function RoundHalfEven(x: real): (r: int)
    ensures -0.5 <= r as real - x <= 0.5
    ensures (r as real - x == 0.5 || x - r as real == 0.5) ==> r % 2 == 0
  {
    var f := x.Floor;
    var d := x - f as real;
    if d < 0.5 then f
    else if d > 0.5 then f + 1
    else if f % 2 == 0 then f else f + 1
  }

  /** `x.is_integer()` */
  predicate IsIntegral(x: real)
  {
    x == x.Floor as real
  }

  /** Left-pads a digit string with zeros up to `width` characters. */
  function PadZeros(s: string, width: nat): (r: string)
    ensures |r| == if |s| >= width then |s| else width
    ensures forall k :: 0 <= k < |r| - |s| ==> r[k] == '0'
    ensures r[|r| - |s|..] == s
    decreases width - |s|
  {
    if |s| >= width then s else PadZeros(['0'] + s, width)
  }

  /** The digits of `round(|v| * 10^n)`, at least `n + 1` of them. */
  function ScaledDigits(v: real, n: nat): (d: string)
    ensures |d| >= n + 1
    ensures forall k :: 0 <= k < |d| ==> IsDigit(d[k])
    ensures DigitsValue(d) == RoundHalfEven(Scale(Abs(v), n))
  {
    var m := RoundHalfEven(Scale(Abs(v), n));
    NatToDecimalRoundTrip(m);
    PadZerosValue(NatToDecimal(m), n + 1);
    PadZeros(NatToDecimal(m), n + 1)
  }

  /** `f"{v:.{n}f}"`: a sign when `v` is negative, the integer part, and for `n > 0` a point followed by exactly `n` digits. */
  function FixedPoint(v: real, n: nat): (s: string)
  {
    PlaceDecimalPoint(v < 0.0, ScaledDigits(v, n), n)
  }

  /** Writes a sign, then `digits` with a point before its last `n` characters when `n > 0`. */
  function PlaceDecimalPoint(negative: bool, digits: string, n: nat): string
    requires |digits| >= n + 1
  {
    var body := if n == 0 then digits else digits[..|digits| - n] + "." + digits[|digits| - n..];
    (if negative then "-" else "") + body
  }

  /** `s.rstrip(c)` */
  function RStrip(s: string, c: char): (r: string)
    ensures |r| <= |s| && r == s[..|r|]
    ensures r != [] ==> r[|r| - 1] != c
    ensures forall k :: |r| <= k < |s| ==> s[k] == c
  {
    if s != [] && s[|s| - 1] == c then RStrip(s[..|s| - 1], c) else s
  }

  /** `out.rstrip("0").rstrip(".")` */
  function TrimZeros(s: string): string
  {
    RStrip(RStrip(s, '0'), '.')
  }

  /**
   * `format_num(value, decimals, trim)` (serve.py:121-129): fixed-point with the
   * given number of decimals (trimmed when asked and `decimals > 0`); without
   * decimals an integral value prints as an integer and any other value with at
   * most four decimals, trailing zeros and point removed.
   */
  function FormatNum(value: real, decimals: Option<nat>, trim: bool): string
  {
    match decimals
    case Some(d) =>
      var out := FixedPoint(value, d);
      if trim && d > 0 then TrimZeros(out) else out
    case None =>
      if IsIntegral(value) then IntToDecimal(value.Floor)
      else TrimZeros(FixedPoint(value, 4))
  }

  /** A decimal numeral: an optional minus sign and digits. */
  predicate IsIntegerNumeral(s: string)
  {
    AllDigits(s) || (|s| >= 2 && s[0] == '-' && AllDigits(s[1..]))
  }

  lemma IntToDecimalIsNumeral(i: int)
    ensures IsIntegerNumeral(IntToDecimal(i)) && '.' !in IntToDecimal(i)
  {
    if i < 0 {
      assert IntToDecimal(i)[1..] == NatToDecimal(-i);
    }
  }

  /** The `f<N>` format prints exactly `N` digits after the point, and no point at all for `N = 0`. */
  lemma FixedPointShape(v: real, n: nat)
    ensures n == 0 ==> '.' !in FixedPoint(v, n)
    ensures n > 0 ==> exists i :: 0 < i < |FixedPoint(v, n)| && FixedPoint(v, n)[i] == '.'
                        && |FixedPoint(v, n)| - i - 1 == n
                        && forall k :: i < k < |FixedPoint(v, n)| ==> IsDigit(FixedPoint(v, n)[k])
  {
    var s := FixedPoint(v, n);
    PointShape(v < 0.0, ScaledDigits(v, n), n);
    if n > 0 {
      var i :| 0 < i < |s| && s[i] == '.' && |s| - i - 1 == n && forall k :: i < k < |s| ==> IsDigit(s[k]);
    }
  }

  lemma PointShape(negative: bool, digits: string, n: nat)
    requires |digits| >= n + 1
    requires forall k :: 0 <= k < |digits| ==> IsDigit(digits[k])
    ensures n == 0 ==> '.' !in PlaceDecimalPoint(negative, digits, n)
    ensures n > 0 ==> var s := PlaceDecimalPoint(negative, digits, n);
                      exists i :: 0 < i < |s| && s[i] == '.' && |s| - i - 1 == n
                        && forall k :: i < k < |s| ==> IsDigit(s[k])
  {
    var sign := if negative then "-" else "";
    var s := PlaceDecimalPoint(negative, digits, n);
    if n == 0 {
      assert s == sign + digits;
      assert forall k :: 0 <= k < |s| ==> s[k] == '-' || IsDigit(s[k]);
    } else {
      var i := |sign| + |digits| - n;
      assert s == sign + digits[..|digits| - n] + "." + digits[|digits| - n..];
      assert s[i] == '.';
      forall k | i < k < |s| ensures IsDigit(s[k]) {
        assert s[k] == digits[k - 1 - |sign|];
      }
    }
  }

  /** The digits `f"{v:.{n}f}"` prints are `|v| * 10^n` rounded to the nearest integer, ties to even. */
  lemma FixedPointValue(v: real, n: nat)
    ensures var d := ScaledDigits(v, n);
            -0.5 <= DigitsValue(d) as real - Scale(Abs(v), n) <= 0.5
    ensures DigitsValue(ScaledDigits(v, n)) == RoundHalfEven(Scale(Abs(v), n))
  {
  }

  /** Leading zeros do not change the value of a digit string. */
  lemma {:induction false} PadZerosValue(s: string, width: nat)
    requires forall k :: 0 <= k < |s| ==> IsDigit(s[k])
    ensures DigitsValue(PadZeros(s, width)) == DigitsValue(s)
    decreases width - |s|
  {
    if |s| < width {
      LeadingZeroValue(s);
      PadZerosValue(['0'] + s, width);
    }
  }

  lemma {:induction false} LeadingZeroValue(s: string)
    requires forall k :: 0 <= k < |s| ==> IsDigit(s[k])
    ensures DigitsValue(['0'] + s) == DigitsValue(s)
  {
    if s != [] {
      LeadingZeroValue(s[..|s| - 1]);
      assert (['0'] + s)[..|s|] == ['0'] + s[..|s| - 1];
    }
  }

  /**
   * Natural formatting: an integral value prints as an integer numeral with no point;
   * any other value prints with at most four decimals and never ends in `0` or `.`
   * once it has a point.
   */
  lemma FormatNumNatural(value: real)
    ensures IsIntegral(value) ==> FormatNum(value, None, true) == IntToDecimal(value.Floor)
                                  && IsIntegerNumeral(FormatNum(value, None, true))
                                  && '.' !in FormatNum(value, None, true)
    ensures !IsIntegral(value) ==>
              var s := FormatNum(value, None, true);
              s != [] && s[|s| - 1] != '.' &&
              forall i :: 0 <= i < |s| && s[i] == '.' ==> |s| - i - 1 <= 4 && s[|s| - 1] != '0'
  {
    if IsIntegral(value) {
      IntToDecimalIsNumeral(value.Floor);
    } else {
      var f := FixedPoint(value, 4);
      FixedPointShape(value, 4);
      var i :| 0 < i < |f| && f[i] == '.' && |f| - i - 1 == 4 && forall k :: i < k < |f| ==> IsDigit(f[k]);
      forall j | 0 <= j < i ensures f[j] == '-' || IsDigit(f[j]) {
        FixedPointPrefix(value, 4, j, i);
      }
      TrimZerosShape(f, i);
    }
  }

  /** Trimming a numeral `[-]digits.dddd` keeps its integer part and at most the four decimals. */
  lemma TrimZerosShape(f: string, i: nat)
    requires 0 < i < |f| && f[i] == '.' && |f| - i - 1 <= 4
    requires forall k :: i < k < |f| ==> IsDigit(f[k])
    requires forall k :: 0 <= k < i ==> f[k] == '-' || IsDigit(f[k])
    ensures var s := TrimZeros(f);
            s != [] && s[|s| - 1] != '.' &&
            forall j :: 0 <= j < |s| && s[j] == '.' ==> |s| - j - 1 <= 4 && s[|s| - 1] != '0'
  {
    var a := RStrip(f, '0');
    var s := RStrip(a, '.');
    assert |a| > i;
    assert a[i] == '.';
    if |a| == i + 1 {
      assert s == RStrip(a[..i], '.');
      assert a[i - 1] != '.';
      assert s == a[..i];
    } else {
      assert s == a;
    }
    assert s[..i] == f[..i];
    assert s != [] by { assert s[0] == f[0]; }
    forall j | 0 <= j < |s| && s[j] == '.' ensures |s| - j - 1 <= 4 && s[|s| - 1] != '0' {
      assert s[j] == f[j];
      assert j == i;
      assert s == a;
    }
  }

  /** Everything before the point of a fixed-point string is a sign or a digit. */
  lemma FixedPointPrefix(v: real, n: nat, j: nat, i: nat)
    requires n > 0
    requires i < |FixedPoint(v, n)| && FixedPoint(v, n)[i] == '.' && |FixedPoint(v, n)| - i - 1 == n
    requires j < i
    ensures FixedPoint(v, n)[j] == '-' || IsDigit(FixedPoint(v, n)[j])
  {
    PointPrefix(v < 0.0, ScaledDigits(v, n), n, j, i);
  }

  lemma PointPrefix(negative: bool, digits: string, n: nat, j: nat, i: nat)
    requires n > 0 && |digits| >= n + 1
    requires forall k :: 0 <= k < |digits| ==> IsDigit(digits[k])
    requires var s := PlaceDecimalPoint(negative, digits, n); i < |s| && s[i] == '.' && |s| - i - 1 == n
    requires j < i
    ensures PlaceDecimalPoint(negative, digits, n)[j] == '-' || IsDigit(PlaceDecimalPoint(negative, digits, n)[j])
  {
    var sign := if negative then "-" else "";
    var s := PlaceDecimalPoint(negative, digits, n);
    assert s == sign + digits[..|digits| - n] + "." + digits[|digits| - n..];
    assert i == |sign| + |digits| - n;
    if j >= |sign| {
      assert s[j] == digits[j - |sign|];
    }
  }
}
