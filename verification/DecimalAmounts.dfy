/**
 * Decimal amounts: parsing with half-up rounding, and printing
 * (src/utils.ts, 4-92).
 */
module DecimalAmounts {
  import opened Common
  import opened Text

  /** Decimal places for which the code's power of ten is exact. */
  type Decimals = d: nat | d <= 22

  datatype AmountError = InvalidAmount | InvalidDuration

  function Pow10(n: nat): (p: nat)
    ensures p >= 1
  {
    if n == 0 then 1 else 10 * Pow10(n - 1)
  }

  // ------------------------------------------------------------------
  // Parsing
  // ------------------------------------------------------------------

  /** indexOf('.'), or the length when there is no dot. */
  function FirstDot(s: string): (i: nat)
    ensures i <= |s|
    ensures i < |s| ==> s[i] == '.'
    ensures '.' !in s[..i]
  {
    if s == "" || s[0] == '.' then 0
    else
      var rest := FirstDot(s[1..]);
      assert s[..1 + rest] == [s[0]] + s[1..][..rest];
      1 + rest
  }

  function WholePart(s: string): string {
    s[..FirstDot(s)]
  }

  function FractionPart(s: string): string {
    if FirstDot(s) == |s| then "" else s[FirstDot(s) + 1..]
  }

  /** The accepted syntax: digits, optionally a dot and digits, but not empty and not a lone dot. */
  predicate IsAmount(s: string) {
    s != "" && s != "." && AllDigits(WholePart(s)) && AllDigits(FractionPart(s))
  }

  function ZeroDigits(n: nat): (s: string)
    ensures |s| == n && AllDigits(s) && forall i :: 0 <= i < n ==> s[i] == '0'
  {
    seq(n, _ => '0')
  }

  /** The first decimals + 1 fraction digits, filled up with zeros. */
  function PaddedFraction(frac: string, decimals: nat): (p: string)
    requires AllDigits(frac)
    ensures |p| == decimals + 1 && AllDigits(p)
  {
    if |frac| >= decimals + 1 then frac[..decimals + 1] else frac + ZeroDigits(decimals + 1 - |frac|)
  }

  /** The fraction in stroops: the digit after the last place decides the rounding. */
  function RoundedFraction(padded: string, decimals: nat): nat
    requires AllDigits(padded) && |padded| == decimals + 1
  {
    var fracValue := NumeralValue(padded);
    if DigitValue(padded[decimals]) >= 5 then fracValue / 10 + 1 else fracValue / 10
  }

  function Scaled(whole: nat, decimals: nat): nat {
    whole * Pow10(decimals)
  }

  function ToStroops(amount: string, decimals: Decimals): Result<nat, AmountError> {
    if !IsAmount(amount) then Err(InvalidAmount)
    else Ok(Scaled(NumeralValue(WholePart(amount)), decimals)
            + RoundedFraction(PaddedFraction(FractionPart(amount), decimals), decimals))
  }

  /** The exact number an accepted amount denotes. */
  ghost function AmountValue(s: string): real
    requires IsAmount(s)
  {
    NumeralValue(WholePart(s) + FractionPart(s)) as real / Pow10(|FractionPart(s)|) as real
  }

  // ------------------------------------------------------------------
  // Printing
  // ------------------------------------------------------------------

  function PadStart(s: string, width: nat): string {
    if |s| >= width then s else ZeroDigits(width - |s|) + s
  }

  /** Drops trailing zeros but keeps at least one digit. */
  function TrimZeros(s: string): string {
    if |s| > 1 && s[|s| - 1] == '0' then TrimZeros(s[..|s| - 1]) else s
  }

  function WholeText(n: nat, factor: nat): (s: string)
    requires factor >= 1
    ensures s != "" && AllDigits(s)
  {
    Numeral(n / factor)
  }

  function FractionText(n: nat, factor: nat, decimals: nat): string
    requires factor >= 1
  {
    TrimZeros(PadStart(Numeral(n % factor), decimals))
  }

  function Display(stroops: int, decimals: Decimals): string {
    var n: nat := if stroops < 0 then -stroops else stroops;
    (if stroops < 0 then "-" else "")
    + WholeText(n, Pow10(decimals)) + "." + FractionText(n, Pow10(decimals), decimals)
  }

  /** The trimming loop: where the fraction's digits end once trailing zeros are dropped. */
  method TrimmedEnd(frac: string) returns (end: nat)
    ensures end <= |frac| && frac[..end] == TrimZeros(frac)
  {
    end := |frac|;
    assert frac[..end] == frac;
    while end > 1 && frac[end - 1] == '0'
      invariant end <= |frac|
      invariant TrimZeros(frac[..end]) == TrimZeros(frac)
    {
      assert frac[..end][..end - 1] == frac[..end - 1];
      end := end - 1;
    }
  }

  method FromStroops(stroops: int, decimals: Decimals) returns (s: string)
    ensures s == Display(stroops, decimals)
  {
    var neg := stroops < 0;
    var n: nat := if neg then -stroops else stroops;
    var factor := Pow10(decimals);
    var whole := WholeText(n, factor);
    var frac := PadStart(Numeral(n % factor), decimals);
    var end := TrimmedEnd(frac);
    s := (if neg then "-" else "") + whole + "." + frac[..end];
  }

  // ------------------------------------------------------------------
  // Numerals
  // ------------------------------------------------------------------

  lemma {:induction false} NumeralConcat(a: string, b: string)
    requires AllDigits(a) && AllDigits(b)
    ensures AllDigits(a + b)
    ensures NumeralValue(a + b) == NumeralValue(a) * Pow10(|b|) + NumeralValue(b)
  {
    if b == "" {
      assert a + b == a;
    } else {
      var front := b[..|b| - 1];
      NumeralConcat(a, front);
      assert (a + b)[..|a + b| - 1] == a + front;
      TenTimes(NumeralValue(a), |front|);
    }
  }

  lemma {:induction false} NumeralBound(s: string)
    requires AllDigits(s)
    ensures NumeralValue(s) < Pow10(|s|)
  {
    if s != "" {
      NumeralBound(s[..|s| - 1]);
    }
  }

  lemma ZeroDigitsValue(n: nat)
    ensures NumeralValue(ZeroDigits(n)) == 0
  {
    if n > 0 {
      ZeroDigitsValue(n - 1);
      assert ZeroDigits(n)[..n - 1] == ZeroDigits(n - 1);
    }
  }

  lemma {:induction false} NumeralWidth(n: nat, width: nat)
    requires width >= 1 && n < Pow10(width)
    ensures |Numeral(n)| <= width
  {
    assert Pow10(1) == 10;
    if n >= 10 {
      NumeralWidth(n / 10, width - 1);
    }
  }

  lemma Pow10Sum(a: nat, b: nat)
    ensures Pow10(a + b) == Pow10(a) * Pow10(b)
  {
    if a > 0 {
      Pow10Sum(a - 1, b);
      Associate(10, Pow10(a - 1), Pow10(b));
    }
  }

  // ------------------------------------------------------------------
  // Rounding
  // ------------------------------------------------------------------

  /** The padded fraction is the true fraction cut after decimals + 1 digits. */
  lemma {:induction false} PaddedIsCut(frac: string, decimals: nat)
    requires AllDigits(frac)
    ensures var p, f := NumeralValue(PaddedFraction(frac, decimals)), NumeralValue(frac);
            p * Pow10(|frac|) <= f * Pow10(decimals + 1) < (p + 1) * Pow10(|frac|)
  {
    if |frac| >= decimals + 1 {
      assert frac == frac[..decimals + 1] + frac[decimals + 1..];
      LongFraction(frac[..decimals + 1], frac[decimals + 1..]);
    } else {
      ShortFraction(frac, decimals + 1 - |frac|);
      NextMultiple(NumeralValue(PaddedFraction(frac, decimals)), Pow10(|frac|));
    }
  }

  lemma {:induction false} LongFraction(head: string, tail: string)
    requires AllDigits(head) && AllDigits(tail)
    ensures AllDigits(head + tail)
    ensures NumeralValue(head) * Pow10(|head + tail|) <= NumeralValue(head + tail) * Pow10(|head|)
            < (NumeralValue(head) + 1) * Pow10(|head + tail|)
  {
    NumeralConcat(head, tail);
    NumeralBound(tail);
    Pow10Sum(|head|, |tail|);
    CutProduct(NumeralValue(head), NumeralValue(tail), Pow10(|tail|), Pow10(|head|),
               NumeralValue(head + tail), Pow10(|head + tail|));
  }

  lemma {:induction false} FillValue(frac: string, fill: nat)
    requires AllDigits(frac)
    ensures AllDigits(frac + ZeroDigits(fill))
    ensures NumeralValue(frac + ZeroDigits(fill)) == NumeralValue(frac) * Pow10(fill)
  {
    NumeralConcat(frac, ZeroDigits(fill));
    ZeroDigitsValue(fill);
  }

  lemma {:induction false} ShortFraction(frac: string, fill: nat)
    requires AllDigits(frac)
    ensures AllDigits(frac + ZeroDigits(fill))
    ensures NumeralValue(frac + ZeroDigits(fill)) * Pow10(|frac|) == NumeralValue(frac) * Pow10(|frac| + fill)
  {
    if fill == 0 {
      assert frac + ZeroDigits(0) == frac;
    } else {
      ShortFraction(frac, fill - 1);
      var front := frac + ZeroDigits(fill - 1);
      AppendZero(front);
      assert frac + ZeroDigits(fill) == front + "0";
      TenTimes(NumeralValue(frac), |frac| + fill - 1);
      Associate(10, NumeralValue(front), Pow10(|frac|));
    }
  }

  lemma {:induction false} AppendZero(s: string)
    requires AllDigits(s)
    ensures AllDigits(s + "0") && NumeralValue(s + "0") == 10 * NumeralValue(s)
  {
    assert (s + "0")[..|s|] == s;
  }

  lemma TenTimes(a: nat, n: nat)
    ensures a * Pow10(n + 1) == 10 * (a * Pow10(n))
  {
    assert Pow10(n + 1) == 10 * Pow10(n);
    assert a * (10 * Pow10(n)) == 10 * (a * Pow10(n));
  }

  lemma Associate(a: int, b: int, c: int)
    ensures a * b * c == a * (b * c)
  {
  }

  lemma NextMultiple(a: int, unit: int)
    requires unit >= 1
    ensures a * unit < (a + 1) * unit
  {
  }

  lemma CutProduct(h: nat, t: nat, unit: nat, scale: nat, value: nat, u: nat)
    requires t < unit && scale >= 1 && value == h * unit + t && u == scale * unit
    ensures h * u <= value * scale < (h + 1) * u
  {
    assert value * scale == h * u + t * scale by {
      assert (h * unit + t) * scale == h * (scale * unit) + t * scale;
    }
    assert (h + 1) * u == h * u + unit * scale;
    assert 0 <= t * scale < unit * scale;
  }

  /** Halves are rounded up: floor((m + 5) / 10) for a number m of tenths, cut from an exact one. */
  lemma RoundsHalfUp(v: real, scale: real, tenfold: real, m: int, r: int)
    requires tenfold == 10.0 * scale && m as real <= v * tenfold < (m + 1) as real
    requires r == if m % 10 >= 5 then m / 10 + 1 else m / 10
    ensures r == (v * scale + 0.5).Floor
  {
    var x := v * scale;
    assert v * tenfold == 10.0 * x;
    assert 10 * r - 5 <= m && m + 1 <= 10 * r + 5;
    assert r as real <= x + 0.5 < (r + 1) as real;
  }

  lemma ProductAsReal(a: int, b: int)
    ensures (a * b) as real == a as real * b as real
  {
  }

  lemma ScaleReals(n: real, u: real, s: real, m: real, m1: real, v: real)
    requires u > 0.0 && v * u == n && m * u <= n * s < m1 * u
    ensures m <= v * s < m1
  {
    assert v * s * u == v * u * s;
    OrderByScale(m, v * s, u);
    StrictOrderByScale(v * s, m1, u);
  }

  lemma ScaleToReal(n: nat, unit: nat, scale: nat, m: nat, v: real)
    requires unit >= 1 && v == n as real / unit as real
    requires m * unit <= n * scale < (m + 1) * unit
    ensures m as real <= v * scale as real < (m + 1) as real
  {
    ProductAsReal(m, unit);
    ProductAsReal(n, scale);
    ProductAsReal(m + 1, unit);
    QuotientTimes(n as real, unit as real);
    ScaleReals(n as real, unit as real, scale as real, m as real, (m + 1) as real, v);
  }

  lemma QuotientTimes(a: real, b: real)
    requires b != 0.0
    ensures a / b * b == a
  {
  }

  lemma OrderByScale(a: real, b: real, u: real)
    requires u > 0.0 && a * u <= b * u
    ensures a <= b
  {
    assert (b - a) * u >= 0.0;
  }

  lemma StrictOrderByScale(a: real, b: real, u: real)
    requires u > 0.0 && a * u < b * u
    ensures a < b
  {
    assert (b - a) * u > 0.0;
  }

  lemma Combine(w: nat, p: nat, f: nat, u: nat, s: nat, m: nat, n: nat)
    requires p * u <= f * s < (p + 1) * u && m == w * s + p && n == w * u + f
    ensures m * u <= n * s < (m + 1) * u
  {
    assert m * u == w * s * u + p * u;
    assert (m + 1) * u == w * s * u + (p + 1) * u;
    assert n * s == w * u * s + f * s;
    assert w * s * u == w * u * s;
  }

  lemma {:induction false} LastDigit(s: string)
    requires AllDigits(s) && s != ""
    ensures NumeralValue(s) % 10 == DigitValue(s[|s| - 1])
  {
  }

  lemma TenfoldScale(w: nat, decimals: nat)
    ensures Scaled(w, decimals + 1) == 10 * Scaled(w, decimals)
  {
    assert Pow10(decimals + 1) == 10 * Pow10(decimals);
    assert w * (10 * Pow10(decimals)) == 10 * (w * Pow10(decimals));
  }

  /** A number of tenths rounded to the nearest unit, halves up. */
  function RoundTenths(m: nat): nat {
    if m % 10 >= 5 then m / 10 + 1 else m / 10
  }

  /** The digits kept by the parser count m tenths of a stroop, cut from the exact amount, and round to its result. */
  lemma TenthsOf(whole: string, frac: string, decimals: nat) returns (m: nat)
    requires AllDigits(whole) && AllDigits(frac)
    ensures AllDigits(whole + frac)
    ensures m * Pow10(|frac|) <= NumeralValue(whole + frac) * Pow10(decimals + 1) < (m + 1) * Pow10(|frac|)
    ensures Scaled(NumeralValue(whole), decimals) + RoundedFraction(PaddedFraction(frac, decimals), decimals)
            == RoundTenths(m)
  {
    var w, p := NumeralValue(whole), NumeralValue(PaddedFraction(frac, decimals));
    m := Scaled(w, decimals + 1) + p;
    NumeralConcat(whole, frac);
    PaddedIsCut(frac, decimals);
    Combine(w, p, NumeralValue(frac), Pow10(|frac|), Pow10(decimals + 1), m, NumeralValue(whole + frac));
    TenfoldScale(w, decimals);
    LastDigit(PaddedFraction(frac, decimals));
    RoundSplit(Scaled(w, decimals), p);
  }

  lemma RoundSplit(w: nat, p: nat)
    ensures RoundTenths(10 * w + p) == w + RoundTenths(p)
  {
  }

  /** floor(v * scale + 1/2). */
  ghost function HalfUp(v: real, scale: nat): int {
    (v * scale as real + 0.5).Floor
  }

  lemma HalfUpOfCut(n: nat, unit: nat, tens: nat, ones: nat, m: nat, v: real)
    requires unit >= 1 && v == n as real / unit as real && tens == 10 * ones
    requires m * unit <= n * tens < (m + 1) * unit
    ensures RoundTenths(m) == HalfUp(v, ones)
  {
    ScaleToReal(n, unit, tens, m, v);
    RoundsHalfUp(v, ones as real, tens as real, m, RoundTenths(m));
  }

  /** Parsing gives the exact value in stroops rounded half up, carries into the whole part included. */
  lemma {:induction false} ParseRoundsHalfUp(amount: string, decimals: Decimals)
    requires IsAmount(amount)
    ensures ToStroops(amount, decimals).Ok?
    ensures ToStroops(amount, decimals).value == HalfUp(AmountValue(amount), Pow10(decimals))
  {
    var whole, frac := WholePart(amount), FractionPart(amount);
    var m := TenthsOf(whole, frac, decimals);
    HalfUpOfCut(NumeralValue(whole + frac), Pow10(|frac|), Pow10(decimals + 1), Pow10(decimals), m,
                AmountValue(amount));
    assert ToStroops(amount, decimals).value == RoundTenths(m);
  }

  // ------------------------------------------------------------------
  // Round trips
  // ------------------------------------------------------------------

  lemma {:induction false} TrimZerosValue(s: string)
    requires AllDigits(s) && s != ""
    ensures AllDigits(TrimZeros(s)) && 1 <= |TrimZeros(s)| <= |s|
    ensures NumeralValue(TrimZeros(s)) * Pow10(|s| - |TrimZeros(s)|) == NumeralValue(s)
  {
    if |s| > 1 && s[|s| - 1] == '0' {
      var front := s[..|s| - 1];
      TrimZerosValue(front);
      var t := TrimZeros(front);
      TenTimes(NumeralValue(t), |front| - |t|);
    }
  }

  lemma {:induction false} LeadingZeroDigits(n: nat, s: string)
    requires AllDigits(s)
    ensures AllDigits(ZeroDigits(n) + s) && NumeralValue(ZeroDigits(n) + s) == NumeralValue(s)
  {
    if s == "" {
      ZeroDigitsValue(n);
      assert ZeroDigits(n) + s == ZeroDigits(n);
    } else {
      LeadingZeroDigits(n, s[..|s| - 1]);
      assert (ZeroDigits(n) + s)[..n + |s| - 1] == ZeroDigits(n) + s[..|s| - 1];
    }
  }

  lemma {:induction false} PadStartValue(s: string, width: nat)
    requires AllDigits(s) && |s| <= width
    ensures |PadStart(s, width)| == width && AllDigits(PadStart(s, width))
    ensures NumeralValue(PadStart(s, width)) == NumeralValue(s)
  {
    if |s| < width {
      LeadingZeroDigits(width - |s|, s);
    }
  }

  lemma PaddedDigits(rem: nat, decimals: nat) returns (digits: string)
    requires decimals >= 1 && rem < Pow10(decimals)
    ensures digits == PadStart(Numeral(rem), decimals)
    ensures |digits| == decimals && AllDigits(digits) && NumeralValue(digits) == rem
  {
    var numeral := Numeral(rem);
    NumeralWidth(rem, decimals);
    NumeralRoundTrip(rem);
    PadStartValue(numeral, decimals);
    digits := PadStart(numeral, decimals);
  }

  lemma FilledFraction(frac: string, width: nat) returns (p: string)
    requires AllDigits(frac) && |frac| <= width
    ensures p == PaddedFraction(frac, width) && p[width] == '0'
    ensures NumeralValue(p) == 10 * (NumeralValue(frac) * Pow10(width - |frac|))
  {
    var fill: nat := width - |frac|;
    FillValue(frac, fill + 1);
    TenTimes(NumeralValue(frac), fill);
    p := frac + ZeroDigits(fill + 1);
    assert p[width] == ZeroDigits(fill + 1)[fill];
  }

  lemma {:induction false} RefillZeros(digits: string)
    requires AllDigits(digits) && digits != ""
    ensures var frac := TrimZeros(digits);
            AllDigits(frac) && PaddedFraction(frac, |digits|)[|digits|] == '0'
            && NumeralValue(PaddedFraction(frac, |digits|)) == 10 * NumeralValue(digits)
  {
    var frac := TrimZeros(digits);
    TrimZerosValue(digits);
    var p := FilledFraction(frac, |digits|);
  }

  /** The printed fraction, padded for parsing again, is the remainder followed by a zero. */
  lemma {:induction false} PrintedFraction(rem: nat, decimals: nat)
    requires rem < Pow10(decimals)
    ensures var frac := TrimZeros(PadStart(Numeral(rem), decimals));
            AllDigits(frac) && RoundedFraction(PaddedFraction(frac, decimals), decimals) == rem
  {
    if decimals == 0 {
      assert Numeral(rem) == "0" && TrimZeros("0") == "0";
      assert PaddedFraction("0", 0) == "0";
      assert NumeralValue("0") == 10 * NumeralValue("0"[..0]) + 0;
      assert "0"[..0] == "";
    } else {
      var digits := PaddedDigits(rem, decimals);
      RefillZeros(digits);
    }
  }

  lemma SplitAtDot(whole: string, frac: string)
    requires AllDigits(whole) && AllDigits(frac)
    ensures WholePart(whole + "." + frac) == whole && FractionPart(whole + "." + frac) == frac
  {
    var s := whole + "." + frac;
    var i := FirstDot(s);
    assert s[|whole|] == '.';
    assert forall j :: 0 <= j < |whole| ==> s[j] == whole[j] && s[j] != '.';
    assert forall j :: 0 <= j < i ==> s[j] == s[..i][j] && s[j] != '.';
    assert i == |whole|;
  }

  lemma Recompose(n: nat, factor: nat, whole: nat, rem: nat)
    requires factor >= 1 && whole == n / factor && rem == n % factor
    ensures whole * factor + rem == n
  {
  }

  lemma {:induction false} ParseParts(whole: string, frac: string, decimals: Decimals)
    requires whole != "" && AllDigits(whole) && AllDigits(frac)
    ensures ToStroops(whole + "." + frac, decimals) ==
            Ok(Scaled(NumeralValue(whole), decimals) + RoundedFraction(PaddedFraction(frac, decimals), decimals))
  {
    SplitAtDot(whole, frac);
  }

  lemma {:induction false} DisplayParts(n: nat, decimals: Decimals)
    ensures Display(n, decimals) ==
            WholeText(n, Pow10(decimals)) + "." + FractionText(n, Pow10(decimals), decimals)
  {
    assert "" + WholeText(n, Pow10(decimals)) == WholeText(n, Pow10(decimals));
  }

  /** Parsing what was printed gives the amount back, for every non-negative amount. */
  lemma PrintThenParse(n: nat, decimals: Decimals)
    ensures ToStroops(Display(n, decimals), decimals) == Ok(n)
  {
    var factor := Pow10(decimals);
    var whole, frac := WholeText(n, factor), FractionText(n, factor, decimals);
    PrintedFraction(n % factor, decimals);
    DisplayParts(n, decimals);
    ParseParts(whole, frac, decimals);
    NumeralRoundTrip(n / factor);
    Recompose(n, factor, n / factor, n % factor);
  }

  /** Exactly the non-negative amounts print to something the parser accepts. */
  lemma PrintedAccepted(n: int, decimals: Decimals)
    ensures ToStroops(Display(n, decimals), decimals).Ok? <==> n >= 0
  {
    if n >= 0 {
      PrintThenParse(n, decimals);
    } else {
      var s := Display(n, decimals);
      assert s[0] == '-';
      assert FirstDot(s) > 0;
      assert WholePart(s)[0] == '-';
    }
  }

  /** Printing after parsing settles at once: a second parse and print change nothing. */
  lemma PrintAfterParseIdempotent(amount: string, decimals: Decimals)
    requires IsAmount(amount)
    ensures var printed := Display(ToStroops(amount, decimals).value, decimals);
            ToStroops(printed, decimals) == ToStroops(amount, decimals)
            && Display(ToStroops(printed, decimals).value, decimals) == printed
  {
    PrintThenParse(ToStroops(amount, decimals).value, decimals);
  }

  // ------------------------------------------------------------------
  // The two formats
  // ------------------------------------------------------------------

  /** s is digits, or digits, a dot and digits, with a digit somewhere. */
  ghost predicate Accepted(s: string) {
    || (s != "" && AllDigits(s))
    || exists whole, frac :: Dotted(s, whole, frac)
  }

  predicate Dotted(s: string, whole: string, frac: string) {
    AllDigits(whole) && AllDigits(frac) && whole + frac != "" && s == whole + "." + frac
  }

  lemma {:induction false} NoDot(s: string)
    requires AllDigits(s)
    ensures FirstDot(s) == |s| && WholePart(s) == s && FractionPart(s) == ""
  {
  }

  lemma {:induction false} DotAfter(s: string, whole: string, frac: string)
    requires AllDigits(whole) && s == whole + "." + frac
    ensures FirstDot(s) == |whole| && WholePart(s) == whole && FractionPart(s) == frac
  {
    var i := FirstDot(s);
    assert s[|whole|] == '.' && s[..|s|] == s;
    assert s == s[..i] + ['.'] + s[i + 1..];
    SplitAtFirst('.', s[..i], s[i + 1..], whole, frac);
  }

  /** Exactly those texts are parsed. */
  lemma ParsedExactly(s: string, decimals: Decimals)
    ensures ToStroops(s, decimals).Ok? <==> Accepted(s)
    ensures ToStroops(s, decimals).Err? ==> ToStroops(s, decimals).error == InvalidAmount
  {
    if IsAmount(s) {
      var i := FirstDot(s);
      if i == |s| {
        assert s == WholePart(s);
      } else {
        assert s == s[..i] + "." + s[i + 1..];
        assert WholePart(s) + FractionPart(s) == "" ==> s == ".";
        assert Dotted(s, WholePart(s), FractionPart(s));
      }
    }
    if s != "" && AllDigits(s) {
      NoDot(s);
    } else if Accepted(s) {
      var whole, frac :| Dotted(s, whole, frac);
      DotAfter(s, whole, frac);
      assert |s| == |whole + frac| + 1;
    }
  }

  lemma {:induction false} TrimmedForm(s: string)
    requires s != "" && AllDigits(s)
    ensures TrimZeros(s) != "" && AllDigits(TrimZeros(s))
    ensures |TrimZeros(s)| > 1 ==> TrimZeros(s)[|TrimZeros(s)| - 1] != '0'
  {
    if |s| > 1 && s[|s| - 1] == '0' {
      TrimmedForm(s[..|s| - 1]);
    }
  }

  lemma Prefixed(a: string, b: string)
    ensures "" + a + "." + b == a + "." + b && "-" + a + "." + b == "-" + (a + "." + b)
  {
  }

  lemma FractionForm(n: nat, factor: nat, decimals: nat)
    requires factor >= 1
    ensures var frac := FractionText(n, factor, decimals);
            frac != "" && AllDigits(frac) && (|frac| > 1 ==> frac[|frac| - 1] != '0')
  {
    var padded := PadStart(Numeral(n % factor), decimals);
    assert padded != "" && AllDigits(padded);
    TrimmedForm(padded);
  }

  /** A printed amount is the whole units, a dot and at least one digit, with no trailing zero beyond the first. */
  lemma PrintedForm(n: nat, decimals: Decimals) returns (whole: string, frac: string)
    ensures Display(n, decimals) == whole + "." + frac && AllDigits(whole) && AllDigits(frac)
    ensures NumeralValue(whole) == n / Pow10(decimals) && whole != "" && (|whole| > 1 ==> whole[0] != '0')
    ensures frac != "" && (|frac| > 1 ==> frac[|frac| - 1] != '0')
  {
    whole, frac := WholeText(n, Pow10(decimals)), FractionText(n, Pow10(decimals), decimals);
    Prefixed(whole, frac);
    FractionForm(n, Pow10(decimals), decimals);
    WholeValue(n, Pow10(decimals));
  }

  lemma WholeValue(n: nat, factor: nat)
    requires factor >= 1
    ensures NumeralValue(WholeText(n, factor)) == n / factor
    ensures |WholeText(n, factor)| > 1 ==> WholeText(n, factor)[0] != '0'
  {
    NumeralRoundTrip(n / factor);
    NoLeadingZero(n / factor);
  }

  lemma {:induction false} NoLeadingZero(n: nat)
    ensures |Numeral(n)| > 1 ==> Numeral(n)[0] != '0'
    ensures n > 0 ==> Numeral(n)[0] != '0'
  {
    if n >= 10 {
      NoLeadingZero(n / 10);
    }
  }

  /** A negative amount is printed without its sign, after a minus sign. */
  lemma SignPrinted(stroops: int, decimals: Decimals)
    requires stroops < 0
    ensures Display(stroops, decimals) == "-" + Display(-stroops, decimals)
  {
    var n: nat := -stroops;
    Prefixed(WholeText(n, Pow10(decimals)), FractionText(n, Pow10(decimals), decimals));
  }

  // ------------------------------------------------------------------
  // Rates
  // ------------------------------------------------------------------

  function RoundedQuotient(s: nat, d: nat): nat
    requires d > 0
  {
    var quotient := s / d;
    var remainder := s - quotient * d;
    if remainder * 2 >= d then quotient + 1 else quotient
  }

  function CalculateRate(depositAmount: string, durationSecs: int, decimals: Decimals): Result<nat, AmountError> {
    if durationSecs <= 0 then Err(InvalidDuration)
    else
      match ToStroops(depositAmount, decimals)
      case Err(e) => Err(e)
      case Ok(stroops) => Ok(RoundedQuotient(stroops, durationSecs))
  }

  lemma QuotientRoundsHalfUp(s: nat, d: nat)
    requires d > 0
    ensures 0 < 2 * (RoundedQuotient(s, d) * d - s) + d <= 2 * d
  {
    var q := s / d;
    assert q * d <= s < q * d + d;
    assert (q + 1) * d == q * d + d;
  }

  /** The rate is the deposit per second rounded half up: it misses the deposit by at most half a stroop a second. */
  lemma RateRoundsHalfUp(depositAmount: string, durationSecs: int, decimals: Decimals)
    requires durationSecs > 0 && IsAmount(depositAmount)
    ensures var r, s := CalculateRate(depositAmount, durationSecs, decimals), ToStroops(depositAmount, decimals).value;
            r.Ok? && 0 < 2 * (r.value * durationSecs - s) + durationSecs <= 2 * durationSecs
  {
    QuotientRoundsHalfUp(ToStroops(depositAmount, decimals).value, durationSecs);
  }

  /** A rate is given exactly for a positive duration and an accepted amount; the duration is checked first. */
  lemma RatedExactly(depositAmount: string, durationSecs: int, decimals: Decimals)
    ensures CalculateRate(depositAmount, durationSecs, decimals).Ok? <==> durationSecs > 0 && Accepted(depositAmount)
    ensures CalculateRate(depositAmount, durationSecs, decimals) == Err(InvalidDuration) <==> durationSecs <= 0
  {
    ParsedExactly(depositAmount, decimals);
  }

  /** A whole number of units is that many times ten million stroops. */
  lemma {:induction false} WholeUnits(n: nat)
    ensures ToStroops(Numeral(n), 7) == Ok(n * 10_000_000)
  {
    var s := Numeral(n);
    NumeralRoundTrip(n);
    assert FirstDot(s) == |s| && WholePart(s) == s && FractionPart(s) == "";
    ZeroDigitsValue(8);
    assert PaddedFraction("", 7) == ZeroDigits(8) && RoundedFraction(ZeroDigits(8), 7) == 0;
    assert Pow10(7) == 10_000_000;
  }

  lemma SpelledOut()
    ensures Numeral(3600) == "3600" && Numeral(100) == "100"
  {
    assert Numeral(3) == "3" && Numeral(1) == "1";
    assert Numeral(36) == "36" && Numeral(10) == "10";
    assert Numeral(360) == "360";
  }

  /**
   * Both documented examples: 3600 units over a year give 1142 where the
   * documentation says 1141, and 100 units over 30 days give 386, not 3858.
   */
  lemma DocumentedRatesDiffer()
    ensures CalculateRate("3600", 31_536_000, 7) == Ok(1142)
    ensures CalculateRate("100", 2_592_000, 7) == Ok(386)
  {
    WholeUnits(3600);
    WholeUnits(100);
    SpelledOut();
  }
}
