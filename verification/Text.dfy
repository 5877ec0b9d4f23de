/**
 * Facts about separators in strings and about decimal numerals, used for
 * every composite cache key and for money parsing.
 */
module Text {
  /** Words before the first separator are determined by the whole string. */
  lemma SplitAtFirst(sep: char, a: string, x: string, b: string, y: string)
    requires sep !in a && sep !in b
    requires a + [sep] + x == b + [sep] + y
    ensures a == b && x == y
  {
    var s, t := a + [sep] + x, b + [sep] + y;
    assert s[|a|] == sep && t[|b|] == sep;
    assert forall i :: 0 <= i < |a| ==> s[i] == a[i] && s[i] != sep;
    assert forall i :: 0 <= i < |b| ==> t[i] == b[i] && t[i] != sep;
    assert |a| == |b|;
    assert a == s[..|a|] && b == s[..|a|];
    assert x == s[|a| + 1..] && y == s[|a| + 1..];
  }

  /** Words after the last separator are determined by the whole string. */
  lemma SplitAtLast(sep: char, a: string, x: string, b: string, y: string)
    requires sep !in x && sep !in y
    requires a + [sep] + x == b + [sep] + y
    ensures a == b && x == y
  {
    var s, t := a + [sep] + x, b + [sep] + y;
    assert s[|a|] == sep && t[|b|] == sep;
    assert forall i :: |a| < i < |s| ==> s[i] == x[i - |a| - 1] && s[i] != sep;
    assert forall i :: |b| < i < |t| ==> t[i] == y[i - |b| - 1] && t[i] != sep;
    assert |a| == |b|;
    assert a == s[..|a|] && b == s[..|a|];
    assert x == s[|a| + 1..] && y == s[|a| + 1..];
  }

  predicate IsDigit(c: char) { '0' <= c <= '9' }

  predicate AllDigits(s: string) { forall i :: 0 <= i < |s| ==> IsDigit(s[i]) }

  function DigitValue(c: char): (v: nat)
    requires IsDigit(c)
    ensures v <= 9
  {
    c as int - '0' as int
  }

  function DigitChar(v: nat): (c: char)
    requires v <= 9
    ensures IsDigit(c) && DigitValue(c) == v
  {
    (v + '0' as int) as char
  }

  /** The number a run of digits denotes; the empty run denotes 0, as BigInt('') does. */
  function NumeralValue(s: string): nat
    requires AllDigits(s)
  {
    if s == "" then 0 else 10 * NumeralValue(s[..|s| - 1]) + DigitValue(s[|s| - 1])
  }

  /** BigInt.toString for a non-negative value. */
  function Numeral(n: nat): (s: string)
    ensures s != "" && AllDigits(s)
  {
    if n < 10 then [DigitChar(n)] else Numeral(n / 10) + [DigitChar(n % 10)]
  }

  /** toString of an integer: a minus sign for negative values. */
  function IntNumeral(n: int): (s: string)
    ensures s != ""
  {
    if n < 0 then "-" + Numeral(-n) else Numeral(n)
  }

  lemma {:induction false} NumeralRoundTrip(n: nat)
    ensures NumeralValue(Numeral(n)) == n
  {
    if n >= 10 {
      NumeralRoundTrip(n / 10);
      var s := Numeral(n);
      assert s[..|s| - 1] == Numeral(n / 10);
    } else {
      assert NumeralValue([DigitChar(n)]) == 10 * NumeralValue("") + n;
    }
  }

  lemma IntNumeralInjective(a: int, b: int)
    requires IntNumeral(a) == IntNumeral(b)
    ensures a == b
  {
    if a < 0 {
      if b >= 0 {
        assert Numeral(b)[0] == '-';
        assert false;
      }
      assert IntNumeral(a)[1..] == Numeral(-a) && IntNumeral(b)[1..] == Numeral(-b);
      NumeralRoundTrip(-a);
      NumeralRoundTrip(-b);
    } else {
      if b < 0 {
        assert Numeral(a)[0] == '-';
        assert false;
      }
      NumeralRoundTrip(a);
      NumeralRoundTrip(b);
    }
  }

  /** A printed integer contains no character other than digits and a leading minus sign. */
  lemma IntNumeralHasNo(n: int, c: char)
    requires !IsDigit(c) && c != '-'
    ensures c !in IntNumeral(n)
  {
  }
}
