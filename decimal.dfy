/**
 * Decimal text of the numbers the dashboard writes into keys, URLs and files.
 *
 * Geographic coordinates are carried as integers in units of 1e-5 degree
 * ("E5" values), the precision the route cache rounds to. `Fixed5` is
 * JavaScript's `toFixed(5)` of such a value; `Plain` is its default
 * number-to-string conversion, which drops trailing zeros of the fraction.
 */
module Decimal {
  import opened Strings

  predicate IsDigit(c: char)
  {
    '0' <= c <= '9'
  }

  predicate AllDigits(s: string)
  {
    forall i :: 0 <= i < |s| ==> IsDigit(s[i])
  }

  function DigitChar(d: nat): (c: char)
    requires d < 10
    ensures IsDigit(c)
  {
    ('0' as int + d) as char
  }

  /** Decimal digits of a natural number, without leading zeros. */
  function NatText(n: nat): (r: string)
    ensures |r| >= 1
    decreases n
  {
    if n < 10 then [DigitChar(n)] else NatText(n / 10) + [DigitChar(n % 10)]
  }

  lemma {:induction false} NatTextDigits(n: nat)
    ensures AllDigits(NatText(n))
    decreases n
  {
    if n >= 10 {
      NatTextDigits(n / 10);
    }
  }

  /** The value a string of digits denotes. */
  function DigitsValue(s: string): int
  {
    if s == [] then 0 else DigitsValue(s[..|s| - 1]) * 10 + (s[|s| - 1] as int - '0' as int)
  }

  lemma {:induction false} NatTextValue(n: nat)
    ensures DigitsValue(NatText(n)) == n
    decreases n
  {
    if n >= 10 {
      var t := NatText(n);
      assert t[..|t| - 1] == NatText(n / 10);
      NatTextValue(n / 10);
    }
  }

  /** Distinct numbers have distinct digit strings. */
  lemma NatTextInjective(a: nat, b: nat)
    requires NatText(a) == NatText(b)
    ensures a == b
  {
    NatTextValue(a);
    NatTextValue(b);
  }

  function Pow10(n: nat): (r: nat)
    ensures r >= 1
  {
    if n == 0 then 1 else 10 * Pow10(n - 1)
  }

  /** The last `n` decimal digits of `f`, with leading zeros. */
  function PadDigits(f: nat, n: nat): (r: string)
    ensures |r| == n
  {
    if n == 0 then [] else PadDigits(f / 10, n - 1) + [DigitChar(f % 10)]
  }

  lemma {:induction false} PadDigitsDigits(f: nat, n: nat)
    ensures AllDigits(PadDigits(f, n))
  {
    if n > 0 {
      PadDigitsDigits(f / 10, n - 1);
    }
  }

  lemma {:induction false} PadDigitsValue(f: nat, n: nat)
    requires f < Pow10(n)
    ensures DigitsValue(PadDigits(f, n)) == f
  {
    if n > 0 {
      var t := PadDigits(f, n);
      assert t[..|t| - 1] == PadDigits(f / 10, n - 1);
      PadDigitsValue(f / 10, n - 1);
    }
  }

  /** The five fraction digits of a value below 100000, with leading zeros. */
  function Pad5(f: nat): (r: string)
    requires f < 100000
    ensures |r| == 5
  {
    PadDigits(f, 5)
  }

  lemma Pad5Injective(f: nat, g: nat)
    requires f < 100000 && g < 100000
    requires Pad5(f) == Pad5(g)
    ensures f == g
  {
    assert Pow10(5) == 100000;
    PadDigitsValue(f, 5);
    PadDigitsValue(g, 5);
  }

  function Abs(k: int): nat
  {
    if k < 0 then -k else k
  }

  function Sign(k: int): string
  {
    if k < 0 then "-" else ""
  }

  /** `(k / 1e5).toFixed(5)`. */
  function Fixed5(k: int): (r: string)
    ensures |r| >= 7
  {
    Sign(k) + NatText(Abs(k) / 100000) + "." + Pad5(Abs(k) % 100000)
  }

  /** Removes trailing `'0'` characters. */
  function StripZeros(s: string): (r: string)
    ensures |r| <= |s| && r == s[..|r|]
    ensures r != [] ==> r[|r| - 1] != '0'
  {
    if s != [] && s[|s| - 1] == '0' then StripZeros(s[..|s| - 1]) else s
  }

  /** Default number-to-string conversion of `k / 1e5`. */
  function Plain(k: int): (r: string)
    ensures |r| >= 1
  {
    var frac := StripZeros(Pad5(Abs(k) % 100000));
    Sign(k) + NatText(Abs(k) / 100000) + (if frac == "" then "" else "." + frac)
  }

  /** Number text never contains list or pair separators. */
  lemma PlainCharacters(k: int)
    ensures forall i :: 0 <= i < |Plain(k)| ==> Plain(k)[i] == '-' || Plain(k)[i] == '.' || IsDigit(Plain(k)[i])
  {
    var frac := StripZeros(Pad5(Abs(k) % 100000));
    var pad := Pad5(Abs(k) % 100000);
    NatTextDigits(Abs(k) / 100000);
    PadDigitsDigits(Abs(k) % 100000, 5);
    assert AllDigits(frac) by {
      forall i | 0 <= i < |frac| ensures IsDigit(frac[i]) {
        assert frac[i] == pad[i];
      }
    }
  }

  lemma Fixed5Characters(k: int)
    ensures forall i :: 0 <= i < |Fixed5(k)| ==> Fixed5(k)[i] == '-' || Fixed5(k)[i] == '.' || IsDigit(Fixed5(k)[i])
  {
    NatTextDigits(Abs(k) / 100000);
    PadDigitsDigits(Abs(k) % 100000, 5);
  }

  /** The unsigned part of `toFixed(5)`: integer digits, a point, five fraction digits. */
  function Magnitude5(k: int): string
  {
    NatText(Abs(k) / 100000) + "." + Pad5(Abs(k) % 100000)
  }

  /** The text is the sign followed by the magnitude, which starts with a digit. */
  lemma Fixed5Parts(k: int)
    ensures Fixed5(k) == Sign(k) + Magnitude5(k)
    ensures IsDigit(Magnitude5(k)[0])
    ensures Fixed5(k)[0] == '-' <==> k < 0
  {
    NatTextDigits(Abs(k) / 100000);
    assert Magnitude5(k)[0] == NatText(Abs(k) / 100000)[0];
  }

  /** `toFixed(5)` text determines the value: distinct E5 values render differently. */
  lemma Fixed5Injective(a: int, b: int)
    requires Fixed5(a) == Fixed5(b)
    ensures a == b
  {
    Fixed5Parts(a);
    Fixed5Parts(b);
    var sg := Sign(a);
    assert Sign(b) == sg;
    assert Magnitude5(a) == Fixed5(a)[|sg|..] == Fixed5(b)[|sg|..] == Magnitude5(b);
    var na, nb := NatText(Abs(a) / 100000), NatText(Abs(b) / 100000);
    NatTextDigits(Abs(a) / 100000);
    NatTextDigits(Abs(b) / 100000);
    assert '.' !in na && '.' !in nb;
    SeparatorSplit(na, Pad5(Abs(a) % 100000), nb, Pad5(Abs(b) % 100000), '.');
    NatTextInjective(Abs(a) / 100000, Abs(b) / 100000);
    Pad5Injective(Abs(a) % 100000, Abs(b) % 100000);
  }
}
