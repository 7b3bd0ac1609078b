/**
 * Python's `str(n)` for integers and `int(s)` for decimal text.
 * `int(s)` is modelled for ASCII digits with an optional sign and surrounding whitespace.
 */
module Decimal {
  import opened Wrappers
  import opened Strings

  predicate IsDigit(c: char) {
    '0' <= c <= '9'
  }

  predicate AllDigits(s: string) {
    forall i :: 0 <= i < |s| ==> IsDigit(s[i])
  }

  function DigitChar(d: nat): (c: char)
    requires d < 10
    ensures IsDigit(c) && c as int - '0' as int == d
  {
    ('0' as int + d) as char
  }

  /** `str(n)` for a natural number: the shortest decimal digits of `n`. */
  function NatToString(n: nat): (s: string)
    ensures |s| >= 1 && AllDigits(s)
    ensures n >= 10 ==> |s| >= 2
    ensures s[0] != '0' || n == 0
  {
    if n < 10 then [DigitChar(n)] else NatToString(n / 10) + [DigitChar(n % 10)]
  }

  /** `str(i)` for any integer. */
  function IntToString(i: int): (s: string)
    ensures |s| >= 1 && !IsSpace(s[0]) && !IsSpace(s[|s| - 1])
  {
    if i < 0 then "-" + NatToString(-i) else NatToString(i)
  }

  /** The number that a run of decimal digits denotes. */
  function DigitsValue(s: string): nat
    requires AllDigits(s)
  {
    if |s| == 0 then 0 else DigitsValue(s[..|s| - 1]) * 10 + (s[|s| - 1] as int - '0' as int)
  }

  /** `int(s)`: surrounding whitespace, an optional '+' or '-', then at least one digit; anything else raises ValueError (None here). */
  function ParseInt(s: string): (r: Option<int>)
    ensures r.Some? ==> exists t :: |t| >= 1 && AllDigits(t) && (Strip(s) == t || Strip(s) == "+" + t || Strip(s) == "-" + t)
  {
    var t := Strip(s);
    if |t| >= 2 && (t[0] == '-' || t[0] == '+') && AllDigits(t[1..]) then
      assert t == [t[0]] + t[1..];
      var v: int := DigitsValue(t[1..]);
      Some(if t[0] == '-' then -v else v)
    else if |t| >= 1 && AllDigits(t) then Some(DigitsValue(t))
    else None
  }

  lemma {:induction false} DigitsOfNat(n: nat)
    ensures DigitsValue(NatToString(n)) == n
  {
    if n >= 10 {
      var s := NatToString(n);
      assert s[..|s| - 1] == NatToString(n / 10);
      DigitsOfNat(n / 10);
    }
  }

  /** `str(i)` has no surrounding whitespace to strip. */
  lemma StripIntToString(i: int)
    ensures Strip(IntToString(i)) == IntToString(i)
  {
    var s := IntToString(i);
    StripFramed("", s, "");
    assert "" + s + "" == s;
  }

  /** Unsigned digits parse as their value. */
  lemma ParseDigits(d: string)
    requires |d| >= 1 && AllDigits(d) && Strip(d) == d
    ensures ParseInt(d) == Some(DigitsValue(d))
  {
    assert IsDigit(d[0]);
  }

  /** A minus sign before digits parses as the negated value. */
  lemma ParseNegative(d: string)
    requires |d| >= 1 && AllDigits(d) && Strip("-" + d) == "-" + d
    ensures ParseInt("-" + d) == Some(-(DigitsValue(d) as int))
  {
    var t := "-" + d;
    assert t[0] == '-' && t[1..] == d;
  }

  /** `int(str(i)) == i`. */
  lemma IntRoundTrip(i: int)
    ensures ParseInt(IntToString(i)) == Some(i)
  {
    StripIntToString(i);
    if i < 0 {
      var d := NatToString(-i);
      assert IntToString(i) == "-" + d;
      ParseNegative(d);
      DigitsOfNat(-i);
      assert DigitsValue(d) as int == -i;
    } else {
      var d := NatToString(i);
      assert IntToString(i) == d;
      ParseDigits(d);
      DigitsOfNat(i);
      assert DigitsValue(d) as int == i;
    }
  }

  /** Distinct numbers have distinct decimal texts. */
  lemma NatToStringInjective(a: nat, b: nat)
    requires NatToString(a) == NatToString(b)
    ensures a == b
  {
    DigitsOfNat(a);
    DigitsOfNat(b);
  }
}
