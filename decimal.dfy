/** Decimal rendering of integers, as Python's `str(int)` (and therefore an
    f-string such as `f"{left}"`) produces it: an optional minus sign followed
    by the digits of the magnitude, with no leading zeros and no sign on zero.
    `ParseInt` is the matching reader, and the two are proved to be inverse on
    exactly the canonical renderings. */
module Decimal {
  import opened Options

  predicate IsDigit(c: char) {
    '0' <= c <= '9'
  }

  predicate AllDigits(s: string) {
    forall i :: 0 <= i < |s| ==> IsDigit(s[i])
  }

  /** A canonical unsigned numeral: at least one digit, no leading zero
      unless the numeral is "0" itself. */
  predicate IsCanonicalNat(s: string) {
    |s| >= 1 && AllDigits(s) && (s[0] == '0' ==> |s| == 1)
  }

  /** A canonical signed numeral: a canonical unsigned one, or a minus sign
      followed by a canonical unsigned numeral other than "0". */
  predicate IsCanonicalInt(s: string) {
    IsCanonicalNat(s) || (|s| >= 2 && s[0] == '-' && IsCanonicalNat(s[1..]) && s[1] != '0')
  }

  function DigitChar(d: nat): (c: char)
    requires d < 10
    ensures IsDigit(c)
  {
    (d + '0' as int) as char
  }

  function DigitValue(c: char): (d: nat)
    requires IsDigit(c)
    ensures d < 10 && DigitChar(d) == c
  {
    c as int - '0' as int
  }

  /** The digits of `n`, most significant first. */
  function NatToString(n: nat): (s: string)
    ensures IsCanonicalNat(s)
    ensures (s[0] == '0') == (n == 0)
    ensures n >= 10 ==> |s| >= 2
  {
    if n < 10 then [DigitChar(n)] else NatToString(n / 10) + [DigitChar(n % 10)]
  }

  /** Python's `str` on an integer. */
  function IntToString(i: int): (s: string)
    ensures IsCanonicalInt(s)
    ensures (|s| >= 1 && s[0] == '-') == (i < 0)
    ensures forall k :: 0 <= k < |s| ==> IsDigit(s[k]) || s[k] == '-'
  {
    if i < 0 then "-" + NatToString(-i) else NatToString(i)
  }

  /** The value of a string of digits, most significant first ("" reads as 0). */
  function ParseDigits(s: string): nat
    requires AllDigits(s)
  {
    if s == [] then 0 else 10 * ParseDigits(s[..|s| - 1]) + DigitValue(s[|s| - 1])
  }

  /** Reads back a canonical signed numeral; anything else is rejected. */
  function ParseInt(s: string): Option<int> {
    if !IsCanonicalInt(s) then None
    else if s[0] == '-' then Some(-(ParseDigits(s[1..]) as int))
    else Some(ParseDigits(s))
  }

  lemma {:induction false} ParseNatToString(n: nat)
    ensures ParseDigits(NatToString(n)) == n
  {
    var s := NatToString(n);
    if n < 10 {
      assert s[..|s| - 1] == [];
    } else {
      assert s[..|s| - 1] == NatToString(n / 10);
      ParseNatToString(n / 10);
    }
  }

  /** A numeral with a non-zero leading digit denotes a positive number, and
      one of two digits or more denotes at least 10. */
  lemma {:induction false} LeadingDigitPositive(s: string)
    requires |s| >= 1 && AllDigits(s) && s[0] != '0'
    ensures ParseDigits(s) >= 1
    ensures |s| >= 2 ==> ParseDigits(s) >= 10
  {
    if |s| >= 2 {
      var p := s[..|s| - 1];
      assert p[0] == s[0];
      LeadingDigitPositive(p);
    }
  }

  lemma {:induction false} NatToStringOfParse(s: string)
    requires IsCanonicalNat(s)
    ensures NatToString(ParseDigits(s)) == s
  {
    var n := ParseDigits(s);
    if |s| == 1 {
      assert s[..|s| - 1] == [];
      assert ParseDigits(s[..|s| - 1]) == 0;
      assert n == DigitValue(s[0]);
      assert NatToString(n) == [s[0]];
    } else {
      var p, d := s[..|s| - 1], DigitValue(s[|s| - 1]);
      assert p[0] == s[0];
      LeadingDigitPositive(p);
      NatToStringOfParse(p);
      var m := ParseDigits(p);
      assert n == 10 * m + d;
      assert n / 10 == m && n % 10 == d;
      assert s == p + [s[|s| - 1]];
    }
  }

  /** Rendering then reading gives the integer back. */
  lemma ParseIntToString(i: int)
    ensures ParseInt(IntToString(i)) == Some(i)
  {
    var s := IntToString(i);
    if i < 0 {
      assert s[1..] == NatToString(-i);
      ParseNatToString(-i);
    } else {
      ParseNatToString(i);
    }
  }

  /** A string reads as `i` exactly when it is the rendering of `i`: the
      rendering is the one and only numeral the reader accepts for `i`. */
  lemma ParseIntIffRendering(s: string, i: int)
    ensures ParseInt(s) == Some(i) <==> s == IntToString(i)
  {
    if s == IntToString(i) {
      ParseIntToString(i);
    }
    if ParseInt(s) == Some(i) {
      if s[0] == '-' {
        NatToStringOfParse(s[1..]);
        LeadingDigitPositive(s[1..]);
        assert s == "-" + s[1..];
      } else {
        NatToStringOfParse(s);
      }
    }
  }
}
