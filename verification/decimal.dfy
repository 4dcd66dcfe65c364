/** Python's `str(int)` on the integers the planners place in argument vectors
    (thread counts, burn-ins, resample intervals), and its inverse. */
module Decimal {
  import opened Wrappers

  predicate IsDigit(c: char) {
    '0' <= c <= '9'
  }

  predicate AllDigits(s: string) {
    forall i :: 0 <= i < |s| ==> IsDigit(s[i])
  }

  function DigitChar(d: nat): (c: char)
    requires d < 10
    ensures IsDigit(c)
    ensures (c - '0') as int == d
  {
    ('0' as int + d) as char
  }

  function DigitValue(c: char): (d: nat)
    requires IsDigit(c)
    ensures d < 10
  {
    (c as int - '0' as int) as nat
  }

  /** Decimal digits of `n`, most significant first, without leading zeros. */
  function NatToString(n: nat): (s: string)
    ensures |s| >= 1
    ensures AllDigits(s)
    ensures |s| > 1 ==> s[0] != '0'
    ensures s[0] == '0' <==> n == 0
    decreases n
  {
    if n < 10 then [DigitChar(n)] else NatToString(n / 10) + [DigitChar(n % 10)]
  }

  /** Python's `str` of an integer: a minus sign in front of negative values,
      and no leading zero except in "0" itself. */
  function IntToString(i: int): (s: string)
    ensures |s| >= 1
    ensures i >= 0 ==> AllDigits(s) && (s[0] == '0' <==> i == 0) && (|s| > 1 ==> s[0] != '0')
    ensures i < 0 ==> |s| >= 2 && s[0] == '-' && AllDigits(s[1..]) && s[1] != '0'
  {
    if i < 0 then "-" + NatToString(-i) else NatToString(i)
  }

  /** The value of a digit string read most significant digit first. */
  function DigitsValue(s: string): nat
    requires AllDigits(s)
  {
    if |s| == 0 then 0 else DigitsValue(s[..|s| - 1]) * 10 + DigitValue(s[|s| - 1])
  }

  /** Reads a digit string as `str()` writes it: non-empty, and no leading
      zero unless the text is "0" itself. */
  function ParseNat(s: string): (r: Option<nat>)
    ensures r.Some? <==> |s| >= 1 && AllDigits(s) && (|s| == 1 || s[0] != '0')
  {
    if |s| >= 1 && AllDigits(s) && (|s| == 1 || s[0] != '0') then Some(DigitsValue(s)) else None
  }

  /** Reads back what `IntToString` writes; "-0" is not such a text. */
  function ParseInt(s: string): Option<int> {
    if |s| >= 1 && s[0] == '-' then
      match ParseNat(s[1..])
      case Some(n) => if n > 0 then Some(0 - n as int) else None
      case None => None
    else
      match ParseNat(s)
      case Some(n) => Some(n as int)
      case None => None
  }

  lemma {:induction false} DigitsOfNat(n: nat)
    ensures DigitsValue(NatToString(n)) == n
    decreases n
  {
    var s := NatToString(n);
    if n < 10 {
      assert s[..0] == [];
    } else {
      DigitsOfNat(n / 10);
      assert s[..|s| - 1] == NatToString(n / 10);
    }
  }

  lemma ParseNatToString(n: nat)
    ensures ParseNat(NatToString(n)) == Some(n)
  {
    DigitsOfNat(n);
  }

  lemma ParseNegative(n: nat)
    requires n > 0
    ensures ParseInt("-" + NatToString(n)) == Some(0 - n as int)
  {
    var t := NatToString(n);
    ParseNatToString(n);
    assert ("-" + t)[0] == '-' && ("-" + t)[1..] == t;
  }

  lemma ParseNonNegative(n: nat)
    ensures ParseInt(NatToString(n)) == Some(n as int)
  {
    var t := NatToString(n);
    ParseNatToString(n);
    assert IsDigit(t[0]);
  }

  /** Round trip: every integer written into an argument vector can be read back. */
  lemma ParseIntToString(i: int)
    ensures ParseInt(IntToString(i)) == Some(i)
  {
    if i < 0 {
      ParseNegative(-i);
      assert IntToString(i) == "-" + NatToString(-i);
    } else {
      ParseNonNegative(i);
      assert IntToString(i) == NatToString(i);
    }
  }

  lemma DigitRoundTrip(c: char)
    requires IsDigit(c)
    ensures DigitChar(DigitValue(c)) == c
  {
  }

  /** A digit string without a leading zero is the text of its own value. */
  lemma {:induction false} NatToStringOfDigits(s: string)
    requires |s| >= 1 && AllDigits(s) && (|s| == 1 || s[0] != '0')
    ensures NatToString(DigitsValue(s)) == s
    decreases |s|
  {
    var last := s[|s| - 1];
    DigitRoundTrip(last);
    if |s| == 1 {
      assert s[..0] == [];
      assert s == [last];
    } else {
      var p := s[..|s| - 1];
      assert p[0] == s[0];
      NatToStringOfDigits(p);
      var m := DigitsValue(p);
      assert m != 0 by { assert NatToString(m)[0] == s[0]; }
      assert DigitsValue(s) / 10 == m && DigitsValue(s) % 10 == DigitValue(last);
      assert s == p + [last];
    }
  }

  /** The reader accepts no other text for an integer than the one `str()`
      writes: a zero-padded or signed-zero text is refused. */
  lemma ParseIntCanonical(s: string, i: int)
    requires ParseInt(s) == Some(i)
    ensures s == IntToString(i)
  {
    if |s| >= 1 && s[0] == '-' {
      var n := ParseNat(s[1..]).value;
      NatToStringOfDigits(s[1..]);
      assert s == "-" + NatToString(n);
      assert IntToString(i) == "-" + NatToString(n);
    } else {
      var n := ParseNat(s).value;
      NatToStringOfDigits(s);
      assert IntToString(i) == NatToString(n);
    }
  }

  /** `ParseInt` and `IntToString` are inverse bijections between the
      integers and their texts. */
  lemma ParseIntExactly(s: string, i: int)
    ensures ParseInt(s) == Some(i) <==> s == IntToString(i)
  {
    if ParseInt(s) == Some(i) {
      ParseIntCanonical(s, i);
    }
    if s == IntToString(i) {
      ParseIntToString(i);
    }
  }

  /** Distinct integers are written as distinct texts. */
  lemma IntToStringInjective(i: int, j: int)
    requires IntToString(i) == IntToString(j)
    ensures i == j
  {
    ParseIntToString(i);
    ParseIntToString(j);
  }
}
