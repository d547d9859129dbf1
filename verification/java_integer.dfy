/** `java.lang.Integer`'s decimal codec: `Integer.toString(int)` and
    `Integer.parseInt(String)` (radix 10), over the 32-bit signed range. */
module JavaInteger {
  import opened Wrappers

  const MIN_VALUE: int := -0x8000_0000
  const MAX_VALUE: int := 0x7fff_ffff

  /** A Java `int`. */
  type Int32 = x: int | MIN_VALUE <= x <= MAX_VALUE

  /** What `parseInt` throws on a string it cannot read as an `int`. */
  datatype NumberFormatException = NumberFormatException(input: string)

  predicate IsDigit(c: char) {
    '0' <= c <= '9'
  }

  predicate AllDigits(s: string) {
    forall k :: 0 <= k < |s| ==> IsDigit(s[k])
  }

  function DigitValue(c: char): (d: nat)
    requires IsDigit(c)
    ensures d < 10
  {
    c as int - '0' as int
  }

  function DigitChar(d: nat): (c: char)
    requires d < 10
    ensures IsDigit(c) && DigitValue(c) == d
  {
    ('0' as int + d) as char
  }

  /** The number a string of decimal digits denotes, leading zeros allowed. */
  function DigitsValue(s: string): nat
    requires AllDigits(s)
    decreases |s|
  {
    if |s| == 0 then 0
    else DigitsValue(s[..|s| - 1]) * 10 + DigitValue(s[|s| - 1])
  }

  /** The shortest digit string of a natural number. */
  function NatToDigits(n: nat): (s: string)
    ensures |s| > 0 && AllDigits(s)
    decreases n
  {
    if n < 10 then [DigitChar(n)] else NatToDigits(n / 10) + [DigitChar(n % 10)]
  }

  /** The canonical decimal form of an integer: an optional `-` for
      negatives only, then digits with no leading zero; zero is `"0"`. */
  predicate IsCanonicalDecimal(s: string) {
    || s == "0"
    || (|s| > 0 && s[0] != '0' && AllDigits(s))
    || (|s| > 1 && s[0] == '-' && s[1] != '0' && AllDigits(s[1..]))
  }

  /** `Integer.toString(int)`: a `-` exactly for negatives, then at least
      one digit. */
  function ToString(n: Int32): (r: string)
    ensures |r| > 0 && (r[0] == '-' <==> n < 0)
    ensures n < 0 ==> |r| > 1 && AllDigits(r[1..])
    ensures n >= 0 ==> AllDigits(r)
  {
    if n < 0 then
      var digits := NatToDigits(-(n as int));
      assert ("-" + digits)[1..] == digits;
      "-" + digits
    else NatToDigits(n)
  }

  /** `Integer.parseInt(String)` with radix 10 on a non-null string: an
      optional leading `-` or `+`, then at least one digit; the value must
      fit in an `int`. Anything else throws `NumberFormatException`. */
  function ParseInt(s: string): (r: Result<Int32, NumberFormatException>)
    ensures r.Failure? ==> r.error == NumberFormatException(s)
    ensures r.Success? ==> |s| > 0
    ensures r.Success? && (s[0] == '-' || s[0] == '+') ==>
              |s| > 1 && AllDigits(s[1..])
              && r.value == (if s[0] == '-' then -(DigitsValue(s[1..]) as int) else DigitsValue(s[1..]))
    ensures r.Success? && s[0] != '-' && s[0] != '+' ==> AllDigits(s) && r.value == DigitsValue(s)
    ensures |s| > 1 && (s[0] == '-' || s[0] == '+') && AllDigits(s[1..])
            && MIN_VALUE <= (if s[0] == '-' then -(DigitsValue(s[1..]) as int) else DigitsValue(s[1..])) <= MAX_VALUE
            ==> r.Success?
    ensures |s| > 0 && AllDigits(s) && DigitsValue(s) <= MAX_VALUE ==> r.Success?
  {
    if |s| == 0 then Failure(NumberFormatException(s))
    else
      var negative := s[0] == '-';
      var signed := s[0] < '0';
      if signed && s[0] != '-' && s[0] != '+' then Failure(NumberFormatException(s))
      else if signed && |s| == 1 then Failure(NumberFormatException(s))
      else
        var digits := if signed then s[1..] else s;
        if !AllDigits(digits) then Failure(NumberFormatException(s))
        else
          var magnitude: int := DigitsValue(digits);
          var value: int := if negative then -magnitude else magnitude;
          if MIN_VALUE <= value <= MAX_VALUE then Success(value)
          else Failure(NumberFormatException(s))
  }

  lemma {:induction false} DigitsValueOfNat(n: nat)
    ensures DigitsValue(NatToDigits(n)) == n
    decreases n
  {
    if n >= 10 {
      DigitsValueOfNat(n / 10);
      var s := NatToDigits(n);
      assert s[..|s| - 1] == NatToDigits(n / 10);
    }
  }

  lemma {:induction false} NatToDigitsNoLeadingZero(n: nat)
    ensures NatToDigits(n)[0] == '0' ==> n == 0
    decreases n
  {
    if n >= 10 {
      NatToDigitsNoLeadingZero(n / 10);
    }
  }

  lemma {:induction false} LeadingDigitPositive(s: string)
    requires |s| > 0 && AllDigits(s) && s[0] != '0'
    ensures DigitsValue(s) > 0
    decreases |s|
  {
    if |s| > 1 {
      LeadingDigitPositive(s[..|s| - 1]);
    }
  }

  /** A digit string without leading zero is the digit string of its value. */
  lemma {:induction false} NatToDigitsOfValue(s: string)
    requires |s| > 0 && AllDigits(s)
    requires s[0] != '0' || |s| == 1
    ensures NatToDigits(DigitsValue(s)) == s
    decreases |s|
  {
    if |s| > 1 {
      var p := s[..|s| - 1];
      NatToDigitsOfValue(p);
      LeadingDigitPositive(p);
      var n := DigitsValue(s);
      assert n / 10 == DigitsValue(p);
      assert n % 10 == DigitValue(s[|s| - 1]);
      assert DigitChar(DigitValue(s[|s| - 1])) == s[|s| - 1];
      assert p + [s[|s| - 1]] == s;
    }
  }

  /** `toString` always prints the canonical form. */
  lemma ToStringCanonical(n: Int32)
    ensures IsCanonicalDecimal(ToString(n))
  {
    if n < 0 {
      NatToDigitsNoLeadingZero(-(n as int));
      assert ToString(n)[1..] == NatToDigits(-(n as int));
    } else {
      NatToDigitsNoLeadingZero(n);
      if n == 0 {
        assert NatToDigits(0) == "0";
      }
    }
  }

  /** Every `int` survives printing and parsing back, `MIN_VALUE` and
      `MAX_VALUE` included. */
  lemma ParseToString(n: Int32)
    ensures ParseInt(ToString(n)) == Success(n)
  {
    var s := ToString(n);
    if n < 0 {
      var digits := NatToDigits(-(n as int));
      DigitsValueOfNat(-(n as int));
      assert s[1..] == digits && AllDigits(digits);
      assert DigitsValue(s[1..]) == -(n as int);
      assert ParseInt(s).Success?;
    } else {
      DigitsValueOfNat(n);
      assert s == NatToDigits(n) && AllDigits(s) && DigitsValue(s) == n;
      assert s[0] != '-' && s[0] != '+';
      assert ParseInt(s).Success?;
    }
  }

  /** A canonical string that parses is exactly what `toString` prints for
      the parsed value: canonical strings are the fixed points of
      print-after-parse. */
  lemma ToStringParse(s: string)
    requires IsCanonicalDecimal(s)
    requires ParseInt(s).Success?
    ensures ToString(ParseInt(s).value) == s
  {
    if s[0] == '-' {
      NatToDigitsOfValue(s[1..]);
      LeadingDigitPositive(s[1..]);
      assert "-" + s[1..] == s;
    } else {
      NatToDigitsOfValue(s);
    }
  }

  /** Print after parse normalises, then stays fixed: the printed form is
      canonical and reading and printing it again changes nothing. */
  lemma PrintAfterParseIdempotent(s: string)
    requires ParseInt(s).Success?
    ensures IsCanonicalDecimal(ToString(ParseInt(s).value))
    ensures ParseInt(ToString(ParseInt(s).value)) == ParseInt(s)
    ensures ToString(ParseInt(ToString(ParseInt(s).value)).value) == ToString(ParseInt(s).value)
  {
    ToStringCanonical(ParseInt(s).value);
    ParseToString(ParseInt(s).value);
  }

  /** A `+` sign and leading zeros are accepted and dropped. */
  lemma ParseNormalisesExamples()
    ensures ParseInt("+5") == Success(5) && ToString(5) == "5"
    ensures ParseInt("007") == Success(7) && ToString(7) == "7"
    ensures ParseInt("-0") == Success(0) && ToString(0) == "0"
  {
    assert "+5"[1..] == "5" && "5"[..0] == "";
    assert DigitsValue("5") == 5;
    assert "007"[..2] == "00" && "00"[..1] == "0";
    assert "-0"[1..] == "0";
  }

  /** The magnitude of `MIN_VALUE`, digit by digit. */
  lemma MinMagnitudeDigits()
    ensures AllDigits("2147483648") && DigitsValue("2147483648") == 2147483648
  {
    var s := "2147483648";
    assert s[..1] == "2" && DigitsValue(s[..1]) == 2;
    assert s[..2][..1] == s[..1] && DigitsValue(s[..2]) == 21;
    assert s[..3][..2] == s[..2] && DigitsValue(s[..3]) == 214;
    assert s[..4][..3] == s[..3] && DigitsValue(s[..4]) == 2147;
    assert s[..5][..4] == s[..4] && DigitsValue(s[..5]) == 21474;
    assert s[..6][..5] == s[..5] && DigitsValue(s[..6]) == 214748;
    assert s[..7][..6] == s[..6] && DigitsValue(s[..7]) == 2147483;
    assert s[..8][..7] == s[..7] && DigitsValue(s[..8]) == 21474836;
    assert s[..9][..8] == s[..8] && DigitsValue(s[..9]) == 214748364;
    assert s[..9] == s[..|s| - 1];
  }

  /** `MIN_VALUE` is read exactly. */
  lemma ParseMinValueExample()
    ensures ParseInt("-2147483648") == Success(MIN_VALUE)
  {
    MinMagnitudeDigits();
    assert "-2147483648"[1..] == "2147483648";
  }

  /** One past `MAX_VALUE` is out of range. */
  lemma ParseOverflowExample()
    ensures ParseInt("2147483648").Failure?
  {
    MinMagnitudeDigits();
  }

  /** Empty input, a bare sign, and any stray character are rejected. */
  lemma ParseRejectsExamples()
    ensures ParseInt("").Failure? && ParseInt("-").Failure? && ParseInt("+").Failure?
    ensures ParseInt(" 1").Failure? && ParseInt("1 ").Failure? && ParseInt("1_0").Failure?
  {
    assert !IsDigit(" 1"[0]) && !IsDigit("1 "[1]) && !IsDigit("1_0"[1]);
  }
}
