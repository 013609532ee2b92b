/** Base-ten integers as the standard library prints and parses them, 64 bits wide. */
module Decimals {
  import opened Wrappers

  const MIN_INT64 := -0x8000_0000_0000_0000
  const MAX_INT64 := 0x7fff_ffff_ffff_ffff

  predicate IsInt64(n: int) {
    MIN_INT64 <= n <= MAX_INT64
  }

  predicate IsDigit(c: char) {
    '0' <= c <= '9'
  }

  function DigitChar(d: nat): char
    requires d < 10
  {
    "0123456789"[d]
  }

  function DigitValue(c: char): nat
    requires IsDigit(c)
  {
    c as nat - '0' as nat
  }

  function FormatNat(n: nat): string {
    if n < 10 then [DigitChar(n)] else FormatNat(n / 10) + [DigitChar(n % 10)]
  }

  /** strconv.FormatInt in base ten. */
  function Format(n: int): string {
    if n < 0 then "-" + FormatNat(-n) else FormatNat(n)
  }

  /** The value of a non-empty run of digits. */
  function ParseNat(s: string): Option<nat> {
    if s == [] || !IsDigit(s[|s| - 1]) then None
    else if |s| == 1 then Some(DigitValue(s[0]))
    else
      match ParseNat(s[..|s| - 1])
      case None => None
      case Some(n) => Some(10 * n + DigitValue(s[|s| - 1]))
  }

  /** strconv.ParseInt in base ten, 64 bits: an optional sign, digits, and a value in range; None is an error. */
  function ParseInt(s: string): Option<int> {
    var negative := s != [] && s[0] == '-';
    var digits := if s != [] && (s[0] == '-' || s[0] == '+') then s[1..] else s;
    match ParseNat(digits)
    case None => None
    case Some(n) =>
      var value: int := if negative then -(n as int) else n as int;
      if IsInt64(value) then Some(value) else None
  }

  lemma {:induction false} FormatNatDigits(n: nat)
    ensures |FormatNat(n)| > 0
    ensures forall i :: 0 <= i < |FormatNat(n)| ==> IsDigit(FormatNat(n)[i])
  {
    if n >= 10 {
      FormatNatDigits(n / 10);
    }
  }

  lemma {:induction false} NoLeadingZero(n: nat)
    ensures FormatNat(n) != [] && (n > 0 ==> FormatNat(n)[0] != '0')
  {
    if n >= 10 {
      NoLeadingZero(n / 10);
    }
  }

  lemma DigitCharValue(d: nat)
    requires d < 10
    ensures IsDigit(DigitChar(d)) && DigitValue(DigitChar(d)) == d
  {
  }

  lemma {:induction false} ParseFormatNat(n: nat)
    ensures ParseNat(FormatNat(n)) == Some(n)
  {
    if n < 10 {
      DigitCharValue(n);
    } else {
      ParseFormatNat(n / 10);
      FormatNatDigits(n / 10);
      DigitCharValue(n % 10);
      var s := FormatNat(n);
      assert s[..|s| - 1] == FormatNat(n / 10);
      assert |s| > 1;
    }
  }

  /** Every 64-bit integer survives printing and parsing. */
  lemma ParseFormat(n: int)
    requires IsInt64(n)
    ensures ParseInt(Format(n)) == Some(n)
  {
    var magnitude := if n < 0 then -n else n;
    ParseFormatNat(magnitude);
    FormatNatDigits(magnitude);
    hide FormatNat, ParseNat;
    assert n < 0 ==> Format(n)[0] == '-' && Format(n)[1..] == FormatNat(magnitude);
    assert n >= 0 ==> Format(n) == FormatNat(magnitude) && IsDigit(Format(n)[0]);
  }

  /** A number outside 64 bits is printed, and refused when it is parsed. */
  lemma TooLargeIsRefused(n: int)
    requires !IsInt64(n)
    ensures ParseInt(Format(n)) == None
  {
    var magnitude := if n < 0 then -n else n;
    ParseFormatNat(magnitude);
    FormatNatDigits(magnitude);
    hide FormatNat, ParseNat;
    assert n < 0 ==> Format(n)[0] == '-' && Format(n)[1..] == FormatNat(magnitude);
    assert n >= 0 ==> Format(n) == FormatNat(magnitude) && IsDigit(Format(n)[0]);
  }

  lemma {:induction false} DigitsParseIff(s: string)
    ensures ParseNat(s).Some? <==> s != [] && forall i :: 0 <= i < |s| ==> IsDigit(s[i])
  {
    if |s| > 1 {
      DigitsParseIff(s[..|s| - 1]);
    }
  }

  lemma {:induction false} LeadingZero(s: string)
    requires ParseNat(s).Some?
    ensures ParseNat(['0'] + s) == ParseNat(s)
  {
    var t := ['0'] + s;
    assert t[..|t| - 1] == ['0'] + s[..|s| - 1];
    if |s| > 1 {
      LeadingZero(s[..|s| - 1]);
    } else {
      assert s[..0] == [] && ParseNat(['0']) == Some(0);
    }
  }

  /**
   What is accepted: an optional sign and at least one digit, nothing else, with a value in 64 bits; leading zeros and a
   plus sign do not change the value.
   */
  lemma AcceptedNumbers(s: string)
    ensures ParseInt(s).Some? ==>
              var digits := if s != [] && (s[0] == '-' || s[0] == '+') then s[1..] else s;
              digits != [] && (forall i :: 0 <= i < |digits| ==> IsDigit(digits[i])) && IsInt64(ParseInt(s).value)
    ensures ParseNat(s).Some? ==> ParseInt(['+'] + s) == ParseInt(s) == ParseInt(['0'] + s)
  {
    hide ParseNat;
    DigitsParseIff(if s != [] && (s[0] == '-' || s[0] == '+') then s[1..] else s);
    if ParseNat(s).Some? {
      DigitsParseIff(s);
      LeadingZero(s);
      assert (['+'] + s)[1..] == s && IsDigit(s[0]);
    }
  }

  /** Printing uses digits and at most one leading minus, so none of the separators around it. */
  lemma FormatChars(n: int, c: char)
    requires c in Format(n)
    ensures IsDigit(c) || c == '-'
  {
    FormatNatDigits(if n < 0 then -n else n);
  }

  lemma FormatInjective(m: int, n: int)
    requires Format(m) == Format(n)
    ensures m == n
  {
    var p, q := if m < 0 then -m else m, if n < 0 then -n else n;
    FormatNatDigits(p);
    FormatNatDigits(q);
    ParseFormatNat(p);
    ParseFormatNat(q);
    assert Format(m)[0] == '-' <==> m < 0;
    assert Format(n)[0] == '-' <==> n < 0;
    assert m < 0 ==> Format(m)[1..] == FormatNat(p) && Format(n)[1..] == FormatNat(q);
  }

  function Pow10(k: nat): nat {
    if k == 0 then 1 else 10 * Pow10(k - 1)
  }

  lemma {:induction false} FormatNatLength(n: nat, k: nat)
    requires 0 < k && n < Pow10(k)
    ensures |FormatNat(n)| <= k
  {
    if n >= 10 {
      assert k > 1 by {
        assert Pow10(1) == 10 * Pow10(0);
      }
      FormatNatLength(n / 10, k - 1);
    }
  }
}
