/** The JSON forms of snowflakes and 64-bit integers. */
module Snowflakes {
  import opened Wrappers
  import opened Decimals

  /** What decoding yields: a value, an error, or the index panic on an empty input. */
  datatype Decoded = Value(n: int) | Malformed | Panicked

  const QUOTE := '"'

  function OfParsed(parsed: Option<int>): Decoded {
    if parsed.None? then Malformed else Value(parsed.value)
  }

  /** The text between quotes, or the text itself. The closing quote is cut off unseen. */
  function ParseJson(b: string): Decoded {
    if b == [] then Panicked
    else if b[0] == QUOTE && |b| >= 2 then OfParsed(ParseInt(b[1..|b| - 1]))
    else OfParsed(ParseInt(b))
  }

  function ToSnowflake(b: string): Decoded {
    if b == "null" then Value(0) else ParseJson(b)
  }

  /** Int64 has no case for null. */
  function ToInt64(b: string): Decoded {
    ParseJson(b)
  }

  function Int64ToStringBytes(n: int): string {
    [QUOTE] + Format(n) + [QUOTE]
  }

  /** Every int64 survives the string form, as a snowflake and as an Int64; so does its unquoted form. */
  lemma RoundTrip(n: int)
    requires IsInt64(n)
    ensures ToSnowflake(Int64ToStringBytes(n)) == Value(n)
    ensures ToInt64(Int64ToStringBytes(n)) == Value(n)
    ensures ToSnowflake(Format(n)) == Value(n)
  {
    hide ParseInt, Format;
    ParseFormat(n);
    FormatIsNoName(n);
    var b := Int64ToStringBytes(n);
    assert b[0] == QUOTE && b[1..|b| - 1] == Format(n);
    assert "null"[0] == 'n';
  }

  lemma FormatIsNoName(n: int)
    ensures Format(n) != [] && Format(n)[0] != QUOTE && Format(n)[0] != 'n'
  {
    FormatNatDigits(if n < 0 then -n else n);
    assert Format(n)[0] in Format(n);
    FormatChars(n, Format(n)[0]);
  }

  /**
   What decodes to what: null is 0 for a snowflake and malformed for an Int64, an empty input panics; behind a quote all
   but the last character counts, whatever that is, and without one the whole text.
   */
  lemma DecodesTo(s: string, last: char)
    ensures ToSnowflake("null") == Value(0) && ToInt64("null") == Malformed
    ensures ToSnowflake([]) == Panicked && ToInt64([]) == Panicked
    ensures var quoted := [QUOTE] + s + [last];
            ToSnowflake(quoted) == ToInt64(quoted)
            == match ParseInt(s) case None => Malformed case Some(n) => Value(n)
    ensures s != [] && s[0] != QUOTE && s != "null" ==>
              ToSnowflake(s) == ToInt64(s) == match ParseInt(s) case None => Malformed case Some(n) => Value(n)
  {
    assert "null"[0] == 'n' && !IsDigit('n');
    NullIsNoNumber();
    hide ParseInt;
    var quoted := [QUOTE] + s + [last];
    assert quoted[1..|quoted| - 1] == s && quoted[0] == QUOTE;
  }

  lemma NullIsNoNumber()
    ensures ParseInt("null") == None
  {
    DecodedFits("null");
    DigitsParseIff("null");
    assert !IsDigit("null"[0]);
  }

  /** The encoding is a number in quotes, of at most 22 bytes: it never outgrows the buffer of 24 it is appended to. */
  lemma EncodingFitsBuffer(n: int)
    requires IsInt64(n)
    ensures var b := Int64ToStringBytes(n);
            && 3 <= |b| <= 22 && b[0] == QUOTE && b[|b| - 1] == QUOTE
            && forall i :: 0 < i < |b| - 1 ==> IsDigit(b[i]) || (i == 1 && b[i] == '-')
  {
    FormatNatDigits(if n < 0 then -n else n);
    assert Pow10(19) == 10_000_000_000_000_000_000 by {
      assert Pow10(10) == 10_000_000_000;
      assert Pow10(15) == 1_000_000_000_000_000;
    }
    FormatNatLength(if n < 0 then -n else n, 19);
  }

  /** Whatever is decoded fits 64 bits, and the two types differ on null alone. */
  lemma DecodedFits(b: string)
    ensures ToSnowflake(b).Value? ==> IsInt64(ToSnowflake(b).n)
    ensures ToSnowflake(b) != ToInt64(b) ==> b == "null" && ToInt64(b) == Malformed
  {
    if b == "null" {
      assert b[3] == 'l' && !IsDigit(b[3]);
      assert b[0] != '-' && b[0] != '+';
      assert ParseNat(b) == None;
    }
  }
}
