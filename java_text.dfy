/**
 * The pieces of java.lang.String, Boolean and Integer/Long that the protocol and the
 * JSON writer rely on: case-insensitive comparison, Boolean.valueOf(String) and the
 * decimal text of an integer.
 */
module JavaText {
  import opened Wrappers

  /** Character.toUpperCase restricted to ASCII letters. */
  function ToUpper(c: char): char
  {
    if 'a' <= c <= 'z' then (c as int - 32) as char else c
  }

  /** String.equalsIgnoreCase: same length and each pair of chars equal up to case. */
  predicate EqualsIgnoreCase(s: string, t: string)
  {
    |s| == |t| && forall i :: 0 <= i < |s| ==> s[i] == t[i] || ToUpper(s[i]) == ToUpper(t[i])
  }

  /** A char matches a lower-case ASCII letter ignoring case iff it is that letter or its capital. */
  lemma SameLetterIgnoringCase(c: char, lower: char)
    requires 'a' <= lower <= 'z'
    ensures c == lower || ToUpper(c) == ToUpper(lower) <==> c == lower || c == ToUpper(lower)
  {
  }

  /** The only first lines that count as "ok" from the session service. */
  lemma {:induction false} OkIgnoringCase(s: string)
    ensures EqualsIgnoreCase(s, "ok") <==> s in {"ok", "oK", "Ok", "OK"}
  {
    if |s| == 2 {
      SameLetterIgnoringCase(s[0], 'o');
      SameLetterIgnoringCase(s[1], 'k');
      assert s == [s[0], s[1]];
    }
  }

  /** Boolean.valueOf(String) (and Boolean.parseBoolean): "true" in any case. */
  predicate ParseBoolean(s: string)
  {
    EqualsIgnoreCase(s, "true")
  }

  /** Boolean.valueOf(String) accepts exactly the sixteen spellings of "true". */
  lemma {:induction false} ParseBooleanSpellings(s: string)
    ensures ParseBoolean(s) <==>
      |s| == 4 && s[0] in "tT" && s[1] in "rR" && s[2] in "uU" && s[3] in "eE"
  {
    if |s| == 4 {
      SameLetterIgnoringCase(s[0], 't');
      SameLetterIgnoringCase(s[1], 'r');
      SameLetterIgnoringCase(s[2], 'u');
      SameLetterIgnoringCase(s[3], 'e');
    }
  }

  function DigitChar(d: int): char
    requires 0 <= d < 10
  {
    ('0' as int + d) as char
  }

  predicate IsDigit(c: char)
  {
    '0' <= c <= '9'
  }

  /** Decimal text of a natural number, most significant digit first, no leading zeros. */
  function NatText(n: nat): (r: string)
    ensures |r| >= 1
    ensures forall i :: 0 <= i < |r| ==> IsDigit(r[i])
  {
    if n < 10 then [DigitChar(n)] else NatText(n / 10) + [DigitChar(n % 10)]
  }

  /** String.valueOf(boolean). */
  function BoolText(b: bool): string
  {
    if b then "true" else "false"
  }

  /** String.valueOf(int) / String.valueOf(long): a minus sign for negatives, then the digits. */
  function IntText(n: int): (r: string)
    ensures |r| >= 1
    ensures ',' !in r
  {
    if n < 0 then "-" + NatText(-n) else NatText(n)
  }

  /** No decimal number reads as the Boolean true. */
  lemma IntTextIsNotTrue(n: int)
    ensures !ParseBoolean(IntText(n))
  {
    var t := IntText(n);
    ParseBooleanSpellings(t);
    if n < 0 {
      assert t[0] == '-';
    } else {
      assert IsDigit(t[0]);
    }
  }

  /** The value of a non-empty run of decimal digits; None for anything else. */
  function ParseNat(s: string): Option<nat>
  {
    if |s| == 0 || !IsDigit(s[|s| - 1]) then None
    else
      var d := s[|s| - 1] as int - '0' as int;
      if |s| == 1 then Some(d)
      else match ParseNat(s[..|s| - 1])
        case None => None
        case Some(v) => Some(v * 10 + d)
  }

  /** Decimal text with an optional leading minus sign, as Long.parseLong reads it. */
  function ParseInt(s: string): Option<int>
  {
    if |s| > 0 && s[0] == '-' then
      match ParseNat(s[1..])
      case None => None
      case Some(v) => Some(0 - v as int)
    else
      match ParseNat(s)
      case None => None
      case Some(v) => Some(v)
  }

  lemma {:induction false} NatTextRoundTrip(n: nat)
    ensures ParseNat(NatText(n)) == Some(n)
    decreases n
  {
    if n >= 10 {
      var s := NatText(n);
      assert s[..|s| - 1] == NatText(n / 10);
      NatTextRoundTrip(n / 10);
    }
  }

  /** Reading back the decimal text of an integer gives the integer. */
  lemma {:induction false} IntTextRoundTrip(n: int)
    ensures ParseInt(IntText(n)) == Some(n)
  {
    if n < 0 {
      var digits := NatText(-n);
      assert IntText(n) == "-" + digits;
      assert ("-" + digits)[1..] == digits;
      NatTextRoundTrip(-n);
    } else {
      var digits := NatText(n);
      assert IntText(n) == digits;
      assert IsDigit(digits[0]);
      NatTextRoundTrip(n);
    }
  }
}
