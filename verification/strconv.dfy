/**
 * The two conversions of Go's strconv package the plugin relies on:
 * ParseInt(s, 0, 64), which reads the stats values and the snapshot file,
 * and the %d formatting that writes the snapshot file.
 * Base 0 follows Go 1.13 and later: an optional sign, then a 0b, 0o or 0x prefix,
 * or a leading 0 for octal, or plain decimal; underscores may separate digits.
 */
module Strconv {
  import opened Wrappers
  import opened GoInt

  predicate IsDecimalDigit(c: char) { '0' <= c <= '9' }

  /** ASCII lower case; for every use below it agrees with Go's c | 0x20. */
  function Lower(c: char): char
  {
    if 'A' <= c <= 'Z' then (c as int + 32) as char else c
  }

  /** The digit value strconv gives a character: 0-9, letters 10-35, anything else 36 (never a digit). */
  function DigitValue(c: char): nat
  {
    if '0' <= c <= '9' then c as int - '0' as int
    else if 'a' <= Lower(c) <= 'z' then Lower(c) as int - 'a' as int + 10
    else 36
  }

  /** Every character is an underscore or a digit below base. */
  predicate ValidDigits(s: string, base: nat)
  {
    forall i :: 0 <= i < |s| ==> s[i] == '_' || DigitValue(s[i]) < base
  }

  /** The number the digits of s denote in base, underscores skipped. */
  function Value(s: string, base: nat): nat
  {
    if s == [] then 0
    else if s[|s| - 1] == '_' then Value(s[..|s| - 1], base)
    else Value(s[..|s| - 1], base) * base + DigitValue(s[|s| - 1])
  }

  /** The base that base 0 picks from the start of an unsigned numeral, and the digits after the prefix. */
  function BaseAndDigits(s: string): (int, string)
    requires |s| > 0
  {
    if s[0] != '0' then (10, s)
    else if |s| >= 3 && Lower(s[1]) == 'b' then (2, s[2..])
    else if |s| >= 3 && Lower(s[1]) == 'o' then (8, s[2..])
    else if |s| >= 3 && Lower(s[1]) == 'x' then (16, s[2..])
    else (8, s[1..])
  }

  /** What the last character seen by underscoreOK was. */
  datatype Seen = Start | Digit | Underscore | Other

  function UnderscoreScan(s: string, saw: Seen, hex: bool): bool
  {
    if s == [] then saw != Underscore
    else if IsDecimalDigit(s[0]) || (hex && 'a' <= Lower(s[0]) <= 'f') then UnderscoreScan(s[1..], Digit, hex)
    else if s[0] == '_' then saw == Digit && UnderscoreScan(s[1..], Underscore, hex)
    else saw != Underscore && UnderscoreScan(s[1..], Other, hex)
  }

  /** Underscores stand only between digits, or between a base prefix and a digit. */
  function UnderscoreOK(s: string): bool
  {
    var t := if |s| >= 1 && (s[0] == '-' || s[0] == '+') then s[1..] else s;
    if |t| >= 2 && t[0] == '0' && Lower(t[1]) in {'b', 'o', 'x'} then UnderscoreScan(t[2..], Digit, Lower(t[1]) == 'x')
    else UnderscoreScan(t, Start, false)
  }

  /** strconv.ParseUint(s, 0, 64): None for a syntax error or a value beyond 2^64 - 1. */
  function ParseUint(s: string): Option<nat>
  {
    if s == [] then None
    else
      var (base, digits) := BaseAndDigits(s);
      if !ValidDigits(digits, base) then None
      else if '_' in digits && !UnderscoreOK(s) then None
      else if Value(digits, base) > MaxUint64 then None
      else Some(Value(digits, base))
  }

  /** strconv.ParseInt(s, 0, 64): None for a syntax error or a value outside int64. */
  function ParseInt(s: string): Option<int64>
  {
    if s == [] then None
    else
      var negative := s[0] == '-';
      var unsigned := if s[0] == '+' || s[0] == '-' then s[1..] else s;
      match ParseUint(unsigned)
      case None => None
      case Some(n) =>
        if !negative && n <= MaxInt64 then Some(n)
        else if negative && n <= MaxInt64 + 1 then Some(-(n as int))
        else None
  }

  function DigitChar(d: nat): char
    requires d < 10
  {
    ('0' as int + d) as char
  }

  /** The decimal digits of n, without leading zeros. */
  function Decimal(n: nat): string
  {
    if n < 10 then [DigitChar(n)] else Decimal(n / 10) + [DigitChar(n % 10)]
  }

  /** fmt's %d: an optional minus sign and the decimal digits. */
  function FormatInt(v: int): string
  {
    if v < 0 then "-" + Decimal(-v) else Decimal(v)
  }

  /** Decimal writes digits only, starts with 0 only for zero, and reads back as n. */
  lemma {:induction false} DecimalDigits(n: nat)
    ensures |Decimal(n)| > 0
    ensures forall i :: 0 <= i < |Decimal(n)| ==> IsDecimalDigit(Decimal(n)[i])
    ensures n > 0 ==> Decimal(n)[0] != '0'
    ensures n == 0 ==> Decimal(n) == "0"
    ensures Value(Decimal(n), 10) == n
  {
    if n >= 10 {
      DecimalDigits(n / 10);
      var s := Decimal(n);
      assert s[..|s| - 1] == Decimal(n / 10);
    }
  }

  /** The characters FormatInt writes: digits, and a leading minus sign for negative values. */
  lemma FormatIntChars(v: int)
    ensures |FormatInt(v)| > 0
    ensures forall i :: 0 <= i < |FormatInt(v)| ==> IsDecimalDigit(FormatInt(v)[i]) || (i == 0 && v < 0 && FormatInt(v)[i] == '-')
    ensures IsDecimalDigit(FormatInt(v)[|FormatInt(v)| - 1])
  {
    DecimalDigits(if v < 0 then -(v as int) else v);
  }

  /** Base 0 reads back every int64 that %d writes. */
  lemma ParseFormatInt(v: int64)
    ensures ParseInt(FormatInt(v)) == Some(v)
  {
    var n: nat := if v < 0 then -(v as int) else v;
    DecimalDigits(n);
    var d := Decimal(n);
    assert '_' !in d;
    if n == 0 {
      assert d == "0" && d[1..] == [];
      assert BaseAndDigits(d) == (8, []);
    } else {
      assert BaseAndDigits(d) == (10, d);
    }
    assert ParseUint(d) == Some(n);
    if v < 0 {
      assert FormatInt(v)[1..] == d;
    }
  }

  /** Every character is a decimal digit. */
  predicate AllDecimal(d: string)
  {
    forall i :: 0 <= i < |d| ==> IsDecimalDigit(d[i])
  }

  /** Every character is an octal digit. */
  predicate AllOctal(d: string)
  {
    forall i :: 0 <= i < |d| ==> '0' <= d[i] <= '7'
  }

  /** An int64 when n fits, None otherwise: how ParseInt ends for a numeral without a sign. */
  function InRange(n: nat): Option<int64>
  {
    if n <= MaxInt64 then Some(n) else None
  }

  /** A numeral that starts with a digit has no sign, so ParseInt is ParseUint cut to int64. */
  lemma ParseUnsigned(s: string)
    requires |s| > 0 && IsDecimalDigit(s[0])
    ensures ParseUint(s).None? ==> ParseInt(s) == None
    ensures ParseUint(s).Some? ==> ParseInt(s) == InRange(ParseUint(s).value)
  {
  }

  /**
   * Base 0 on a run of decimal digits, the only numerals the stats grammar lets through:
   * without a leading 0 the digits are decimal; with one they are octal, so an 8 or a 9
   * after it is an error; values beyond int64 are errors.
   */
  lemma ParseDigits(d: string)
    requires |d| > 0 && AllDecimal(d)
    ensures d[0] != '0' ==> ParseInt(d) == InRange(Value(d, 10))
    ensures d[0] == '0' && !AllOctal(d[1..]) ==> ParseInt(d) == None
    ensures d[0] == '0' && AllOctal(d[1..]) ==> ParseInt(d) == InRange(Value(d[1..], 8))
  {
    ParseUnsigned(d);
    assert '_' !in d;
    if d[0] == '0' {
      assert BaseAndDigits(d) == (8, d[1..]);
      assert '_' !in d[1..];
      if !AllOctal(d[1..]) {
        var i :| 0 <= i < |d[1..]| && !('0' <= d[1..][i] <= '7');
        assert DigitValue(d[1..][i]) >= 8;
        assert ParseUint(d) == None;
      } else {
        assert ValidDigits(d[1..], 8);
        if Value(d[1..], 8) > MaxUint64 {
          assert ParseUint(d) == None;
        } else {
          assert ParseUint(d) == Some(Value(d[1..], 8));
        }
      }
    } else {
      assert BaseAndDigits(d) == (10, d);
      assert ValidDigits(d, 10);
      if Value(d, 10) > MaxUint64 {
        assert ParseUint(d) == None;
      } else {
        assert ParseUint(d) == Some(Value(d, 10));
      }
    }
  }

  /** The examples the plugin's values hinge on: 012 is octal ten, 08 is rejected, 0 is zero. */
  lemma OctalExamples()
    ensures ParseInt("012") == Some(10)
    ensures ParseInt("08") == None
    ensures ParseInt("0") == Some(0)
    ensures ParseInt("123") == Some(123)
  {
    LeadingZeroOctal();
    LeadingZeroBadDigit();
    Zero();
    PlainDecimal();
  }

  /** "012" is octal. */
  lemma LeadingZeroOctal()
    ensures ParseInt("012") == Some(10)
  {
    ParseDigits("012");
    assert "012"[1..] == "12";
    assert "12"[..1] == "1";
  }

  /** "08" is an invalid octal numeral. */
  lemma LeadingZeroBadDigit()
    ensures ParseInt("08") == None
  {
    ParseDigits("08");
    assert "08"[1..][0] == '8';
  }

  /** "0" is zero. */
  lemma Zero()
    ensures ParseInt("0") == Some(0)
  {
    ParseDigits("0");
  }

  /** "123" is decimal. */
  lemma PlainDecimal()
    ensures ParseInt("123") == Some(123)
  {
    ParseDigits("123");
    assert "123"[..2] == "12";
    assert "12"[..1] == "1";
  }
}
