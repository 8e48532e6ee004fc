/**
 * The two C++ library conversions the parsers rely on, `std::stoi` and
 * `std::stof`, as far as they decide whether a field is accepted.
 */
module Numeric {
  import opened Wrappers
  import opened ParseUtil

  /** Why a line yields no record: too few fields, or a field a conversion rejects. */
  datatype ParseError = NotEnoughFields | BadNumber(field: nat)

  /** The range of a 32-bit C++ `int`. */
  const IntMin: int := -0x8000_0000
  const IntMax: int := 0x7FFF_FFFF

  predicate IsDigit(c: char)
  {
    '0' <= c <= '9'
  }

  /** Length of the longest prefix of `s` made of decimal digits. */
  function DigitRun(s: string): (n: nat)
    ensures n <= |s|
  {
    if s == [] || !IsDigit(s[0]) then 0 else 1 + DigitRun(s[1..])
  }

  /** DigitRun stops at the first character that is not a digit. */
  lemma {:induction false} DigitRunSpec(s: string)
    ensures forall i :: 0 <= i < DigitRun(s) ==> IsDigit(s[i])
    ensures DigitRun(s) < |s| ==> !IsDigit(s[DigitRun(s)])
  {
    if s != [] && IsDigit(s[0]) {
      DigitRunSpec(s[1..]);
    }
  }

  /** The value of a string of decimal digits, most significant first. */
  function DigitsValue(ds: string): int
  {
    if ds == [] then 0
    else DigitsValue(ds[..|ds| - 1]) * 10 + (ds[|ds| - 1] as int - '0' as int)
  }

  /** A numeral with its leading '+' or '-' removed. */
  function Unsigned(s: string): string
  {
    if |s| > 0 && (s[0] == '+' || s[0] == '-') then s[1..] else s
  }

  /**
   * std::stoi: `strtol` in base 10 (an optional sign, then the longest run of
   * digits; characters after the run are ignored), failing when there is no
   * digit or the value does not fit in an `int`. Fields are tokens and hold no
   * whitespace, so the leading-whitespace skip of `strtol` never applies.
   */
  function StoI(s: string): Option<int>
  {
    var body := Unsigned(s);
    var n := DigitRun(body);
    if n == 0 then None
    else
      var magnitude := DigitsValue(body[..n]);
      var v: int := if |s| > 0 && s[0] == '-' then -magnitude else magnitude;
      if IntMin <= v <= IntMax then Some(v) else None
  }

  /** Whether `s` begins with the capitals of `word` in either case. */
  predicate StartsWithIgnoringCase(s: string, word: string)
  {
    word == [] || (|s| > 0 && UpperChar(s[0]) == word[0] && StartsWithIgnoringCase(s[1..], word[1..]))
  }

  /**
   * Whether std::stof (`strtof`) converts `s` instead of throwing
   * `invalid_argument`: after an optional sign there must be a digit, a '.'
   * followed by a digit, or the words "inf" or "nan" in any case. The value
   * itself is not modelled.
   */
  predicate StofAccepts(s: string)
  {
    var body := Unsigned(s);
    || (|body| > 0 && IsDigit(body[0]))
    || (|body| > 1 && body[0] == '.' && IsDigit(body[1]))
    || StartsWithIgnoringCase(body, "INF")
    || StartsWithIgnoringCase(body, "NAN")
  }

  // ---------------------------------------------------------------------
  // Decimal rendering, the inverse of StoI

  function DigitChar(d: nat): char
    requires d < 10
  {
    ('0' as int + d) as char
  }

  function NatDigits(n: nat): (ds: string)
    ensures |ds| > 0
    ensures forall i :: 0 <= i < |ds| ==> IsDigit(ds[i])
  {
    if n < 10 then [DigitChar(n)] else NatDigits(n / 10) + [DigitChar(n % 10)]
  }

  /** The decimal text of `n`, with a '-' when negative. */
  function FormatInt(n: int): string
  {
    if n < 0 then "-" + NatDigits(-n) else NatDigits(n)
  }

  lemma {:induction false} NatDigitsValue(n: nat)
    ensures DigitsValue(NatDigits(n)) == n
  {
    if n >= 10 {
      NatDigitsValue(n / 10);
      var ds := NatDigits(n);
      assert ds[..|ds| - 1] == NatDigits(n / 10);
    }
  }

  lemma DigitRunOfNumeral(ds: string, rest: string)
    requires forall i :: 0 <= i < |ds| ==> IsDigit(ds[i])
    requires rest == [] || !IsDigit(rest[0])
    ensures DigitRun(ds + rest) == |ds|
    ensures (ds + rest)[..|ds|] == ds
  {
    var s := ds + rest;
    DigitRunSpec(s);
    assert |ds| < |s| ==> !IsDigit(s[|ds|]);
    assert forall i :: 0 <= i < |ds| ==> s[i] == ds[i];
  }

  /** The text of `n` is an optional '-' followed by the digits of its magnitude. */
  lemma FormatIntShape(n: int, rest: string)
    ensures var s, digits := FormatInt(n) + rest, NatDigits(if n < 0 then -n else n);
      && |s| > 0
      && Unsigned(s) == digits + rest
      && (s[0] == '-' <==> n < 0)
  {
    var s, digits := FormatInt(n) + rest, NatDigits(if n < 0 then -n else n);
    if n < 0 {
      assert s == ['-'] + (digits + rest);
      assert s[1..] == digits + rest;
    } else {
      assert s == digits + rest;
      assert s[0] == digits[0] && IsDigit(digits[0]);
    }
  }

  /**
   * stoi reads back every `int` written in decimal, whatever non-digit text
   * follows the numeral.
   */
  lemma StoIRoundTrip(n: int, rest: string)
    requires IntMin <= n <= IntMax
    requires rest == [] || !IsDigit(rest[0])
    ensures StoI(FormatInt(n) + rest) == Some(n)
  {
    var magnitude := if n < 0 then -n else n;
    var digits := NatDigits(magnitude);
    var s := FormatInt(n) + rest;
    FormatIntShape(n, rest);
    DigitRunOfNumeral(digits, rest);
    NatDigitsValue(magnitude);
    assert DigitsValue(Unsigned(s)[..DigitRun(Unsigned(s))]) == magnitude;
  }

  /** stoi fails on a field with no digit after its optional sign. */
  lemma StoIRejectsNonNumeral(s: string)
    requires Unsigned(s) == [] || !IsDigit(Unsigned(s)[0])
    ensures StoI(s) == None
  {
  }

  /** In this model, every field stoi accepts, stof accepts too (a range error of `stof` aside). */
  lemma StoIAcceptedByStof(s: string)
    requires StoI(s).Some?
    ensures StofAccepts(s)
  {
  }
}
