/**
 * Text forms of uuids and timestamps as they cross the gRPC boundary, and the parse
 * helpers that turn a malformed field into an `InvalidArgument` status naming the field.
 * The real uuid and date-time syntaxes are stood in for by decimal numerals. Formatting
 * prints a value's one canonical numeral; parsing accepts every spelling of it, leading
 * zeros included, as `Uuid::parse_str` accepts upper case, braces and urns and chrono accepts
 * short fractions. So parsing inverts formatting, and formatting does not invert parsing.
 */
module Codec {
  import opened Wrappers
  import opened Domain

  predicate IsDigit(c: char)
  {
    '0' <= c <= '9'
  }

  function DigitChar(d: nat): (c: char)
    requires d < 10
    ensures IsDigit(c)
  {
    ('0' as int + d) as char
  }

  function DigitValue(c: char): (d: nat)
    requires IsDigit(c)
    ensures d < 10
    ensures DigitChar(d) == c
  {
    c as int - '0' as int
  }

  predicate AllDigits(s: string)
  {
    forall i :: 0 <= i < |s| ==> IsDigit(s[i])
  }

  /** A spelling the parser accepts: one or more digits. */
  predicate Numeral(s: string)
  {
    |s| >= 1 && AllDigits(s)
  }

  /** The spelling the formatter prints: no leading zero, except "0" itself. */
  predicate Canonical(s: string)
  {
    |s| >= 1 && AllDigits(s) && (s[0] == '0' ==> |s| == 1)
  }

  /** The decimal numeral of `n`. */
  function Decimal(n: nat): (s: string)
    ensures |s| >= 1 && AllDigits(s)
    decreases n
  {
    if n < 10 then [DigitChar(n)] else Decimal(n / 10) + [DigitChar(n % 10)]
  }

  function DigitsValue(s: string): nat
    requires AllDigits(s)
    decreases |s|
  {
    if s == [] then 0 else DigitsValue(s[..|s| - 1]) * 10 + DigitValue(s[|s| - 1])
  }

  function ParseNat(s: string): (r: Option<nat>)
    ensures r.Some? <==> Numeral(s)
    ensures r.Some? ==> r.value == DigitsValue(s)
  {
    if Numeral(s) then Some(DigitsValue(s)) else None
  }

  lemma {:induction false} DecimalCanonical(n: nat)
    ensures Canonical(Decimal(n)) && DigitsValue(Decimal(n)) == n
    decreases n
  {
    if n >= 10 {
      var d := Decimal(n / 10);
      DecimalCanonical(n / 10);
      var s := d + [DigitChar(n % 10)];
      assert s[..|s| - 1] == d;
    }
  }

  /** Parsing a formatted number gives the number back. */
  lemma ParseDecimal(n: nat)
    ensures ParseNat(Decimal(n)) == Some(n)
  {
    DecimalCanonical(n);
  }

  /** A leading zero does not change the value: "07" and "7" both parse to 7. */
  lemma LeadingZeroIgnored(s: string)
    requires Numeral(s)
    ensures ParseNat("0" + s) == ParseNat(s)
    decreases |s|
  {
    if |s| == 1 {
      assert ("0" + s)[..1] == "0" && ("0" + s)[1] == s[0] && s[..0] == [];
      assert DigitsValue("0") == DigitsValue([]) * 10 + 0;
    } else {
      var p := s[..|s| - 1];
      assert ("0" + s)[..|"0" + s| - 1] == "0" + p;
      LeadingZeroIgnored(p);
    }
  }

  // ---------------------------------------------------------------------------
  // Uuids and timestamps

  /** A uuid's text: its canonical numeral, which parses back to it. */
  function FormatUuid(id: Uuid): (s: string)
    ensures Canonical(s) && ParseNat(s) == Some(id)
  {
    DecimalCanonical(id);
    Decimal(id)
  }

  /** A timestamp's text: "-" and the canonical numeral of its magnitude when negative,
      otherwise its canonical numeral. */
  function FormatTimestamp(t: Timestamp): (s: string)
    ensures |s| >= 1 && (s[0] == '-' <==> t < 0)
    ensures t < 0 ==> Canonical(s[1..]) && ParseNat(s[1..]) == Some(-t)
    ensures t >= 0 ==> Canonical(s) && ParseNat(s) == Some(t)
  {
    if t < 0 then
      var s := "-" + Decimal(-t);
      DecimalCanonical(-t);
      assert s[1..] == Decimal(-t);
      s
    else
      DecimalCanonical(t);
      Decimal(t)
  }

  /** Signed numerals: "-" and a numeral of a positive value, or a numeral. */
  function ParseTimestampText(s: string): (r: Option<Timestamp>)
    ensures Numeral(s) ==> r == Some(DigitsValue(s))
    ensures r.Some? && r.value >= 0 ==> Numeral(s) && r.value == DigitsValue(s)
    ensures r.Some? && r.value < 0 ==> |s| >= 1 && s[0] == '-' && Numeral(s[1..]) && -r.value == DigitsValue(s[1..])
    ensures r.None? ==> !Numeral(s) && !(|s| >= 1 && s[0] == '-' && Numeral(s[1..]) && DigitsValue(s[1..]) > 0)
  {
    if |s| >= 1 && s[0] == '-' then
      match ParseNat(s[1..])
      case Some(n) => if n > 0 then Some(0 - n) else None
      case None => None
    else
      match ParseNat(s)
      case Some(n) => Some(n)
      case None => None
  }

  lemma ParseFormatTimestamp(t: Timestamp)
    ensures ParseTimestampText(FormatTimestamp(t)) == Some(t)
  {
  }

  /** What the uuid and date-time parsers report; their exact wording belongs to those libraries. */
  const UuidSyntaxError: string := "invalid uuid"
  const DateTimeSyntaxError: string := "input is not a date-time"

  function InvalidField(field: string, detail: string): Status
  {
    Status(InvalidArgument, "invalid " + field + ": " + detail)
  }

  /** `parse_uuid(field, value)`: any spelling of an id is accepted, and the id's own text
      names the same id. */
  function ParseUuid(field: string, value: string): (r: Result<Uuid, Status>)
    ensures r.Success? <==> Numeral(value)
    ensures r.Success? ==> r.value == DigitsValue(value) && ParseNat(FormatUuid(r.value)) == Some(r.value)
    ensures r.Failure? ==> r.error == InvalidField(field, UuidSyntaxError)
  {
    match ParseNat(value)
    case Some(n) => Success(n)
    case None => Failure(InvalidField(field, UuidSyntaxError))
  }

  /** `parse_naive_datetime(field, value)`: any spelling of a date-time is accepted, and the
      value's own text names the same value. */
  function ParseTimestamp(field: string, value: string): (r: Result<Timestamp, Status>)
    ensures r.Success? <==> ParseTimestampText(value).Some?
    ensures r.Success? ==> ParseTimestampText(value) == Some(r.value) && ParseTimestampText(FormatTimestamp(r.value)) == Some(r.value)
    ensures r.Failure? ==> r.error == InvalidField(field, DateTimeSyntaxError)
  {
    match ParseTimestampText(value)
    case Some(t) => ParseFormatTimestamp(t); Success(t)
    case None => Failure(InvalidField(field, DateTimeSyntaxError))
  }

  /** Two spellings of one id parse alike, and the id prints as one of them only. */
  lemma UuidSpellings(field: string)
    ensures ParseUuid(field, "007") == ParseUuid(field, "7") == Success(7)
    ensures FormatUuid(7) == "7"
  {
    LeadingZeroIgnored("7");
    LeadingZeroIgnored("07");
    assert "0" + "07" == "007";
    assert DigitsValue("7") == DigitsValue([])* 10 + 7;
    assert Decimal(7) == [DigitChar(7)];
  }

  /** The same for a date-time: "-042" is accepted and prints back as "-42". */
  lemma TimestampSpellings(field: string)
    ensures ParseTimestamp(field, "-042") == ParseTimestamp(field, "-42") == Success(-42)
    ensures FormatTimestamp(-42) == "-42"
  {
    assert "42"[..1] == "4" && "4"[..0] == [];
    assert DigitsValue("4") == 4;
    assert DigitsValue("42") == 42;
    LeadingZeroIgnored("42");
    assert "0" + "42" == "042";
    assert ParseNat("042") == Some(42) && ParseNat("42") == Some(42);
    assert "-042"[1..] == "042" && "-42"[1..] == "42";
    assert ParseTimestampText("-042") == Some(-42) && ParseTimestampText("-42") == Some(-42);
    assert Decimal(42) == Decimal(4) + [DigitChar(2)];
  }

  lemma ParseUuidFormat(field: string, id: Uuid)
    ensures ParseUuid(field, FormatUuid(id)) == Success(id)
  {
    ParseDecimal(id);
  }

  lemma ParseTimestampFormat(field: string, t: Timestamp)
    ensures ParseTimestamp(field, FormatTimestamp(t)) == Success(t)
  {
    ParseFormatTimestamp(t);
  }
}
