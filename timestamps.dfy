/**
 * The partition name of an error event: app/api/v1/endpoints/error_logs.py,
 * lines 43-44. Every 'Z' of the timestamp is rewritten to "+00:00", the
 * result is parsed as an ISO 8601 date-time (datetime.fromisoformat) and the
 * parsed date, formatted as YYYY-MM-DD, names the file "<date>.jsonl".
 *
 * The parser accepts the extended format "YYYY-MM-DD", optionally followed by
 * one separator character and a time "HH[:MM[:SS[.fff|.ffffff]]]" with an
 * optional offset "+HH:MM" or "-HH:MM". The date is checked against the
 * calendar; the offset is never applied to the date.
 */
module Timestamps {
  import opened Wrappers

  // ---------------------------------------------------------------------
  // timestamp.replace('Z', '+00:00')
  // ---------------------------------------------------------------------

  /** What one character becomes. */
  function RewriteChar(c: char): string {
    if c == 'Z' then "+00:00" else [c]
  }

  /** Every 'Z' of s rewritten to "+00:00". */
  function ReplaceZ(s: string): (r: string)
    ensures 'Z' !in s ==> r == s
    ensures |r| >= |s|
  {
    if s == [] then [] else RewriteChar(s[0]) + ReplaceZ(s[1..])
  }

  /** The rewrite works character by character, so it distributes over concatenation. */
  lemma {:induction false} ReplaceZConcat(a: string, b: string)
    ensures ReplaceZ(a + b) == ReplaceZ(a) + ReplaceZ(b)
  {
    if a == [] {
      assert a + b == b;
    } else {
      var ab := a + b;
      assert ab[0] == a[0] && ab[1..] == a[1..] + b;
      ReplaceZConcat(a[1..], b);
      calc {
        ReplaceZ(ab);
        RewriteChar(a[0]) + ReplaceZ(a[1..] + b);
        RewriteChar(a[0]) + (ReplaceZ(a[1..]) + ReplaceZ(b));
        (RewriteChar(a[0]) + ReplaceZ(a[1..])) + ReplaceZ(b);
      }
    }
  }

  // ---------------------------------------------------------------------
  // Digits
  // ---------------------------------------------------------------------

  predicate IsDigit(c: char) {
    '0' <= c <= '9'
  }

  predicate AllDigits(s: string) {
    forall i :: 0 <= i < |s| ==> IsDigit(s[i])
  }

  /** The decimal value of a string of digits. */
  function Number(s: string): (n: nat)
    requires AllDigits(s)
    ensures n < Pow10(|s|)
  {
    if s == [] then 0
    else Number(s[..|s| - 1]) * 10 + (s[|s| - 1] as int - '0' as int)
  }

  function Pow10(k: nat): (p: nat)
    ensures p >= 1
  {
    if k == 0 then 1 else 10 * Pow10(k - 1)
  }

  /** n written in decimal with exactly width digits, zero-padded (as %04d, %02d). */
  function Digits(n: nat, width: nat): (s: string)
    requires n < Pow10(width)
    ensures |s| == width && AllDigits(s)
  {
    if width == 0 then ""
    else Digits(n / 10, width - 1) + [('0' as int + n % 10) as char]
  }

  /** Reading back what Digits writes gives the number. */
  lemma {:induction false} NumberOfDigits(n: nat, width: nat)
    requires n < Pow10(width)
    ensures Number(Digits(n, width)) == n
  {
    if width > 0 {
      var s := Digits(n, width);
      assert s[..|s| - 1] == Digits(n / 10, width - 1);
      NumberOfDigits(n / 10, width - 1);
    }
  }

  /** Writing back what Number reads gives the digits (leading zeros included). */
  lemma {:induction false} DigitsOfNumber(s: string)
    requires AllDigits(s)
    ensures Digits(Number(s), |s|) == s
  {
    if s != [] {
      var init := s[..|s| - 1];
      DigitsOfNumber(init);
      var n := Number(s);
      assert n / 10 == Number(init) && n % 10 == s[|s| - 1] as int - '0' as int;
      assert s == init + [s[|s| - 1]];
    }
  }

  // ---------------------------------------------------------------------
  // Dates
  // ---------------------------------------------------------------------

  datatype Date = Date(year: nat, month: nat, day: nat)

  predicate IsLeapYear(y: nat) {
    y % 4 == 0 && (y % 100 != 0 || y % 400 == 0)
  }

  function DaysInMonth(y: nat, m: nat): nat
    requires 1 <= m <= 12
  {
    if m == 2 then (if IsLeapYear(y) then 29 else 28)
    else if m == 4 || m == 6 || m == 9 || m == 11 then 30
    else 31
  }

  /** A calendar date datetime accepts: year 1 to 9999. */
  predicate ValidDate(d: Date) {
    1 <= d.year <= 9999 && 1 <= d.month <= 12 && 1 <= d.day <= DaysInMonth(d.year, d.month)
  }

  /** The digit positions of "YYYY-MM-DD" hold digits and the dashes are in place. */
  predicate DateShape(s: string) {
    |s| == 10 && AllDigits(s[..4]) && s[4] == '-' && AllDigits(s[5..7]) && s[7] == '-' && AllDigits(s[8..])
  }

  /** Parses "YYYY-MM-DD" into a valid calendar date. */
  function ParseDate(s: string): (r: Option<Date>)
    ensures r.Some? ==> DateShape(s) && ValidDate(r.value)
  {
    if !DateShape(s) then None
    else
      var d := Date(Number(s[..4]), Number(s[5..7]), Number(s[8..]));
      if ValidDate(d) then Some(d) else None
  }

  /** strftime('%Y-%m-%d'). */
  function FormatDate(d: Date): (s: string)
    requires ValidDate(d)
    ensures DateShape(s)
  {
    var y, m, dd := Digits(d.year, 4), Digits(d.month, 2), Digits(d.day, 2);
    var s := y + "-" + m + "-" + dd;
    assert s[..4] == y && s[5..7] == m && s[8..] == dd;
    s
  }

  /** Formatting a parsed date gives back the text it was parsed from. */
  lemma FormatParsedDate(s: string)
    requires ParseDate(s).Some?
    ensures FormatDate(ParseDate(s).value) == s
  {
    var d := ParseDate(s).value;
    assert d == Date(Number(s[..4]), Number(s[5..7]), Number(s[8..]));
    assert Digits(d.year, 4) == s[..4] by {
      DigitsOfNumber(s[..4]);
    }
    assert Digits(d.month, 2) == s[5..7] by {
      DigitsOfNumber(s[5..7]);
    }
    assert Digits(d.day, 2) == s[8..] by {
      DigitsOfNumber(s[8..]);
    }
    assert s == s[..4] + "-" + s[5..7] + "-" + s[8..];
  }

  /** Parsing a formatted date gives back the date. */
  lemma ParseFormattedDate(d: Date)
    requires ValidDate(d)
    ensures ParseDate(FormatDate(d)) == Some(d)
  {
    var s := FormatDate(d);
    assert s[..4] == Digits(d.year, 4);
    assert s[5..7] == Digits(d.month, 2);
    assert s[8..] == Digits(d.day, 2);
    NumberOfDigits(d.year, 4);
    NumberOfDigits(d.month, 2);
    NumberOfDigits(d.day, 2);
  }

  // ---------------------------------------------------------------------
  // Times and offsets
  // ---------------------------------------------------------------------

  /** s[i..i+2] is a two-digit number below bound. */
  predicate TwoDigitsBelow(s: string, i: nat, bound: nat) {
    i + 2 <= |s| && AllDigits(s[i..i + 2]) && Number(s[i..i + 2]) < bound
  }

  /** "HH", "HH:MM", "HH:MM:SS", "HH:MM:SS.fff" or "HH:MM:SS.ffffff" in range. */
  predicate ValidClock(t: string) {
    && (|t| == 2 || |t| == 5 || |t| == 8 || |t| == 12 || |t| == 15)
    && TwoDigitsBelow(t, 0, 24)
    && (|t| >= 5 ==> t[2] == ':' && TwoDigitsBelow(t, 3, 60))
    && (|t| >= 8 ==> t[5] == ':' && TwoDigitsBelow(t, 6, 60))
    && (|t| >= 12 ==> t[8] == '.' && AllDigits(t[9..]))
  }

  /** "+HH:MM" or "-HH:MM", less than a day. */
  predicate ValidOffset(z: string) {
    |z| == 6 && (z[0] == '+' || z[0] == '-') && TwoDigitsBelow(z, 1, 24) && z[3] == ':' && TwoDigitsBelow(z, 4, 60)
  }

  /** The position of the first '+' or '-' in t, where the offset begins. */
  function OffsetStart(t: string): (r: Option<nat>)
    ensures r.Some? ==> r.value < |t| && (t[r.value] == '+' || t[r.value] == '-')
  {
    if t == [] then None
    else if t[0] == '+' || t[0] == '-' then Some(0)
    else match OffsetStart(t[1..])
      case None => None
      case Some(i) => Some(i + 1)
  }

  /** A time, split at its first sign into clock and offset. */
  predicate ValidTime(t: string) {
    match OffsetStart(t)
    case None => ValidClock(t)
    case Some(i) => ValidClock(t[..i]) && ValidOffset(t[i..])
  }

  /** datetime.fromisoformat, reduced to the date it yields. */
  function ParseIsoDateTime(s: string): (r: Option<Date>)
    ensures r.Some? ==> |s| >= 10 && ParseDate(s[..10]) == r
  {
    if |s| < 10 then None
    else if |s| > 10 && !ValidTime(s[11..]) then None
    else ParseDate(s[..10])
  }

  /**
   * The log file an event with this timestamp goes to, or None when the
   * timestamp does not parse (lines 43-44).
   */
  function PartitionName(timestamp: string): (r: Option<string>)
    ensures r.Some? ==> |r.value| == 16 && r.value[10..] == ".jsonl"
  {
    match ParseIsoDateTime(ReplaceZ(timestamp))
    case None => None
    case Some(d) => Some(FormatDate(d) + ".jsonl")
  }

  /** The index of the first 'Z'. */
  function FirstZ(s: string): (k: nat)
    requires 'Z' in s
    ensures k < |s| && s[k] == 'Z'
    ensures forall j :: 0 <= j < k ==> s[j] != 'Z'
  {
    if s[0] == 'Z' then 0 else FirstZ(s[1..]) + 1
  }

  /** Every character of a "YYYY-MM-DD" text is a digit or a dash. */
  lemma DateShapeChars(s: string)
    ensures DateShape(s) ==> forall i :: 0 <= i < |s| ==> IsDigit(s[i]) || s[i] == '-'
  {
    if DateShape(s) {
      forall i | 0 <= i < |s| ensures IsDigit(s[i]) || s[i] == '-' {
        if i < 4 {
          assert s[..4][i] == s[i];
        } else if 4 < i < 7 {
          assert s[5..7][i - 5] == s[i];
        } else if 7 < i {
          assert s[8..][i - 8] == s[i];
        }
      }
    }
  }

  /** The first 'Z' of a timestamp is rewritten in place: a '+' stands where it stood. */
  lemma FirstZRewritten(timestamp: string)
    requires 'Z' in timestamp
    ensures FirstZ(timestamp) < |ReplaceZ(timestamp)| && ReplaceZ(timestamp)[FirstZ(timestamp)] == '+'
  {
    var k := FirstZ(timestamp);
    var before, rest := timestamp[..k], timestamp[k..];
    assert timestamp == before + rest;
    ReplaceZConcat(before, rest);
    assert ReplaceZ(before) == before by {
      assert 'Z' !in before;
    }
    assert ReplaceZ(rest) == "+00:00" + ReplaceZ(rest[1..]) by {
      assert rest[0] == 'Z';
    }
  }

  /**
   * A 'Z' among the first ten characters spoils the date: its rewrite puts
   * a '+' where a digit or a dash must be.
   */
  lemma ZInDatePositionFails(timestamp: string, i: nat)
    requires i < |timestamp| && i < 10 && timestamp[i] == 'Z'
    ensures ParseIsoDateTime(ReplaceZ(timestamp)).None?
  {
    var k := FirstZ(timestamp);
    var s := ReplaceZ(timestamp);
    FirstZRewritten(timestamp);
    if |s| >= 10 {
      assert !DateShape(s[..10]) by {
        assert s[..10][k] == '+';
        DateShapeChars(s[..10]);
      }
      assert ParseDate(s[..10]).None?;
    }
  }

  /** Ten leading characters without a 'Z' begin the rewrite unchanged. */
  lemma ZFreeHeadKept(timestamp: string)
    requires |timestamp| >= 10 && 'Z' !in timestamp[..10]
    ensures |ReplaceZ(timestamp)| >= 10 && ReplaceZ(timestamp)[..10] == timestamp[..10]
  {
    var head, tail := timestamp[..10], timestamp[10..];
    assert timestamp == head + tail;
    ReplaceZConcat(head, tail);
    assert ReplaceZ(head) == head;
    assert (head + ReplaceZ(tail))[..10] == head;
  }

  /** Rewriting the 'Z's of a timestamp leaves a well-formed leading date unchanged. */
  lemma WrittenDateKept(timestamp: string)
    ensures ParseIsoDateTime(ReplaceZ(timestamp)).Some? ==>
      |timestamp| >= 10 && ReplaceZ(timestamp)[..10] == timestamp[..10]
  {
    if 'Z' in timestamp {
      var k := FirstZ(timestamp);
      if k < 10 {
        ZInDatePositionFails(timestamp, k);
      } else {
        assert 'Z' !in timestamp[..10];
        ZFreeHeadKept(timestamp);
      }
    }
  }

  /**
   * The partition is the date exactly as the timestamp writes it: no 'Z' can
   * sit in a well-formed date, and no offset is applied, so an event stamped
   * late in the evening at -05:00 lands on that evening's date.
   */
  lemma PartitionIsWrittenDate(timestamp: string)
    requires PartitionName(timestamp).Some?
    ensures |timestamp| >= 10
    ensures PartitionName(timestamp) == Some(timestamp[..10] + ".jsonl")
  {
    WrittenDateKept(timestamp);
    FormatParsedDate(ReplaceZ(timestamp)[..10]);
  }
}
