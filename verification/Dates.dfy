/**
 Dates as ten-character strings, YYYY-MM-DD (the extended calendar date of ISO 8601:2004,
 section 4.1.2.2), and closed ranges of them. Only the shape is checked, not the calendar.
 */
module Dates {
  import opened Outcomes
  import opened Text

  predicate Digit(c: char) { '0' <= c <= '9' }

  /** The shape four digits, hyphen, two digits, hyphen, two digits. */
  predicate IsoDate(s: string) {
    && |s| == 10
    && forall i :: 0 <= i < 10 ==> if i == 4 || i == 7 then s[i] == '-' else Digit(s[i])
  }

  method IsIsoDate(s: string) returns (ok: bool)
    ensures ok == IsoDate(s)
  {
    if |s| != 10 || s[4] != '-' || s[7] != '-' {
      return false;
    }
    for i := 0 to |s|
      invariant forall j :: 0 <= j < i && j != 4 && j != 7 ==> Digit(s[j])
    {
      if i == 4 || i == 7 { continue; }
      if !Digit(s[i]) {
        return false;
      }
    }
    return true;
  }

  datatype Range = Range(startDate: string, endDate: string)

  predicate ValidRange(r: Range) {
    IsoDate(r.startDate) && IsoDate(r.endDate) && !Less(r.endDate, r.startDate)
  }

  /** A closed range of dates; no other can be constructed. */
  type DateRange = r: Range | ValidRange(r) witness Range("0000-00-00", "0000-00-00")

  /** The constructor, which fails exactly on a malformed date or a start after the end. */
  method MakeRange(startDate: string, endDate: string) returns (r: Result<DateRange>)
    ensures r.Ok? <==> IsoDate(startDate) && IsoDate(endDate) && !Less(endDate, startDate)
    ensures r.Ok? ==> r.value == Range(startDate, endDate)
    ensures r.Err? ==> r.error == InvalidArgument
  {
    var startOk := IsIsoDate(startDate);
    var endOk := startOk;
    if startOk { endOk := IsIsoDate(endDate); }
    if !startOk || !endOk {
      return Err(InvalidArgument);
    }
    if Less(endDate, startDate) {
      return Err(InvalidArgument);
    }
    return Ok(Range(startDate, endDate));
  }

  /** The test of the history filter and of the bounds check: not before start, not after end. */
  predicate Within(date: string, startDate: string, endDate: string) {
    !Less(date, startDate) && !Less(endDate, date)
  }

  // ----- the order of dates is the order of time

  predicate Digits(s: string) { forall i :: 0 <= i < |s| ==> Digit(s[i]) }

  /** The number a string of digits denotes. */
  function Number(s: string): int
    requires Digits(s)
  {
    if s == [] then 0 else 10 * Number(s[..|s| - 1]) + (s[|s| - 1] as int - '0' as int)
  }

  function Year(s: string): int requires IsoDate(s) { Number(s[..4]) }
  function Month(s: string): int requires IsoDate(s) { Number(s[5..7]) }
  function Day(s: string): int requires IsoDate(s) { Number(s[8..]) }

  lemma {:induction false} DigitsOrder(a: string, b: string)
    requires Digits(a) && Digits(b) && |a| == |b|
    ensures Less(a, b) <==> Number(a) < Number(b)
    decreases |a|
  {
    if a != [] {
      var n := |a| - 1;
      DigitsOrder(a[..n], b[..n]);
      DigitsOrder(b[..n], a[..n]);
      LessTotal(a[..n], b[..n]);
      LessAppend(a[..n], b[..n], [a[n]], [b[n]]);
      assert a == a[..n] + [a[n]] && b == b[..n] + [b[n]];
    }
  }

  /** a comes before b in time, year by year, month by month, day by day. */
  predicate Before(a: string, b: string)
    requires IsoDate(a) && IsoDate(b)
  {
    Year(a) < Year(b)
    || (Year(a) == Year(b) && (Month(a) < Month(b) || (Month(a) == Month(b) && Day(a) < Day(b))))
  }

  lemma PartOrder(a: string, b: string)
    requires Digits(a) && Digits(b) && |a| == |b|
    ensures Less(a, b) <==> Number(a) < Number(b)
    ensures a == b <==> Number(a) == Number(b)
  {
    DigitsOrder(a, b);
    DigitsOrder(b, a);
    LessTotal(a, b);
  }

  /** On dates, comparing strings is comparing times. */
  lemma DateOrder(a: string, b: string)
    requires IsoDate(a) && IsoDate(b)
    ensures Less(a, b) <==> Before(a, b)
  {
    PartOrder(a[..4], b[..4]);
    PartOrder(a[5..7], b[5..7]);
    PartOrder(a[8..], b[8..]);
    assert forall s: string :: |s| == 10 ==> s == s[..4] + ([s[4]] + (s[5..7] + ([s[7]] + s[8..])));
    LessAppend(a[..4], b[..4], [a[4]] + (a[5..7] + ([a[7]] + a[8..])), [b[4]] + (b[5..7] + ([b[7]] + b[8..])));
    LessAppend([a[4]], [b[4]], a[5..7] + ([a[7]] + a[8..]), b[5..7] + ([b[7]] + b[8..]));
    LessAppend(a[5..7], b[5..7], [a[7]] + a[8..], [b[7]] + b[8..]);
    LessAppend([a[7]], [b[7]], a[8..], b[8..]);
  }

  /** A date within a range that itself lies within bounds is, in time, between all of them. */
  lemma WithinInTime(date: string, range: DateRange, minDate: string, maxDate: string)
    requires IsoDate(date) && IsoDate(minDate) && IsoDate(maxDate)
    requires Within(date, range.startDate, range.endDate)
    requires !Less(range.startDate, minDate) && !Less(maxDate, range.endDate)
    ensures !Before(date, range.startDate) && !Before(range.endDate, date)
    ensures !Before(range.startDate, minDate) && !Before(maxDate, range.endDate)
    ensures !Before(date, minDate) && !Before(maxDate, date)
  {
    DateOrder(date, range.startDate);
    DateOrder(range.endDate, date);
    DateOrder(range.startDate, minDate);
    DateOrder(maxDate, range.endDate);
  }

  /** For well-formed dates the test of a range is the test of time. */
  lemma WithinIsInTime(date: string, startDate: string, endDate: string)
    requires IsoDate(date) && IsoDate(startDate) && IsoDate(endDate)
    ensures Within(date, startDate, endDate) <==> !Before(date, startDate) && !Before(endDate, date)
  {
    DateOrder(date, startDate);
    DateOrder(endDate, date);
  }

  // ----- writing dates

  const DIGITS: string := "0123456789"

  /** A number in decimal, with leading zeros up to the width. */
  function Decimal(n: nat, width: nat): (s: string)
    ensures |s| == width
  {
    if width == 0 then "" else Decimal(n / 10, width - 1) + [DIGITS[n % 10]]
  }

  function Power(width: nat): nat { if width == 0 then 1 else 10 * Power(width - 1) }

  function Hyphenated(y: string, m: string, d: string): string { y + (['-'] + (m + (['-'] + d))) }

  function DateString(year: nat, month: nat, day: nat): string {
    Hyphenated(Decimal(year, 4), Decimal(month, 2), Decimal(day, 2))
  }

  lemma Parts(y: string, m: string, d: string)
    requires |y| == 4 && |m| == 2 && |d| == 2
    ensures var s := Hyphenated(y, m, d);
      |s| == 10 && s[..4] == y && s[4] == '-' && s[5..7] == m && s[7] == '-' && s[8..] == d
  {
  }

  lemma Joined(s: string)
    requires |s| == 10 && s[4] == '-' && s[7] == '-'
    ensures Hyphenated(s[..4], s[5..7], s[8..]) == s
  {
  }

  lemma DigitValues(k: nat)
    requires k < 10
    ensures DIGITS[k] as int == '0' as int + k
  {
  }

  lemma {:induction false} DecimalNumber(n: nat, width: nat)
    requires n < Power(width)
    ensures Digits(Decimal(n, width)) && Number(Decimal(n, width)) == n
  {
    if width > 0 {
      var s := Decimal(n / 10, width - 1);
      DecimalNumber(n / 10, width - 1);
      DigitValues(n % 10);
      assert (s + [DIGITS[n % 10]])[..width - 1] == s;
    }
  }

  /** Each string of digits is the decimal of one number. */
  lemma {:induction false} NumberDecimal(s: string)
    requires Digits(s)
    ensures 0 <= Number(s) < Power(|s|) && Decimal(Number(s), |s|) == s
  {
    if s != [] {
      var n := |s| - 1;
      NumberDecimal(s[..n]);
      var last := s[n] as int - '0' as int;
      DigitValues(last);
      assert Number(s) / 10 == Number(s[..n]) && Number(s) % 10 == last;
      assert s == s[..n] + [s[n]];
    }
  }

  /** The shape of a date is that of its parts. */
  lemma DateParts(s: string)
    requires |s| == 10 && s[4] == '-' && s[7] == '-'
    ensures IsoDate(s) <==> Digits(s[..4]) && Digits(s[5..7]) && Digits(s[8..])
  {
    assert forall i :: 0 <= i < 4 ==> s[..4][i] == s[i];
    assert forall i :: 0 <= i < 2 ==> s[5..7][i] == s[5 + i] && s[8..][i] == s[8 + i];
    if Digits(s[..4]) && Digits(s[5..7]) && Digits(s[8..]) {
      assert Digit(s[..4][0]) && Digit(s[..4][1]) && Digit(s[..4][2]) && Digit(s[..4][3]);
      assert Digit(s[5..7][0]) && Digit(s[5..7][1]) && Digit(s[8..][0]) && Digit(s[8..][1]);
    }
  }

  /** Every year, month and day in digits can be written as a date, and is read back from it. */
  lemma DateWritten(year: nat, month: nat, day: nat)
    requires year < 10000 && month < 100 && day < 100
    ensures var s := DateString(year, month, day);
      IsoDate(s) && Year(s) == year && Month(s) == month && Day(s) == day
  {
    DecimalNumber(year, 4);
    DecimalNumber(month, 2);
    DecimalNumber(day, 2);
    assert Power(2) == 100 && Power(4) == 10000;
    Parts(Decimal(year, 4), Decimal(month, 2), Decimal(day, 2));
    hide Decimal, Hyphenated;
    DateParts(DateString(year, month, day));
  }

  /** And there are no other dates. */
  lemma DateRead(s: string)
    requires IsoDate(s)
    ensures 0 <= Year(s) < 10000 && 0 <= Month(s) < 100 && 0 <= Day(s) < 100
    ensures DateString(Year(s), Month(s), Day(s)) == s
  {
    hide Decimal, Hyphenated, Number;
    DateParts(s);
    NumberDecimal(s[..4]);
    NumberDecimal(s[5..7]);
    NumberDecimal(s[8..]);
    assert Power(2) == 100 && Power(4) == 10000;
    Joined(s);
  }
}
