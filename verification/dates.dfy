/** Calendar dates as the tracker uses them: transaction dates, balance-sheet
    column labels in ISO form ("2021-05-01"), and the fixed settlement epoch. */
module Dates {
  import opened Wrappers
  import opened Text

  datatype Date = Date(year: int, month: int, day: int)

  predicate IsLeapYear(y: int) {
    y % 4 == 0 && (y % 100 != 0 || y % 400 == 0)
  }

  function DaysInMonth(y: int, m: int): int
    requires 1 <= m <= 12
  {
    if m == 2 then (if IsLeapYear(y) then 29 else 28)
    else if m == 4 || m == 6 || m == 9 || m == 11 then 30
    else 31
  }

  /** Years with four digits: the ones `strftime("%Y")` writes without a sign or a short form. */
  const MinYear := 1000
  const MaxYear := 9999

  predicate Valid(d: Date) {
    && MinYear <= d.year <= MaxYear
    && 1 <= d.month <= 12
    && 1 <= d.day <= DaysInMonth(d.year, d.month)
  }

  type CalendarDate = d: Date | Valid(d) witness Date(2021, 5, 1)

  /** 2021-05-01: the cutoff when no settlement was ever recorded, and the
      date the "Init Balance" column stands for. */
  const Epoch: CalendarDate := Date(2021, 5, 1)

  /** `a` is strictly earlier than `b` (pandas' `>` on dates, read the other way round). */
  predicate Before(a: Date, b: Date) {
    || a.year < b.year
    || (a.year == b.year && a.month < b.month)
    || (a.year == b.year && a.month == b.month && a.day < b.day)
  }

  /** The later of two dates. */
  function Latest(a: CalendarDate, b: CalendarDate): (r: CalendarDate)
    ensures r == a || r == b
    ensures !Before(r, a) && !Before(r, b)
  {
    if Before(a, b) then b else a
  }

  /** Whether `s` has the shape "DDDD-DD-DD" with decimal digits D. */
  predicate IsoShaped(s: string) {
    && |s| == 10 && s[4] == '-' && s[7] == '-'
    && AllDigits(s[..4]) && AllDigits(s[5..7]) && AllDigits(s[8..])
  }

  /** `strftime("%Y-%m-%d")`. */
  function FormatIso(d: CalendarDate): (s: string)
    ensures IsoShaped(s)
  {
    var s := PadDigits(d.year, 4) + "-" + PadDigits(d.month, 2) + "-" + PadDigits(d.day, 2);
    assert s[..4] == PadDigits(d.year, 4);
    assert s[5..7] == PadDigits(d.month, 2);
    assert s[8..] == PadDigits(d.day, 2);
    s
  }

  /** `pd.to_datetime` on an ISO label: the date it names, or `None` when the
      label is not of that shape or names no calendar day ("2021-02-30"). */
  function ParseIso(s: string): (r: Option<CalendarDate>)
    ensures r.Some? ==> IsoShaped(s) && FormatIso(r.value) == s
    ensures r.None? && IsoShaped(s) ==>
      !Valid(Date(ParseDigits(s[..4]), ParseDigits(s[5..7]), ParseDigits(s[8..])))
  {
    if !IsoShaped(s) then None
    else
      var d := Date(ParseDigits(s[..4]), ParseDigits(s[5..7]), ParseDigits(s[8..]));
      if Valid(d) then
        FormatParsed(s);
        Some(d)
      else None
  }

  /** Formatting the date an ISO-shaped string names spells that string. */
  lemma FormatParsed(s: string)
    requires IsoShaped(s)
    requires Valid(Date(ParseDigits(s[..4]), ParseDigits(s[5..7]), ParseDigits(s[8..])))
    ensures FormatIso(Date(ParseDigits(s[..4]), ParseDigits(s[5..7]), ParseDigits(s[8..]))) == s
  {
    PadParseDigits(s[..4]);
    PadParseDigits(s[5..7]);
    PadParseDigits(s[8..]);
    assert s == s[..4] + "-" + s[5..7] + "-" + s[8..];
  }

  /** Every valid date survives formatting and parsing. */
  lemma ParseFormatIso(d: CalendarDate)
    ensures ParseIso(FormatIso(d)) == Some(d)
  {
    var s := FormatIso(d);
    assert s == PadDigits(d.year, 4) + "-" + PadDigits(d.month, 2) + "-" + PadDigits(d.day, 2);
    assert s[..4] == PadDigits(d.year, 4);
    assert s[5..7] == PadDigits(d.month, 2);
    assert s[8..] == PadDigits(d.day, 2);
    ParsePadDigits(d.year, 4);
    ParsePadDigits(d.month, 2);
    ParsePadDigits(d.day, 2);
  }

  /** A label parses to `d` exactly when it is `d` written in ISO form. */
  lemma ParseIsoIff(s: string, d: CalendarDate)
    ensures ParseIso(s) == Some(d) <==> s == FormatIso(d)
  {
    if s == FormatIso(d) {
      ParseFormatIso(d);
    }
  }
}
