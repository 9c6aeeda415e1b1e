/** Calendar dates as text. `IsoDatePart` is the part of
    `Date.prototype.toISOString()` before the `T` (ECMA-262, the Date Time
    String Format with its expanded years); for the years 0 to 9999 it is the
    `full-date` production of section 5.6 of RFC 3339, `YYYY-MM-DD`, which
    `ParseFullDate` reads back. */
module DateText {
  import opened Wrappers
  import opened Decimal
  import opened CivilDate

  /** The year as `toISOString` writes it: four digits for the years 0 to
      9999, otherwise a sign and six digits. */
  function YearField(y: int): (s: string)
    ensures |s| == (if 0 <= y <= 9999 then 4 else 7)
  {
    if 0 <= y <= 9999 then Fixed(y, 4)
    else (if y < 0 then "-" else "+") + Fixed(if y < 0 then -y else y, 6)
  }

  function IsoDatePart(d: Date): (s: string)
    requires Valid(d)
    ensures |s| >= 10
    ensures 0 <= d.year <= 9999 <==> |s| == 10
  {
    YearField(d.year) + "-" + Fixed(d.month, 2) + "-" + Fixed(d.day, 2)
  }

  /** Reads an RFC 3339 `full-date`; `None` for any other string, including
      one with a month or day outside the calendar. */
  function ParseFullDate(s: string): (r: Option<Date>)
    ensures r.Some? ==> Valid(r.value) && 0 <= r.value.year <= 9999
  {
    if |s| == 10 && s[4] == '-' && s[7] == '-'
       && AllDigits(s[..4]) && AllDigits(s[5..7]) && AllDigits(s[8..])
    then
      ValueBound(s[..4]);
      var d := Date(Value(s[..4]), Value(s[5..7]), Value(s[8..]));
      if Valid(d) then Some(d) else None
    else
      None
  }

  /** Every date of the years 0 to 9999 renders as a full-date that reads
      back as the same date. */
  lemma FullDateRoundTrip(d: Date)
    requires Valid(d) && 0 <= d.year <= 9999
    ensures ParseFullDate(IsoDatePart(d)) == Some(d)
  {
    var s := IsoDatePart(d);
    assert s[..4] == Fixed(d.year, 4);
    assert s[5..7] == Fixed(d.month, 2);
    assert s[8..] == Fixed(d.day, 2);
    FixedValue(d.year, 4);
    FixedValue(d.month, 2);
    FixedValue(d.day, 2);
  }

  /** A string that reads as a date is that date's rendering: full-dates have
      one spelling. */
  lemma FullDateCanonical(s: string)
    requires ParseFullDate(s).Some?
    ensures IsoDatePart(ParseFullDate(s).value) == s
  {
    FixedUnique(s[..4]);
    FixedUnique(s[5..7]);
    FixedUnique(s[8..]);
    assert s == s[..4] + "-" + s[5..7] + "-" + s[8..];
  }
}
