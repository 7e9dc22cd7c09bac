/**
 * Calendar dates as the member records hold them (Java's `LocalDate`), the `yyyy-MM-dd` text
 * form they are written and read in, and `LocalDate.of` for the registration form's date pickers.
 */
module Dates {
  import opened Wrappers
  import opened Text

  datatype CalendarDate = CalendarDate(year: int, month: int, day: int)

  predicate IsLeapYear(year: int)
  {
    year % 4 == 0 && (year % 100 != 0 || year % 400 == 0)
  }

  function MonthLength(year: int, month: int): (n: int)
    ensures 28 <= n <= 31
  {
    if month == 2 then (if IsLeapYear(year) then 29 else 28)
    else if month == 4 || month == 6 || month == 9 || month == 11 then 30
    else 31
  }

  /** A day that exists, in a year of four digits (the years `yyyy` prints without a sign). */
  predicate IsValidDate(d: CalendarDate)
  {
    1 <= d.year <= 9999 && 1 <= d.month <= 12 && 1 <= d.day <= MonthLength(d.year, d.month)
  }

  type Date = d: CalendarDate | IsValidDate(d) witness CalendarDate(2000, 1, 1)

  /**
   * `LocalDate.parse(s, ofPattern("yyyy-MM-dd"))` in its default smart resolving mode: exactly
   * four, two and two digits between two '-'; the year from 1, the month from 1 to 12 and the day
   * from 1 to 31, where a day 29, 30 or 31 past the end of its month is moved back to the last day.
   */
  function ParseDate(s: string): (r: Option<Date>)
    ensures r.Some? ==> |s| == 10 && s[4] == '-' && s[7] == '-'
  {
    if |s| == 10 && AllDigits(s[..4]) && s[4] == '-' && AllDigits(s[5..7]) && s[7] == '-' && AllDigits(s[8..]) then
      var year, month, day := DigitsValue(s[..4]), DigitsValue(s[5..7]), DigitsValue(s[8..]);
      DigitsValueBound(s[..4]);
      assert Pow10(4) == 10000;
      if 1 <= year && 1 <= month <= 12 && 1 <= day <= 31 then
        var last := MonthLength(year, month);
        Some(CalendarDate(year, month, if day <= last then day else last))
      else None
    else None
  }

  /** `date.format(ofPattern("yyyy-MM-dd"))`. */
  function FormatDate(d: Date): (s: string)
    ensures |s| == 10
  {
    assert Pow10(2) == 100 && Pow10(4) == 10000;
    PadDigits(d.year, 4) + "-" + PadDigits(d.month, 2) + "-" + PadDigits(d.day, 2)
  }

  /** Every date that is written reads back as itself. */
  lemma ParseFormatDate(d: Date)
    ensures ParseDate(FormatDate(d)) == Some(d)
  {
    assert Pow10(2) == 100 && Pow10(4) == 10000;
    var s := FormatDate(d);
    assert s[..4] == PadDigits(d.year, 4);
    assert s[5..7] == PadDigits(d.month, 2);
    assert s[8..] == PadDigits(d.day, 2);
  }

  /** Smart resolving never fails on a day from 29 to 31: it gives the last day of the month instead. */
  lemma ParseDateClampsDay(year: nat, month: nat, day: nat)
    requires 1 <= year <= 9999 && 1 <= month <= 12 && MonthLength(year, month) < day <= 31
    ensures ParseDate(FormatDate(CalendarDate(year, month, MonthLength(year, month))))
         == ParseDate(PadDigits(year, 4) + "-" + PadDigits(month, 2) + "-" + PadDigits(day, 2))
  {
    assert Pow10(2) == 100 && Pow10(4) == 10000;
    var d: Date := CalendarDate(year, month, MonthLength(year, month));
    ParseFormatDate(d);
    var s := PadDigits(year, 4) + "-" + PadDigits(month, 2) + "-" + PadDigits(day, 2);
    assert s[..4] == PadDigits(year, 4);
    assert s[5..7] == PadDigits(month, 2);
    assert s[8..] == PadDigits(day, 2);
  }
}
