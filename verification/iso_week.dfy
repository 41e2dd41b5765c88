/**
  ISO 8601 week dates (section 4.1.4 of ISO 8601:2004) as Python's `date.isocalendar()`
  computes them: week 1 of a year is the week (Monday to Sunday) that holds its first
  Thursday, and a day near New Year may belong to a week of the neighbouring year.
*/
module IsoWeek {
  import opened DateKeys

  /** The ordinal of the Monday that starts week 1 of `year` (Python's `_isoweek1monday`). */
  function Week1Monday(year: int): int
  {
    var firstDay := DaysBeforeYear(year) + 1;
    var firstWeekday := (firstDay + 6) % 7;
    var monday := firstDay - firstWeekday;
    if firstWeekday > 3 then monday + 7 else monday
  }

  /** The week-1 Monday is a Monday within three days of New Year's Day. */
  lemma Week1MondayNearNewYear(year: int)
    ensures var m := Week1Monday(year);
      DaysBeforeYear(year) + 1 - 3 <= m <= DaysBeforeYear(year) + 1 + 3 && m % 7 == 1
  {
    var firstDay := DaysBeforeYear(year) + 1;
    var q, w := (firstDay + 6) / 7, (firstDay + 6) % 7;
    assert firstDay + 6 == 7 * q + w;
    var monday := 7 * (q - 1) + 1;
    assert firstDay - w == monday;
    if w > 3 {
      Mod7Unique(monday + 7, q, 1);
    } else {
      Mod7Unique(monday, q - 1, 1);
    }
  }

  /** Consecutive week-1 Mondays are 52 or 53 weeks apart. */
  lemma Week1MondayGap(year: int)
    requires year >= 1
    ensures 0 < Week1Monday(year + 1) - Week1Monday(year) <= 371
  {
    DaysBeforeYearStep(year);
    Week1MondayNearNewYear(year);
    Week1MondayNearNewYear(year + 1);
    var a, b := Week1Monday(year), Week1Monday(year + 1);
    var qa, qb := a / 7, b / 7;
    assert a == 7 * qa + 1 && b == 7 * qb + 1;
    assert qb - qa <= 53;
  }

  /** Python's `divmod(x, 7)`: floor division, so the remainder is never negative. */
  function DivMod7(x: int): (r: (int, int))
    ensures x == 7 * r.0 + r.1 && 0 <= r.1 < 7
  {
    (x / 7, x % 7)
  }

  /** `d.isocalendar()` as (ISO year, ISO week, ISO weekday). */
  function IsoCalendar(d: Date): (r: (int, int, int))
    requires InCalendar(d)
    ensures d.year - 1 <= r.0 <= d.year + 1
    ensures 1 <= r.1 <= 53
    ensures r.2 == Weekday(d) + 1
  {
    var today := Ordinal(d);
    var monday := Week1Monday(d.year);
    var (week, day) := DivMod7(today - monday);
    IsoCalendarFacts(d);
    WeekdayFromMonday(today, monday, week, day);
    if week < 0 then
      var prevMonday := Week1Monday(d.year - 1);
      var (prevWeek, prevDay) := DivMod7(today - prevMonday);
      WeekdayFromMonday(today, prevMonday, prevWeek, prevDay);
      (d.year - 1, prevWeek + 1, prevDay + 1)
    else if week >= 52 && today >= Week1Monday(d.year + 1) then
      (d.year + 1, 1, day + 1)
    else
      (d.year, week + 1, day + 1)
  }

  /** Counting days from a Monday gives the weekday. */
  lemma WeekdayFromMonday(today: int, monday: int, week: int, day: int)
    requires monday % 7 == 1 && today - monday == 7 * week + day && 0 <= day < 7
    ensures (today + 6) % 7 == day
  {
    var q := monday / 7;
    assert today + 6 == 7 * (q + week + 1) + day;
  }

  lemma IsoCalendarFacts(d: Date)
    requires InCalendar(d)
    ensures var today, monday := Ordinal(d), Week1Monday(d.year);
      && 0 < Week1Monday(d.year + 1) - monday <= 371
      && monday % 7 == 1 && Week1Monday(d.year + 1) % 7 == 1
      && today - monday >= -3
      && (today < monday ==>
            d.year >= 2 && Week1Monday(d.year - 1) % 7 == 1 && 0 <= today - Week1Monday(d.year - 1) < 371)
  {
    OrdinalInYear(d);
    Week1MondayGap(d.year);
    Week1MondayNearNewYear(d.year);
    Week1MondayNearNewYear(d.year + 1);
    if Ordinal(d) < Week1Monday(d.year) {
      BeforeWeek1(d);
    }
  }

  /** A day before its year's week 1 lies in the last weeks of the previous ISO year. */
  lemma BeforeWeek1(d: Date)
    requires InCalendar(d) && Ordinal(d) < Week1Monday(d.year)
    ensures d.year >= 2 && Week1Monday(d.year - 1) % 7 == 1
    ensures 0 <= Ordinal(d) - Week1Monday(d.year - 1) < 371
  {
    OrdinalInYear(d);
    Week1MondayNearNewYear(d.year);
    if d.year == 1 {
      Week1MondayOfYear1();
      assert false;
    }
    var prev := d.year - 1;
    Week1MondayGap(prev);
    Week1MondayNearNewYear(prev);
    DaysBeforeYearStep(prev);
    assert DaysInYear(prev) >= 365;
    assert Week1Monday(prev) <= DaysBeforeYear(d.year) - 365 + 4;
  }

  /** A day's ordinal lies within its year's range of ordinals. */
  lemma OrdinalInYear(d: Date)
    requires InCalendar(d)
    ensures DaysBeforeYear(d.year) < Ordinal(d) <= DaysBeforeYear(d.year) + DaysInYear(d.year)
    ensures DaysInYear(d.year) <= 366
  {
    DaysBeforeMonthBound(d.year, d.month);
  }

  /** 0001-01-01 is a Monday, so week 1 of year 1 starts on day 1. */
  lemma Week1MondayOfYear1()
    ensures Week1Monday(1) == 1
  {
    assert DaysBeforeYear(1) == 0;
  }

  /** A Monday is the first day of its ISO week. */
  lemma MondayStartsIsoWeek(d: Date)
    requires InCalendar(d) && Weekday(d) == 0
    ensures IsoCalendar(d).2 == 1
  {
  }
}
