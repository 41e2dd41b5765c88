/**
  Calendar dates and their `YYYY-MM-DD` keys (ISO 8601 calendar dates in extended format,
  section 4.1.2.2 of ISO 8601:2004), with the proleptic Gregorian arithmetic of Python's
  `datetime.date`: day ordinals (`toordinal`), weekdays, and adding days.

  The central fact is `FormatOrder`: on dates Python can represent, comparing two keys
  as strings is the same as comparing the dates chronologically, which is what every
  range query and time-lock in the system relies on.
*/
module DateKeys {
  import opened Text

  datatype Date = Date(year: int, month: int, day: int)

  /** Python's `datetime.MAXYEAR`: adding days beyond 9999-12-31 raises OverflowError. */
  const MaxYear: int := 9999

  predicate IsLeapYear(y: int)
  {
    y % 4 == 0 && (y % 100 != 0 || y % 400 == 0)
  }

  function DaysInYear(y: int): int
  {
    if IsLeapYear(y) then 366 else 365
  }

  function DaysInMonth(y: int, m: int): (n: int)
    requires 1 <= m <= 12
    ensures 28 <= n <= 31
  {
    if m == 2 then (if IsLeapYear(y) then 29 else 28)
    else if m == 4 || m == 6 || m == 9 || m == 11 then 30
    else 31
  }

  /** A real day of the proleptic Gregorian calendar in a positive year. */
  predicate InCalendar(d: Date)
  {
    d.year >= 1 && 1 <= d.month <= 12 && 1 <= d.day <= DaysInMonth(d.year, d.month)
  }

  /** A day Python's `date` can hold: 0001-01-01 through 9999-12-31. */
  predicate Valid(d: Date)
  {
    InCalendar(d) && d.year <= MaxYear
  }

  /** 9999-12-31, the last day Python's `date` can hold. */
  const LastDay: Date := Date(MaxYear, 12, 31)

  /** Chronological order: `a` is an earlier day than `b`. */
  predicate Before(a: Date, b: Date)
  {
    a.year < b.year || (a.year == b.year && (a.month < b.month || (a.month == b.month && a.day < b.day)))
  }

  /** `d + timedelta(days=1)`, before Python's range check. */
  function NextDay(d: Date): (r: Date)
    requires InCalendar(d)
    ensures InCalendar(r) && Before(d, r)
  {
    if d.day < DaysInMonth(d.year, d.month) then Date(d.year, d.month, d.day + 1)
    else if d.month < 12 then Date(d.year, d.month + 1, 1)
    else Date(d.year + 1, 1, 1)
  }

  /** `d + timedelta(days=n)` for n >= 0, before Python's range check. */
  function AddDays(d: Date, n: nat): (r: Date)
    requires InCalendar(d)
    ensures InCalendar(r)
  {
    if n == 0 then d else NextDay(AddDays(d, n - 1))
  }

  /** `d.strftime("%Y-%m-%d")`, equally `f"{y:04d}-{m:02d}-{d:02d}"`. */
  function Format(d: Date): string
    requires InCalendar(d)
  {
    (Pad(d.year, 4) + "-") + ((Pad(d.month, 2) + "-") + Pad(d.day, 2))
  }

  lemma FormatLength(d: Date)
    requires Valid(d)
    ensures |Format(d)| == 10
  {
    PadLength(d.year, 4);
    PadLength(d.month, 2);
    PadLength(d.day, 2);
  }

  /** A padded field followed by "-" compares like the field's number. */
  lemma PadDashOrder(a: nat, b: nat, w: nat)
    requires w >= 1 && a < Pow10(w) && b < Pow10(w)
    ensures |Pad(a, w) + "-"| == |Pad(b, w) + "-"| == w + 1
    ensures LexLess(Pad(a, w) + "-", Pad(b, w) + "-") <==> a < b
    ensures Pad(a, w) + "-" == Pad(b, w) + "-" <==> a == b
  {
    PadLength(a, w);
    PadLength(b, w);
    PadOrder(a, b, w);
    LexLessConcat(Pad(a, w), "-", Pad(b, w), "-");
    LexLessIrreflexive("-");
    ConcatEqual(Pad(a, w), "-", Pad(b, w), "-");
  }

  /** Two concatenations with first parts of equal length are equal exactly when both parts are. */
  lemma ConcatEqual(p: string, s: string, q: string, t: string)
    requires |p| == |q|
    ensures p + s == q + t <==> p == q && s == t
  {
    if p + s == q + t {
      assert p == (p + s)[..|p|] && q == (q + t)[..|q|];
      assert s == (p + s)[|p|..] && t == (q + t)[|q|..];
    }
  }

  /** String order of keys is chronological order of days, and keys identify days. */
  lemma FormatOrder(a: Date, b: Date)
    requires Valid(a) && Valid(b)
    ensures LexLess(Format(a), Format(b)) <==> Before(a, b)
    ensures Format(a) == Format(b) <==> a == b
  {
    var ya, yb := Pad(a.year, 4) + "-", Pad(b.year, 4) + "-";
    var ma, mb := Pad(a.month, 2) + "-", Pad(b.month, 2) + "-";
    var da, db := Pad(a.day, 2), Pad(b.day, 2);
    PadDashOrder(a.year, b.year, 4);
    PadDashOrder(a.month, b.month, 2);
    PadOrder(a.day, b.day, 2);
    LexLessConcat(ya, ma + da, yb, mb + db);
    LexLessConcat(ma, da, mb, db);
    ConcatEqual(ya, ma + da, yb, mb + db);
    ConcatEqual(ma, da, mb, db);
  }

  /** Python's `<` and `<=` on keys of representable days agree with chronological order. */
  lemma FormatLe(a: Date, b: Date)
    requires Valid(a) && Valid(b)
    ensures LexLe(Format(a), Format(b)) <==> (a == b || Before(a, b))
  {
    FormatOrder(a, b);
  }

  // ---------------------------------------------------------------------------
  // Day ordinals and weekdays (Python's `toordinal` and `weekday`)
  // ---------------------------------------------------------------------------

  /** Days in the years before `y` (Python's `_days_before_year`). */
  function DaysBeforeYear(y: int): int
  {
    var k := y - 1;
    k * 365 + k / 4 - k / 100 + k / 400
  }

  /** Days in the months of year `y` before month `m` (Python's `_days_before_month`). */
  function DaysBeforeMonth(y: int, m: int): (n: int)
    requires 1 <= m <= 12
  {
    var table := [0, 31, 59, 90, 120, 151, 181, 212, 243, 273, 304, 334];
    table[m - 1] + (if m > 2 && IsLeapYear(y) then 1 else 0)
  }

  /** `d.toordinal()`: 0001-01-01 is day 1. */
  function Ordinal(d: Date): int
    requires InCalendar(d)
  {
    DaysBeforeYear(d.year) + DaysBeforeMonth(d.year, d.month) + d.day
  }

  /** `d.weekday()`: Monday is 0 and Sunday is 6. */
  function Weekday(d: Date): (w: int)
    requires InCalendar(d)
    ensures 0 <= w < 7
  {
    (Ordinal(d) + 6) % 7
  }

  /** Euclidean remainder by 7 is determined by any quotient/remainder decomposition. */
  lemma Mod7Unique(x: int, q: int, r: int)
    requires x == 7 * q + r && 0 <= r < 7
    ensures x % 7 == r
  {
  }

  /** Dividing the next number by 4, 100 or 400 gains one exactly at a multiple. */
  lemma DivStep4(k: int)
    ensures (k + 1) / 4 == k / 4 + (if (k + 1) % 4 == 0 then 1 else 0)
  {
  }

  lemma DivStep100(k: int)
    ensures (k + 1) / 100 == k / 100 + (if (k + 1) % 100 == 0 then 1 else 0)
  {
  }

  lemma DivStep400(k: int)
    ensures (k + 1) / 400 == k / 400 + (if (k + 1) % 400 == 0 then 1 else 0)
  {
  }

  lemma Mod100Unique(x: int, q: int)
    requires x == 100 * q
    ensures x % 100 == 0
  {
  }

  lemma Mod4Unique(x: int, q: int)
    requires x == 4 * q
    ensures x % 4 == 0
  {
  }

  /** A multiple of 400 is a multiple of 100, and a multiple of 100 is a multiple of 4. */
  lemma MultipleChain(y: int)
    ensures y % 400 == 0 ==> y % 100 == 0
    ensures y % 100 == 0 ==> y % 4 == 0
  {
    if y % 400 == 0 {
      var q := y / 400;
      assert y == 400 * q;
      Mod100Unique(y, 4 * q);
    }
    if y % 100 == 0 {
      var q := y / 100;
      assert y == 100 * q;
      Mod4Unique(y, 25 * q);
    }
  }

  /** The length of a year counted as the Gregorian rule adds and removes leap days. */
  lemma DaysInYearByRemainders(y: int)
    ensures DaysInYear(y) == 365 + (if y % 4 == 0 then 1 else 0) - (if y % 100 == 0 then 1 else 0)
                                 + (if y % 400 == 0 then 1 else 0)
  {
    MultipleChain(y);
  }

  lemma DaysBeforeYearStep(y: int)
    requires y >= 1
    ensures DaysBeforeYear(y + 1) == DaysBeforeYear(y) + DaysInYear(y)
  {
    var k := y - 1;
    DivStep4(k);
    DivStep100(k);
    DivStep400(k);
    DaysInYearByRemainders(y);
    assert DaysBeforeYear(y + 1) == (k + 1) * 365 + (k + 1) / 4 - (k + 1) / 100 + (k + 1) / 400;
    assert DaysBeforeYear(y) == k * 365 + k / 4 - k / 100 + k / 400;
  }

  lemma DaysBeforeMonthStep(y: int, m: int)
    requires 1 <= m < 12
    ensures DaysBeforeMonth(y, m + 1) == DaysBeforeMonth(y, m) + DaysInMonth(y, m)
  {
  }

  lemma DaysBeforeMonthBound(y: int, m: int)
    requires 1 <= m <= 12
    ensures DaysBeforeMonth(y, m) + DaysInMonth(y, m) <= DaysInYear(y)
  {
  }

  /** One day later is one ordinal later. */
  lemma NextDayOrdinal(d: Date)
    requires InCalendar(d)
    ensures Ordinal(NextDay(d)) == Ordinal(d) + 1
  {
    if d.day == DaysInMonth(d.year, d.month) {
      if d.month < 12 {
        DaysBeforeMonthStep(d.year, d.month);
      } else {
        DaysBeforeYearStep(d.year);
      }
    }
  }

  lemma {:induction false} AddDaysOrdinal(d: Date, n: nat)
    requires InCalendar(d)
    ensures Ordinal(AddDays(d, n)) == Ordinal(d) + n
  {
    if n > 0 {
      AddDaysOrdinal(d, n - 1);
      NextDayOrdinal(AddDays(d, n - 1));
    }
  }

  /** Adding days stays within the representable range as long as the ordinal does. */
  lemma AddDaysValid(d: Date, n: nat)
    requires Valid(d) && Ordinal(d) + n <= Ordinal(LastDay)
    ensures Valid(AddDays(d, n))
  {
    AddDaysOrdinal(d, n);
    ValidByOrdinal(AddDays(d, n));
  }

  lemma {:induction false} DaysBeforeYearMonotone(y1: int, y2: int)
    requires 1 <= y1 < y2
    ensures DaysBeforeYear(y1) + DaysInYear(y1) <= DaysBeforeYear(y2)
    decreases y2 - y1
  {
    DaysBeforeYearStep(y1);
    if y1 + 1 < y2 {
      DaysBeforeYearMonotone(y1 + 1, y2);
    }
  }

  /** Chronological order is ordinal order: the calendar arithmetic and the comparison agree. */
  lemma OrdinalOrder(a: Date, b: Date)
    requires InCalendar(a) && InCalendar(b)
    ensures Before(a, b) <==> Ordinal(a) < Ordinal(b)
    ensures a == b <==> Ordinal(a) == Ordinal(b)
  {
    if a.year != b.year {
      var (x, y) := if a.year < b.year then (a, b) else (b, a);
      DaysBeforeMonthBound(x.year, x.month);
      DaysBeforeYearMonotone(x.year, y.year);
      assert Ordinal(x) < Ordinal(y);
    } else if a.month != b.month {
      var (x, y) := if a.month < b.month then (a, b) else (b, a);
      assert DaysBeforeMonth(x.year, x.month) + DaysInMonth(x.year, x.month) <= DaysBeforeMonth(y.year, y.month);
      assert Ordinal(x) < Ordinal(y);
    }
  }

  /** Adding more days gives a later day. */
  lemma AddDaysBefore(d: Date, i: nat, j: nat)
    requires InCalendar(d) && i < j
    ensures Before(AddDays(d, i), AddDays(d, j))
  {
    AddDaysOrdinal(d, i);
    AddDaysOrdinal(d, j);
    OrdinalOrder(AddDays(d, i), AddDays(d, j));
  }

  /** Every day after `d` is reached from `d` by adding days. */
  lemma {:induction false} AddDaysReaches(d: Date, e: Date)
    requires InCalendar(d) && InCalendar(e) && !Before(e, d)
    ensures Ordinal(e) - Ordinal(d) >= 0
    ensures AddDays(d, Ordinal(e) - Ordinal(d)) == e
    decreases Ordinal(e) - Ordinal(d)
  {
    OrdinalOrder(d, e);
    var n := Ordinal(e) - Ordinal(d);
    AddDaysOrdinal(d, n);
    OrdinalOrder(AddDays(d, n), e);
  }

  /** A calendar day is representable exactly when its ordinal does not pass that of 9999-12-31. */
  lemma ValidByOrdinal(d: Date)
    requires InCalendar(d)
    ensures Valid(d) <==> Ordinal(d) <= Ordinal(LastDay)
  {
    OrdinalOrder(d, LastDay);
    OrdinalOrder(LastDay, d);
  }

  /** The day after a representable day other than 9999-12-31 is representable. */
  lemma NextDayValid(d: Date)
    requires Valid(d) && d != LastDay
    ensures Valid(NextDay(d))
  {
  }
}
