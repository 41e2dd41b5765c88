/**
  The public theme list (`GET /api/v1/themes?month=YYYY-MM`): theme records that start no
  later than today, optionally only those starting in the given month, most recent first.

  The route bounds the month from above by the first day of the next month, printed with
  an unpadded year (`f"{year+1}-01-01"`, `f"{year}-{m+1:02d}-01"`). That bound is a key
  only for years 1000 through 9998 (and 9999 before December); `NextMonthBoundAsWritten`
  keeps it and the lemmas below show where it goes wrong. The route is modelled with the
  month window the calendar routes use, `prefix-01 <= start_date <= prefix-31`.
*/
module ThemesRouter {
  import opened Wrappers
  import opened Text
  import opened DateKeys
  import opened MonthKeys
  import opened Records
  import opened Sorting

  datatype ThemesReply =
    | Unprocessable                   // 422: the month query fails the pattern
    | Themes(items: seq<WeeklyTheme>)

  /** A stored theme document as the query sees it: the record it loads as, and whether the
      document holds a `start_date` field at all. Documents written by the weekly generator
      have none and load with the default "", but a comparison on a missing field never
      matches, so the query leaves them out. */
  datatype ThemeDoc = ThemeDoc(record: WeeklyTheme, storesStartDate: bool)

  /** The sort key `t.start_date or ""`; the loaded start date is always a string, so it is itself. */
  function StartKey(t: WeeklyTheme): string
  {
    t.startDate
  }

  /** `WeeklyTheme.start_date <= today` on a start date the document holds. */
  predicate NotFuture(t: WeeklyTheme, todayKey: string)
  {
    LexLe(t.startDate, todayKey)
  }

  /** The themes starting in the month of the query `month`. */
  predicate StartsInMonth(t: WeeklyTheme, month: string)
  {
    InMonthWindow(t.startDate, month)
  }

  /** Whether the query criteria match a document: it holds a start date, that date is not
      after today and, with a month, it is in the month. */
  predicate Matches(d: ThemeDoc, month: Option<string>, todayKey: string)
  {
    d.storesStartDate && NotFuture(d.record, todayKey) && (month.Some? ==> StartsInMonth(d.record, month.value))
  }

  /** The records of the documents that hold a start date, in natural order. */
  function WithStartDate(docs: seq<ThemeDoc>): (r: seq<WeeklyTheme>)
    ensures |r| <= |docs|
    ensures forall t :: t in r <==> ThemeDoc(t, true) in docs
  {
    if |docs| == 0 then []
    else
      var rest := WithStartDate(docs[1..]);
      assert forall d :: d in docs <==> d == docs[0] || d in docs[1..];
      if docs[0].storesStartDate then [docs[0].record] + rest else rest
  }

  /** The records of the documents the query criteria select, in natural order. */
  function Selected(docs: seq<ThemeDoc>, month: Option<string>, todayKey: string): (r: seq<WeeklyTheme>)
    ensures |r| <= |docs|
    ensures forall t :: t in r <==> ThemeDoc(t, true) in docs && NotFuture(t, todayKey) && (month.Some? ==> StartsInMonth(t, month.value))
  {
    if |docs| == 0 then []
    else
      var rest := Selected(docs[1..], month, todayKey);
      assert forall d :: d in docs <==> d == docs[0] || d in docs[1..];
      if Matches(docs[0], month, todayKey) then [docs[0].record] + rest else rest
  }

  /** `get_themes(month)` with today's UTC date. */
  function GetThemes(docs: seq<ThemeDoc>, month: Option<string>, today: Date): (r: ThemesReply)
    requires Valid(today)
    ensures r == Unprocessable <==> month.Some? && !MatchesMonthPattern(month.value)
    ensures r.Themes? ==> SortedBy(r.items, StartKey, true)
    ensures r.Themes? ==> multiset(r.items) == multiset(Selected(docs, month, Format(today)))
  {
    if month.Some? && !MatchesMonthPattern(month.value) then Unprocessable
    else Themes(SortBy(Selected(docs, month, Format(today)), StartKey, true))
  }

  /** The list holds exactly the themes stored with a start date that is not after today
      and, with a month, is in it; the most recent comes first. A document without a start
      date is never listed on its own account. */
  lemma ThemesListed(docs: seq<ThemeDoc>, month: Option<string>, today: Date, t: WeeklyTheme)
    requires Valid(today) && (month.Some? ==> MatchesMonthPattern(month.value))
    ensures GetThemes(docs, month, today).Themes?
    ensures t in GetThemes(docs, month, today).items <==>
              ThemeDoc(t, true) in docs && LexLe(t.startDate, Format(today)) && (month.Some? ==> InMonthWindow(t.startDate, month.value))
  {
    var selected := Selected(docs, month, Format(today));
    var items := GetThemes(docs, month, today).items;
    assert multiset(items) == multiset(selected);
    assert t in items <==> t in multiset(items);
    assert t in selected <==> t in multiset(selected);
  }

  /** Whether a theme holding the start date `k` passes the query criteria. */
  predicate StartPasses(k: string, month: Option<string>, todayKey: string)
  {
    LexLe(k, todayKey) && (month.Some? ==> InMonthWindow(k, month.value))
  }

  /** The criteria look only at the start date: of the themes stored with start date `k`,
      all are selected, in stored order, or none is. */
  lemma {:induction false} SelectedWithKey(docs: seq<ThemeDoc>, month: Option<string>, todayKey: string, k: string)
    ensures WithKey(Selected(docs, month, todayKey), StartKey, k) ==
              if StartPasses(k, month, todayKey) then WithKey(WithStartDate(docs), StartKey, k) else []
  {
    if |docs| > 0 {
      SelectedWithKey(docs[1..], month, todayKey, k);
      var rest := Selected(docs[1..], month, todayKey);
      if Matches(docs[0], month, todayKey) {
        WithKeyCons(docs[0].record, rest, StartKey, k);
      }
      if docs[0].storesStartDate {
        WithKeyCons(docs[0].record, WithStartDate(docs[1..]), StartKey, k);
      }
    }
  }

  /** Themes stored with the same start date keep their stored order in the list: the sort
      is stable. */
  lemma ThemesTieOrder(docs: seq<ThemeDoc>, month: Option<string>, today: Date, k: string)
    requires Valid(today) && (month.Some? ==> MatchesMonthPattern(month.value))
    ensures GetThemes(docs, month, today).Themes?
    ensures WithKey(GetThemes(docs, month, today).items, StartKey, k) ==
              if StartPasses(k, month, Format(today)) then WithKey(WithStartDate(docs), StartKey, k) else []
  {
    var selected := Selected(docs, month, Format(today));
    SortByStable(selected, StartKey, true, k);
    SelectedWithKey(docs, month, Format(today), k);
  }

  /** On a canonical start date the month filter is exact, from year 1 to 9999 and in every month. */
  lemma StartsInMonthExact(t: WeeklyTheme, month: string, d: Date)
    requires MatchesMonthPattern(month) && Valid(d) && t.startDate == Format(d)
    requires 1 <= ParseMonthQuery(month).0 && 1 <= ParseMonthQuery(month).1 <= 12
    ensures StartsInMonth(t, month) <==> d.year == ParseMonthQuery(month).0 && d.month == ParseMonthQuery(month).1
  {
    var (y, m) := ParseMonthQuery(month);
    MonthWindowExact(d, y, m);
  }

  // ---------------------------------------------------------------------------
  // The month bounds as the route writes them
  // ---------------------------------------------------------------------------

  /** `f"{year+1}-01-01"` for December, else `f"{year}-{m+1:02d}-01"`: the year unpadded. */
  function NextMonthBoundAsWritten(year: nat, m: nat): string
  {
    if m == 12 then Decimal(year + 1) + "-01-01" else Decimal(year) + "-" + Pad(m + 1, 2) + "-01"
  }

  /** `start_date >= f"{month}-01"` and `start_date < next_month`. */
  predicate StartsInMonthAsWritten(t: WeeklyTheme, month: string)
    requires MatchesMonthPattern(month)
  {
    var (year, m) := ParseMonthQuery(month);
    LexLe(month + "-01", t.startDate) && LexLess(t.startDate, NextMonthBoundAsWritten(year, m))
  }

  /** A query whose printed form is known parses to that year and month. */
  lemma ParsesAs(s: string, y: nat, m: nat)
    requires MatchesMonthPattern(s) && y <= MaxYear && m < 100 && MonthPrefix(y, m) == s
    ensures ParseMonthQuery(s) == (y, m)
  {
    var r := ParseMonthQuery(s);
    PadLength(y, 4); PadLength(r.0, 4);
    PadLength(m, 2); PadLength(r.1, 2);
    assert MonthPrefix(y, m)[..4] == Pad(y, 4) && MonthPrefix(r.0, r.1)[..4] == Pad(r.0, 4);
    assert MonthPrefix(y, m)[5..] == Pad(m, 2) && MonthPrefix(r.0, r.1)[5..] == Pad(r.1, 2);
    PadOrder(y, r.0, 4);
    PadOrder(m, r.1, 2);
  }

  /** Every printed month is a query the pattern accepts, and it parses back to its year and month. */
  lemma PrintedMonthQuery(y: nat, m: nat)
    requires y <= MaxYear && m < 100
    ensures MatchesMonthPattern(MonthPrefix(y, m)) && ParseMonthQuery(MonthPrefix(y, m)) == (y, m)
  {
    var s := MonthPrefix(y, m);
    Pad4Digits(y);
    Pad2Digits(m);
    assert s[..4] == Pad(y, 4) && s[5..] == Pad(m, 2);
    ParsesAs(s, y, m);
  }

  /** A canonical key starts with the first digit of its year. */
  lemma KeyLeadingDigit(d: Date)
    requires Valid(d)
    ensures |Format(d)| > 0 && Format(d)[0] == Digit(d.year / 1000)
  {
    Pad4Digits(d.year);
  }

  /** The bound written for December of year 9999 starts with the digit 1. */
  lemma December9999Bound()
    ensures |NextMonthBoundAsWritten(MaxYear, 12)| > 0 && NextMonthBoundAsWritten(MaxYear, 12)[0] == Digit(1)
  {
    PadStep(10000, 0); PadStep(1000, 0); PadStep(100, 0); PadStep(10, 0);
  }

  /** December 9999: the bound `f"{9999+1}-01-01"` sorts before every key of that month, so a
      theme starting on any day of December 9999 is left out of its own month. */
  lemma DecemberOf9999IsEmpty(t: WeeklyTheme, d: Date)
    requires Valid(d) && d.year == MaxYear && d.month == 12 && t.startDate == Format(d)
    ensures MatchesMonthPattern(MonthPrefix(MaxYear, 12))
    ensures StartsInMonth(t, MonthPrefix(MaxYear, 12)) && !StartsInMonthAsWritten(t, MonthPrefix(MaxYear, 12))
  {
    PrintedMonthQuery(MaxYear, 12);
    MonthWindowExact(d, MaxYear, 12);
    KeyLeadingDigit(d);
    December9999Bound();
  }

  /** The bound written for February of year 999 starts with the digit 9. */
  lemma February0999Bound()
    ensures |NextMonthBoundAsWritten(999, 2)| > 0 && NextMonthBoundAsWritten(999, 2)[0] == Digit(9)
  {
    PadStep(999, 0); PadStep(99, 0);
  }

  /** A year below 1000: "0999-02" is bounded by `f"{999}-03-01"`, which sorts after every key
      of the years 1000 to 8999, so the February 0999 list takes in a theme starting on any
      such day (2026-03-01, say). */
  lemma EarlyYearTakesInLaterThemes(t: WeeklyTheme, d: Date)
    requires Valid(d) && 1000 <= d.year <= 8999 && t.startDate == Format(d)
    ensures MatchesMonthPattern(MonthPrefix(999, 2))
    ensures !StartsInMonth(t, MonthPrefix(999, 2)) && StartsInMonthAsWritten(t, MonthPrefix(999, 2))
  {
    PrintedMonthQuery(999, 2);
    MonthWindowExact(d, 999, 2);
    KeyLeadingDigit(d);
    February0999Bound();
    var lower := MonthPrefix(999, 2) + "-01";
    Pad4Digits(999);
    assert lower[0] == Digit(0);
  }

  /** The lower bound `f"{month}-01"` is the key of the month's first day. */
  lemma LowerBoundIsKey(y: nat, m: nat)
    requires 1 <= y <= MaxYear && 1 <= m <= 12
    ensures Valid(Date(y, m, 1)) && MonthPrefix(y, m) + "-01" == Format(Date(y, m, 1))
  {
    assert Pad(1, 2) == "01";
  }

  /** The first day of the following month. */
  function NextMonthStart(y: nat, m: nat): (d: Date)
    requires 1 <= y < MaxYear || (y == MaxYear && 1 <= m < 12)
    requires 1 <= m <= 12
    ensures Valid(d) && d.day == 1
    ensures d.year * 12 + d.month == y * 12 + m + 1
  {
    if m == 12 then Date(y + 1, 1, 1) else Date(y, m + 1, 1)
  }

  /** For a four-digit year the written upper bound is the key of the next month's first day. */
  lemma UpperBoundIsKey(y: nat, m: nat)
    requires 1000 <= y <= MaxYear && 1 <= m <= 12 && !(y == MaxYear && m == 12)
    ensures NextMonthBoundAsWritten(y, m) == Format(NextMonthStart(y, m))
  {
    assert Pad(1, 2) == "01";
    if m == 12 {
      DecimalFourDigits(y + 1);
      PadStep(1, 2);
    } else {
      DecimalFourDigits(y);
    }
  }

  /** Everywhere else the written bounds agree with the month: for a four-digit year and a
      real month other than December 9999, a canonical start date passes them exactly when
      it lies in that month. */
  lemma AsWrittenAgreesForFourDigitYears(t: WeeklyTheme, month: string, d: Date)
    requires MatchesMonthPattern(month) && Valid(d) && t.startDate == Format(d)
    requires 1000 <= ParseMonthQuery(month).0 && 1 <= ParseMonthQuery(month).1 <= 12
    requires !(ParseMonthQuery(month).0 == MaxYear && ParseMonthQuery(month).1 == 12)
    ensures StartsInMonthAsWritten(t, month) <==> StartsInMonth(t, month)
  {
    var (y, m) := ParseMonthQuery(month);
    var first, next := Date(y, m, 1), NextMonthStart(y, m);
    LowerBoundIsKey(y, m);
    UpperBoundIsKey(y, m);
    FormatLe(first, d);
    FormatOrder(d, next);
    MonthWindowExact(d, y, m);
  }
}
