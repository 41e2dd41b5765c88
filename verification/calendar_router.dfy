/**
  The public month view (`GET /api/v1/calendar?month=YYYY-MM`): the month's problems up to
  and including today, as (date, title, difficulty) entries sorted by date. A query the
  pattern refuses is a 422; a month number outside 1..12 is answered with an error object.
*/
module CalendarRouter {
  import opened Text
  import opened DateKeys
  import opened MonthKeys
  import opened Records
  import opened Store
  import opened Sorting

  datatype Entry = Entry(date: string, title: string, difficulty: string)

  datatype CalendarReply =
    | Unprocessable                                       // 422: the query fails the pattern
    | MonthError                                          // {"error": "Invalid month format. Use YYYY-MM."}
    | MonthView(month: string, count: nat, days: seq<Entry>)

  function EntryOf(p: DailyProblem<TestCase>): (e: Entry)
    ensures e.date == p.id && e.title == p.title && e.difficulty == p.difficulty
  {
    Entry(p.id, p.title, p.difficulty)
  }

  function EntryDate(e: Entry): string
  {
    e.date
  }

  /** The entries the loop keeps from `ps`, in order: every problem whose key is not after today's. */
  function Visible(ps: seq<DailyProblem<TestCase>>, todayKey: string): (r: seq<Entry>)
    ensures |r| <= |ps|
  {
    if |ps| == 0 then []
    else
      var init, last := ps[..|ps| - 1], ps[|ps| - 1];
      Visible(init, todayKey) + (if LexLess(todayKey, last.id) then [] else [EntryOf(last)])
  }

  /** An entry is kept exactly when it is the entry of a problem of `ps` whose key is not after today's. */
  lemma {:induction false} VisibleExact(ps: seq<DailyProblem<TestCase>>, todayKey: string)
    ensures forall e :: e in Visible(ps, todayKey) <==> exists p :: p in ps && e == EntryOf(p) && LexLe(p.id, todayKey)
  {
    if |ps| > 0 {
      var init, last := ps[..|ps| - 1], ps[|ps| - 1];
      assert ps == init + [last];
      VisibleExact(init, todayKey);
      LexLessNotLe(last.id, todayKey);
      var tail := if LexLess(todayKey, last.id) then [] else [EntryOf(last)];
      assert Visible(ps, todayKey) == Visible(init, todayKey) + tail;
      forall e | e in Visible(ps, todayKey)
        ensures exists p :: p in ps && e == EntryOf(p) && LexLe(p.id, todayKey)
      {
        if e !in Visible(init, todayKey) {
          assert e == EntryOf(last);
        }
      }
      forall p | p in ps && LexLe(p.id, todayKey)
        ensures EntryOf(p) in Visible(ps, todayKey)
      {
        if p != last {
          assert p in init;
        }
      }
    }
  }

  /** The `days` of the month view: the month window's problems not after today, by date. */
  function MonthDays(docs: seq<DailyProblem<TestCase>>, prefix: string, todayKey: string): seq<Entry>
  {
    SortBy(Visible(FindRange(docs, prefix + "-01", prefix + "-31"), todayKey), EntryDate, false)
  }

  /** `get_month_calendar(month)` with today's UTC date. */
  method GetMonthCalendar(docs: seq<DailyProblem<TestCase>>, month: string, today: Date) returns (r: CalendarReply)
    requires Valid(today)
    ensures !MatchesMonthPattern(month) ==> r == Unprocessable
    ensures MatchesMonthPattern(month) && !(1 <= ParseMonthQuery(month).1 <= 12) ==> r == MonthError
    ensures MatchesMonthPattern(month) && 1 <= ParseMonthQuery(month).1 <= 12 ==>
              r == MonthView(month, |MonthDays(docs, month, Format(today))|, MonthDays(docs, month, Format(today)))
  {
    if !MatchesMonthPattern(month) {
      return Unprocessable;
    }
    var (year, monthNum) := ParseMonthQuery(month);
    if !(1 <= monthNum <= 12) {
      return MonthError;
    }
    var prefix := MonthPrefix(year, monthNum);
    var problems := FindRange(docs, prefix + "-01", prefix + "-31");
    var todayKey := Format(today);
    var entries: seq<Entry> := [];
    var i := 0;
    while i < |problems|
      invariant 0 <= i <= |problems|
      invariant entries == Visible(problems[..i], todayKey)
    {
      var p := problems[i];
      assert problems[..i + 1] == problems[..i] + [p];
      i := i + 1;
      if LexLess(todayKey, p.id) {
        continue;  // never a day after today
      }
      entries := entries + [EntryOf(p)];
    }
    assert problems[..i] == problems;
    entries := SortBy(entries, EntryDate, false);
    return MonthView(month, |entries|, entries);
  }

  /** One entry of the month view comes from a stored problem of the window, not after today. */
  lemma EntrySource(docs: seq<DailyProblem<TestCase>>, prefix: string, todayKey: string, e: Entry)
    requires e in MonthDays(docs, prefix, todayKey)
    ensures exists p :: p in docs && e == EntryOf(p) && LexLe(p.id, todayKey) && InMonthWindow(p.id, prefix)
  {
    var lo, hi := prefix + "-01", prefix + "-31";
    var ps := FindRange(docs, lo, hi);
    var v := Visible(ps, todayKey);
    assert e in multiset(SortBy(v, EntryDate, false));
    assert e in v;
    VisibleExact(ps, todayKey);
    var p :| p in ps && e == EntryOf(p) && LexLe(p.id, todayKey);
    RangeMember(docs, lo, hi, p);
  }

  /** A document of a key range is a stored document whose key lies in the range. */
  lemma RangeMember(docs: seq<DailyProblem<TestCase>>, lo: string, hi: string, p: DailyProblem<TestCase>)
    requires p in FindRange(docs, lo, hi)
    ensures p in docs && LexLe(lo, p.id) && LexLe(p.id, hi)
  {
    var ps := FindRange(docs, lo, hi);
    var j :| 0 <= j < |ps| && ps[j] == p;
  }

  /** Each entry is a stored problem of the month window whose key is not after today's, and
      the entries are in ascending date order. */
  lemma MonthDaysSafe(docs: seq<DailyProblem<TestCase>>, prefix: string, todayKey: string)
    ensures SortedBy(MonthDays(docs, prefix, todayKey), EntryDate, false)
    ensures forall e :: e in MonthDays(docs, prefix, todayKey) ==>
              exists p :: p in docs && e == EntryOf(p) && LexLe(p.id, todayKey) && InMonthWindow(p.id, prefix)
  {
    forall e | e in MonthDays(docs, prefix, todayKey)
      ensures exists p :: p in docs && e == EntryOf(p) && LexLe(p.id, todayKey) && InMonthWindow(p.id, prefix)
    {
      EntrySource(docs, prefix, todayKey, e);
    }
  }

  /** On canonical keys the month view is exact: a day is listed exactly when a problem is
      stored under its key, it lies in the requested month, and it is not after today. */
  lemma MonthDaysExact(docs: seq<DailyProblem<TestCase>>, year: nat, month: nat, today: Date, d: Date)
    requires 1 <= year <= MaxYear && 1 <= month <= 12 && Valid(today) && Valid(d)
    ensures (exists e :: e in MonthDays(docs, MonthPrefix(year, month), Format(today)) && e.date == Format(d))
            <==> Format(d) in Keys(docs) && d.year == year && d.month == month && !Before(today, d)
  {
    var prefix, key := MonthPrefix(year, month), Format(d);
    var ps := FindRange(docs, prefix + "-01", prefix + "-31");
    var v := Visible(ps, Format(today));
    VisibleExact(ps, Format(today));
    var days := MonthDays(docs, prefix, Format(today));
    MonthWindowExact(d, year, month);
    FormatLe(d, today);
    if e :| e in days && e.date == key {
      EntrySource(docs, prefix, Format(today), e);
      var p :| p in docs && e == EntryOf(p) && LexLe(p.id, Format(today)) && InMonthWindow(p.id, prefix);
      var i :| 0 <= i < |docs| && docs[i] == p;
    }
    if key in Keys(docs) && d.year == year && d.month == month && !Before(today, d) {
      var i :| 0 <= i < |docs| && docs[i].id == key;
      assert docs[i] in ps;
      assert EntryOf(docs[i]) in v;
      assert EntryOf(docs[i]) in multiset(days);
    }
  }
}
