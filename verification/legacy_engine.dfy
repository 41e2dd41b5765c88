/**
  The legacy weekly generator of `src/services/content_engine.py`: it targets the next
  Monday strictly after today, names the week by its ISO 8601 week date
  ("2026-W07", section 4.1.4 of ISO 8601:2004), has the model pick a fresh theme and
  write seven dated problems, and stores them with a week-keyed theme record.
*/
module LegacyEngine {
  import opened Wrappers
  import opened Text
  import opened DateKeys
  import opened IsoWeek
  import opened Records
  import opened Store
  import opened ContentEngine

  /** Days from `today` to the next Monday: `(7 - weekday) % 7`, with 0 replaced by 7. */
  function DaysUntilMonday(today: Date): (n: int)
    requires InCalendar(today)
    ensures 1 <= n <= 7
    ensures n == 7 <==> Weekday(today) == 0
    ensures (Weekday(today) + n) % 7 == 0
  {
    var k := (7 - Weekday(today)) % 7;
    if k == 0 then 7 else k
  }

  /** Adding n days moves the weekday n places around the week. */
  lemma WeekdayShift(d: Date, n: nat)
    requires InCalendar(d)
    ensures Weekday(AddDays(d, n)) == (Weekday(d) + n) % 7
  {
    AddDaysOrdinal(d, n);
    var q := (Ordinal(d) + 6) / 7;
    var w := Weekday(d);
    var q2 := (w + n) / 7;
    var r2 := (w + n) % 7;
    assert Ordinal(d) + 6 == 7 * q + w;
    assert w + n == 7 * q2 + r2;
    Mod7Unique(Ordinal(AddDays(d, n)) + 6, q + q2, r2);
  }

  /** The target day: strictly after today, and a Monday. */
  function NextMonday(today: Date): (d: Date)
    requires InCalendar(today)
    ensures InCalendar(d) && Before(today, d) && Weekday(d) == 0
  {
    var n := DaysUntilMonday(today);
    AddDaysBefore(today, 0, n);
    WeekdayShift(today, n);
    AddDays(today, n)
  }

  /** No Monday lies strictly between today and the target: it is the first Monday after today. */
  lemma NextMondayIsFirst(today: Date, k: nat)
    requires InCalendar(today) && 0 < k < DaysUntilMonday(today)
    ensures Weekday(AddDays(today, k)) != 0
  {
    WeekdayShift(today, k);
    var w := Weekday(today);
    if w != 0 {
      Mod7Unique(7 - w, 0, 7 - w);
      assert DaysUntilMonday(today) == 7 - w;
    }
    assert 0 < w + k < 7;
    Mod7Unique(w + k, 0, w + k);
  }

  /** `f"{iso_year}-W{iso_week:02d}"` of a day. */
  function WeekId(d: Date): string
    requires InCalendar(d)
  {
    var iso := IsoCalendar(d);
    Decimal(iso.0) + "-W" + Pad(iso.1, 2)
  }

  /** For four-digit ISO years the id has the fixed shape `YYYY-Www`, and the week number
      reads back from its last two characters. */
  lemma WeekIdShape(d: Date)
    requires InCalendar(d) && 1000 <= IsoCalendar(d).0 <= 9999
    ensures |WeekId(d)| == 8 && WeekId(d)[4..6] == "-W"
    ensures WeekId(d)[..4] == Pad(IsoCalendar(d).0, 4)
    ensures WeekId(d)[6..] == Pad(IsoCalendar(d).1, 2)
  {
    var iso := IsoCalendar(d);
    DecimalFourDigits(iso.0);
    PadLength(iso.0, 4);
    PadLength(iso.1, 2);
    var y, w := Pad(iso.0, 4), Pad(iso.1, 2);
    assert WeekId(d) == y + "-W" + w;
  }

  // ---------------------------------------------------------------------------
  // The model's output and its conversion
  // ---------------------------------------------------------------------------

  datatype LegacyDraftCase = LegacyDraftCase(input: string, expectedOutput: string, isConcisenessCheck: bool, maxLines: Option<int>)

  /** A generated problem: the model also chooses its key and difficulty. */
  datatype LegacyDraft = LegacyDraft(
    id: string, title: string, difficulty: string, description: string, starterCode: string,
    testCases: seq<LegacyDraftCase>, topics: seq<string>)

  datatype LegacyLlm = LegacyLlm(
    pickTheme: seq<string> -> Option<string>,
    generateBatch: (string, string, seq<string>) -> Option<seq<LegacyDraft>>)

  /** A test case copied field by field. */
  function ConvertCase(c: LegacyDraftCase): (t: LegacyTestCase)
    ensures t.input == c.input && t.expectedOutput == c.expectedOutput
    ensures t.isConcisenessCheck == c.isConcisenessCheck && t.maxLines == c.maxLines
  {
    LegacyTestCase(c.input, c.expectedOutput, c.isConcisenessCheck, c.maxLines)
  }

  /** The document for a draft: every field copied, test cases converted in order, no embedding. */
  function Convert(d: LegacyDraft): (p: DailyProblem<LegacyTestCase>)
    ensures p.id == d.id && p.title == d.title && p.difficulty == d.difficulty
    ensures p.description == d.description && p.starterCode == d.starterCode && p.topics == d.topics
    ensures |p.testCases| == |d.testCases| && forall k :: 0 <= k < |d.testCases| ==> p.testCases[k] == ConvertCase(d.testCases[k])
    ensures p.embedding.None?
  {
    DailyProblem(d.id, d.title, d.difficulty, d.description, d.starterCode,
                 seq(|d.testCases|, k requires 0 <= k < |d.testCases| => ConvertCase(d.testCases[k])), d.topics, None)
  }

  /** The documents for a batch: one per draft, in order. */
  function ConvertAll(batch: seq<LegacyDraft>): (ps: seq<DailyProblem<LegacyTestCase>>)
    ensures |ps| == |batch|
    ensures forall i :: 0 <= i < |batch| ==> ps[i] == Convert(batch[i]) && ps[i].id == batch[i].id
  {
    seq(|batch|, i requires 0 <= i < |batch| => Convert(batch[i]))
  }

  /** The conversion loop of `generate_next_week`: one document per draft, in order. */
  method ConvertBatch(batch: seq<LegacyDraft>) returns (problems: seq<DailyProblem<LegacyTestCase>>)
    ensures |problems| == |batch|
    ensures forall i :: 0 <= i < |batch| ==> problems[i] == Convert(batch[i])
    ensures problems == ConvertAll(batch)
  {
    problems := [];
    for i := 0 to |batch|
      invariant |problems| == i
      invariant forall j :: 0 <= j < i ==> problems[j] == Convert(batch[j])
    {
      problems := problems + [Convert(batch[i])];
    }
  }

  function LegacyThemeNames(themes: seq<LegacyTheme>): (r: seq<string>)
    ensures |r| == |themes| && forall i :: 0 <= i < |r| ==> r[i] == themes[i].theme
  {
    seq(|themes|, i requires 0 <= i < |themes| => themes[i].theme)
  }

  /** The summary `generate_next_week` returns. */
  datatype WeekSummary = WeekSummary(weekId: string, theme: string, problemsCreated: int, startDate: string)

  /** The two collections after a run, and what the run returned. */
  datatype WeekRun = WeekRun(problems: seq<DailyProblem<LegacyTestCase>>, themes: seq<LegacyTheme>,
                             result: Result<WeekSummary, EngineError>)

  /** What `generate_next_week` does to the collections `before` and `themesBefore`: a
      Monday past the calendar, or a model that gives no answer, changes nothing; otherwise
      the converted batch is inserted in order, and the theme record is saved only when
      every document was written. A refused write keeps the documents written before it. */
  function WeekOutcome(before: seq<DailyProblem<LegacyTestCase>>, themesBefore: seq<LegacyTheme>,
                       today: Date, llm: LegacyLlm, now: real): (o: WeekRun)
    requires Valid(today)
    ensures before <= o.problems
    ensures o.result.Err? ==> o.themes == themesBefore
    ensures o.result.Ok? ==> o.themes == themesBefore + [LegacyTheme(o.result.value.weekId, o.result.value.theme, now)]
                             && o.result.value.problemsCreated == |o.problems| - |before| >= 1
  {
    var monday := NextMonday(today);
    if !(monday.year <= MaxYear) then WeekRun(before, themesBefore, Err(Overflow))
    else match llm.pickTheme(LegacyThemeNames(MostRecent(themesBefore, 10)))
      case None => WeekRun(before, themesBefore, Err(LlmFailed))
      case Some(picked) =>
        var theme := Strip(picked);
        match llm.generateBatch(theme, Format(monday), Titles(before))
        case None => WeekRun(before, themesBefore, Err(LlmFailed))
        case Some(batch) =>
          var ps := ConvertAll(batch);
          var k := InsertedPrefix(before, ps);
          if 1 <= |ps| && k == |ps| then
            assert ps[..k] == ps;
            WeekRun(before + ps, themesBefore + [LegacyTheme(WeekId(monday), theme, now)],
                    Ok(WeekSummary(WeekId(monday), theme, |ps|, Format(monday))))
          else
            WeekRun(before + ps[..k], themesBefore,
                    Err(WriteRefused(if |ps| == 0 then EmptyInsert else DuplicateKey(ps[k].id))))
  }

  /** When a run succeeds: the Monday is in the calendar, the model answers both calls and
      the store takes every converted document, which then follow the old ones in order.
      When it fails, the themes are untouched and the problems are the old ones plus the
      documents written before the refused one. */
  lemma WeekOutcomeFacts(before: seq<DailyProblem<LegacyTestCase>>, themesBefore: seq<LegacyTheme>,
                         today: Date, llm: LegacyLlm, now: real)
    requires Valid(today)
    ensures var o := WeekOutcome(before, themesBefore, today, llm, now);
      var monday := NextMonday(today);
      var pick := llm.pickTheme(LegacyThemeNames(MostRecent(themesBefore, 10)));
      var gen := if pick.Some? then llm.generateBatch(Strip(pick.value), Format(monday), Titles(before)) else None;
      var written := if Valid(monday) && gen.Some? then InsertedPrefix(before, ConvertAll(gen.value)) else 0;
      && (o.result.Ok? <==> Valid(monday) && gen.Some? && 1 <= |gen.value| && written == |gen.value|)
      && (o.result.Err? ==> o.problems == before + (if Valid(monday) && gen.Some? then ConvertAll(gen.value)[..written] else []))
      && (!Valid(monday) ==> o == WeekRun(before, themesBefore, Err(Overflow)))
      && (o.result.Ok? ==>
            && o.result.value == WeekSummary(WeekId(monday), Strip(pick.value), |gen.value|, Format(monday))
            && o.problems == before + ConvertAll(gen.value))
  {
  }

  /** A run whose Monday is in the calendar, whose model answers both calls and whose
      non-empty batch has distinct keys, none of them stored, succeeds: every converted
      document is appended and one theme record is saved. */
  lemma WeekSucceeds(before: seq<DailyProblem<LegacyTestCase>>, themesBefore: seq<LegacyTheme>,
                     today: Date, llm: LegacyLlm, now: real, theme: string, batch: seq<LegacyDraft>)
    requires Valid(today) && Valid(NextMonday(today))
    requires llm.pickTheme(LegacyThemeNames(MostRecent(themesBefore, 10))).Some?
    requires theme == Strip(llm.pickTheme(LegacyThemeNames(MostRecent(themesBefore, 10))).value)
    requires llm.generateBatch(theme, Format(NextMonday(today)), Titles(before)) == Some(batch)
    requires 1 <= |batch| && forall i, j :: 0 <= i < j < |batch| ==> batch[i].id != batch[j].id
    requires forall i :: 0 <= i < |batch| ==> batch[i].id !in Keys(before)
    ensures var o := WeekOutcome(before, themesBefore, today, llm, now);
      && o.result == Ok(WeekSummary(WeekId(NextMonday(today)), theme, |batch|, Format(NextMonday(today))))
      && o.problems == before + ConvertAll(batch)
      && o.themes == themesBefore + [LegacyTheme(WeekId(NextMonday(today)), theme, now)]
  {
    InsertedPrefixAll(before, ConvertAll(batch));
  }

  /** `generate_next_week()` against the two collections. */
  method GenerateNextWeek(problems: ProblemCollection<LegacyTestCase>, themes: ThemeCollection<LegacyTheme>,
                          today: Date, llm: LegacyLlm, now: real)
    returns (r: Result<WeekSummary, EngineError>)
    requires problems.Valid() && Valid(today)
    modifies problems, themes
    ensures problems.Valid()
    ensures WeekRun(problems.docs, themes.docs, r) == WeekOutcome(old(problems.docs), old(themes.docs), today, llm, now)
    ensures var monday := NextMonday(today);
      var pick := llm.pickTheme(LegacyThemeNames(MostRecent(old(themes.docs), 10)));
      var gen := if pick.Some? then llm.generateBatch(Strip(pick.value), Format(monday), Titles(old(problems.docs))) else None;
      var written := if Valid(monday) && gen.Some? then InsertedPrefix(old(problems.docs), ConvertAll(gen.value)) else 0;
      && (r.Ok? <==> Valid(monday) && gen.Some? && 1 <= |gen.value| && written == |gen.value|)
      && (r.Err? ==> problems.docs == old(problems.docs) + (if Valid(monday) && gen.Some? then ConvertAll(gen.value)[..written] else []))
    ensures r.Err? ==> themes.docs == old(themes.docs) && old(problems.docs) <= problems.docs
    ensures !Valid(NextMonday(today)) ==> r == Err(Overflow) && problems.docs == old(problems.docs)
    ensures r.Ok? ==>
      var monday := NextMonday(today);
      var recent := LegacyThemeNames(MostRecent(old(themes.docs), 10));
      && Valid(monday)
      && r.value.weekId == WeekId(monday) && r.value.startDate == Format(monday)
      && llm.pickTheme(recent).Some? && r.value.theme == Strip(llm.pickTheme(recent).value)
      && llm.generateBatch(r.value.theme, Format(monday), Titles(old(problems.docs))).Some?
      && var batch := llm.generateBatch(r.value.theme, Format(monday), Titles(old(problems.docs))).value;
         && r.value.problemsCreated == |batch| >= 1
         && |problems.docs| == |old(problems.docs)| + |batch|
         && problems.docs[..|old(problems.docs)|] == old(problems.docs)
         && (forall i :: 0 <= i < |batch| ==> problems.docs[|old(problems.docs)| + i] == Convert(batch[i]))
         && themes.docs == old(themes.docs) + [LegacyTheme(r.value.weekId, r.value.theme, now)]
  {
    WeekOutcomeFacts(problems.docs, themes.docs, today, llm, now);
    var monday := NextMonday(today);
    if !(monday.year <= MaxYear) {
      return Err(Overflow);
    }
    var weekId := WeekId(monday);
    var startDate := Format(monday);
    var picked := llm.pickTheme(LegacyThemeNames(MostRecent(themes.docs, 10)));
    if picked.None? {
      return Err(LlmFailed);
    }
    var theme := Strip(picked.value);
    var batch := llm.generateBatch(theme, startDate, Titles(problems.docs));
    if batch.None? {
      return Err(LlmFailed);
    }
    var converted := ConvertBatch(batch.value);
    var inserted := problems.InsertMany(converted);
    if inserted.Err? {
      return Err(WriteRefused(inserted.error));
    }
    assert converted[..|converted|] == converted;
    themes.Insert(LegacyTheme(weekId, theme, now));
    return Ok(WeekSummary(weekId, theme, |converted|, startDate));
  }

  /** A week's theme heads the recent names the next run shows the model. */
  lemma NextWeekSeesTheme(themes: seq<LegacyTheme>, t: LegacyTheme)
    ensures var recent := LegacyThemeNames(MostRecent(themes + [t], 10));
      |recent| >= 1 && recent[0] == t.theme
  {
    assert MostRecent(themes + [t], 10)[0] == (themes + [t])[|themes|];
  }

  /** As written, `find_all(sort=[("-generated_at", -1)], limit=10)` keeps natural order:
      once ten themes exist, the week just generated is missing from the names the next
      run shows the model. */
  lemma RecentNamesMissNewestAsWritten(themes: seq<LegacyTheme>, t: LegacyTheme)
    requires 10 <= |themes| && forall i :: 0 <= i < |themes| ==> themes[i].theme != t.theme
    ensures t.theme !in LegacyThemeNames(FirstRecords(themes + [t], 10))
  {
    var names := LegacyThemeNames(FirstRecords(themes + [t], 10));
    assert FirstRecords(themes + [t], 10) == themes[..10];
    forall k | 0 <= k < |names|
      ensures names[k] != t.theme
    {
      assert names[k] == themes[k].theme;
    }
  }
}
