/**
  The batch scheduler of `src/shared/services/content_engine.py`: it finds the next open
  day, picks a theme, asks the language model for drafts, gives draft i the key of
  `start + i` days and the i-th difficulty of a fixed seven-day cycle, bulk-inserts the
  problems and records the batch's theme with its date range.

  The language model is an oracle value (`Llm`) whose answers may be missing (a failed
  call); the clock is the parameters `today` and `now`.
*/
module ContentEngine {
  import opened Wrappers
  import opened Text
  import opened DateKeys
  import opened DateParse
  import opened Records
  import opened Store

  // ---------------------------------------------------------------------------
  // Difficulty cycle
  // ---------------------------------------------------------------------------

  const DifficultyCycle: seq<string> := [Easy, Easy, Medium, Medium, Hard, Hard, Medium]

  /** `get_difficulty_sequence(count)`: element i is the cycle's entry i mod 7; `range`
      of a negative count is empty. */
  function DifficultySequence(count: int): (r: seq<string>)
    ensures |r| == if count > 0 then count else 0
    ensures forall i :: 0 <= i < |r| ==> r[i] == DifficultyCycle[i % 7]
  {
    if count <= 0 then [] else DifficultySequence(count - 1) + [DifficultyCycle[(count - 1) % 7]]
  }

  /** The sequence repeats with period seven: a batch of n + 7 is a week followed by a batch of n. */
  lemma DifficultyPeriodic(n: nat)
    ensures DifficultySequence(n + 7) == DifficultySequence(7) + DifficultySequence(n)
  {
    var a, b := DifficultySequence(n + 7), DifficultySequence(7) + DifficultySequence(n);
    forall i | 0 <= i < n + 7
      ensures a[i] == b[i]
    {
      if i >= 7 {
        assert (i - 7) % 7 == i % 7;
      }
    }
  }

  /** Two weeks of difficulties are the weekly pattern twice. */
  lemma TwoWeeks()
    ensures DifficultySequence(14) == DifficultySequence(7) + DifficultySequence(7)
    ensures DifficultySequence(7) == DifficultyCycle
  {
    DifficultyPeriodic(7);
  }

  /** A shorter batch gets a prefix of a longer batch's difficulties. */
  lemma DifficultyPrefix(m: nat, n: nat)
    requires m <= n
    ensures DifficultySequence(m) == DifficultySequence(n)[..m]
  {
  }

  /** Every difficulty handed out is one of Easy, Medium, Hard. */
  lemma DifficultyValues(count: int, i: nat)
    requires i < |DifficultySequence(count)|
    ensures DifficultySequence(count)[i] in {Easy, Medium, Hard}
  {
  }

  // ---------------------------------------------------------------------------
  // The language model
  // ---------------------------------------------------------------------------

  /** One generated test case as the model returns it; `kind` may use any letter case. */
  datatype DraftCase = DraftCase(kind: string, hint: string, input: string, expected: string)

  /** One generated problem, without date or difficulty. */
  datatype Draft = Draft(title: string, description: string, starterCode: string, testCases: seq<DraftCase>, topics: seq<string>)

  /** The two model calls; None stands for a call that raises. */
  datatype Llm = Llm(
    pickTheme: seq<string> -> Option<string>,
    generateBatch: (string, int, seq<string>) -> Option<seq<Draft>>)

  /** Why a generation run stopped. */
  datatype EngineError =
    | Overflow             // a date left 0001-01-01 .. 9999-12-31
    | BadStoredKey         // a stored key strptime rejects
    | LlmFailed
    | InvalidTestType      // a lower-cased test type outside the four literals
    | IndexOutOfRange      // more drafts than difficulties
    | WriteRefused(failure: WriteError)

  // ---------------------------------------------------------------------------
  // Next open date
  // ---------------------------------------------------------------------------

  /** The lexicographically greatest key of a non-empty sequence of problems. */
  function MaxKey<TC>(docs: seq<DailyProblem<TC>>): (r: string)
    requires |docs| > 0
    ensures r in Keys(docs)
    ensures forall i :: 0 <= i < |docs| ==> LexLe(docs[i].id, r)
  {
    if |docs| == 1 then docs[0].id
    else
      var m := MaxKey(docs[1..]);
      assert forall i :: 1 <= i < |docs| ==> docs[i] == docs[1..][i - 1];
      LexLessNotLe(docs[0].id, m);
      if LexLess(m, docs[0].id) then
        forall i | 1 <= i < |docs|
          ensures LexLe(docs[i].id, docs[0].id)
        {
          LexLeTransitive(docs[i].id, m, docs[0].id);
        }
        docs[0].id
      else
        m
  }

  /** The day after `d`, or OverflowError past 9999-12-31. */
  function DayAfter(d: Date): (r: Result<Date, EngineError>)
    requires Valid(d)
    ensures r.Ok? ==> Valid(r.value) && Before(d, r.value)
    ensures r.Err? <==> d == LastDay
  {
    if d == LastDay then Err(Overflow)
    else
      NextDayValid(d);
      Ok(NextDay(d))
  }

  /** `_find_next_open_date` as intended: the day after the greatest stored key, or today
      when nothing is stored. */
  function NextOpenDate<TC>(docs: seq<DailyProblem<TC>>, today: Date): (r: Result<Date, EngineError>)
    requires Valid(today)
    ensures |docs| == 0 ==> r == Ok(today)
    ensures r.Ok? ==> Valid(r.value)
    ensures r.Err? <==> |docs| > 0 && (Strptime(MaxKey(docs)).None? || Strptime(MaxKey(docs)).value == LastDay)
  {
    if |docs| == 0 then Ok(today)
    else
      match Strptime(MaxKey(docs))
      case None => Err(BadStoredKey)
      case Some(d) => DayAfter(d)
  }

  /** `_find_next_open_date` as written: `sort=[("-_id", -1)]` is a (field, direction) tuple
      naming the absent field "-_id", so no order is imposed and the first document in
      natural order is taken as the latest. */
  function NextOpenDateAsWritten<TC>(docs: seq<DailyProblem<TC>>, today: Date): (r: Result<Date, EngineError>)
    requires Valid(today)
    ensures |docs| == 0 ==> r == Ok(today)
    ensures r.Ok? ==> Valid(r.value)
  {
    if |docs| == 0 then Ok(today)
    else
      match Strptime(docs[0].id)
      case None => Err(BadStoredKey)
      case Some(d) => DayAfter(d)
  }

  /** Every stored key is the canonical key of some day. */
  predicate CanonicalKeys<TC>(docs: seq<DailyProblem<TC>>)
  {
    forall i :: 0 <= i < |docs| ==> IsCanonicalKey(docs[i].id)
  }

  /** The day of a canonical key. */
  function KeyDate(key: string): (d: Date)
    requires IsCanonicalKey(key)
    ensures Valid(d) && Format(d) == key
  {
    Strptime(key).value
  }

  /** On a store of canonical keys, finding the next open date fails only when the latest
      scheduled day is 9999-12-31. */
  lemma NextOpenDateFailsOnlyAtLastDay<TC>(docs: seq<DailyProblem<TC>>, today: Date)
    requires Valid(today) && CanonicalKeys(docs)
    ensures |docs| > 0 ==> IsCanonicalKey(MaxKey(docs))
    ensures NextOpenDate(docs, today).Err? <==> |docs| > 0 && KeyDate(MaxKey(docs)) == LastDay
  {
    if |docs| > 0 {
      var i0 :| 0 <= i0 < |docs| && docs[i0].id == MaxKey(docs);
      assert IsCanonicalKey(docs[i0].id);
    }
  }

  /** The next open date is the day after a scheduled day and after every scheduled day, so
      its key is free. */
  lemma NextOpenDateIsOpen<TC>(docs: seq<DailyProblem<TC>>, today: Date)
    requires Valid(today) && CanonicalKeys(docs)
    requires NextOpenDate(docs, today).Ok?
    ensures forall i :: 0 <= i < |docs| ==> Before(KeyDate(docs[i].id), NextOpenDate(docs, today).value)
    ensures Format(NextOpenDate(docs, today).value) !in Keys(docs)
    ensures |docs| > 0 ==> exists i :: 0 <= i < |docs| && NextDay(KeyDate(docs[i].id)) == NextOpenDate(docs, today).value
  {
    if |docs| > 0 {
      var m := MaxKey(docs);
      var i0 :| 0 <= i0 < |docs| && docs[i0].id == m;
      var dm := KeyDate(m);
      var next := NextOpenDate(docs, today).value;
      assert NextDay(KeyDate(docs[i0].id)) == next;
      forall i | 0 <= i < |docs|
        ensures Before(KeyDate(docs[i].id), next)
      {
        var di := KeyDate(docs[i].id);
        FormatLe(di, dm);
        OrdinalOrder(di, dm);
        OrdinalOrder(dm, next);
        OrdinalOrder(di, next);
      }
      if Format(next) in Keys(docs) {
        var j :| 0 <= j < |docs| && docs[j].id == Format(next);
        FormatOrder(KeyDate(docs[j].id), next);
        OrdinalOrder(KeyDate(docs[j].id), next);
      }
    }
  }

  /** A problem with only its key set, for exhibiting schedules. */
  function KeyOnly(key: string): DailyProblem<TestCase>
  {
    NewProblem(key, "", Easy, "", "")
  }

  /** Two problems inserted in date order (2026-03-01, then 2026-03-02): the code as written
      proposes the second day, which is taken, where the intended rule gives the third. */
  lemma NextOpenDateCollides()
    ensures var docs := [KeyOnly(Format(Date(2026, 3, 1))), KeyOnly(Format(Date(2026, 3, 2)))];
      && NextOpenDateAsWritten(docs, Date(2026, 1, 1)) == Ok(Date(2026, 3, 2))
      && Format(Date(2026, 3, 2)) in Keys(docs)
      && NextOpenDate(docs, Date(2026, 1, 1)) == Ok(Date(2026, 3, 3))
  {
    var d1, d2 := Date(2026, 3, 1), Date(2026, 3, 2);
    var docs := [KeyOnly(Format(d1)), KeyOnly(Format(d2))];
    StrptimeFormat(d1);
    StrptimeFormat(d2);
    FormatOrder(d1, d2);
    MaxKeyOfTwo(docs[0], docs[1]);
    assert docs[0].id == Format(d1) && docs[1].id == Format(d2);
  }

  lemma MaxKeyOfTwo<TC>(a: DailyProblem<TC>, b: DailyProblem<TC>)
    requires LexLess(a.id, b.id)
    ensures MaxKey([a, b]) == b.id
  {
    LexLessNotLe(b.id, a.id);
    assert [a, b][1..] == [b];
  }

  // ---------------------------------------------------------------------------
  // Recent themes and the theme choice
  // ---------------------------------------------------------------------------

  /** The newest `n` theme records, newest first. Records are appended in the order they
      are generated, so this is the intended `sort=-generated_at, limit=n`. */
  function MostRecent<Th>(themes: seq<Th>, n: nat): (r: seq<Th>)
    ensures |r| == if n < |themes| then n else |themes|
    ensures forall i :: 0 <= i < |r| ==> r[i] == themes[|themes| - 1 - i]
  {
    if n == 0 || |themes| == 0 then []
    else [themes[|themes| - 1]] + MostRecent(themes[..|themes| - 1], n - 1)
  }

  /** `find_all(sort=[("-generated_at", -1)], limit=n)` as written: the tuple names the
      absent field "-generated_at", so the first `n` records in natural order come back. */
  function FirstRecords<Th>(themes: seq<Th>, n: nat): (r: seq<Th>)
    ensures |r| == if n < |themes| then n else |themes|
    ensures r <= themes
  {
    if n < |themes| then themes[..n] else themes
  }

  /** Once `n` records exist, the one just generated is missing from the "recent" list as
      written, though it heads the intended one. */
  lemma FirstRecordsMissNewest<Th>(themes: seq<Th>, t: Th, n: nat)
    requires 1 <= n <= |themes| && t !in themes
    ensures t !in FirstRecords(themes + [t], n)
    ensures MostRecent(themes + [t], n)[0] == t
  {
    assert FirstRecords(themes + [t], n) == themes[..n];
  }

  function ThemeNames(themes: seq<WeeklyTheme>): (r: seq<string>)
    ensures |r| == |themes| && forall i :: 0 <= i < |r| ==> r[i] == themes[i].theme
  {
    seq(|themes|, i requires 0 <= i < |themes| => themes[i].theme)
  }

  function Titles<TC>(docs: seq<DailyProblem<TC>>): (r: seq<string>)
    ensures |r| == |docs| && forall i :: 0 <= i < |r| ==> r[i] == docs[i].title
  {
    seq(|docs|, i requires 0 <= i < |docs| => docs[i].title)
  }

  /** `_pick_theme`: a non-empty forced theme is used exactly as given; otherwise the model
      chooses, seeing the recent theme names, and its answer is stripped. */
  function PickTheme(force: Option<string>, recent: seq<string>, llm: Llm): (r: Result<string, EngineError>)
    ensures force.Some? && force.value != "" ==> r == Ok(force.value)
    ensures (force.None? || force.value == "") ==>
      (r.Err? <==> llm.pickTheme(recent).None?)
      && (r.Ok? ==> r.value == Strip(llm.pickTheme(recent).value)
                    && (r.value == [] || (!IsSpace(r.value[0]) && !IsSpace(r.value[|r.value| - 1]))))
  {
    if force.Some? && force.value != "" then Ok(force.value)
    else
      match llm.pickTheme(recent)
      case None => Err(LlmFailed)
      case Some(t) => Ok(Strip(t))
  }

  // ---------------------------------------------------------------------------
  // Building the documents
  // ---------------------------------------------------------------------------

  /** Every test type is one of the four literals once lower-cased. */
  predicate CasesValid(cases: seq<DraftCase>)
  {
    forall k :: 0 <= k < |cases| ==> ParseKind(Lower(cases[k].kind)).Some?
  }

  /** The test cases numbered 1..n in their original order, type lower-cased, the rest copied. */
  function Renumber(cases: seq<DraftCase>): (r: seq<TestCase>)
    requires CasesValid(cases)
    ensures |r| == |cases|
    ensures forall k :: 0 <= k < |r| ==>
      && r[k].id == k + 1
      && KindName(r[k].kind) == Lower(cases[k].kind)
      && r[k].hint == cases[k].hint && r[k].input == cases[k].input && r[k].expected == cases[k].expected
  {
    seq(|cases|, k requires 0 <= k < |cases| => TestCase(k + 1, ParseKind(Lower(cases[k].kind)).value, cases[k].hint, cases[k].input, cases[k].expected))
  }

  /** The inner loop of `_build_problems`: one validated `TestCase` per generated case. */
  method MapTestCases(cases: seq<DraftCase>) returns (r: Option<seq<TestCase>>)
    ensures r.Some? <==> CasesValid(cases)
    ensures r.Some? ==> r.value == Renumber(cases)
  {
    var mapped: seq<TestCase> := [];
    var idx := 0;
    while idx < |cases|
      invariant 0 <= idx <= |cases|
      invariant CasesValid(cases[..idx])
      invariant mapped == Renumber(cases[..idx])
    {
      var tc := cases[idx];
      var kind := ParseKind(Lower(tc.kind));
      if kind.None? {
        return None;
      }
      assert cases[..idx + 1][..idx] == cases[..idx];
      mapped := mapped + [TestCase(idx + 1, kind.value, tc.hint, tc.input, tc.expected)];
      idx := idx + 1;
    }
    assert cases[..idx] == cases;
    return Some(mapped);
  }

  /** The document made from draft `d` for the given key and difficulty. */
  function Built(d: Draft, key: string, difficulty: string): DailyProblem<TestCase>
    requires CasesValid(d.testCases)
  {
    DailyProblem(key, d.title, difficulty, d.description, d.starterCode, Renumber(d.testCases), d.topics, None)
  }

  /** What stops `_build_problems` at draft i, if anything: an invalid test type, no
      difficulty left for it, or stepping past 9999-12-31 after it. */
  function DraftError(batch: seq<Draft>, start: Date, count: int, i: nat): Option<EngineError>
    requires InCalendar(start) && i < |batch|
  {
    if !CasesValid(batch[i].testCases) then Some(InvalidTestType)
    else if i >= count then Some(IndexOutOfRange)
    else if !Valid(AddDays(start, i + 1)) then Some(Overflow)
    else None
  }

  /** Problem i of `ps` is draft i of `batch`, dated `start + i` days, with the i-th
      difficulty, and the day after it still representable. */
  predicate BuiltAt(batch: seq<Draft>, start: Date, count: int, ps: seq<DailyProblem<TestCase>>, i: nat)
    requires InCalendar(start) && i < |batch| && i < |ps|
  {
    CasesValid(batch[i].testCases) && i < count && Valid(AddDays(start, i + 1))
    && ps[i] == Built(batch[i], Format(AddDays(start, i)), DifficultySequence(count)[i])
  }

  /** `ps` is the batch built from `batch`: one problem per draft, in draft order. */
  predicate BuiltFrom(batch: seq<Draft>, start: Date, count: int, ps: seq<DailyProblem<TestCase>>)
    requires InCalendar(start)
  {
    |ps| == |batch| && forall i :: 0 <= i < |batch| ==> BuiltAt(batch, start, count, ps, i)
  }

  /** `_build_problems(batch, start, count)`. */
  method BuildProblems(batch: seq<Draft>, start: Date, count: int) returns (r: Result<seq<DailyProblem<TestCase>>, EngineError>)
    requires Valid(start)
    ensures r.Ok? <==> forall i :: 0 <= i < |batch| ==> DraftError(batch, start, count, i).None?
    ensures r.Ok? ==> BuiltFrom(batch, start, count, r.value)
    ensures r.Err? ==> exists i :: 0 <= i < |batch| && DraftError(batch, start, count, i) == Some(r.error)
                                   && forall j :: 0 <= j < i ==> DraftError(batch, start, count, j).None?
  {
    var difficulties := DifficultySequence(count);
    var problems: seq<DailyProblem<TestCase>> := [];
    var current := start;
    var i := 0;
    while i < |batch|
      invariant 0 <= i <= |batch|
      invariant forall j :: 0 <= j < i ==> DraftError(batch, start, count, j).None?
      invariant current == AddDays(start, i) && Valid(current)
      invariant |problems| == i
      invariant forall j :: 0 <= j < i ==> BuiltAt(batch, start, count, problems, j)
    {
      var cases := MapTestCases(batch[i].testCases);
      if cases.None? {
        assert DraftError(batch, start, count, i) == Some(InvalidTestType);
        return Err(InvalidTestType);
      }
      var key := Format(current);
      if i >= |difficulties| {
        assert DraftError(batch, start, count, i) == Some(IndexOutOfRange);
        return Err(IndexOutOfRange);
      }
      var p := DailyProblem(key, batch[i].title, difficulties[i], batch[i].description, batch[i].starterCode,
                            cases.value, batch[i].topics, None);
      ghost var before := problems;
      problems := problems + [p];
      if current == LastDay {
        assert DraftError(batch, start, count, i) == Some(Overflow);
        return Err(Overflow);
      }
      NextDayValid(current);
      current := NextDay(current);
      assert BuiltAt(batch, start, count, problems, i);
      forall j | 0 <= j < i
        ensures BuiltAt(batch, start, count, problems, j)
      {
        assert BuiltAt(batch, start, count, before, j);
        assert problems[j] == before[j];
      }
      i := i + 1;
    }
    return Ok(problems);
  }

  /** The keys of a built batch rise strictly, one day at a time, so they are distinct. */
  lemma BuiltKeysIncrease(batch: seq<Draft>, start: Date, count: int, ps: seq<DailyProblem<TestCase>>)
    requires Valid(start) && BuiltFrom(batch, start, count, ps)
    ensures forall i, j :: 0 <= i < j < |ps| ==> LexLess(ps[i].id, ps[j].id)
    ensures UniqueIds(ps)
  {
    forall i, j | 0 <= i < j < |ps|
      ensures LexLess(ps[i].id, ps[j].id)
    {
      assert BuiltAt(batch, start, count, ps, i) && BuiltAt(batch, start, count, ps, j - 1);
      assert BuiltAt(batch, start, count, ps, j);
      ConsecutiveKeys(start, i, j);
    }
    forall i, j | 0 <= i < j < |ps|
      ensures ps[i].id != ps[j].id
    {
      LexLessIrreflexive(ps[i].id);
    }
  }

  lemma ConsecutiveKeys(start: Date, i: nat, j: nat)
    requires Valid(start) && i < j && Valid(AddDays(start, j))
    ensures Valid(AddDays(start, i))
    ensures LexLess(Format(AddDays(start, i)), Format(AddDays(start, j)))
  {
    AddDaysOrdinal(start, i);
    AddDaysOrdinal(start, j);
    ValidByOrdinal(AddDays(start, i));
    ValidByOrdinal(AddDays(start, j));
    AddDaysBefore(start, i, j);
    FormatOrder(AddDays(start, i), AddDays(start, j));
  }

  /** The problems `_build_problems` makes when no draft stops it: draft j becomes the
      problem for day `start + j` with the j-th difficulty. */
  function BuildAll(batch: seq<Draft>, start: Date, count: int): (ps: seq<DailyProblem<TestCase>>)
    requires Valid(start) && forall j :: 0 <= j < |batch| ==> DraftError(batch, start, count, j).None?
    ensures |ps| == |batch| && (|batch| >= 1 ==> |batch| <= count)
  {
    assert |batch| >= 1 ==> DraftError(batch, start, count, |batch| - 1).None?;
    seq(|batch|, j requires 0 <= j < |batch| =>
      assert DraftError(batch, start, count, j).None?;
      ConsecutiveKeys(start, j, j + 1);
      Built(batch[j], Format(AddDays(start, j)), DifficultySequence(count)[j]))
  }

  /** The error of the first draft from `i` on that stops `_build_problems`, if any. */
  function FirstDraftError(batch: seq<Draft>, start: Date, count: int, i: nat): Option<EngineError>
    requires InCalendar(start) && i <= |batch|
    decreases |batch| - i
  {
    if i == |batch| then None
    else if DraftError(batch, start, count, i).Some? then DraftError(batch, start, count, i)
    else FirstDraftError(batch, start, count, i + 1)
  }

  /** No first error means no draft from `i` on stops the build. */
  lemma {:induction false} FirstDraftErrorNone(batch: seq<Draft>, start: Date, count: int, i: nat)
    requires InCalendar(start) && i <= |batch|
    ensures FirstDraftError(batch, start, count, i).None? <==>
            forall j :: i <= j < |batch| ==> DraftError(batch, start, count, j).None?
    decreases |batch| - i
  {
    if i < |batch| {
      FirstDraftErrorNone(batch, start, count, i + 1);
    }
  }

  /** The error of the first stopping draft is the first error. */
  lemma {:induction false} FirstDraftErrorAt(batch: seq<Draft>, start: Date, count: int, i: nat, k: nat)
    requires InCalendar(start) && i <= k < |batch| && DraftError(batch, start, count, k).Some?
    requires forall j :: i <= j < k ==> DraftError(batch, start, count, j).None?
    ensures FirstDraftError(batch, start, count, i) == DraftError(batch, start, count, k)
    decreases k - i
  {
    if i < k {
      FirstDraftErrorAt(batch, start, count, i + 1, k);
    }
  }

  /** A batch built draft by draft is the one `BuildAll` describes, and nothing stopped it. */
  lemma BuiltFromIsBuildAll(batch: seq<Draft>, start: Date, count: int, ps: seq<DailyProblem<TestCase>>)
    requires Valid(start) && BuiltFrom(batch, start, count, ps)
    ensures forall j :: 0 <= j < |batch| ==> DraftError(batch, start, count, j).None?
    ensures ps == BuildAll(batch, start, count)
  {
    forall j | 0 <= j < |batch|
      ensures DraftError(batch, start, count, j).None?
    {
      assert BuiltAt(batch, start, count, ps, j);
    }
    var built := BuildAll(batch, start, count);
    forall j | 0 <= j < |batch|
      ensures ps[j] == built[j]
    {
      assert BuiltAt(batch, start, count, ps, j);
    }
  }

  /** `BuildAll` builds every draft for its day: it is a `BuiltFrom` batch. */
  lemma BuildAllIsBuilt(batch: seq<Draft>, start: Date, count: int)
    requires Valid(start) && forall j :: 0 <= j < |batch| ==> DraftError(batch, start, count, j).None?
    ensures BuiltFrom(batch, start, count, BuildAll(batch, start, count))
  {
    var ps := BuildAll(batch, start, count);
    forall j | 0 <= j < |batch|
      ensures BuiltAt(batch, start, count, ps, j)
    {
      assert DraftError(batch, start, count, j).None?;
    }
  }

  // ---------------------------------------------------------------------------
  // A generation run
  // ---------------------------------------------------------------------------

  /** The summary `generate_batch` returns. */
  datatype BatchSummary = BatchSummary(theme: string, problemsCreated: int, dateRange: string)

  /** The first day of the batch: the one asked for, or the next open date. */
  function StartDate<TC>(start: Option<Date>, docs: seq<DailyProblem<TC>>, today: Date): (r: Result<Date, EngineError>)
    requires Valid(today) && (start.Some? ==> Valid(start.value))
    ensures r.Ok? ==> Valid(r.value)
  {
    if start.Some? then Ok(start.value) else NextOpenDate(docs, today)
  }

  /** The recent theme names the model is shown. */
  function RecentNames(themes: seq<WeeklyTheme>): seq<string>
  {
    ThemeNames(MostRecent(themes, 10))
  }

  /** What `generate_batch` settles before it writes: the first day, the theme, the model's
      drafts and the problems built from them. */
  datatype Plan = Plan(start: Date, theme: string, drafts: seq<Draft>, built: seq<DailyProblem<TestCase>>)

  /** Steps 1 to 5 of `generate_batch` on the stores `before`/`themesBefore`: the start day
      (given, or the next open date), the end day `start + count - 1` within 0001-01-01 ..
      9999-12-31, the theme, the model's drafts and the built problems, or the error of the
      first step that fails. */
  function Planned(before: seq<DailyProblem<TestCase>>, themesBefore: seq<WeeklyTheme>,
                   start: Option<Date>, count: int, theme: Option<string>, llm: Llm, today: Date): (r: Result<Plan, EngineError>)
    requires Valid(today) && (start.Some? ==> Valid(start.value))
    ensures r.Ok? ==> Valid(r.value.start) && 1 <= Ordinal(r.value.start) + count - 1 <= Ordinal(LastDay)
    ensures r.Ok? ==> |r.value.built| == |r.value.drafts|
  {
    match StartDate(start, before, today)
    case Err(e) => Err(e)
    case Ok(s) =>
      if Ordinal(s) + count - 1 < 1 || Ordinal(s) + count - 1 > Ordinal(LastDay) then Err(Overflow)
      else
        match PickTheme(theme, RecentNames(themesBefore), llm)
        case Err(e) => Err(e)
        case Ok(name) =>
          match llm.generateBatch(name, count, Titles(before))
          case None => Err(LlmFailed)
          case Some(batch) =>
            match FirstDraftError(batch, s, count, 0)
            case Some(e) => Err(e)
            case None =>
              FirstDraftErrorNone(batch, s, count, 0);
              Ok(Plan(s, name, batch, BuildAll(batch, s, count)))
  }

  /** The two collections after a run of `generate_batch`, and what it returned. */
  datatype RunOutcome = RunOutcome(problems: seq<DailyProblem<TestCase>>, themes: seq<WeeklyTheme>,
                                   result: Result<BatchSummary, EngineError>)

  /** What one run of `generate_batch` does to the stores `before`/`themesBefore`. A step
      that fails before the write changes nothing and returns its error. Otherwise the
      ordered `insert_many` writes the built problems up to the first taken key; the run
      succeeds exactly when that wrote a non-empty batch in full, and only then records one
      theme for `start .. start + count - 1`. */
  function BatchOutcome(before: seq<DailyProblem<TestCase>>, themesBefore: seq<WeeklyTheme>,
                        start: Option<Date>, count: int, theme: Option<string>, llm: Llm, today: Date, now: real): (o: RunOutcome)
    requires Valid(today) && (start.Some? ==> Valid(start.value))
    ensures before <= o.problems && themesBefore <= o.themes
    ensures o.result.Err? ==> o.themes == themesBefore
    ensures o.result.Ok? ==> && 1 <= o.result.value.problemsCreated
                             && |o.themes| == |themesBefore| + 1
                             && o.themes[|themesBefore|].theme == o.result.value.theme
  {
    match Planned(before, themesBefore, start, count, theme, llm, today)
    case Err(e) => RunOutcome(before, themesBefore, Err(e))
    case Ok(p) => Written(before, themesBefore, p.built, p.start, count, p.theme, now)
  }

  /** Steps 6 and 7 of `generate_batch` on the stores `before`/`themesBefore`: the ordered
      `insert_many` writes the problems up to the first taken key; only when it wrote a
      non-empty batch in full is the theme recorded for `start .. start + count - 1`. */
  function Written(before: seq<DailyProblem<TestCase>>, themesBefore: seq<WeeklyTheme>,
                   ps: seq<DailyProblem<TestCase>>, s: Date, count: int, theme: string, now: real): (o: RunOutcome)
    requires Valid(s) && |ps| <= (if count > 0 then count else 0)
    requires 1 <= Ordinal(s) + count - 1 <= Ordinal(LastDay)
    ensures before <= o.problems && themesBefore <= o.themes
    ensures o.result.Err? ==> o.themes == themesBefore
    ensures o.result.Ok? ==> && 1 <= o.result.value.problemsCreated
                             && |o.themes| == |themesBefore| + 1
                             && o.themes[|themesBefore|].theme == o.result.value.theme
  {
    var k := InsertedPrefix(before, ps);
    var after := before + ps[..k];
    if 1 <= |ps| && k == |ps| then
      var end := AddDays(s, count - 1);
      var record := WeeklyTheme(|themesBefore|, theme, Format(s), Format(end), |ps|, None, now);
      RunOutcome(after, themesBefore + [record], Ok(BatchSummary(theme, |ps|, Format(s) + " \U{2192} " + Format(end))))
    else
      RunOutcome(after, themesBefore, Err(WriteRefused(if |ps| == 0 then EmptyInsert else DuplicateKey(ps[k].id))))
  }

  /** What a run's outcome says in terms of its inputs: it succeeds exactly when every step
      before the write goes through and the write takes the whole non-empty batch; a failure
      records no theme and keeps every stored problem, and writes nothing when it came before
      the write; a count below 1 fails and writes nothing; a success started at the
      asked-for or next open date, used the theme `_pick_theme` gives for the recent names,
      appended exactly the model's problems for the consecutive days from the start, and
      appended one theme record for the range `start .. start + count - 1`. */
  lemma BatchOutcomeFacts(before: seq<DailyProblem<TestCase>>, themesBefore: seq<WeeklyTheme>,
                          start: Option<Date>, count: int, theme: Option<string>, llm: Llm, today: Date, now: real)
    requires Valid(today) && (start.Some? ==> Valid(start.value))
    ensures var o := BatchOutcome(before, themesBefore, start, count, theme, llm, today, now);
      && var plan := Planned(before, themesBefore, start, count, theme, llm, today);
      && (o.result.Ok? <==> plan.Ok? && 1 <= |plan.value.built| && InsertedPrefix(before, plan.value.built) == |plan.value.built|)
      && (plan.Err? ==> o.result == Err(plan.error) && o.problems == before)
      && (count < 1 ==> o.result.Err? && o.problems == before)
  {
    var plan := Planned(before, themesBefore, start, count, theme, llm, today);
    if plan.Ok? && count < 1 {
      PlannedOk(before, themesBefore, start, count, theme, llm, today);
      BuiltFromCount(plan.value.drafts, plan.value.start, count, plan.value.built);
      assert plan.value.built[..0] == [];
    }
  }

  /** A successful run, in terms of its inputs: it started at the asked-for or next open
      date, used the theme `_pick_theme` gives for the recent names, appended exactly the
      model's problems for the consecutive days from the start, and appended one theme
      record for the range `start .. start + count - 1`. */
  lemma BatchCreated(before: seq<DailyProblem<TestCase>>, themesBefore: seq<WeeklyTheme>,
                     start: Option<Date>, count: int, theme: Option<string>, llm: Llm, today: Date, now: real)
    requires Valid(today) && (start.Some? ==> Valid(start.value))
    requires BatchOutcome(before, themesBefore, start, count, theme, llm, today, now).result.Ok?
    ensures var o := BatchOutcome(before, themesBefore, start, count, theme, llm, today, now);
      && StartDate(start, before, today).Ok?
      && PickTheme(theme, RecentNames(themesBefore), llm) == Ok(o.result.value.theme)
      && llm.generateBatch(o.result.value.theme, count, Titles(before)).Some?
      && var s := StartDate(start, before, today).value;
         var batch := llm.generateBatch(o.result.value.theme, count, Titles(before)).value;
         && 1 <= |batch| <= count
         && o.result.value.problemsCreated == |batch|
         && |o.problems| == |before| + |batch|
         && BuiltFrom(batch, s, count, o.problems[|before|..])
         && var end := AddDays(s, count - 1);
            && Valid(end)
            && o.themes == themesBefore + [WeeklyTheme(|themesBefore|, o.result.value.theme, Format(s), Format(end), |batch|, None, now)]
            && o.result.value.dateRange == Format(s) + " \U{2192} " + Format(end)
  {
    var o := BatchOutcome(before, themesBefore, start, count, theme, llm, today, now);
    var p := Planned(before, themesBefore, start, count, theme, llm, today).value;
    PlannedOk(before, themesBefore, start, count, theme, llm, today);
    assert o == Written(before, themesBefore, p.built, p.start, count, p.theme, now);
    WrittenInFull(before, themesBefore, p.built, p.start, count, p.theme, now);
    assert o.problems[|before|..] == p.built;
  }

  /** A write that succeeded took the whole batch and recorded the theme for
      `s .. s + count - 1`. */
  lemma WrittenInFull(before: seq<DailyProblem<TestCase>>, themesBefore: seq<WeeklyTheme>,
                      ps: seq<DailyProblem<TestCase>>, s: Date, count: int, theme: string, now: real)
    requires Valid(s) && |ps| <= (if count > 0 then count else 0)
    requires 1 <= Ordinal(s) + count - 1 <= Ordinal(LastDay)
    requires Written(before, themesBefore, ps, s, count, theme, now).result.Ok?
    ensures 1 <= |ps| <= count && Valid(AddDays(s, count - 1))
    ensures var o := Written(before, themesBefore, ps, s, count, theme, now);
            var end := AddDays(s, count - 1);
            && o.problems == before + ps
            && o.themes == themesBefore + [WeeklyTheme(|themesBefore|, theme, Format(s), Format(end), |ps|, None, now)]
            && o.result.value == BatchSummary(theme, |ps|, Format(s) + " \U{2192} " + Format(end))
  {
    assert ps[..|ps|] == ps;
    AddDaysValid(s, count - 1);
  }

  /** A non-empty batch with distinct keys, none of them stored, is written in full. */
  lemma WrittenAll(before: seq<DailyProblem<TestCase>>, themesBefore: seq<WeeklyTheme>,
                   ps: seq<DailyProblem<TestCase>>, s: Date, count: int, theme: string, now: real)
    requires Valid(s) && |ps| <= (if count > 0 then count else 0)
    requires 1 <= Ordinal(s) + count - 1 <= Ordinal(LastDay)
    requires 1 <= |ps| && UniqueIds(ps) && forall i :: 0 <= i < |ps| ==> ps[i].id !in Keys(before)
    ensures Written(before, themesBefore, ps, s, count, theme, now).result.Ok?
  {
    InsertedPrefixAll(before, ps);
  }

  /** A plan that goes through is made of the start day, the theme `_pick_theme` gives, the
      model's drafts for that theme and the problems built from all of them. */
  lemma PlannedOk(before: seq<DailyProblem<TestCase>>, themesBefore: seq<WeeklyTheme>,
                  start: Option<Date>, count: int, theme: Option<string>, llm: Llm, today: Date)
    requires Valid(today) && (start.Some? ==> Valid(start.value))
    requires Planned(before, themesBefore, start, count, theme, llm, today).Ok?
    ensures var p := Planned(before, themesBefore, start, count, theme, llm, today).value;
      && StartDate(start, before, today) == Ok(p.start)
      && PickTheme(theme, RecentNames(themesBefore), llm) == Ok(p.theme)
      && llm.generateBatch(p.theme, count, Titles(before)) == Some(p.drafts)
      && BuiltFrom(p.drafts, p.start, count, p.built)
  {
    var p := Planned(before, themesBefore, start, count, theme, llm, today).value;
    FirstDraftErrorNone(p.drafts, p.start, count, 0);
    BuildAllIsBuilt(p.drafts, p.start, count);
  }

  /** A run whose steps before the write go through, with a non-empty batch whose days are
      all free, writes every problem and records the theme: it succeeds, creating one
      problem per draft. */
  lemma BatchSucceeds(before: seq<DailyProblem<TestCase>>, themesBefore: seq<WeeklyTheme>,
                      start: Option<Date>, count: int, theme: Option<string>, llm: Llm, today: Date, now: real)
    requires Valid(today) && (start.Some? ==> Valid(start.value))
    requires Planned(before, themesBefore, start, count, theme, llm, today).Ok?
    requires var p := Planned(before, themesBefore, start, count, theme, llm, today).value;
             |p.drafts| >= 1 && forall i :: 0 <= i < |p.built| ==> p.built[i].id !in Keys(before)
    ensures var p := Planned(before, themesBefore, start, count, theme, llm, today).value;
            var o := BatchOutcome(before, themesBefore, start, count, theme, llm, today, now);
            && o.result.Ok? && o.result.value.problemsCreated == |p.drafts| && o.result.value.theme == p.theme
            && o.problems == before + p.built && |o.themes| == |themesBefore| + 1
  {
    var p := Planned(before, themesBefore, start, count, theme, llm, today).value;
    PlannedOk(before, themesBefore, start, count, theme, llm, today);
    BuiltKeysIncrease(p.drafts, p.start, count, p.built);
    WrittenAll(before, themesBefore, p.built, p.start, count, p.theme, now);
    WrittenInFull(before, themesBefore, p.built, p.start, count, p.theme, now);
  }

  /** `generate_batch(start_date, count, theme)` against the two collections. */
  method GenerateBatch(problems: ProblemCollection<TestCase>, themes: ThemeCollection<WeeklyTheme>,
                       start: Option<Date>, count: int, theme: Option<string>, llm: Llm, today: Date, now: real)
    returns (r: Result<BatchSummary, EngineError>)
    requires problems.Valid() && Valid(today) && (start.Some? ==> Valid(start.value))
    modifies problems, themes
    ensures problems.Valid()
    ensures RunOutcome(problems.docs, themes.docs, r) == BatchOutcome(old(problems.docs), old(themes.docs), start, count, theme, llm, today, now)
  {
    var plan := PlanBatch(problems.docs, themes.docs, start, count, theme, llm, today);
    if plan.Err? {
      return Err(plan.error);
    }
    r := SaveBatch(problems, themes, plan.value.built, plan.value.start, count, plan.value.theme, now);
  }

  /** Steps 1 to 5 of `generate_batch`: choose the first day and check the last, pick the
      theme, ask the model for the batch and build the documents. */
  method PlanBatch(docs: seq<DailyProblem<TestCase>>, themes: seq<WeeklyTheme>,
                   start: Option<Date>, count: int, theme: Option<string>, llm: Llm, today: Date)
    returns (r: Result<Plan, EngineError>)
    requires Valid(today) && (start.Some? ==> Valid(start.value))
    ensures r == Planned(docs, themes, start, count, theme, llm, today)
    ensures r.Ok? ==> |r.value.built| <= (if count > 0 then count else 0)
  {
    var s: Date;
    if start.Some? {
      s := start.value;
    } else {
      var next := NextOpenDate(docs, today);
      if next.Err? {
        return Err(next.error);
      }
      s := next.value;
    }
    var endOrdinal := Ordinal(s) + count - 1;
    if endOrdinal < 1 || endOrdinal > Ordinal(LastDay) {
      return Err(Overflow);
    }
    var chosen := PickTheme(theme, RecentNames(themes), llm);
    if chosen.Err? {
      return Err(chosen.error);
    }
    var titles := Titles(docs);
    var batch := llm.generateBatch(chosen.value, count, titles);
    if batch.None? {
      return Err(LlmFailed);
    }
    var built := BuildProblems(batch.value, s, count);
    if built.Err? {
      ghost var i :| 0 <= i < |batch.value| && DraftError(batch.value, s, count, i) == Some(built.error)
                     && forall j :: 0 <= j < i ==> DraftError(batch.value, s, count, j).None?;
      FirstDraftErrorAt(batch.value, s, count, 0, i);
      return Err(built.error);
    }
    BuiltFromIsBuildAll(batch.value, s, count, built.value);
    FirstDraftErrorNone(batch.value, s, count, 0);
    BuiltFromCount(batch.value, s, count, built.value);
    return Ok(Plan(s, chosen.value, batch.value, built.value));
  }

  /** A built batch never has more problems than `count`. */
  lemma BuiltFromCount(batch: seq<Draft>, start: Date, count: int, ps: seq<DailyProblem<TestCase>>)
    requires InCalendar(start) && BuiltFrom(batch, start, count, ps)
    ensures |ps| <= (if count > 0 then count else 0)
  {
    if |batch| > 0 {
      assert BuiltAt(batch, start, count, ps, |batch| - 1);
    }
  }

  /** Steps 6 and 7 of `generate_batch`: bulk-insert the problems, then record the theme
      with the date range `start .. start + count - 1`. */
  method SaveBatch(problems: ProblemCollection<TestCase>, themes: ThemeCollection<WeeklyTheme>,
                   ps: seq<DailyProblem<TestCase>>, s: Date, count: int, theme: string, now: real)
    returns (r: Result<BatchSummary, EngineError>)
    requires problems.Valid() && Valid(s) && |ps| <= (if count > 0 then count else 0)
    requires 1 <= Ordinal(s) + count - 1 <= Ordinal(LastDay)
    modifies problems, themes
    ensures problems.Valid()
    ensures RunOutcome(problems.docs, themes.docs, r) == Written(old(problems.docs), old(themes.docs), ps, s, count, theme, now)
    ensures problems.docs == old(problems.docs) + ps[..InsertedPrefix(old(problems.docs), ps)]
    ensures r.Ok? <==> 1 <= |ps| && InsertedPrefix(old(problems.docs), ps) == |ps|
    ensures r.Err? ==> themes.docs == old(themes.docs)
    ensures r.Err? ==> r.error == WriteRefused(if |ps| == 0 then EmptyInsert else DuplicateKey(ps[InsertedPrefix(old(problems.docs), ps)].id))
    ensures r.Ok? ==>
      && 1 <= |ps| <= count
      && problems.docs == old(problems.docs) + ps
      && var end := AddDays(s, count - 1);
         && Valid(end)
         && themes.docs == old(themes.docs) + [WeeklyTheme(|old(themes.docs)|, theme, Format(s), Format(end), |ps|, None, now)]
         && r.value == BatchSummary(theme, |ps|, Format(s) + " \U{2192} " + Format(end))
  {
    assert ps[..|ps|] == ps;
    var inserted := problems.InsertMany(ps);
    if inserted.Err? {
      return Err(WriteRefused(inserted.error));
    }
    assert InsertedPrefix(old(problems.docs), ps) == |ps|;
    var end := AddDays(s, count - 1);
    AddDaysValid(s, count - 1);
    var record := WeeklyTheme(|themes.docs|, theme, Format(s), Format(end), |ps|, None, now);
    themes.Insert(record);
    return Ok(BatchSummary(theme, |ps|, Format(s) + " \U{2192} " + Format(end)));
  }

  // ---------------------------------------------------------------------------
  // Buffer depth
  // ---------------------------------------------------------------------------

  /** `get_buffer_depth`: how many stored keys compare greater than today's key. */
  function BufferDepth<TC>(docs: seq<DailyProblem<TC>>, todayKey: string): (n: nat)
    ensures n <= |docs|
  {
    if |docs| == 0 then 0
    else (if LexLess(todayKey, docs[0].id) then 1 else 0) + BufferDepth(docs[1..], todayKey)
  }

  /** How many stored problems are scheduled for a day after `today`. */
  function DaysScheduledAfter<TC>(docs: seq<DailyProblem<TC>>, today: Date): nat
    requires CanonicalKeys(docs)
  {
    if |docs| == 0 then 0
    else (if Before(today, KeyDate(docs[0].id)) then 1 else 0) + DaysScheduledAfter(docs[1..], today)
  }

  /** On canonical keys the string comparison counts exactly the days scheduled after today. */
  lemma {:induction false} BufferDepthCountsFutureDays<TC>(docs: seq<DailyProblem<TC>>, today: Date)
    requires Valid(today) && CanonicalKeys(docs)
    ensures BufferDepth(docs, Format(today)) == DaysScheduledAfter(docs, today)
  {
    if |docs| > 0 {
      FormatOrder(today, KeyDate(docs[0].id));
      assert CanonicalKeys(docs[1..]) by {
        forall i | 0 <= i < |docs[1..]|
          ensures IsCanonicalKey(docs[1..][i].id)
        {
          assert docs[1..][i] == docs[i + 1];
        }
      }
      BufferDepthCountsFutureDays(docs[1..], today);
    }
  }
}
