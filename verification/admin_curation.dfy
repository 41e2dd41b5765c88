/**
  The admin dashboard's curation routes in `src/admin/main.py`: saving an edited problem
  (topics from a comma-separated field, test cases from a JSON field), moving a problem to
  another date (the form route and the drag-and-drop API route), and the sequential
  multi-batch generation driver.
*/
module AdminCuration {
  import opened Wrappers
  import opened Text
  import opened DateKeys
  import opened DateParse
  import opened Json
  import opened Records
  import opened Store
  import opened ContentEngine

  // ---------------------------------------------------------------------------
  // Topics
  // ---------------------------------------------------------------------------

  /** The stripped, non-empty pieces of a list of pieces, in order. */
  function KeepTopics(pieces: seq<string>): (r: seq<string>)
    ensures forall i :: 0 <= i < |r| ==> r[i] != [] && !IsSpace(r[i][0]) && !IsSpace(r[i][|r[i]| - 1])
    ensures |r| <= |pieces|
  {
    if |pieces| == 0 then []
    else
      var t := Strip(pieces[0]);
      (if t != "" then [t] else []) + KeepTopics(pieces[1..])
  }

  /** `[t.strip() for t in topics.split(",") if t.strip()]`. */
  function Topics(field: string): (r: seq<string>)
    ensures forall i :: 0 <= i < |r| ==> r[i] != [] && !IsSpace(r[i][0]) && !IsSpace(r[i][|r[i]| - 1])
    ensures forall i :: 0 <= i < |r| ==> ',' !in r[i]
  {
    var pieces := Split(field, ',');
    TopicsFromPieces(pieces);
    KeepTopics(pieces)
  }

  lemma {:induction false} TopicsFromPieces(pieces: seq<string>)
    requires forall i :: 0 <= i < |pieces| ==> ',' !in pieces[i]
    ensures forall i :: 0 <= i < |KeepTopics(pieces)| ==> ',' !in KeepTopics(pieces)[i]
  {
    if |pieces| > 0 {
      TopicsFromPieces(pieces[1..]);
      var t := Strip(pieces[0]);
      var i := LeadEnd(pieces[0], 0);
      assert t == pieces[0][i..i + |t|];
      assert forall c :: c in t ==> c in pieces[0];
    }
  }

  lemma {:induction false} KeepStrippedTopics(ts: seq<string>)
    requires forall i :: 0 <= i < |ts| ==> ts[i] != [] && !IsSpace(ts[i][0]) && !IsSpace(ts[i][|ts[i]| - 1])
    ensures KeepTopics(ts) == ts
  {
    if |ts| > 0 {
      StripStripped(ts[0]);
      KeepStrippedTopics(ts[1..]);
    }
  }

  /** A topic list shown as "a,b,c" and saved back is unchanged. */
  lemma TopicsRoundTrip(ts: seq<string>)
    requires |ts| >= 1
    requires forall i :: 0 <= i < |ts| ==> ts[i] != [] && !IsSpace(ts[i][0]) && !IsSpace(ts[i][|ts[i]| - 1]) && ',' !in ts[i]
    ensures Topics(Join(ts, ',')) == ts
  {
    JoinSplit(ts, ',');
    KeepStrippedTopics(ts);
  }

  // ---------------------------------------------------------------------------
  // Test cases from the JSON field
  // ---------------------------------------------------------------------------

  /** `TestCase(id=i + 1, type=tc.get("type", "basic"), input=..., expected=..., hint=...)`
      for one decoded element, or None where Python raises (not a dict, an unknown type,
      a value that is not a string). */
  function CaseFromJson(i: nat, tc: Json): (r: Option<TestCase>)
    ensures r.Some? ==> tc.JObj? && r.value.id == i + 1
    ensures r.Some? ==> Get(tc.fields, "type", JStr("basic")) == JStr(KindName(r.value.kind))
                        && Get(tc.fields, "input", JStr("")) == JStr(r.value.input)
                        && Get(tc.fields, "expected", JStr("")) == JStr(r.value.expected)
                        && Get(tc.fields, "hint", JStr("")) == JStr(r.value.hint)
  {
    if !tc.JObj? then None
    else
      var kind := Get(tc.fields, "type", JStr("basic"));
      var input := Get(tc.fields, "input", JStr(""));
      var expected := Get(tc.fields, "expected", JStr(""));
      var hint := Get(tc.fields, "hint", JStr(""));
      if !(kind.JStr? && input.JStr? && expected.JStr? && hint.JStr?) then None
      else
        match ParseKind(kind.s)
        case None => None
        case Some(k) => Some(TestCase(i + 1, k, hint.s, input.s, expected.s))
  }

  function CasesFromItems(items: seq<Json>, from: nat): (r: Option<seq<TestCase>>)
    requires from <= |items|
    ensures r.Some? <==> forall i :: from <= i < |items| ==> CaseFromJson(i, items[i]).Some?
    ensures r.Some? ==> |r.value| == |items| - from
                        && forall i :: from <= i < |items| ==> r.value[i - from] == CaseFromJson(i, items[i]).value
    decreases |items| - from
  {
    if from == |items| then Some([])
    else
      match CaseFromJson(from, items[from])
      case None => None
      case Some(c) =>
        match CasesFromItems(items, from + 1)
        case None => None
        case Some(rest) => Some([c] + rest)
  }

  /** The comprehension over the decoded field: an array of case objects is numbered 1..n;
      an empty object or empty string iterates to no cases; anything else raises. */
  function CasesFromJson(v: Json): (r: Option<seq<TestCase>>)
    ensures r.Some? ==> forall i :: 0 <= i < |r.value| ==> r.value[i].id == i + 1
  {
    match v
    case JArr(items) =>
      var r := CasesFromItems(items, 0);
      assert r.Some? ==> forall i :: 0 <= i < |items| ==> r.value[i] == CaseFromJson(i, items[i]).value by {
        if r.Some? {
          forall i | 0 <= i < |items| ensures r.value[i] == CaseFromJson(i, items[i]).value {
            assert r.value[i - 0] == CaseFromJson(i, items[i]).value;
          }
        }
      }
      r
    case JObj(fields) => if |fields| == 0 then Some([]) else None
    case JStr(s) => if s == "" then Some([]) else None
    case _ => None
  }

  /** Exactly the arrays whose every element is a well-formed case object are accepted. */
  lemma ArrayCasesAccepted(items: seq<Json>)
    ensures CasesFromJson(JArr(items)).Some? <==> forall i :: 0 <= i < |items| ==> CaseFromJson(i, items[i]).Some?
    ensures CasesFromJson(JArr(items)).Some? ==> |CasesFromJson(JArr(items)).value| == |items|
  {
  }

  /** The edited problem `save_problem` writes. */
  function Edited(p: DailyProblem<TestCase>, title: string, difficulty: string, description: string,
                  starterCode: string, topics: string, cases: seq<TestCase>): (q: DailyProblem<TestCase>)
    ensures q.id == p.id && q.embedding == p.embedding
    ensures q.title == title && q.difficulty == difficulty && q.description == description && q.starterCode == starterCode
    ensures q.topics == Topics(topics) && q.testCases == cases
  {
    p.(title := title, difficulty := difficulty, description := description, starterCode := starterCode,
       topics := Topics(topics), testCases := cases)
  }

  datatype CurationError = NotFound | BadTestCases | BadDate | Occupied | MissingField

  /** `save_problem`. `testCasesJson` is the decoded field, or None when it is not valid JSON
      (the parse error is caught and the stored test cases are kept). */
  method SaveProblem(problems: ProblemCollection<TestCase>, dateKey: string, title: string, difficulty: string,
                     description: string, starterCode: string, topics: string, testCasesJson: Option<Json>)
    returns (r: Result<(), CurationError>)
    requires problems.Valid()
    modifies problems
    ensures problems.Valid()
    ensures Find(old(problems.docs), dateKey).None? ==> r == Err(NotFound) && problems.docs == old(problems.docs)
    ensures Find(old(problems.docs), dateKey).Some? ==>
      var p := Find(old(problems.docs), dateKey).value;
      if testCasesJson.Some? && CasesFromJson(testCasesJson.value).None? then
        r == Err(BadTestCases) && problems.docs == old(problems.docs)
      else
        var cases := if testCasesJson.Some? then CasesFromJson(testCasesJson.value).value else p.testCases;
        r == Ok(()) && problems.docs == Replace(old(problems.docs), Edited(p, title, difficulty, description, starterCode, topics, cases))
  {
    var found := Find(problems.docs, dateKey);
    if found.None? {
      return Err(NotFound);
    }
    var p := found.value;
    var cases := p.testCases;
    if testCasesJson.Some? {
      var parsed := CasesFromJson(testCasesJson.value);
      if parsed.None? {
        return Err(BadTestCases);
      }
      cases := parsed.value;
    }
    problems.Save(Edited(p, title, difficulty, description, starterCode, topics, cases));
    return Ok(());
  }

  // ---------------------------------------------------------------------------
  // Moving a problem to another date
  // ---------------------------------------------------------------------------

  /** The move both routes perform once their checks pass: the source must exist, the
      target key is accepted or not by the route's own check, the target must be free; then
      the record is inserted under the target key and the source is deleted. */
  function MoveDocs(docs: seq<DailyProblem<TestCase>>, from: string, to: string, acceptsTarget: bool)
    : (r: Result<seq<DailyProblem<TestCase>>, CurationError>)
    requires UniqueIds(docs)
    ensures Find(docs, from).None? ==> r == Err(NotFound)
    ensures Find(docs, from).Some? && !acceptsTarget ==> r == Err(BadDate)
    ensures Find(docs, from).Some? && acceptsTarget && to in Keys(docs) ==> r == Err(Occupied)
    ensures r.Ok? <==> Find(docs, from).Some? && acceptsTarget && to !in Keys(docs)
    ensures r.Ok? ==>
      && UniqueIds(r.value)
      && Keys(r.value) == Keys(docs) - {from} + {to}
      && Find(r.value, to) == Some(Find(docs, from).value.(id := to))
      && forall k :: k != from && k != to ==> Find(r.value, k) == Find(docs, k)
  {
    match Find(docs, from)
    case None => Err(NotFound)
    case Some(p) =>
      if !acceptsTarget then Err(BadDate)
      else if to in Keys(docs) then Err(Occupied)
      else
        var moved := p.(id := to);
        var r := Without(docs + [moved], from);
        MoveFacts(docs, moved, from);
        Ok(r)
  }

  lemma MoveFacts(docs: seq<DailyProblem<TestCase>>, moved: DailyProblem<TestCase>, from: string)
    requires UniqueIds(docs) && moved.id !in Keys(docs) && from in Keys(docs)
    ensures var r := Without(docs + [moved], from);
      && UniqueIds(r)
      && Keys(r) == Keys(docs) - {from} + {moved.id}
      && Find(r, moved.id) == Some(moved)
      && forall k :: k != from && k != moved.id ==> Find(r, k) == Find(docs, k)
  {
    var s := docs + [moved];
    UniqueAppend(docs, moved);
    KeysAppend(docs, moved);
    UniqueWithout(s, from);
    var r := Without(s, from);
    assert moved.id != from;
    assert moved.id in Keys(r) by {
      assert s[|docs|] == moved;
    }
    SameKeySameDoc(r, Find(r, moved.id).value, moved, s);
    forall k | k != from && k != moved.id
      ensures Find(r, k) == Find(docs, k)
    {
      if k in Keys(docs) {
        var i :| 0 <= i < |docs| && docs[i].id == k;
        assert s[i] == docs[i];
        assert docs[i] in r;
        SameKeySameDoc(r, Find(r, k).value, Find(docs, k).value, s);
      }
    }
  }

  /** In a collection with unique keys, two of its documents with the same key are the same. */
  lemma SameKeySameDoc(r: seq<DailyProblem<TestCase>>, a: DailyProblem<TestCase>, b: DailyProblem<TestCase>, s: seq<DailyProblem<TestCase>>)
    requires UniqueIds(s) && a in s && b in s && a.id == b.id
    ensures a == b
  {
    var i :| 0 <= i < |s| && s[i] == a;
    var j :| 0 <= j < |s| && s[j] == b;
  }

  /** `move_problem` as written: the new date is checked only by
      `strptime(new_date, "%Y-%m-%d")`. */
  function MoveFormAsWritten(docs: seq<DailyProblem<TestCase>>, from: string, to: string): Result<seq<DailyProblem<TestCase>>, CurationError>
    requires UniqueIds(docs)
  {
    MoveDocs(docs, from, to, Strptime(to).Some?)
  }

  /** `move_problem` with the check it evidently intends: the new date must be a canonical
      `YYYY-MM-DD` key. */
  function MoveForm(docs: seq<DailyProblem<TestCase>>, from: string, to: string): (r: Result<seq<DailyProblem<TestCase>>, CurationError>)
    requires UniqueIds(docs)
    ensures r.Ok? ==> IsCanonicalKey(to)
  {
    MoveDocs(docs, from, to, IsCanonicalKey(to))
  }

  /** The corrected form route keeps every stored key canonical. */
  lemma MoveFormKeepsKeysCanonical(docs: seq<DailyProblem<TestCase>>, from: string, to: string)
    requires UniqueIds(docs) && CanonicalKeys(docs) && MoveForm(docs, from, to).Ok?
    ensures CanonicalKeys(MoveForm(docs, from, to).value)
  {
    var r := MoveForm(docs, from, to).value;
    CanonicalKeysByKey(docs);
    assert Keys(r) <= Keys(docs) + {to};
    CanonicalKeysByKey(r);
  }

  /** A collection's keys are all canonical exactly when each of its keys is. */
  lemma CanonicalKeysByKey(docs: seq<DailyProblem<TestCase>>)
    ensures CanonicalKeys(docs) <==> forall k :: k in Keys(docs) ==> IsCanonicalKey(k)
  {
    if forall k :: k in Keys(docs) ==> IsCanonicalKey(k) {
      forall i | 0 <= i < |docs|
        ensures IsCanonicalKey(docs[i].id)
      {
        assert docs[i].id in Keys(docs);
      }
    }
  }

  /** As written, moving to "2026-3-5" passes the date check and stores a key that is not
      canonical, so the day is invisible to the string-range queries of the calendars; the
      corrected check refuses it. */
  lemma MoveFormStoresUnpaddedKey()
    ensures var docs := [KeyOnly("2026-03-04")];
      && MoveFormAsWritten(docs, "2026-03-04", "2026-3-5").Ok?
      && "2026-3-5" in Keys(MoveFormAsWritten(docs, "2026-03-04", "2026-3-5").value)
      && !IsCanonicalKey("2026-3-5")
      && MoveForm(docs, "2026-03-04", "2026-3-5") == Err(BadDate)
  {
    var docs := [KeyOnly("2026-03-04")];
    StrptimeAcceptsUnpadded();
    assert docs[0].id == "2026-03-04";
    assert Keys(docs) == {"2026-03-04"};
  }

  /** `move_problem` (the form route), with the corrected date check. */
  method MoveProblem(problems: ProblemCollection<TestCase>, dateKey: string, newDate: string)
    returns (r: Result<(), CurationError>)
    requires problems.Valid()
    modifies problems
    ensures problems.Valid()
    ensures var m := MoveForm(old(problems.docs), dateKey, newDate);
      if m.Ok? then r == Ok(()) && problems.docs == m.value
      else r == Err(m.error) && problems.docs == old(problems.docs)
  {
    r := Relocate(problems, dateKey, newDate, IsCanonicalKey(newDate));
  }

  /** `api_move_problem`: an absent or empty `from_date` or `to_date` is refused with 400;
      the target key is not checked as a date at all. */
  method ApiMoveProblem(problems: ProblemCollection<TestCase>, fromDate: Option<string>, toDate: Option<string>)
    returns (r: Result<(), CurationError>)
    requires problems.Valid()
    modifies problems
    ensures problems.Valid()
    ensures fromDate.None? || fromDate.value == "" || toDate.None? || toDate.value == "" ==>
      r == Err(MissingField) && problems.docs == old(problems.docs)
    ensures fromDate.Some? && fromDate.value != "" && toDate.Some? && toDate.value != "" ==>
      var m := MoveDocs(old(problems.docs), fromDate.value, toDate.value, true);
      if m.Ok? then r == Ok(()) && problems.docs == m.value
      else r == Err(m.error) && problems.docs == old(problems.docs)
  {
    if fromDate.None? || fromDate.value == "" || toDate.None? || toDate.value == "" {
      return Err(MissingField);
    }
    r := Relocate(problems, fromDate.value, toDate.value, true);
  }

  /** The shared body of both move routes: check, insert under the new key, delete the old. */
  method Relocate(problems: ProblemCollection<TestCase>, from: string, to: string, acceptsTarget: bool)
    returns (r: Result<(), CurationError>)
    requires problems.Valid()
    modifies problems
    ensures problems.Valid()
    ensures var m := MoveDocs(old(problems.docs), from, to, acceptsTarget);
      if m.Ok? then r == Ok(()) && problems.docs == m.value
      else r == Err(m.error) && problems.docs == old(problems.docs)
  {
    var found := Find(problems.docs, from);
    if found.None? {
      return Err(NotFound);
    }
    if !acceptsTarget {
      return Err(BadDate);
    }
    if Find(problems.docs, to).Some? {
      return Err(Occupied);
    }
    var moved := found.value.(id := to);
    var inserted := problems.Insert(moved);
    problems.Delete(from);
    return Ok(());
  }

  // ---------------------------------------------------------------------------
  // The multi-batch driver
  // ---------------------------------------------------------------------------

  /** One batch of the request body; absent fields take the defaults "", 7 and "". */
  datatype BatchDef = BatchDef(startDate: Option<string>, count: Option<int>, theme: Option<string>)

  datatype BatchFailure = InvalidDate(given: string) | Raised(error: EngineError)

  /** One entry of `results`, tagged with the batch's 1-based position. */
  datatype BatchResult =
    | Created(batch: int, summary: BatchSummary)
    | Failed(batch: int, failure: BatchFailure)

  function StartText(b: BatchDef): string { if b.startDate.Some? then b.startDate.value else "" }
  function CountOf(b: BatchDef): int { if b.count.Some? then b.count.value else 7 }
  function ThemeText(b: BatchDef): string { if b.theme.Some? then b.theme.value else "" }

  /** `theme if theme.strip() else None`. */
  function ForcedTheme(b: BatchDef): (r: Option<string>)
    ensures r.None? <==> Strip(ThemeText(b)) == ""
    ensures r.Some? ==> r.value == ThemeText(b)
  {
    if Strip(ThemeText(b)) != "" then Some(ThemeText(b)) else None
  }

  /** `sum(r.get("problems_created", 0) for r in results)`. */
  function TotalCreated(results: seq<BatchResult>): int
  {
    if |results| == 0 then 0
    else TotalCreated(results[..|results| - 1])
         + (if results[|results| - 1].Created? then results[|results| - 1].summary.problemsCreated else 0)
  }

  /** Failed batches add nothing to the total; each created batch adds what it created. */
  lemma {:induction false} TotalCreatedBounds(results: seq<BatchResult>)
    requires forall i :: 0 <= i < |results| && results[i].Created? ==> results[i].summary.problemsCreated >= 0
    ensures TotalCreated(results) >= 0
    ensures (forall i :: 0 <= i < |results| ==> results[i].Failed?) ==> TotalCreated(results) == 0
  {
    if |results| > 0 {
      TotalCreatedBounds(results[..|results| - 1]);
    }
  }

  /** Entries that fit their batches add up to a non-negative total. */
  lemma FittingTotal(batches: seq<BatchDef>, results: seq<BatchResult>)
    requires |results| <= |batches| && forall i :: 0 <= i < |results| ==> EntryFits(batches[i], results[i], i)
    ensures TotalCreated(results) >= 0
  {
    forall j | 0 <= j < |results| && results[j].Created? ensures results[j].summary.problemsCreated >= 0 {
      assert EntryFits(batches[j], results[j], j);
    }
    TotalCreatedBounds(results);
  }

  datatype DriverError = NoBatches

  datatype DriverReport = DriverReport(results: seq<BatchResult>, totalCreated: int)

  /** How many batches created problems. */
  function CreatedCount(results: seq<BatchResult>): (n: nat)
    ensures n <= |results|
  {
    if |results| == 0 then 0
    else CreatedCount(results[..|results| - 1]) + (if results[|results| - 1].Created? then 1 else 0)
  }

  /** What the driver promises about the entry of batch `i`: its tag, that a date strptime
      rejects is reported as such, and that a created batch created something. */
  predicate EntryFits(b: BatchDef, entry: BatchResult, i: nat)
  {
    && entry.batch == i + 1
    && (entry == Failed(i + 1, InvalidDate(StartText(b))) <==> Strptime(StartText(b)).None?)
    && (entry.Created? ==> entry.summary.problemsCreated >= 1)
  }

  /** The two collections at one moment. */
  datatype Stores = Stores(problems: seq<DailyProblem<TestCase>>, themes: seq<WeeklyTheme>)

  /** Batch `i` takes the stores from `s0` to `s1` and reports `entry`: a date strptime
      rejects changes nothing; otherwise the entry is `Created` with `generate_batch`'s
      summary exactly when that run succeeded, and the run's own error when it raised. */
  predicate BatchStep(b: BatchDef, i: nat, llm: Llm, today: Date, now: real, s0: Stores, s1: Stores, entry: BatchResult)
    requires Valid(today)
  {
    match Strptime(StartText(b))
    case None => entry == Failed(i + 1, InvalidDate(StartText(b))) && s1 == s0
    case Some(d) =>
      var o := BatchOutcome(s0.problems, s0.themes, Some(d), CountOf(b), ForcedTheme(b), llm, today, now);
      && s1 == Stores(o.problems, o.themes)
      && entry == (if o.result.Ok? then Created(i + 1, o.result.value) else Failed(i + 1, Raised(o.result.error)))
  }

  /** A created batch's theme heads the recent names the next batch's theme choice sees. */
  lemma NextBatchSeesTheme(b: BatchDef, i: nat, llm: Llm, today: Date, now: real, s0: Stores, s1: Stores, summary: BatchSummary)
    requires Valid(today) && BatchStep(b, i, llm, today, now, s0, s1, Created(i + 1, summary))
    ensures |RecentNames(s1.themes)| >= 1 && RecentNames(s1.themes)[0] == summary.theme
  {
    var t := s1.themes[|s1.themes| - 1];
    assert s1.themes == s0.themes + [t] && t.theme == summary.theme;
    assert MostRecent(s1.themes, 10)[0] == t;
  }

  /** What may happen in step `j` of the driver loop: the stores go from `s0` to `s1` and
      the step reports the entry. */
  type StepRel = (nat, Stores, Stores, BatchResult) -> bool

  /** The driver loop's steps: step `j` is `BatchStep` of batch `j`, with the model and the
      clock as that batch meets them. */
  function BatchSteps(batches: seq<BatchDef>, llm: nat -> Llm, today: Date, clock: nat -> real): StepRel
  {
    (j: nat, s0: Stores, s1: Stores, entry: BatchResult) =>
      j < |batches| && Valid(today) && BatchStep(batches[j], j, llm(j), today, clock(j), s0, s1, entry)
  }

  /** Steps `0 .. n - 1` ran one after another from `trace[0]`: step `j` took the stores
      from `trace[j]` to `trace[j + 1]` and reported `results[j]`. */
  predicate Chained(step: StepRel, trace: seq<Stores>, results: seq<BatchResult>, n: nat)
  {
    && n < |trace| && n <= |results|
    && (n > 0 ==> Chained(step, trace, results, n - 1) && step(n - 1, trace[n - 1], trace[n], results[n - 1]))
  }

  /** Each step of a chain is one the relation allows. */
  lemma {:induction false} ChainedStep(step: StepRel, trace: seq<Stores>, results: seq<BatchResult>, n: nat, j: nat)
    requires Chained(step, trace, results, n) && j < n
    ensures step(j, trace[j], trace[j + 1], results[j])
  {
    if j < n - 1 {
      ChainedStep(step, trace, results, n - 1, j);
    }
  }

  /** A chain depends only on the states and entries it covers. */
  lemma {:induction false} ChainedPrefix(step: StepRel, trace: seq<Stores>, results: seq<BatchResult>,
                                         trace': seq<Stores>, results': seq<BatchResult>, n: nat)
    requires Chained(step, trace, results, n)
    requires n < |trace'| && trace'[..n + 1] == trace[..n + 1]
    requires n <= |results'| && results'[..n] == results[..n]
    ensures Chained(step, trace', results', n)
  {
    if n > 0 {
      assert trace'[n - 1] == trace[..n + 1][n - 1] == trace[n - 1];
      assert trace'[n] == trace[..n + 1][n] == trace[n];
      assert results'[n - 1] == results[..n][n - 1] == results[n - 1];
      assert trace'[..n] == trace'[..n + 1][..n];
      assert trace[..n] == trace[..n + 1][..n];
      assert results'[..n - 1] == results'[..n][..n - 1];
      assert results[..n - 1] == results[..n][..n - 1];
      ChainedPrefix(step, trace, results, trace', results', n - 1);
    }
  }

  /** A step from where the chain left the stores extends it. */
  lemma ChainedExtend(step: StepRel, trace: seq<Stores>, results: seq<BatchResult>, n: nat, s: Stores, entry: BatchResult)
    requires Chained(step, trace, results, n) && |trace| == n + 1 && |results| == n
    requires step(n, trace[n], s, entry)
    ensures Chained(step, trace + [s], results + [entry], n + 1)
  {
    assert (trace + [s])[..n + 1] == trace[..n + 1];
    assert (results + [entry])[..n] == results[..n];
    ChainedPrefix(step, trace, results, trace + [s], results + [entry], n);
    assert (trace + [s])[n] == trace[n] && (trace + [s])[n + 1] == s && (results + [entry])[n] == entry;
  }

  /** A batch only appends: to the problems, and to the themes one record named after the
      summary's theme when it was created and none otherwise. */
  lemma StepGrows(b: BatchDef, i: nat, llm: Llm, today: Date, now: real, s0: Stores, s1: Stores, entry: BatchResult)
    requires Valid(today) && BatchStep(b, i, llm, today, now, s0, s1, entry)
    ensures s0.problems <= s1.problems && s0.themes <= s1.themes
    ensures entry.Failed? ==> s1.themes == s0.themes
    ensures entry.Created? ==> |s1.themes| == |s0.themes| + 1 && s1.themes[|s0.themes|].theme == entry.summary.theme
  {
    if Strptime(StartText(b)).Some? && entry.Created? {
      var before := s0.problems;
      assert s1.problems[..|before|] == before;
    }
  }

  /** The stores only grow from `s0` to `s1`, and the entry says how the themes grew. */
  predicate Appends(s0: Stores, s1: Stores, entry: BatchResult)
  {
    && s0.problems <= s1.problems && s0.themes <= s1.themes
    && (entry.Failed? ==> s1.themes == s0.themes)
    && (entry.Created? ==> |s1.themes| == |s0.themes| + 1 && s1.themes[|s0.themes|].theme == entry.summary.theme)
  }

  /** Every step the relation allows only appends. */
  ghost predicate OnlyAppends(step: StepRel)
  {
    forall j: nat, s0: Stores, s1: Stores, entry: BatchResult :: step(j, s0, s1, entry) ==> Appends(s0, s1, entry)
  }

  /** The driver loop's steps only append. */
  lemma BatchStepsAppend(batches: seq<BatchDef>, llm: nat -> Llm, today: Date, clock: nat -> real)
    ensures OnlyAppends(BatchSteps(batches, llm, today, clock))
  {
    forall j: nat, s0: Stores, s1: Stores, entry: BatchResult | BatchSteps(batches, llm, today, clock)(j, s0, s1, entry)
      ensures Appends(s0, s1, entry)
    {
      StepGrows(batches[j], j, llm(j), today, clock(j), s0, s1, entry);
    }
  }

  /** Along a chain of appending steps the stores only grow. */
  lemma {:induction false} ChainedGrows(step: StepRel, trace: seq<Stores>, results: seq<BatchResult>, n: nat, j: nat, k: nat)
    requires OnlyAppends(step) && Chained(step, trace, results, n) && j <= k <= n
    ensures trace[j].problems <= trace[k].problems && trace[j].themes <= trace[k].themes
  {
    if j < k {
      ChainedGrows(step, trace, results, n, j, k - 1);
      ChainedStep(step, trace, results, n, k - 1);
      assert Appends(trace[k - 1], trace[k], results[k - 1]);
    }
  }

  /** The theme a batch created is in the theme list every later batch runs against, at
      the position it was appended. */
  lemma EarlierThemeSeen(batches: seq<BatchDef>, llm: nat -> Llm, today: Date, clock: nat -> real,
                         trace: seq<Stores>, results: seq<BatchResult>, n: nat, j: nat, k: nat)
    requires Chained(BatchSteps(batches, llm, today, clock), trace, results, n)
    requires j < k <= n && results[j].Created?
    ensures |trace[j].themes| < |trace[k].themes|
    ensures trace[k].themes[|trace[j].themes|].theme == results[j].summary.theme
  {
    var step := BatchSteps(batches, llm, today, clock);
    BatchStepsAppend(batches, llm, today, clock);
    ChainedStep(step, trace, results, n, j);
    assert Appends(trace[j], trace[j + 1], results[j]);
    ChainedGrows(step, trace, results, n, j + 1, k);
  }

  /** One iteration of the driver loop, batch `i`: parse the start date, then run the batch
      on the stores the earlier batches left (`trace[i]`); the step is recorded in the chain. */
  method RunBatch(problems: ProblemCollection<TestCase>, themes: ThemeCollection<WeeklyTheme>,
                  batches: seq<BatchDef>, i: nat, llm: nat -> Llm, today: Date, clock: nat -> real,
                  ghost trace: seq<Stores>, ghost results: seq<BatchResult>)
    returns (entry: BatchResult)
    requires problems.Valid() && Valid(today) && i < |batches|
    requires Chained(BatchSteps(batches, llm, today, clock), trace, results, i) && |trace| == i + 1 && |results| == i
    requires trace[i] == Stores(problems.docs, themes.docs)
    modifies problems, themes
    ensures problems.Valid()
    ensures EntryFits(batches[i], entry, i)
    ensures Chained(BatchSteps(batches, llm, today, clock), trace + [Stores(problems.docs, themes.docs)], results + [entry], i + 1)
    ensures old(problems.docs) <= problems.docs
    ensures |themes.docs| == |old(themes.docs)| + (if entry.Created? then 1 else 0)
  {
    var b := batches[i];
    var parsed := Strptime(StartText(b));
    if parsed.None? {
      entry := Failed(i + 1, InvalidDate(StartText(b)));
    } else {
      var outcome := GenerateBatch(problems, themes, parsed, CountOf(b), ForcedTheme(b), llm(i), today, clock(i));
      if outcome.Ok? {
        entry := Created(i + 1, outcome.value);
      } else {
        entry := Failed(i + 1, Raised(outcome.error));
      }
    }
    assert BatchStep(b, i, llm(i), today, clock(i), trace[i], Stores(problems.docs, themes.docs), entry);
    assert BatchSteps(batches, llm, today, clock)(i, trace[i], Stores(problems.docs, themes.docs), entry);
    ChainedExtend(BatchSteps(batches, llm, today, clock), trace, results, i, Stores(problems.docs, themes.docs), entry);
  }

  /** The loop of `api_generate_batches`: the batches run one after another, each seeing
      the store and the themes the earlier ones left; a bad date or a raised error becomes
      that batch's entry and the run goes on. `llm(i)` and `clock(i)` are the model and the
      clock as batch i meets them. */
  method RunBatches(problems: ProblemCollection<TestCase>, themes: ThemeCollection<WeeklyTheme>,
                    batches: seq<BatchDef>, llm: nat -> Llm, today: Date, clock: nat -> real)
    returns (results: seq<BatchResult>, ghost trace: seq<Stores>)
    requires problems.Valid() && Valid(today)
    modifies problems, themes
    ensures problems.Valid()
    ensures |results| == |batches|
    ensures forall i :: 0 <= i < |results| ==> EntryFits(batches[i], results[i], i)
    ensures old(problems.docs) <= problems.docs
    ensures |themes.docs| == |old(themes.docs)| + CreatedCount(results)
    ensures |trace| == |batches| + 1
    ensures trace[0] == Stores(old(problems.docs), old(themes.docs))
    ensures trace[|batches|] == Stores(problems.docs, themes.docs)
    ensures Chained(BatchSteps(batches, llm, today, clock), trace, results, |batches|)
  {
    results := [];
    trace := [Stores(problems.docs, themes.docs)];
    for i := 0 to |batches|
      invariant problems.Valid()
      invariant |results| == i
      invariant forall j :: 0 <= j < i ==> EntryFits(batches[j], results[j], j)
      invariant old(problems.docs) <= problems.docs
      invariant |themes.docs| == |old(themes.docs)| + CreatedCount(results)
      invariant |trace| == i + 1 && trace[0] == Stores(old(problems.docs), old(themes.docs))
      invariant trace[i] == Stores(problems.docs, themes.docs)
      invariant Chained(BatchSteps(batches, llm, today, clock), trace, results, i)
    {
      var entry := RunBatch(problems, themes, batches, i, llm, today, clock, trace, results);
      assert (results + [entry])[..i] == results;
      results := results + [entry];
      trace := trace + [Stores(problems.docs, themes.docs)];
    }
  }

  /** `api_generate_batches`: no batches is an error; otherwise every batch runs, in order,
      and the report lists their entries and the problems they created in total. */
  method ApiGenerateBatches(problems: ProblemCollection<TestCase>, themes: ThemeCollection<WeeklyTheme>,
                            batches: seq<BatchDef>, llm: nat -> Llm, today: Date, clock: nat -> real)
    returns (r: Result<DriverReport, DriverError>, ghost trace: seq<Stores>)
    requires problems.Valid() && Valid(today)
    modifies problems, themes
    ensures problems.Valid()
    ensures |batches| == 0 <==> r == Err(NoBatches)
    ensures |batches| == 0 ==> problems.docs == old(problems.docs) && themes.docs == old(themes.docs)
    ensures r.Ok? ==>
      var results := r.value.results;
      && |results| == |batches|
      && (forall i :: 0 <= i < |results| ==> EntryFits(batches[i], results[i], i))
      && r.value.totalCreated == TotalCreated(results) >= 0
      && old(problems.docs) <= problems.docs
      && |themes.docs| == |old(themes.docs)| + CreatedCount(results)
      && |trace| == |batches| + 1
      && trace[0] == Stores(old(problems.docs), old(themes.docs))
      && trace[|batches|] == Stores(problems.docs, themes.docs)
      && Chained(BatchSteps(batches, llm, today, clock), trace, results, |batches|)
  {
    if |batches| == 0 {
      return Err(NoBatches), [Stores(problems.docs, themes.docs)];
    }
    var results;
    results, trace := RunBatches(problems, themes, batches, llm, today, clock);
    FittingTotal(batches, results);
    r := Ok(DriverReport(results, TotalCreated(results)));
  }
}
