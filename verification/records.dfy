/**
  The stored records. The current models (`src/shared/models/problem.py`) and the legacy
  ones (`src/models/problem.py`) share the `daily_problems` document shape except for the
  test-case type, so `DailyProblem` is generic in it.
*/
module Records {
  import opened Wrappers

  // ---------------------------------------------------------------------------
  // Current test cases
  // ---------------------------------------------------------------------------

  /** The `Literal["basic", "edge", "logic", "conciseness"]` of `TestCase.type`. */
  datatype TestKind = Basic | Edge | Logic | Conciseness

  function KindName(k: TestKind): string
  {
    match k
    case Basic => "basic"
    case Edge => "edge"
    case Logic => "logic"
    case Conciseness => "conciseness"
  }

  /** Pydantic's check of the literal: exactly the four lower-case names are accepted. */
  function ParseKind(s: string): (r: Option<TestKind>)
    ensures r.Some? ==> KindName(r.value) == s
    ensures r.None? <==> forall k: TestKind :: KindName(k) != s
  {
    if s == "basic" then Some(Basic)
    else if s == "edge" then Some(Edge)
    else if s == "logic" then Some(Logic)
    else if s == "conciseness" then Some(Conciseness)
    else None
  }

  /** A test case. `expected` is serialised under the alias `expected`; for a conciseness
      test it holds the maximum line count. */
  datatype TestCase = TestCase(id: int, kind: TestKind, hint: string, input: string, expected: string)

  /** `TestCase(type=..., hint=..., input=..., expected=...)` with `id` left at its default. */
  function NewTestCase(kind: string, hint: string, input: string, expected: string): (r: Option<TestCase>)
    ensures r.Some? <==> ParseKind(kind).Some?
    ensures r.Some? ==> r.value.id == 0 && KindName(r.value.kind) == kind
                        && r.value.hint == hint && r.value.input == input && r.value.expected == expected
  {
    match ParseKind(kind)
    case None => None
    case Some(k) => Some(TestCase(0, k, hint, input, expected))
  }

  // ---------------------------------------------------------------------------
  // Legacy test cases
  // ---------------------------------------------------------------------------

  /** A legacy test case; `maxLines` is meaningful only when `isConcisenessCheck` holds. */
  datatype LegacyTestCase = LegacyTestCase(input: string, expectedOutput: string, isConcisenessCheck: bool, maxLines: Option<int>)

  /** `TestCase(input=..., expected_output=...)` with the optional fields at their defaults. */
  function NewLegacyTestCase(input: string, expectedOutput: string): (r: LegacyTestCase)
    ensures !r.isConcisenessCheck && r.maxLines.None?
    ensures r.input == input && r.expectedOutput == expectedOutput
  {
    LegacyTestCase(input, expectedOutput, false, None)
  }

  // ---------------------------------------------------------------------------
  // Problems
  // ---------------------------------------------------------------------------

  const Easy: string := "Easy"
  const Medium: string := "Medium"
  const Hard: string := "Hard"

  /** A daily problem. `id` is meant to be a `YYYY-MM-DD` key and `difficulty` one of
      Easy/Medium/Hard, but neither is enforced by the record type. */
  datatype DailyProblem<TC> = DailyProblem(
    id: string,
    title: string,
    difficulty: string,
    description: string,
    starterCode: string,
    testCases: seq<TC>,
    topics: seq<string>,
    embedding: Option<seq<real>>)

  /** A problem built from its required fields: no test cases, no topics, no embedding. */
  function NewProblem<TC>(id: string, title: string, difficulty: string, description: string, starterCode: string): (p: DailyProblem<TC>)
    ensures p.id == id && p.title == title && p.difficulty == difficulty
    ensures p.description == description && p.starterCode == starterCode
    ensures p.testCases == [] && p.topics == [] && p.embedding.None?
  {
    DailyProblem(id, title, difficulty, description, starterCode, [], [], None)
  }

  // ---------------------------------------------------------------------------
  // Theme records
  // ---------------------------------------------------------------------------

  /** A current theme record: a batch of `count` problems from `startDate` to `endDate`.
      Records written before date ranges existed hold no dates and load with empty ones
      and a `weekId`. */
  datatype WeeklyTheme = WeeklyTheme(
    id: nat,
    theme: string,
    startDate: string,
    endDate: string,
    count: int,
    weekId: Option<string>,
    generatedAt: real)

  /** `WeeklyTheme(theme=...)`: empty date range, count 7, no week id. */
  function NewTheme(id: nat, theme: string, generatedAt: real): (t: WeeklyTheme)
    ensures t.theme == theme && t.startDate == "" && t.endDate == ""
    ensures t.count == 7 && t.weekId.None?
  {
    WeeklyTheme(id, theme, "", "", 7, None, generatedAt)
  }

  /** A legacy theme record, keyed by an ISO week id such as "2026-W07". */
  datatype LegacyTheme = LegacyTheme(weekId: string, theme: string, generatedAt: real)
}
