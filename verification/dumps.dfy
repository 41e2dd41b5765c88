/**
  `model_dump(by_alias=True)` of a problem document, as the JSON object a handler returns.
  Beanie dumps the document key `id` under `_id`. The current models serialise
  `starter_code`, `test_cases` and a test case's `expected_output` under the aliases
  `starterCode`, `testCases` and `expected`; the legacy models have no aliases.
*/
module Dumps {
  import opened Wrappers
  import opened Json
  import opened Records

  function DumpStrings(xs: seq<string>): (r: Json)
    ensures r.JArr? && |r.items| == |xs|
    ensures forall i :: 0 <= i < |xs| ==> r.items[i] == JStr(xs[i])
  {
    JArr(seq(|xs|, i requires 0 <= i < |xs| => JStr(xs[i])))
  }

  /** An optional list of floats: `null` or an array of numbers. */
  function DumpEmbedding(e: Option<seq<real>>): (r: Json)
    ensures e.None? <==> r == JNull
    ensures e.Some? ==> r.JArr? && |r.items| == |e.value|
                        && forall i :: 0 <= i < |e.value| ==> r.items[i] == JNum(e.value[i])
  {
    match e
    case None => JNull
    case Some(xs) => JArr(seq(|xs|, i requires 0 <= i < |xs| => JNum(xs[i])))
  }

  /** A current test case: `{"id", "type", "hint", "input", "expected"}`. */
  function DumpCase(tc: TestCase): Json
  {
    JObj(map["id" := JNum(tc.id as real), "type" := JStr(KindName(tc.kind)), "hint" := JStr(tc.hint),
             "input" := JStr(tc.input), "expected" := JStr(tc.expected)])
  }

  /** A legacy test case: `{"input", "expected_output", "is_conciseness_check", "max_lines"}`. */
  function DumpLegacyCase(tc: LegacyTestCase): Json
  {
    JObj(map["input" := JStr(tc.input), "expected_output" := JStr(tc.expectedOutput),
             "is_conciseness_check" := JBool(tc.isConcisenessCheck),
             "max_lines" := if tc.maxLines.Some? then JNum(tc.maxLines.value as real) else JNull])
  }

  function DumpCases<TC>(cases: seq<TC>, dumpCase: TC -> Json): (r: Json)
    ensures r.JArr? && |r.items| == |cases|
    ensures forall i :: 0 <= i < |cases| ==> r.items[i] == dumpCase(cases[i])
  {
    JArr(seq(|cases|, i requires 0 <= i < |cases| => dumpCase(cases[i])))
  }

  /** The keys every dump of a current problem has. */
  const ProblemKeys: set<string> :=
    {"_id", "title", "difficulty", "description", "starterCode", "testCases", "topics", "embedding"}

  /** The keys every dump of a legacy problem has. */
  const LegacyProblemKeys: set<string> :=
    {"_id", "title", "difficulty", "description", "starter_code", "test_cases", "topics", "embedding"}

  /** `problem.model_dump(by_alias=True)` for a current problem. */
  function Dump(p: DailyProblem<TestCase>): (r: map<string, Json>)
    ensures r.Keys == ProblemKeys
    ensures r["_id"] == JStr(p.id) && r["title"] == JStr(p.title) && r["difficulty"] == JStr(p.difficulty)
    ensures r["description"] == JStr(p.description) && r["starterCode"] == JStr(p.starterCode)
    ensures r["testCases"] == DumpCases(p.testCases, DumpCase)
    ensures r["topics"] == DumpStrings(p.topics) && r["embedding"] == DumpEmbedding(p.embedding)
  {
    map["_id" := JStr(p.id), "title" := JStr(p.title), "difficulty" := JStr(p.difficulty),
        "description" := JStr(p.description), "starterCode" := JStr(p.starterCode),
        "testCases" := DumpCases(p.testCases, DumpCase), "topics" := DumpStrings(p.topics),
        "embedding" := DumpEmbedding(p.embedding)]
  }

  /** `problem.model_dump(by_alias=True)` for a legacy problem. */
  function DumpLegacy(p: DailyProblem<LegacyTestCase>): (r: map<string, Json>)
    ensures r.Keys == LegacyProblemKeys
    ensures r["_id"] == JStr(p.id) && r["title"] == JStr(p.title) && r["difficulty"] == JStr(p.difficulty)
    ensures r["description"] == JStr(p.description) && r["starter_code"] == JStr(p.starterCode)
    ensures r["test_cases"] == DumpCases(p.testCases, DumpLegacyCase)
    ensures r["topics"] == DumpStrings(p.topics) && r["embedding"] == DumpEmbedding(p.embedding)
  {
    map["_id" := JStr(p.id), "title" := JStr(p.title), "difficulty" := JStr(p.difficulty),
        "description" := JStr(p.description), "starter_code" := JStr(p.starterCode),
        "test_cases" := DumpCases(p.testCases, DumpLegacyCase), "topics" := DumpStrings(p.topics),
        "embedding" := DumpEmbedding(p.embedding)]
  }

  lemma KindNameInjective(a: TestKind, b: TestKind)
    requires KindName(a) == KindName(b)
    ensures a == b
  {
  }

  lemma DumpStringsInjective(xs: seq<string>, ys: seq<string>)
    requires DumpStrings(xs) == DumpStrings(ys)
    ensures xs == ys
  {
    assert forall i :: 0 <= i < |xs| ==> JStr(xs[i]) == DumpStrings(xs).items[i] == JStr(ys[i]);
  }

  lemma DumpEmbeddingInjective(a: Option<seq<real>>, b: Option<seq<real>>)
    requires DumpEmbedding(a) == DumpEmbedding(b)
    ensures a == b
  {
    if a.Some? {
      assert b.Some?;
      assert |a.value| == |b.value|;
      assert forall i :: 0 <= i < |a.value| ==> JNum(a.value[i]) == DumpEmbedding(a).items[i] == JNum(b.value[i]);
      assert a.value == b.value;
    }
  }

  lemma DumpCaseInjective(a: TestCase, b: TestCase)
    requires DumpCase(a) == DumpCase(b)
    ensures a == b
  {
    var fa, fb := DumpCase(a).fields, DumpCase(b).fields;
    assert fa["id"] == fb["id"] && fa["type"] == fb["type"] && fa["expected"] == fb["expected"];
    assert fa["hint"] == fb["hint"] && fa["input"] == fb["input"];
    KindNameInjective(a.kind, b.kind);
  }

  lemma DumpLegacyCaseInjective(a: LegacyTestCase, b: LegacyTestCase)
    requires DumpLegacyCase(a) == DumpLegacyCase(b)
    ensures a == b
  {
    var fa, fb := DumpLegacyCase(a).fields, DumpLegacyCase(b).fields;
    assert fa["input"] == fb["input"] && fa["expected_output"] == fb["expected_output"];
    assert fa["is_conciseness_check"] == fb["is_conciseness_check"] && fa["max_lines"] == fb["max_lines"];
  }

  /** The dump of a current problem carries the whole record: different problems dump differently. */
  lemma DumpInjective(p: DailyProblem<TestCase>, q: DailyProblem<TestCase>)
    requires Dump(p) == Dump(q)
    ensures p == q
  {
    DumpStringsInjective(p.topics, q.topics);
    DumpEmbeddingInjective(p.embedding, q.embedding);
    forall i | 0 <= i < |p.testCases|
      ensures p.testCases[i] == q.testCases[i]
    {
      DumpCaseInjective(p.testCases[i], q.testCases[i]);
    }
  }

  /** The same for legacy problems. */
  lemma DumpLegacyInjective(p: DailyProblem<LegacyTestCase>, q: DailyProblem<LegacyTestCase>)
    requires DumpLegacy(p) == DumpLegacy(q)
    ensures p == q
  {
    DumpStringsInjective(p.topics, q.topics);
    DumpEmbeddingInjective(p.embedding, q.embedding);
    forall i | 0 <= i < |p.testCases|
      ensures p.testCases[i] == q.testCases[i]
    {
      DumpLegacyCaseInjective(p.testCases[i], q.testCases[i]);
    }
  }
}
