/**
  The current problem routes. They serve the same time-locked lookup as the legacy routes,
  without a fallback for today, and pass every dump through the frontend adapter, which
  renames `_id` to `id` and drops `embedding`.
*/
module ProblemsRouter {
  import opened Wrappers
  import opened Json
  import opened DateKeys
  import opened DateParse
  import opened Records
  import opened Store
  import opened Dumps
  import opened LegacyProblemsRouter

  /** The dictionary after `_adapt_for_frontend`: `_id` moved to `id`, `embedding` gone,
      every other key as it was. */
  function Adapted(data: map<string, Json>): (r: map<string, Json>)
    ensures "_id" !in r && "embedding" !in r
    ensures "_id" in data ==> "id" in r && r["id"] == data["_id"]
    ensures "_id" !in data ==> ("id" in r <==> "id" in data) && ("id" in data ==> r["id"] == data["id"])
    ensures forall k :: k != "_id" && k != "id" && k != "embedding" ==>
              (k in r <==> k in data) && (k in r ==> r[k] == data[k])
  {
    var renamed := if "_id" in data then (data - {"_id"})["id" := data["_id"]] else data;
    renamed - {"embedding"}
  }

  /** `_adapt_for_frontend(data)`, popping keys from the dictionary step by step. */
  method AdaptForFrontend(data: map<string, Json>) returns (out: map<string, Json>)
    ensures out == Adapted(data)
  {
    out := data;
    if "_id" in out {
      var id := out["_id"];
      out := out - {"_id"};
      out := out["id" := id];
    }
    out := out - {"embedding"};
  }

  /** Adapting an adapted dictionary changes nothing. */
  lemma AdaptedIdempotent(data: map<string, Json>)
    ensures Adapted(Adapted(data)) == Adapted(data)
  {
    var a := Adapted(data);
    assert Adapted(a).Keys == a.Keys;
  }

  /** What the frontend receives for a stored problem: its key as `id`, no `_id`, no
      embedding, and the rest of the dump as it was. */
  lemma AdaptedDump(p: DailyProblem<TestCase>)
    ensures Adapted(Dump(p)).Keys == ProblemKeys - {"_id", "embedding"} + {"id"}
    ensures Adapted(Dump(p))["id"] == JStr(p.id)
  {
  }

  /** The adapted dump still identifies the problem in everything but its embedding. */
  lemma AdaptedDumpInjective(p: DailyProblem<TestCase>, q: DailyProblem<TestCase>)
    requires Adapted(Dump(p)) == Adapted(Dump(q))
    ensures p.(embedding := None) == q.(embedding := None)
  {
    var a, b := Adapted(Dump(p)), Adapted(Dump(q));
    assert a["id"] == b["id"] && a["title"] == b["title"] && a["difficulty"] == b["difficulty"];
    assert a["description"] == b["description"] && a["starterCode"] == b["starterCode"];
    assert a["testCases"] == b["testCases"] && a["topics"] == b["topics"];
    DumpInjective(p.(embedding := None), q.(embedding := None));
  }

  /** `get_today_problem`: today's problem adapted, or 404. */
  function TodayProblem(docs: seq<DailyProblem<TestCase>>, today: Date): (r: Result<map<string, Json>, HttpError>)
    requires Valid(today)
    ensures r.Err? <==> Format(today) !in Keys(docs)
    ensures r.Err? ==> r.error == NotFound
    ensures r.Ok? ==> exists p :: p in docs && p.id == Format(today) && r.value == Adapted(Dump(p))
  {
    match Find(docs, Format(today))
    case None => Err(NotFound)
    case Some(p) => Ok(Adapted(Dump(p)))
  }

  /** `get_problem_by_date`: the time-locked lookup, adapted. */
  function ProblemByDate(docs: seq<DailyProblem<TestCase>>, date: string, today: Date): (r: Result<map<string, Json>, HttpError>)
    ensures r.Err? <==> TimeLockedGet(docs, date, today).Err?
    ensures r.Err? ==> r.error == TimeLockedGet(docs, date, today).error
    ensures r.Ok? ==> exists p :: p in docs && p.id == date && r.value == Adapted(Dump(p))
  {
    match TimeLockedGet(docs, date, today)
    case Err(e) => Err(e)
    case Ok(p) => Ok(Adapted(Dump(p)))
  }

  /** The dated route agrees with the today route on today's key. */
  lemma TodayByDate(docs: seq<DailyProblem<TestCase>>, today: Date)
    requires Valid(today) && UniqueIds(docs)
    ensures ProblemByDate(docs, Format(today), today) == TodayProblem(docs, today)
  {
    StrptimeFormat(today);
    if Format(today) in Keys(docs) {
      var i :| 0 <= i < |docs| && docs[i].id == Format(today);
      FindUnique(docs, i);
    }
  }
}
