/**
  The legacy problem routes (`GET /api/v1/problem/today` and `GET /api/v1/problem/{date}`).
  Today's problem falls back, when no document has today's key, to a stored problem picked
  by hashing the key ("Infinite Fallback"); a dated request is time-locked: days after
  today (UTC) are refused. The clock is the `today` parameter and SHA-256 (read as a
  non-negative integer) the `digest` parameter.
*/
module LegacyProblemsRouter {
  import opened Wrappers
  import opened Json
  import opened DateKeys
  import opened DateParse
  import opened Records
  import opened Store
  import opened Dumps

  /** The HTTP errors the routes raise: 400, 403 and 404. */
  datatype HttpError = BadRequest | Forbidden | NotFound

  function StatusCode(e: HttpError): (code: int)
    ensures code in {400, 403, 404}
  {
    match e
    case BadRequest => 400
    case Forbidden => 403
    case NotFound => 404
  }

  /** The time-locked lookup both generations of the route perform: a date strptime refuses
      is a 400, a day after today a 403, a missing key a 404. The key looked up is the
      requested text itself, not a reformatted date. */
  function TimeLockedGet<TC>(docs: seq<DailyProblem<TC>>, date: string, today: Date): (r: Result<DailyProblem<TC>, HttpError>)
    ensures r == Err(BadRequest) <==> Strptime(date).None?
    ensures r == Err(Forbidden) <==> Strptime(date).Some? && Before(today, Strptime(date).value)
    ensures r == Err(NotFound) <==> Strptime(date).Some? && !Before(today, Strptime(date).value) && date !in Keys(docs)
    ensures r.Ok? ==> r.value in docs && r.value.id == date
  {
    match Strptime(date)
    case None => Err(BadRequest)
    case Some(requested) =>
      if Before(today, requested) then Err(Forbidden)
      else if Find(docs, date).None? then Err(NotFound)
      else Ok(Find(docs, date).value)
  }

  /** A stored problem of a later day is never served, whatever the store holds. */
  lemma FutureIsLocked<TC>(docs: seq<DailyProblem<TC>>, d: Date, today: Date)
    requires Valid(d) && Before(today, d)
    ensures TimeLockedGet(docs, Format(d), today) == Err(Forbidden)
  {
    StrptimeFormat(d);
  }

  /** Today's and earlier problems are served under their canonical keys. */
  lemma PastIsServed<TC>(docs: seq<DailyProblem<TC>>, d: Date, today: Date)
    requires Valid(d) && !Before(today, d) && Format(d) in Keys(docs)
    ensures TimeLockedGet(docs, Format(d), today).Ok?
    ensures TimeLockedGet(docs, Format(d), today).value.id == Format(d)
  {
    StrptimeFormat(d);
  }

  /** `int(hashlib.sha256(key.encode()).hexdigest(), 16) % n`. */
  function FallbackIndex(key: string, n: nat, digest: string -> nat): (i: nat)
    requires n > 0
    ensures i < n
  {
    digest(key) % n
  }

  /** `{**dump, "_fallback": True, "_original_date": key}`. */
  function FallbackResponse(p: DailyProblem<LegacyTestCase>, key: string): (r: map<string, Json>)
    ensures r.Keys == LegacyProblemKeys + {"_fallback", "_original_date"}
    ensures r["_fallback"] == JBool(true) && r["_original_date"] == JStr(key)
    ensures forall k :: k in LegacyProblemKeys ==> r[k] == DumpLegacy(p)[k]
  {
    DumpLegacy(p)["_fallback" := JBool(true)]["_original_date" := JStr(key)]
  }

  /** `get_today_problem`: today's problem, else the fallback pick, else 404 on an empty store. */
  function TodayProblem(docs: seq<DailyProblem<LegacyTestCase>>, today: Date, digest: string -> nat): (r: Result<map<string, Json>, HttpError>)
    requires Valid(today)
    ensures r.Err? <==> |docs| == 0
    ensures r.Err? ==> r.error == NotFound
    ensures r.Ok? ==> ("_fallback" in r.value <==> Format(today) !in Keys(docs))
    ensures r.Ok? && Format(today) in Keys(docs) ==>
              exists p :: p in docs && p.id == Format(today) && r.value == DumpLegacy(p)
    ensures r.Ok? && Format(today) !in Keys(docs) ==>
              r.value == FallbackResponse(docs[FallbackIndex(Format(today), |docs|, digest)], Format(today))
  {
    var key := Format(today);
    match Find(docs, key)
    case Some(p) => Ok(DumpLegacy(p))
    case None =>
      if |docs| == 0 then Err(NotFound)
      else Ok(FallbackResponse(docs[FallbackIndex(key, |docs|, digest)], key))
  }

  /** The fallback serves a problem from the store, and it is the same problem all day long
      while the store is unchanged: the pick depends on nothing but the day's key and the
      stored documents. */
  lemma FallbackIsStoredAndStable(docs: seq<DailyProblem<LegacyTestCase>>, today: Date, digest: string -> nat, other: string -> nat)
    requires Valid(today) && |docs| > 0 && Format(today) !in Keys(docs)
    requires digest(Format(today)) == other(Format(today))
    ensures TodayProblem(docs, today, digest) == TodayProblem(docs, today, other)
    ensures exists p :: p in docs && TodayProblem(docs, today, digest).value["_id"] == JStr(p.id)
                        && TodayProblem(docs, today, digest).value["_original_date"] == JStr(Format(today))
  {
    var i := FallbackIndex(Format(today), |docs|, digest);
    assert TodayProblem(docs, today, digest).value["_id"] == JStr(docs[i].id);
  }

  /** `get_problem_by_date`: the time-locked lookup, dumped. */
  function ProblemByDate(docs: seq<DailyProblem<LegacyTestCase>>, date: string, today: Date): (r: Result<map<string, Json>, HttpError>)
    ensures r.Err? <==> TimeLockedGet(docs, date, today).Err?
    ensures r.Err? ==> r.error == TimeLockedGet(docs, date, today).error
    ensures r.Ok? ==> exists p :: p in docs && p.id == date && r.value == DumpLegacy(p)
  {
    match TimeLockedGet(docs, date, today)
    case Err(e) => Err(e)
    case Ok(p) => Ok(DumpLegacy(p))
  }
}
