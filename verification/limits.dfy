/** The provider's rate-limit report, read for the search endpoint. */
module RateLimits {
  import opened Results
  import opened Errors
  import opened Json

  /** Where the search endpoint's entry sits in the rate-limit report. */
  const SearchPath: seq<string> := ["resources", "search", "/search/tweets"]

  /**
   * `int(limits['resources']['search']['/search/tweets'][key])`: a missing key is
   * reported as the limits being unavailable; any other failure escapes as a shape error.
   */
  function ReadLimit(limits: Json, key: string): (r: Result<int, Error>)
    ensures r.Ok? <==> Dig(limits, SearchPath + [key]).Found? && PyInt(Dig(limits, SearchPath + [key]).value).Some?
    ensures r.Ok? ==> r.value == PyInt(Dig(limits, SearchPath + [key]).value).value
    ensures r == Err(LimitError) <==> Dig(limits, SearchPath + [key]) == KeyMissing
    ensures r.Err? ==> r.error == LimitError || r.error == ShapeError
  {
    match Dig(limits, SearchPath + [key])
    case Found(v) => (match PyInt(v) case Some(n) => Ok(n) case None => Err(ShapeError))
    case KeyMissing => Err(LimitError)
    case NotSubscriptable => Err(ShapeError)
  }

  /** `search_limits`: the remaining query budget and the time it resets, remaining read first. */
  function SearchLimits(limits: Json): (r: Result<(int, int), Error>)
    ensures r.Ok? <==> ReadLimit(limits, "remaining").Ok? && ReadLimit(limits, "reset").Ok?
    ensures r.Ok? ==> r.value == (ReadLimit(limits, "remaining").value, ReadLimit(limits, "reset").value)
    ensures ReadLimit(limits, "remaining").Err? ==> r == Err(ReadLimit(limits, "remaining").error)
    ensures ReadLimit(limits, "remaining").Ok? && ReadLimit(limits, "reset").Err? ==>
      r == Err(ReadLimit(limits, "reset").error)
    ensures r.Err? ==> r.error == LimitError || r.error == ShapeError
  {
    match ReadLimit(limits, "remaining")
    case Err(e) => Err(e)
    case Ok(remaining) =>
      match ReadLimit(limits, "reset")
      case Err(e) => Err(e)
      case Ok(reset) => Ok((remaining, reset))
  }

  /** A well-formed report: the search endpoint's entry holding `remaining` and `reset`. */
  function LimitStatus(remaining: int, reset: int): Json
  {
    Obj(map["resources" := Obj(map["search" := Obj(map["/search/tweets" :=
      Obj(map["remaining" := Int(remaining), "reset" := Int(reset)])])])])
  }

  lemma DigLimitStatus(remaining: int, reset: int, key: string)
    requires key == "remaining" || key == "reset"
    ensures Dig(LimitStatus(remaining, reset), SearchPath + [key]) == Found(Int(if key == "remaining" then remaining else reset))
  {
    var path := SearchPath + [key];
    var entry := Obj(map["remaining" := Int(remaining), "reset" := Int(reset)]);
    var search := Obj(map["/search/tweets" := entry]);
    var resources := Obj(map["search" := search]);
    assert path[1..] == ["search", "/search/tweets", key];
    assert path[1..][1..] == ["/search/tweets", key];
    assert path[1..][1..][1..] == [key];
    assert Dig(entry, [key]) == Found(Int(if key == "remaining" then remaining else reset));
    assert Dig(search, path[1..][1..]) == Dig(entry, [key]);
    assert Dig(resources, path[1..]) == Dig(search, path[1..][1..]);
  }

  /** A well-formed report is read back as the pair it holds. */
  lemma SearchLimitsOfStatus(remaining: int, reset: int)
    ensures SearchLimits(LimitStatus(remaining, reset)) == Ok((remaining, reset))
  {
    DigLimitStatus(remaining, reset, "remaining");
    DigLimitStatus(remaining, reset, "reset");
  }

  /** A report without the search endpoint's entry means the limits are not available. */
  lemma MissingEntryIsLimitError(fields: map<string, Json>)
    requires "resources" !in fields
    ensures SearchLimits(Obj(fields)) == Err(LimitError)
  {
  }

  /** A report whose search entry is `entry`. */
  function Report(entry: Json): Json
  {
    Obj(map["resources" := Obj(map["search" := Obj(map["/search/tweets" := entry])])])
  }

  lemma DigReport(entry: Json, key: string)
    ensures Dig(Report(entry), SearchPath + [key]) == Index(entry, key)
  {
    var path := SearchPath + [key];
    var search := Obj(map["/search/tweets" := entry]);
    var resources := Obj(map["search" := search]);
    assert path[1..] == ["search", "/search/tweets", key];
    assert path[1..][1..] == ["/search/tweets", key];
    assert path[1..][1..][1..] == [key];
    assert Dig(entry, [key]) == Index(entry, key) by {
      assert [key][1..] == [];
    }
    assert Dig(search, path[1..][1..]) == Dig(entry, [key]);
    assert Dig(resources, path[1..]) == Dig(search, path[1..][1..]);
  }

  /** A report whose entry lacks `reset` means the limits are not available, even when `remaining` reads. */
  lemma MissingResetIsLimitError(remaining: int)
    ensures SearchLimits(Report(Obj(map["remaining" := Int(remaining)]))) == Err(LimitError)
  {
    var entry := Obj(map["remaining" := Int(remaining)]);
    DigReport(entry, "remaining");
    DigReport(entry, "reset");
    assert "reset" !in entry.fields;
  }

  /** A report that is not an object at all does not count as missing limits. */
  lemma NonObjectIsShapeError(limits: Json)
    requires !limits.Obj?
    ensures SearchLimits(limits) == Err(ShapeError)
  {
  }
}
