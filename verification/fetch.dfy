/**
 * `fetch`: the entry guard, the rate-limit read and the pagination loop over a
 * provider's search responses.
 */
module Fetch {
  import opened Results
  import opened Errors
  import opened Json
  import opened Objects
  import opened TwitterQueries
  import RateLimits
  import opened Features
  import opened Pagination
  import Snowflake
  import Text

  /** `max_queries` when the caller gives none: the provider's budget per window. */
  const DefaultMaxQueries: int := 450

  /** `int(next_results.split('max_id=')[1].split('&')[0])`. */
  function MaxIdFromNextResults(next: string): (r: Option<int>)
    ensures Text.IndexOf(next, "max_id=").None? ==> r.None?
    ensures r.Some? <==>
      && Text.SplitSecond(next, "max_id=").Some?
      && Text.IsIntLiteral(Text.Strip(Text.SplitHead(Text.SplitSecond(next, "max_id=").value, "&")))
  {
    match Text.SplitSecond(next, "max_id=")
    case None => None
    case Some(segment) => Text.ParseInt(Text.SplitHead(segment, "&"))
  }

  /** The cursor string the provider hands out: some query string, then `max_id=`, the id, and further parameters. */
  function NextResults(prefix: string, id: int, rest: string): string
  {
    prefix + "max_id=" + Text.Decimal(id) + rest
  }

  lemma DecimalLacks(n: int, c: char)
    requires c != '-' && !Text.IsDigit(c)
    ensures forall j :: 0 <= j < |Text.Decimal(n)| ==> Text.Decimal(n)[j] != c
  {
    var d := Text.Digits(if n < 0 then -n else n);
    assert forall j :: 0 <= j < |d| ==> Text.IsDigit(d[j]);
    if n < 0 {
      assert forall j :: 1 <= j < |Text.Decimal(n)| ==> Text.Decimal(n)[j] == d[j - 1];
    }
  }

  /** `SplitHead(d + rest, sep)` is `d` when `d` lacks `sep[0]` and `rest` starts with it or is empty. */
  lemma SplitHeadAt(d: string, rest: string, sep: string)
    requires |sep| > 0
    requires forall j :: 0 <= j < |d| ==> d[j] != sep[0]
    requires rest == [] || (rest[0] == sep[0] && Text.OccursAt(d + rest, sep, |d|))
    ensures Text.SplitHead(d + rest, sep) == d
  {
    var s := d + rest;
    assert forall j :: 0 <= j < |d| ==> s[j] == d[j];
    if rest == [] {
      assert s == d;
      Text.IndexOfAbsent(s, sep);
    } else {
      Text.IndexOfAt(s, sep, |d|);
      assert s[..|d|] == d;
    }
  }

  /** The first `max_id=` of a cursor is the one after a prefix that has no `m`. */
  lemma SplitAfterPrefix(prefix: string, tail: string)
    requires forall j :: 0 <= j < |prefix| ==> prefix[j] != 'm'
    ensures Text.SplitSecond(prefix + "max_id=" + tail, "max_id=") == Some(Text.SplitHead(tail, "max_id="))
  {
    var s := prefix + "max_id=" + tail;
    assert Text.OccursAt(s, "max_id=", |prefix|) by {
      assert s[|prefix|..|prefix| + 7] == "max_id=";
    }
    assert forall j :: 0 <= j < |prefix| ==> s[j] == prefix[j];
    Text.IndexOfAt(s, "max_id=", |prefix|);
    assert s[|prefix| + 7..] == tail;
  }

  /** The digits of an id, followed by nothing or by further `&` parameters, are cut back to the digits. */
  lemma SegmentIsDecimal(id: int, rest: string)
    requires rest == [] || rest[0] == '&'
    ensures Text.SplitHead(Text.SplitHead(Text.Decimal(id) + rest, "max_id="), "&") == Text.Decimal(id)
  {
    var d := Text.Decimal(id);
    var tail := d + rest;
    DecimalLacks(id, 'm');
    DecimalLacks(id, '&');
    var segment := Text.SplitHead(tail, "max_id=");
    assert |d| <= |segment| && segment == tail[..|segment|] by {
      assert forall j :: 0 <= j < |d| ==> tail[j] == d[j];
      Text.IndexOfAfter(tail, "max_id=", |d|);
    }
    var more := segment[|d|..];
    assert segment == d + more;
    if more != [] {
      assert more[0] == rest[0];
      assert Text.OccursAt(segment, "&", |d|);
    }
    SplitHeadAt(d, more, "&");
  }

  /** A provider cursor whose prefix has no `m` reads back as the id it carries. */
  lemma CursorRoundTrip(prefix: string, id: int, rest: string)
    requires forall j :: 0 <= j < |prefix| ==> prefix[j] != 'm'
    requires rest == [] || rest[0] == '&'
    ensures MaxIdFromNextResults(NextResults(prefix, id, rest)) == Some(id)
  {
    var tail := Text.Decimal(id) + rest;
    assert NextResults(prefix, id, rest) == prefix + "max_id=" + tail;
    SplitAfterPrefix(prefix, tail);
    SegmentIsDecimal(id, rest);
    Text.DecimalRoundTrip(id);
  }

  /** What `fetch` builds from a page: the features of its geotagged statuses. */
  function PageDigest(media: seq<string>, strict: bool, fetch: Fetcher): Digest
  {
    statuses => PageFeatures(statuses, media, strict, fetch)
  }

  /** The loop `fetch` runs for a sanitised query and a query budget. */
  function FetchSession(tq: TwitterQuery, strict: bool, limit: int, provider: Provider, fetch: Fetcher): (s: Session)
    ensures DigestSparesInvalid(s) && DigestSparesQueryError(s) && DigestGeotags(s) && DigestShrinks(s)
  {
    Session(tq, limit, provider, PageDigest(tq.media, strict, fetch), MaxIdFromNextResults)
  }

  /** What one `fetch` does: whether it read the limits, the searches it made, and its result. */
  datatype Fetched = Fetched(limitCalls: nat, calls: seq<SearchCall>, outcome: Result<seq<Feature>, Error>)

  /** The search budget: the provider's remaining queries, capped by `max_queries`. */
  function QueryLimit(remaining: int, maxQueries: int): (l: int)
    ensures l <= remaining && l <= maxQueries && (l == remaining || l == maxQueries)
  {
    Min(remaining, maxQueries)
  }

  /** The guard, the rate-limit read and the loop, for a query that has been sanitised. */
  function FetchSanitized(tq: TwitterQuery, strict: bool, maxQueries: int, limits: Json, provider: Provider, fetch: Fetcher): (r: Fetched)
    ensures r.limitCalls <= 1
    ensures r.limitCalls == 0 <==> |tq.media| < 1 || tq.quantity < 1 || maxQueries < 1
    ensures r.limitCalls == 0 ==> r == Fetched(0, [], Ok([]))
    ensures |r.calls| <= Max(0, maxQueries)
    ensures RateLimits.SearchLimits(limits).Ok? ==> |r.calls| <= Max(0, RateLimits.SearchLimits(limits).value.0)
    ensures r.limitCalls == 1 && RateLimits.SearchLimits(limits).Err? ==> r == Fetched(1, [], Err(RateLimits.SearchLimits(limits).error))
    ensures forall call :: call in r.calls ==>
      && 1 <= call.count <= PageCap
      && call.q == tq.keyword && call.geocode == tq.geocode && call.sinceId == tq.sinceId
    ensures r.outcome != Err(InvalidQuery)
    ensures r.limitCalls == 1 && RateLimits.SearchLimits(limits).Ok? ==>
      Run(r.calls, r.outcome) == Paginate(
        FetchSession(tq, strict, QueryLimit(RateLimits.SearchLimits(limits).value.0, maxQueries), provider, fetch),
        Cursor(0, tq.maxId, []))
  {
    if |tq.media| < 1 || tq.quantity < 1 || maxQueries < 1 then Fetched(0, [], Ok([]))
    else
      match RateLimits.SearchLimits(limits)
      case Err(e) => Fetched(1, [], Err(e))
      case Ok((remaining, _)) =>
        var s := FetchSession(tq, strict, QueryLimit(remaining, maxQueries), provider, fetch);
        var c := Cursor(0, tq.maxId, []);
        PaginateBudget(s, c);
        PaginateRequests(s, c);
        PaginateErrors(s, c);
        var run := Paginate(s, c);
        Fetched(1, run.calls, run.outcome)
  }

  /**
   * `fetch`, with the loop stated recursively; `limits` is the provider's
   * rate-limit report. The query is sanitised before anything else, so a query
   * that cannot be searched is refused even when it asks for nothing.
   */
  function FetchSpec(query: Query, strict: bool, maxQueries: int, limits: Json, provider: Provider, fetch: Fetcher): (r: Fetched)
    ensures r.outcome == Err(InvalidQuery) <==> TwitterQueryFromQuery(query).Err?
    ensures TwitterQueryFromQuery(query).Err? ==> r.limitCalls == 0 && r.calls == []
    ensures TwitterQueryFromQuery(query).Ok? ==>
      r == FetchSanitized(TwitterQueryFromQuery(query).value, strict, maxQueries, limits, provider, fetch)
  {
    match TwitterQueryFromQuery(query)
    case Err(e) => Fetched(0, [], Err(e))
    case Ok(tq) => FetchSanitized(tq, strict, maxQueries, limits, provider, fetch)
  }

  /** Every feature `fetch` returns is built from a geotagged, timestamped post. */
  lemma FetchedFeaturesGeotagged(tq: TwitterQuery, strict: bool, maxQueries: int, limits: Json, provider: Provider, fetch: Fetcher)
    ensures var r := FetchSanitized(tq, strict, maxQueries, limits, provider, fetch);
      r.outcome.Ok? ==> forall i :: 0 <= i < |r.outcome.value| ==>
        var t := r.outcome.value[i].original; t.Obj? && Geotagged(t)
  {
    var r := FetchSanitized(tq, strict, maxQueries, limits, provider, fetch);
    if r.limitCalls == 1 && RateLimits.SearchLimits(limits).Ok? {
      var s := FetchSession(tq, strict, QueryLimit(RateLimits.SearchLimits(limits).value.0, maxQueries), provider, fetch);
      var c := Cursor(0, tq.maxId, []);
      assert Run(r.calls, r.outcome) == Paginate(s, c);
      PaginateFeaturesGeotagged(s, c);
    }
  }

  /** A provider that never sends more posts than asked for never makes `fetch` return more than the quantity. */
  lemma FetchedAtMostQuantity(tq: TwitterQuery, strict: bool, maxQueries: int, limits: Json, provider: Provider, fetch: Fetcher)
    requires Respectful(provider)
    ensures var r := FetchSanitized(tq, strict, maxQueries, limits, provider, fetch);
      r.outcome.Ok? ==> |r.outcome.value| <= Max(0, tq.quantity)
  {
    if !(|tq.media| < 1 || tq.quantity < 1 || maxQueries < 1) && RateLimits.SearchLimits(limits).Ok? {
      var s := FetchSession(tq, strict, QueryLimit(RateLimits.SearchLimits(limits).value.0, maxQueries), provider, fetch);
      RespectfulProviderBound(s, Cursor(0, tq.maxId, []));
    }
  }

  /** With no queries left in the window `fetch` searches nothing and returns no features. */
  lemma ExhaustedLimitsSearchNothing(tq: TwitterQuery, strict: bool, maxQueries: int, reset: int, provider: Provider, fetch: Fetcher)
    requires |tq.media| >= 1 && tq.quantity >= 1 && maxQueries >= 1
    ensures FetchSanitized(tq, strict, maxQueries, RateLimits.LimitStatus(0, reset), provider, fetch) == Fetched(1, [], Ok([]))
  {
    RateLimits.SearchLimitsOfStatus(0, reset);
  }

  /** A first response without statuses ends `fetch` with the query error after that one search. */
  lemma TooComplexStopsAtOnce(tq: TwitterQuery, strict: bool, maxQueries: int, remaining: int, reset: int, provider: Provider, fetch: Fetcher)
    requires |tq.media| >= 1 && tq.quantity >= 1 && maxQueries >= 1 && remaining >= 1
    requires forall call :: provider(0, call).statuses.None?
    ensures var r := FetchSanitized(tq, strict, maxQueries, RateLimits.LimitStatus(remaining, reset), provider, fetch);
      r.limitCalls == 1 && |r.calls| == 1 && r.outcome == Err(QueryError)
  {
    RateLimits.SearchLimitsOfStatus(remaining, reset);
  }

  /**
   * A first response holding one bare geotagged post and no cursor ends `fetch`
   * after that search with the post's feature, however many were asked for.
   */
  lemma LastPageEndsSearch(tq: TwitterQuery, strict: bool, maxQueries: int, remaining: int, reset: int, provider: Provider, fetch: Fetcher, x: Json, y: Json, id: int)
    requires |tq.media| >= 1 && tq.quantity >= 1 && maxQueries >= 1 && remaining >= 1
    requires forall call :: provider(0, call) == Page(Some([BarePost(x, y, id)]), None)
    ensures var r := FetchSanitized(tq, strict, maxQueries, RateLimits.LimitStatus(remaining, reset), provider, fetch);
      && |r.calls| == 1
      && r.outcome.Ok? && |r.outcome.value| == 1
      && r.outcome.value[0].geometry == Point(x, y)
      && r.outcome.value[0].time == Snowflake.TimestampFromSnowflakeId(id)
  {
    RateLimits.SearchLimitsOfStatus(remaining, reset);
    BarePageFeatures(x, y, id, tq.media, strict, fetch);
  }

  /**
   * A provider that answers a request for one post with two ends `fetch` with
   * two features: nothing trims the result back to the quantity.
   */
  lemma OverfullPageExceedsQuantity(tq: TwitterQuery, strict: bool, maxQueries: int, remaining: int, reset: int, provider: Provider, fetch: Fetcher, x: Json, y: Json, id: int)
    requires |tq.media| >= 1 && tq.quantity == 1 && maxQueries >= 1 && remaining >= 1
    requires forall call :: provider(0, call) == Page(Some([BarePost(x, y, id), BarePost(x, y, id)]), None)
    ensures var r := FetchSanitized(tq, strict, maxQueries, RateLimits.LimitStatus(remaining, reset), provider, fetch);
      && |r.calls| == 1 && r.calls[0].count == 1
      && r.outcome.Ok? && |r.outcome.value| == 2 > tq.quantity
  {
    RateLimits.SearchLimitsOfStatus(remaining, reset);
    RepeatedBarePageFeatures(x, y, id, tq.media, strict, fetch);
  }

  /** Called with its default `max_queries`, `fetch` makes at most one window's worth of searches. */
  lemma DefaultBudgetBound(query: Query, strict: bool, limits: Json, provider: Provider, fetch: Fetcher)
    ensures |FetchSpec(query, strict, DefaultMaxQueries, limits, provider, fetch).calls| <= 450
  {
  }

  /** `fetch` as the source writes it: sanitise, guard, read the limits, then loop. */
  method Fetch(query: Query, strict: bool, maxQueries: int, limits: Json, provider: Provider, fetch: Fetcher)
    returns (r: Fetched)
    ensures r == FetchSpec(query, strict, maxQueries, limits, provider, fetch)
  {
    var sanitized := TwitterQueryFromQuery(query);
    if sanitized.Err? {
      return Fetched(0, [], Err(sanitized.error));
    }
    var tq := sanitized.value;
    if |tq.media| < 1 || tq.quantity < 1 || maxQueries < 1 {
      return Fetched(0, [], Ok([]));
    }
    var limit := RateLimits.SearchLimits(limits);
    if limit.Err? {
      return Fetched(1, [], Err(limit.error));
    }
    var calls, outcome := Loop(FetchSession(tq, strict, QueryLimit(limit.value.0, maxQueries), provider, fetch), Cursor(0, tq.maxId, []));
    return Fetched(1, calls, outcome);
  }
}
