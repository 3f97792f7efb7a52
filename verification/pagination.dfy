/**
 * The pagination loop of `fetch`, as a state machine over the provider's
 * search responses. What a page contributes and how its cursor is read are
 * parameters of the loop here; `fetch` fills them in.
 */
module Pagination {
  import opened Results
  import opened Errors
  import opened Json
  import opened TwitterQueries
  import opened Features

  /** The provider accepts at most this many statuses per search call. */
  const PageCap: int := 100

  /** The arguments of one `api.search` call. */
  datatype SearchCall = SearchCall(
    q: string,
    count: int,
    geocode: Option<Geocode>,
    sinceId: Option<int>,
    maxId: Option<int>)

  /**
   * A search response: `statuses` is `None` when the response has none (a
   * request too complex to answer); `nextResults` is the cursor query string
   * under `search_metadata`, `None` when there are no further pages.
   */
  datatype Page = Page(statuses: Option<seq<Json>>, nextResults: Option<string>)

  /** The provider's answer to the search call with the given position in the run. */
  type Provider = (nat, SearchCall) -> Page

  /** The features a page of statuses contributes, or the error building them raises. */
  type Digest = seq<Json> -> Result<seq<Feature>, Error>

  /** The `max_id` a cursor string carries; `None` where reading it raises. */
  type CursorReader = string -> Option<int>

  /** What stays fixed during one run of the loop; `limit` is the query budget. */
  datatype Session = Session(
    tquery: TwitterQuery,
    limit: int,
    provider: Provider,
    digest: Digest,
    cursor: CursorReader)

  /** The loop state: calls made so far, the `max_id` to send next, the features collected. */
  datatype Cursor = Cursor(queryCount: nat, maxId: Option<int>, features: seq<Feature>)

  /** The search calls a run makes, and what it returns or raises. */
  datatype Run = Run(calls: seq<SearchCall>, outcome: Result<seq<Feature>, Error>)

  /** The outcome of one page. */
  datatype Step =
    | Failed(error: Error)
    | Finished(features: seq<Feature>)
    | Continue(next: Cursor)

  /** The search call the loop makes next: `count=min(remaining, 100)`, the current `max_id`. */
  function Request(s: Session, c: Cursor): (r: SearchCall)
    ensures Searching(s, c) ==> 1 <= r.count <= PageCap
    ensures r.count <= s.tquery.quantity - |c.features| && r.count <= PageCap
    ensures r.count == PageCap || r.count == s.tquery.quantity - |c.features|
    ensures r.q == s.tquery.keyword && r.geocode == s.tquery.geocode && r.sinceId == s.tquery.sinceId
    ensures r.maxId == c.maxId
  {
    SearchCall(
      s.tquery.keyword,
      Min(s.tquery.quantity - |c.features|, PageCap),
      s.tquery.geocode,
      s.tquery.sinceId,
      c.maxId)
  }

  /** Whether the loop makes another call: results are still wanted and the budget allows one. */
  predicate Searching(s: Session, c: Cursor)
  {
    s.tquery.quantity - |c.features| > 0 && c.queryCount < s.limit
  }

  /** One response processed: its features appended, then the cursor followed or the run finished. */
  function Advance(s: Session, c: Cursor, page: Page): (r: Step)
    ensures r.Failed? <==>
      || page.statuses.None?
      || s.digest(page.statuses.value).Err?
      || (page.nextResults.Some? && s.cursor(page.nextResults.value).None?)
    ensures page.statuses.None? ==> r == Failed(QueryError)
    ensures page.statuses.Some? && s.digest(page.statuses.value).Err? ==>
      r == Failed(s.digest(page.statuses.value).error)
    ensures (
        && page.statuses.Some? && s.digest(page.statuses.value).Ok?
        && page.nextResults.Some? && s.cursor(page.nextResults.value).None?
      ) ==> r == Failed(ShapeError)
    ensures r.Finished? <==> !r.Failed? && page.nextResults.None?
    ensures r.Continue? ==> r.next.queryCount == c.queryCount + 1
    ensures r.Continue? ==>
      && page.nextResults.Some? && r.next.maxId.Some?
      && s.cursor(page.nextResults.value) == r.next.maxId
    ensures r.Finished? ==> page.nextResults.None?
    ensures !r.Failed? ==>
      && page.statuses.Some? && s.digest(page.statuses.value).Ok?
      && (if r.Finished? then r.features else r.next.features) == c.features + s.digest(page.statuses.value).value
  {
    match page.statuses
    case None => Failed(QueryError)
    case Some(statuses) =>
      match s.digest(statuses)
      case Err(e) => Failed(e)
      case Ok(added) =>
        var features := c.features + added;
        match page.nextResults
        case None => Finished(features)
        case Some(next) =>
          match s.cursor(next)
          case None => Failed(ShapeError)
          case Some(id) => Continue(Cursor(c.queryCount + 1, Some(id), features))
  }

  /** The loop of `fetch` from cursor `c` on. */
  function Paginate(s: Session, c: Cursor): (r: Run)
    ensures r.calls == [] <==> !Searching(s, c)
    ensures r.calls == [] ==> r.outcome == Ok(c.features)
    ensures r.calls != [] ==> r.calls[0] == Request(s, c)
    decreases s.limit - c.queryCount
  {
    if !Searching(s, c) then Run([], Ok(c.features))
    else
      var call := Request(s, c);
      match Advance(s, c, s.provider(c.queryCount, call))
      case Failed(e) => Run([call], Err(e))
      case Finished(features) => Run([call], Ok(features))
      case Continue(next) =>
        var rest := Paginate(s, next);
        Run([call] + rest.calls, rest.outcome)
  }

  /** The response to the `i`-th call of a run started at `c`. */
  function Response(s: Session, c: Cursor, calls: seq<SearchCall>, i: nat): Page
    requires i < |calls|
  {
    s.provider(c.queryCount + i, calls[i])
  }

  /** The last response of a run with more than one call is the last response of the run from the next cursor. */
  lemma LastResponseShift(s: Session, c: Cursor, call: SearchCall, rest: seq<SearchCall>, next: Cursor)
    requires next.queryCount == c.queryCount + 1 && |rest| > 0
    ensures Response(s, c, [call] + rest, |rest|) == Response(s, next, rest, |rest| - 1)
  {
    assert ([call] + rest)[|rest|] == rest[|rest| - 1];
  }

  /** The loop makes no more calls than the budget leaves. */
  lemma {:induction false} PaginateBudget(s: Session, c: Cursor)
    ensures |Paginate(s, c).calls| <= Max(0, s.limit - c.queryCount)
    decreases s.limit - c.queryCount
  {
    if Searching(s, c) {
      var step := Advance(s, c, s.provider(c.queryCount, Request(s, c)));
      if step.Continue? {
        PaginateBudget(s, step.next);
      }
    }
  }

  /** The features collected only grow: what the run returns extends what it started with. */
  lemma {:induction false} PaginateExtends(s: Session, c: Cursor)
    ensures Paginate(s, c).outcome.Ok? ==> c.features <= Paginate(s, c).outcome.value
    decreases s.limit - c.queryCount
  {
    if Searching(s, c) {
      var step := Advance(s, c, s.provider(c.queryCount, Request(s, c)));
      if step.Continue? {
        PaginateExtends(s, step.next);
      }
    }
  }

  /**
   * Every call asks for between one and a hundred statuses, no more than are
   * still wanted, with the sanitised keyword, geocode and `since_id`.
   */
  lemma {:induction false} PaginateRequests(s: Session, c: Cursor)
    ensures forall call :: call in Paginate(s, c).calls ==>
      && 1 <= call.count <= PageCap
      && call.count <= s.tquery.quantity - |c.features|
      && call.q == s.tquery.keyword
      && call.geocode == s.tquery.geocode
      && call.sinceId == s.tquery.sinceId
    decreases s.limit - c.queryCount
  {
    var r := Paginate(s, c);
    if Searching(s, c) {
      var call := Request(s, c);
      var step := Advance(s, c, s.provider(c.queryCount, call));
      if step.Continue? {
        var rest := Paginate(s, step.next);
        assert r == Run([call] + rest.calls, rest.outcome);
        PaginateRequests(s, step.next);
        assert |c.features| <= |step.next.features|;
        assert forall x :: x in r.calls ==> x == call || x in rest.calls;
      }
    }
  }

  /**
   * Call `i` of a run and the one after it are linked: the response to call `i`
   * had statuses and a cursor, and call `i + 1` carries the `max_id` read from it.
   */
  ghost predicate Linked(s: Session, c: Cursor, calls: seq<SearchCall>, i: nat)
    requires i + 1 < |calls|
  {
    && Response(s, c, calls, i).statuses.Some?
    && Response(s, c, calls, i).nextResults.Some?
    && calls[i + 1].maxId.Some?
    && s.cursor(Response(s, c, calls, i).nextResults.value) == calls[i + 1].maxId
  }

  /** Links further along a run are the links of the run from the next cursor, moved by one. */
  lemma LinkedShift(s: Session, c: Cursor, call: SearchCall, rest: seq<SearchCall>, next: Cursor, i: nat)
    requires next.queryCount == c.queryCount + 1
    requires 0 < i && i + 1 < |[call] + rest|
    requires Linked(s, next, rest, i - 1)
    ensures Linked(s, c, [call] + rest, i)
  {
    var calls := [call] + rest;
    assert calls[i] == rest[i - 1] && calls[i + 1] == rest[i];
    assert Response(s, c, calls, i) == Response(s, next, rest, i - 1);
  }

  /**
   * The loop state before the `i`-th call of a run started at `c`: each step
   * follows the response to the call before it. Past the end of the run the
   * state is left where the run stopped.
   */
  function CursorAt(s: Session, c: Cursor, i: nat): Cursor
    decreases i
  {
    if i == 0 then c
    else
      match Advance(s, c, s.provider(c.queryCount, Request(s, c)))
      case Continue(next) => CursorAt(s, next, i - 1)
      case _ => c
  }

  /**
   * Call `i` of a run is the request of the state before it, that state has
   * made `i` more calls than the start, and when another call follows, the
   * response to call `i` advanced that state to the next one.
   */
  ghost predicate Stepped(s: Session, c: Cursor, calls: seq<SearchCall>, i: nat)
    requires i < |calls|
  {
    && calls[i] == Request(s, CursorAt(s, c, i))
    && CursorAt(s, c, i).queryCount == c.queryCount + i
    && (i + 1 < |calls| ==>
          Advance(s, CursorAt(s, c, i), Response(s, c, calls, i)) == Continue(CursorAt(s, c, i + 1)))
  }

  /** The steps further along a run are the steps of the run from the next cursor, moved by one. */
  lemma SteppedShift(s: Session, c: Cursor, next: Cursor, rest: seq<SearchCall>, i: nat)
    requires Searching(s, c)
    requires Advance(s, c, s.provider(c.queryCount, Request(s, c))) == Continue(next)
    requires 0 < i && i - 1 < |rest|
    requires Stepped(s, next, rest, i - 1)
    ensures Stepped(s, c, [Request(s, c)] + rest, i)
  {
    var calls := [Request(s, c)] + rest;
    assert calls[i] == rest[i - 1];
    assert CursorAt(s, c, i) == CursorAt(s, next, i - 1);
    assert Response(s, c, calls, i) == Response(s, next, rest, i - 1);
    if i + 1 < |calls| {
      assert CursorAt(s, c, i + 1) == CursorAt(s, next, i);
    }
  }

  /**
   * Every call of a run is the request of the loop state before it, and each
   * state is the previous one advanced by its response: the count asked for
   * is what is still wanted at that call, capped at a hundred, and the
   * features grow by each page's digest in the order of the calls.
   */
  lemma {:induction false} PaginateSteps(s: Session, c: Cursor)
    ensures forall i :: 0 <= i < |Paginate(s, c).calls| ==> Stepped(s, c, Paginate(s, c).calls, i)
    decreases s.limit - c.queryCount
  {
    var r := Paginate(s, c);
    if Searching(s, c) {
      var call := Request(s, c);
      var page := s.provider(c.queryCount, call);
      var step := Advance(s, c, page);
      if step.Continue? {
        var rest := Paginate(s, step.next);
        assert r == Run([call] + rest.calls, rest.outcome);
        PaginateSteps(s, step.next);
        forall i | 0 <= i < |r.calls| ensures Stepped(s, c, r.calls, i) {
          if i == 0 {
            assert Response(s, c, r.calls, 0) == page;
            if 1 < |r.calls| {
              assert CursorAt(s, c, 1) == CursorAt(s, step.next, 0);
            }
          } else {
            SteppedShift(s, c, step.next, rest.calls, i);
          }
        }
      } else {
        assert r.calls == [call];
      }
    }
  }

  /**
   * How a run ends: the state before its last call was still searching, and
   * the response to that call decides the outcome. A failed page gives its
   * error; a finished one gives its features; a continued one gives the next
   * state's features, the loop condition having turned false there.
   */
  ghost predicate Ended(s: Session, c: Cursor, r: Run)
    requires |r.calls| > 0
  {
    var last := CursorAt(s, c, |r.calls| - 1);
    && Searching(s, last)
    && match Advance(s, last, Response(s, c, r.calls, |r.calls| - 1))
       case Failed(e) => r.outcome == Err(e)
       case Finished(features) => r.outcome == Ok(features)
       case Continue(next) => r.outcome == Ok(next.features) && !Searching(s, next)
  }

  /** A run that continues past its first call ends as the run from the next state does. */
  lemma EndedShift(s: Session, c: Cursor, next: Cursor, rest: Run)
    requires Searching(s, c)
    requires Advance(s, c, s.provider(c.queryCount, Request(s, c))) == Continue(next)
    requires |rest.calls| > 0
    requires Ended(s, next, rest)
    ensures Ended(s, c, Run([Request(s, c)] + rest.calls, rest.outcome))
  {
    var r := Run([Request(s, c)] + rest.calls, rest.outcome);
    assert CursorAt(s, c, |r.calls| - 1) == CursorAt(s, next, |rest.calls| - 1);
    LastResponseShift(s, c, Request(s, c), rest.calls, next);
  }

  /** The outcome of a run is settled by its last state and the response to its last call. */
  lemma {:induction false} PaginateOutcome(s: Session, c: Cursor)
    ensures |Paginate(s, c).calls| > 0 ==> Ended(s, c, Paginate(s, c))
    decreases s.limit - c.queryCount
  {
    var r := Paginate(s, c);
    if Searching(s, c) {
      var call := Request(s, c);
      var page := s.provider(c.queryCount, call);
      var step := Advance(s, c, page);
      if step.Continue? {
        var rest := Paginate(s, step.next);
        assert r == Run([call] + rest.calls, rest.outcome);
        if |rest.calls| == 0 {
          assert CursorAt(s, c, 0) == c;
          assert Response(s, c, r.calls, 0) == page;
          assert rest.outcome == Ok(step.next.features) && !Searching(s, step.next);
        } else {
          PaginateOutcome(s, step.next);
          EndedShift(s, c, step.next, rest);
        }
      } else {
        assert r.calls == [call];
        assert CursorAt(s, c, 0) == c;
        assert Response(s, c, r.calls, 0) == page;
      }
    }
  }

  /** Every call after the first carries the `max_id` read from the previous response's cursor. */
  lemma {:induction false} PaginateChain(s: Session, c: Cursor)
    ensures forall i :: 0 <= i < |Paginate(s, c).calls| - 1 ==> Linked(s, c, Paginate(s, c).calls, i)
    decreases s.limit - c.queryCount
  {
    var r := Paginate(s, c);
    if Searching(s, c) {
      var call := Request(s, c);
      var page := s.provider(c.queryCount, call);
      var step := Advance(s, c, page);
      if step.Continue? {
        var rest := Paginate(s, step.next);
        assert r == Run([call] + rest.calls, rest.outcome);
        PaginateChain(s, step.next);
        forall i | 0 <= i < |r.calls| - 1 ensures Linked(s, c, r.calls, i) {
          if i == 0 {
            assert r.calls[1] == rest.calls[0] == Request(s, step.next);
            assert Response(s, c, r.calls, 0) == page;
          } else {
            LinkedShift(s, c, call, rest.calls, step.next, i);
          }
        }
      }
    }
  }

  /** A run raises only what a response or a page can raise. */
  lemma {:induction false} PaginateErrors(s: Session, c: Cursor)
    requires DigestSparesInvalid(s)
    ensures Paginate(s, c).outcome != Err(InvalidQuery)
    decreases s.limit - c.queryCount
  {
    if Searching(s, c) {
      var step := Advance(s, c, s.provider(c.queryCount, Request(s, c)));
      if step.Continue? {
        PaginateErrors(s, step.next);
      }
    }
  }

  /** Building a page never reports an invalid query. */
  ghost predicate DigestSparesInvalid(s: Session)
  {
    forall statuses :: s.digest(statuses) != Err(InvalidQuery)
  }

  /** Building a page never raises the query error: that error belongs to responses without statuses. */
  ghost predicate DigestSparesQueryError(s: Session)
  {
    forall statuses :: s.digest(statuses).Err? ==> s.digest(statuses).error != QueryError
  }

  /** The run fails with the query error exactly when its last response had no statuses. */
  lemma {:induction false} PaginateQueryError(s: Session, c: Cursor)
    requires DigestSparesQueryError(s)
    ensures Paginate(s, c).outcome == Err(QueryError) <==>
      |Paginate(s, c).calls| > 0 && Response(s, c, Paginate(s, c).calls, |Paginate(s, c).calls| - 1).statuses.None?
  {
    var r := Paginate(s, c);
    if |r.calls| == 0 {
      assert r.outcome.Ok?;
    } else {
      PaginateOutcome(s, c);
      var last := CursorAt(s, c, |r.calls| - 1);
      var page := Response(s, c, r.calls, |r.calls| - 1);
      var step := Advance(s, last, page);
      assert Ended(s, c, r);
      if page.statuses.None? {
        assert step == Failed(QueryError);
      } else if step.Failed? {
        assert r.outcome == Err(step.error);
        assert step.error != QueryError by {
          if s.digest(page.statuses.value).Err? {
            assert step.error == s.digest(page.statuses.value).error;
          }
        }
      } else {
        assert r.outcome.Ok?;
      }
    }
  }

  /**
   * A run that succeeds stopped for one of three reasons: enough features,
   * the budget spent, or a response without a cursor.
   */
  lemma {:induction false} PaginateStops(s: Session, c: Cursor)
    ensures var r := Paginate(s, c);
      r.outcome.Ok? ==>
        || |r.outcome.value| >= s.tquery.quantity
        || c.queryCount + |r.calls| >= s.limit
        || (|r.calls| > 0 && Response(s, c, r.calls, |r.calls| - 1).nextResults.None?)
    decreases s.limit - c.queryCount
  {
    var r := Paginate(s, c);
    if Searching(s, c) {
      var call := Request(s, c);
      var page := s.provider(c.queryCount, call);
      var step := Advance(s, c, page);
      if step.Continue? {
        var rest := Paginate(s, step.next);
        assert r == Run([call] + rest.calls, rest.outcome);
        PaginateStops(s, step.next);
        assert r.outcome == rest.outcome;
        assert c.queryCount + |r.calls| == step.next.queryCount + |rest.calls|;
        if |rest.calls| > 0 {
          LastResponseShift(s, c, call, rest.calls, step.next);
        } else {
          assert rest.outcome == Ok(step.next.features) && !Searching(s, step.next);
        }
      } else {
        assert r.calls == [call];
        if step.Finished? {
          assert Response(s, c, r.calls, 0).nextResults.None? by {
            assert Response(s, c, r.calls, 0) == page;
          }
        } else {
          assert r.outcome.Err?;
        }
      }
    }
  }

  /** Every page's features come from geotagged, timestamped statuses of that page. */
  ghost predicate DigestGeotags(s: Session)
  {
    forall statuses :: s.digest(statuses).Ok? ==>
      forall i :: 0 <= i < |s.digest(statuses).value| ==>
        var t := s.digest(statuses).value[i].original; t.Obj? && Geotagged(t)
  }

  /** Every feature the run adds comes from a geotagged, timestamped status. */
  lemma {:induction false} PaginateFeaturesGeotagged(s: Session, c: Cursor)
    requires DigestGeotags(s)
    ensures var r := Paginate(s, c);
      r.outcome.Ok? ==> forall i :: |c.features| <= i < |r.outcome.value| ==>
        var t := r.outcome.value[i].original; t.Obj? && Geotagged(t)
    decreases s.limit - c.queryCount
  {
    if Searching(s, c) {
      var call := Request(s, c);
      var page := s.provider(c.queryCount, call);
      var step := Advance(s, c, page);
      if !step.Failed? {
        var added := s.digest(page.statuses.value).value;
        var fs := if step.Finished? then step.features else step.next.features;
        assert fs == c.features + added;
        assert forall i :: |c.features| <= i < |fs| ==> fs[i] == added[i - |c.features|];
        if step.Continue? {
          PaginateFeaturesGeotagged(s, step.next);
          PaginateExtends(s, step.next);
        }
      }
    }
  }

  /** A page contributes at most one feature per status. */
  ghost predicate DigestShrinks(s: Session)
  {
    forall statuses :: s.digest(statuses).Ok? ==> |s.digest(statuses).value| <= |statuses|
  }

  /** The provider never answers with more statuses than it was asked for. */
  ghost predicate Respectful(p: Provider)
  {
    forall n: nat, call: SearchCall :: p(n, call).statuses.Some? ==> |p(n, call).statuses.value| <= Max(0, call.count)
  }

  /** With a provider that keeps to the requested counts the run never collects more than the quantity. */
  lemma {:induction false} RespectfulProviderBound(s: Session, c: Cursor)
    requires DigestShrinks(s) && Respectful(s.provider)
    requires |c.features| <= Max(0, s.tquery.quantity)
    ensures Paginate(s, c).outcome.Ok? ==> |Paginate(s, c).outcome.value| <= Max(0, s.tquery.quantity)
    decreases s.limit - c.queryCount
  {
    if Searching(s, c) {
      var call := Request(s, c);
      var page := s.provider(c.queryCount, call);
      var step := Advance(s, c, page);
      if !step.Failed? {
        var added := s.digest(page.statuses.value).value;
        assert |added| <= |page.statuses.value| <= call.count;
        if step.Continue? {
          RespectfulProviderBound(s, step.next);
        }
      }
    }
  }

  /** One continued page: the run from `here` is its call followed by the run from `there`. */
  lemma PaginateUnfold(s: Session, here: Cursor, there: Cursor, before: seq<SearchCall>, whole: Run)
    requires Searching(s, here)
    requires Advance(s, here, s.provider(here.queryCount, Request(s, here))) == Continue(there)
    requires whole == Run(before + Paginate(s, here).calls, Paginate(s, here).outcome)
    ensures whole == Run((before + [Request(s, here)]) + Paginate(s, there).calls, Paginate(s, there).outcome)
  {
    var rest := Paginate(s, there);
    assert Paginate(s, here) == Run([Request(s, here)] + rest.calls, rest.outcome);
    assert (before + [Request(s, here)]) + rest.calls == before + ([Request(s, here)] + rest.calls);
  }

  /** One last page: the run from `here` is its call, ending as the page's step does. */
  lemma PaginateEnds(s: Session, here: Cursor, before: seq<SearchCall>, whole: Run, outcome: Result<seq<Feature>, Error>)
    requires Searching(s, here)
    requires
      var step := Advance(s, here, s.provider(here.queryCount, Request(s, here)));
      || (step.Failed? && outcome == Err(step.error))
      || (step.Finished? && outcome == Ok(step.features))
    requires whole == Run(before + Paginate(s, here).calls, Paginate(s, here).outcome)
    ensures whole == Run(before + [Request(s, here)], outcome)
  {
  }

  /**
   * The `while` loop of `fetch`, with the query count, the `max_id` and the
   * features as its state; it makes the calls `Paginate` describes.
   */
  method Loop(s: Session, start: Cursor) returns (calls: seq<SearchCall>, outcome: Result<seq<Feature>, Error>)
    ensures Run(calls, outcome) == Paginate(s, start)
  {
    ghost var whole := Paginate(s, start);
    var queryCount := start.queryCount;
    var maxId := start.maxId;
    var features := start.features;
    calls := [];
    var remaining := s.tquery.quantity - |features|;
    while remaining > 0
      invariant remaining == s.tquery.quantity - |features|
      invariant whole == Run(calls + Paginate(s, Cursor(queryCount, maxId, features)).calls,
                             Paginate(s, Cursor(queryCount, maxId, features)).outcome)
      decreases s.limit - queryCount
    {
      if queryCount >= s.limit {
        return calls, Ok(features);
      }
      ghost var here := Cursor(queryCount, maxId, features);
      var call := SearchCall(s.tquery.keyword, Min(remaining, PageCap), s.tquery.geocode, s.tquery.sinceId, maxId);
      var response := s.provider(queryCount, call);
      ghost var before := calls;
      calls := calls + [call];
      assert call == Request(s, here);
      if response.statuses.None? {
        PaginateEnds(s, here, before, whole, Err(QueryError));
        return calls, Err(QueryError);
      }
      var added := s.digest(response.statuses.value);
      if added.Err? {
        PaginateEnds(s, here, before, whole, Err(added.error));
        return calls, Err(added.error);
      }
      features := features + added.value;
      remaining := s.tquery.quantity - |features|;
      if response.nextResults.None? {
        PaginateEnds(s, here, before, whole, Ok(features));
        return calls, Ok(features);
      }
      var next := s.cursor(response.nextResults.value);
      if next.None? {
        PaginateEnds(s, here, before, whole, Err(ShapeError));
        return calls, Err(ShapeError);
      }
      queryCount := queryCount + 1;
      maxId := next;
      PaginateUnfold(s, here, Cursor(queryCount, maxId, features), before, whole);
    }
    return calls, Ok(features);
  }
}
