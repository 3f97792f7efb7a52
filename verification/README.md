# OGRe, the Twitter source, in Dafny

OGRe (OpenFusion GeoJSON Retriever) turns a request for posts, with optional
media kinds, a keyword, a quantity, a location and a time interval, into a
GeoJSON FeatureCollection of geotagged posts. This project models the Twitter
path of that pipeline and proves properties of the model:

- the query sanitiser, which turns a generic query into the provider's search
  parameters: supported media, a hinted and stripped keyword, a geocode, and
  Snowflake id bounds;
- the Snowflake codec between millisecond timestamps and the provider's ids;
- the rate-limit read;
- the building of a GeoJSON feature from a post, including the scan for the
  first photo;
- the `fetch` loop: the entry guard, the query budget, paged search calls
  with a `max_id` cursor, and the filtering of each page down to geotagged and
  timestamped posts;
- the value objects of `ogre/objects.py`, with their validators and
  `query_from_tuple`;
- the older validator and sanitiser of `ogre/validation.py`.

Module layout, one file per module, except that `Results` and `Errors` share
`results.dfy`:
- `Results`: `Option`, `Result`, `Min`, `Max`, `Distinct`.
- `Errors`: the error kinds (see below).
- `Text`: Python's `str.strip`, `str.lower`, `int(str)`, `str(int)`, `find` and
  `split`, as far as the pipeline uses them.
- `Json`: decoded provider records, and Python's `.get`, `[]`, `int()` and `>>`
  on them.
- `Snowflake`: the id codec.
- `Objects`: the value objects and their validators.
- `Validation`: the older validator and sanitiser.
- `TwitterQueries`: the query sanitiser.
- `RateLimits`: the rate-limit read.
- `Features`: feature building and page filtering.
- `Pagination`: the loop as a state machine, plus a `while`-loop method that
  follows it.
- `Fetch`: `fetch` itself.

Python's exceptions become the error kinds of `Errors.Error`:
- `InvalidQuery` is the `ValueError` of the sanitiser.
- `LimitError` is `OGReLimitError`.
- `QueryError` is `OGReQueryError`.
- `TransportError` is a failed image download.
- `ShapeError` covers every Python error that a malformed provider record
  raises: `KeyError`, `TypeError`, `IndexError`, `AttributeError`, and
  `ValueError` from `int()`.

The provider and the image transport are parameters:
- the provider is a function from the position of a call in the run and its
  arguments to a typed `Page`;
- the image transport is a function from a URL to `Option` bytes.

The rate-limit report is a `Json` argument.

## Model

The loop of `fetch` is stated as the recursive function `Pagination.Paginate`,
and two implementations are proved equal to it:
- `Pagination.Loop` is the source's `while` loop, with its three state
  variables;
- `Fetch.Fetch` is the whole function.

The loop's lemmas are proved for an arbitrary page digest and cursor reader.
`Fetch.FetchSession` then shows that `fetch`'s own digest and cursor reader
meet their premises.

Places where the code does not match its own documentation, modelled as the
code behaves:
- `validation.py` checks the latitude twice and never the longitude.
- `validation.py`'s media assertion always holds.
- `validation.validate` admits a zero radius.
- `fetch` sanitises the query before its empty-media guard, so an
  unsearchable query is refused even when it asks for nothing.
- `search_limits` reports only a `KeyError` as missing limits. Other malformed
  reports escape as other errors.
- The photo scan skips a photo entity that has no URL.
- `fetch` can return more features than the quantity
  (`Fetch.OverfullPageExceedsQuantity`). It cannot when the provider keeps to
  the requested counts.

| member | source | states |
|---|---|---|
| Snowflake.SnowflakeId | ogre/twitter.py:38-40 | The id of a millisecond has its 22 low bits zero, and its high part is the offset from the provider's epoch. |
| Snowflake.TimestampFromSnowflakeId | ogre/twitter.py:43-45 | The millisecond of an id is the one whose id range holds it (the right shift floors). |
| Snowflake.TimestampRoundTrip | ogre/twitter.py:38-45 | Every millisecond survives the trip through an id. |
| Snowflake.SnowflakeRoundTrip | ogre/twitter.py:38-45 | An id comes back from its timestamp exactly when its 22 low bits are zero. |
| Snowflake.SnowflakeMonotone | ogre/twitter.py:38-40 | Later milliseconds give larger ids, at least a full id range apart. |
| Snowflake.SnowflakeVectors | ogre/twitter.py:38-45 | The ids of the first two seconds of 1970, and the way back. |
| Objects.ValidateInterval | ogre/objects.py:9-12 | Accepts exactly the intervals with 0 <= earliest <= latest. |
| Objects.ValidateLocation | ogre/objects.py:18-24 | Accepts exactly latitude in [-90,90], longitude in [-180,180], a positive radius, and unit km or mi. |
| Objects.ValidateQuery | ogre/objects.py:32-41 | Accepts exactly the queries with known media, a non-negative quantity, and a valid location and a valid interval wherever one is present. |
| Objects.QueryFromTuple | ogre/objects.py:44-51 | Copies media, keyword and quantity, and builds a location or interval exactly when the tuple has one. |
| Objects.QueryFromTupleIdentity | ogre/objects.py:44-51 | Converting a query to a tuple and back gives the same query. |
| Objects.QueryFromTupleLossless | ogre/objects.py:44-51 | Converting a tuple to a query and back gives the same tuple. |
| Validation.ValidateInterval | ogre/validation.py:16-23 | Accepts exactly the intervals with both ends non-negative, in either order. |
| Validation.ValidateLocation | ogre/validation.py:29-42 | Accepts exactly latitude in [-90,90], a positive radius, and unit km or mi; the longitude is not examined. |
| Validation.ValidateQuery | ogre/validation.py:48-62 | Accepts exactly a non-negative quantity with a valid location and interval where present; the media are not examined. |
| Validation.LongitudeUnchecked | ogre/validation.py:35-36 | Changing the longitude never changes the verdict of `validate_location`. |
| Validation.MediaUnchecked | ogre/validation.py:51 | Changing the media never changes the verdict of `validate_query`. |
| Validation.ObjectsValidatorsStricter | ogre/validation.py:16-62 | Whatever the value-object validators accept, the validators of this module accept too. |
| Validation.ObjectsValidatorsStrictlyStricter | ogre/validation.py:16-62 | A reversed interval, a longitude of 500 and an unknown medium pass this module's validators but not the value objects'. |
| Validation.MediaVerdict | ogre/validation.py:99-110 | The media pass exactly when each one, lowercased, is a known medium; otherwise the verdict is the bad-medium error. |
| Validation.LocationVerdict | ogre/validation.py:120-136 | A location passes exactly when it has four fields: latitude in [-90,90], longitude in [-180,180], a non-negative radius, and a km/mi unit in any case; the arity error is reported exactly when there are not four fields. |
| Validation.IntervalVerdict | ogre/validation.py:138-146 | An interval passes exactly when it has two non-negative numbers; the arity error is reported exactly when there are not two fields. |
| Validation.Validate | ogre/validation.py:65-146 | Accepts exactly when media, quantity, location and interval all pass; media failures are reported before the quantity. |
| Validation.Unique | ogre/validation.py:193-198 | Has no duplicates and the same elements as the input. |
| Validation.UniqueKeepsFirstOccurrenceOrder | ogre/validation.py:195-198 | The elements kept are in the order of their first occurrences. |
| Validation.UniqueOfDistinct | ogre/validation.py:195-198 | A duplicate-free list is left as it is. |
| Validation.LowerAll | ogre/validation.py:196 | Each medium, lowercased, at its own position. |
| Validation.CleanMedia | ogre/validation.py:193-200 | Duplicate-free, lowercase, and exactly the lowercased input media, listed in the order of their first occurrence. |
| Validation.CleanMediaOfClean | ogre/validation.py:193-200 | Media that are already lowercase and duplicate-free are returned as they are. |
| Validation.Sanitize | ogre/validation.py:149-226 | Fails exactly when `validate` rejects, with its reason. The keyword and quantity are kept. The media are cleaned. The unit is lowercased. The interval is the sorted pair of its two ends. |
| Validation.SanitizedRevalidates | ogre/validation.py:149-226 | `validate` accepts what `sanitize` returns. |
| Validation.SanitizeIdempotent | ogre/validation.py:149-226 | Sanitising a sanitised result returns it unchanged. |
| Validation.ZeroRadiusAdmitted | ogre/validation.py:131-133 | `validate` admits a zero radius (in capitals, too) that both `validate_location` functions refuse. |
| Text.Strip | ogre/twitter.py:81 | The result has no whitespace at either end and is no longer than the input. |
| Text.StripRemovesOnlyEndSpace | ogre/twitter.py:81 | The result is a slice of the input whose removed ends are all whitespace. |
| Text.StripIdempotent | ogre/twitter.py:81 | Stripping twice is stripping once. |
| Text.LowerIdempotent | ogre/validation.py:196 | Lowercasing twice is lowercasing once. |
| Text.ParseInt | ogre/twitter.py:205 | `int()` of a string succeeds exactly on an optionally signed digit string, surrounding whitespace allowed. |
| Text.DecimalRoundTrip | ogre/twitter.py:205 | `int(str(n)) == n`. |
| TwitterQueries.GeocodeFromLocation | ogre/twitter.py:33-35 | The geocode carries the location's latitude, longitude, radius and unit, in the order the format string writes them. |
| TwitterQueries.ValidateTwitterQuery | ogre/twitter.py:55-65 | Accepts exactly the queries with a valid generic part, only media the provider supports, a geocode repeating the location's centre, radius and unit, and id bounds with zero low bits that decode to the interval's ends. An accepted query's bounds are in order. |
| TwitterQueries.SupportedMedia | ogre/twitter.py:73 | Duplicate-free, and exactly the requested media the provider supports. |
| TwitterQueries.TwitterQueryFromQuery | ogre/twitter.py:68-99 | Refuses exactly when the stripped, hinted keyword is empty or the bare exclusion term and no positive-radius location exists. Otherwise returns the supported media, the stripped hinted keyword, the unchanged quantity, location and interval, a geocode exactly for a positive radius, and id bounds that decode back to the interval's ends. |
| TwitterQueries.SanitizedQueryIsValid | ogre/twitter.py:55-99 | A valid query that sanitises gives a query that `validate_twitter_query` accepts. |
| TwitterQueries.UnsupportedMediaDropped | ogre/twitter.py:73 | Sound and video alone leave no medium. |
| TwitterQueries.BlankTextOnlyRejected | ogre/twitter.py:76-88 | A text-only request with a blank keyword and no usable location is refused. |
| TwitterQueries.StrippedTextHint | ogre/twitter.py:79-81 | The text hint, stripped, is the exclusion term the refusal test names. |
| TwitterQueries.BlankUnhintedRejected | ogre/twitter.py:76-88 | With no supported medium, a blank keyword and no usable location the request is refused. |
| RateLimits.ReadLimit | ogre/twitter.py:105-112 | Succeeds exactly when the entry exists and converts with `int()`, giving that value. The limit error is raised exactly when a key is missing. |
| RateLimits.SearchLimits | ogre/twitter.py:102-115 | Succeeds exactly when both entries read, giving (remaining, reset). A failure of `remaining` is the one reported; otherwise a failure of `reset` is, so a missing `reset` is the limit error. |
| RateLimits.DigReport | ogre/twitter.py:106-112 | Following the search endpoint's path through a report reaches its entry, then subscripts it. |
| RateLimits.MissingResetIsLimitError | ogre/twitter.py:106-112 | A report whose entry holds `remaining` but no `reset` gives the limit error. |
| RateLimits.SearchLimitsOfStatus | ogre/twitter.py:104-107 | A well-formed report reads back as the pair it holds. |
| RateLimits.MissingEntryIsLimitError | ogre/twitter.py:109-112 | A report without `resources` is the limit error. |
| RateLimits.NonObjectIsShapeError | ogre/twitter.py:105-109 | A report that is not a dict raises some other error than the limit error. |
| Features.PairOf | ogre/twitter.py:125-126 | Subscripts 0 and 1 succeed exactly on a list or string of length at least two. |
| Features.Coordinates | ogre/twitter.py:125-126 | Succeeds exactly when `tweet['coordinates']['coordinates']` exists and has two items, and then gives the point of its first two items. |
| Features.Time | ogre/twitter.py:131-132 | Succeeds exactly when `tweet['id']` is an integer. The time's id range holds that id. |
| Features.Iterate | ogre/twitter.py:141 | A list iterates as its items, and an empty dict or string as nothing. Every other value (null, a number, a boolean, a non-empty dict or string) fails with a shape error. |
| Features.FirstStop | ogre/twitter.py:141-146 | The scan moves past every entity before the stop, and the entity at the stop is not one it moves past. |
| Features.FirstPhotoUrl | ogre/twitter.py:141-146 | Finds no URL when the scan runs through. Gives the URL of the entity where it stops when that is a photo with one. Fails when that entity cannot be examined. |
| Features.GeojsonFromTweet | ogre/twitter.py:118-147 | The feature has the tweet's coordinates, original and id-derived time. Text is present exactly when wanted and non-null. The image is absent unless wanted, and otherwise is the download of the first photo URL. Fails exactly on bad coordinates, a bad id, a bad entity list or a failed download. Bad coordinates or a bad id give the shape error before any download. |
| Features.LenientIgnoresMedia | ogre/twitter.py:137-140 | Outside strict mode the requested media make no difference. |
| Features.StrictTextOnlyFetchesNothing | ogre/twitter.py:140-146 | A strict request without images never depends on the transport. |
| Features.BareTweetFeature | ogre/twitter.py:118-147 | A post with only coordinates and an id becomes a feature with neither text nor image. |
| Features.PhotoScanStopsAtFirst | ogre/twitter.py:141-146 | The scan uses the first photo with a URL, whatever follows it. |
| Features.Keep | ogre/twitter.py:196-199 | Keeps at most one post per status, and every post kept has non-null coordinates and id. |
| Features.KeepMembers | ogre/twitter.py:196-199 | A post is kept exactly when it is one of the statuses and has non-null coordinates and id. |
| Features.KeptFrom | ogre/twitter.py:196-199 | Each kept post is one of the statuses given. |
| Features.KeepAppend | ogre/twitter.py:196-199 | Filtering two pages together is filtering each and concatenating. |
| Features.Geotag | ogre/twitter.py:196-199 | The filter succeeds exactly when every status is a dict, and then gives the geotagged statuses in order. |
| Features.BuildAll | ogre/twitter.py:194-196 | For any converter: succeeds exactly when every post converts, giving each post's feature at its own position. A failure is the error that the first failing post's conversion raises. |
| Features.ConvertedPosts | ogre/twitter.py:118-147 | With `geojson_from_tweet` as the converter, each feature's original is its post, and a failure is a shape or transport error. |
| Features.PageFeatures | ogre/twitter.py:194-200 | Fails with a shape error when a status is not a dict. Succeeds exactly when every geotagged status converts, and then yields one feature per geotagged status, in the provider's order, each the conversion of that status. Fails only with a shape or transport error. |
| Features.BarePageFeatures | ogre/twitter.py:194-200 | A page of one bare post yields that post's feature. |
| Features.RepeatedBarePageFeatures | ogre/twitter.py:194-200 | A page holding the same bare post twice yields its feature twice: nothing is deduplicated. |
| Pagination.Request | ogre/twitter.py:182-188 | The next call asks for the smaller of what is still wanted and 100 (at least 1 while searching), with the sanitised keyword, geocode and `since_id` and the current `max_id`. |
| Pagination.Advance | ogre/twitter.py:189-205 | Fails exactly when the statuses are missing (the query error), the digest fails (its error) or a cursor is present but unreadable (a shape error). Finishes exactly when it does not fail and there is no cursor. Continuing means the cursor was read to the next `max_id`. Otherwise the features grow by the page's digest. |
| Pagination.Paginate | ogre/twitter.py:178-205 | Makes a call exactly when features are still wanted and the budget allows. Starts with the current request. Makes no calls and returns what it has when it stops at once. |
| Pagination.PaginateBudget | ogre/twitter.py:179-181 | The run makes no more calls than the budget leaves. |
| Pagination.PaginateExtends | ogre/twitter.py:194-201 | Features already collected are kept, in front. |
| Pagination.PaginateRequests | ogre/twitter.py:182-188 | Every call asks for 1 to 100 statuses, no more than were wanted when the run started, with the sanitised keyword, geocode and `since_id`. |
| Pagination.PaginateSteps | ogre/twitter.py:178-205 | Each call is the request of the loop state before it, so it asks for the smaller of what is still wanted at that call and 100. Each state is the one before it advanced by the previous response, so the features grow by each page's digest in call order. |
| Pagination.PaginateOutcome | ogre/twitter.py:189-205 | The state before the last call was still searching, and the response to that call settles the outcome: its error, its finished features, or the next state's features once the loop condition fails there. |
| Pagination.SteppedShift | ogre/twitter.py:178-205 | The steps further along a run are the steps of the run from the next state, moved by one. |
| Pagination.EndedShift | ogre/twitter.py:189-205 | A run that continues past its first page ends as the run from the next state does. |
| Pagination.PaginateChain | ogre/twitter.py:189-205 | Every response before the last had statuses and a cursor, and the next call carries the `max_id` read from that cursor. |
| Pagination.LinkedShift | ogre/twitter.py:202-205 | A link between two later calls of a run is the same link in the run from the next cursor. |
| Pagination.PaginateErrors | ogre/twitter.py:178-205 | The loop never raises the invalid-query error. |
| Pagination.PaginateQueryError | ogre/twitter.py:190-193 | The run fails with the query error exactly when its last response had no statuses. |
| Pagination.PaginateStops | ogre/twitter.py:178-204 | A successful run ends with enough features, with the budget spent, or at a response without a cursor. |
| Pagination.PaginateFeaturesGeotagged | ogre/twitter.py:194-200 | Every feature the run adds comes from a geotagged status. |
| Pagination.RespectfulProviderBound | ogre/twitter.py:184-201 | With a provider that sends no more than it is asked for, the run never collects more than the quantity. |
| Pagination.PaginateUnfold | ogre/twitter.py:178-205 | A continued page: the run from a state is its call followed by the run from the next state. |
| Pagination.PaginateEnds | ogre/twitter.py:189-204 | A last page: the run from a state is its one call, ending as that page's step does. |
| Pagination.Loop | ogre/twitter.py:174-205 | The `while` loop makes exactly the calls of `Paginate` and ends the same way. |
| Fetch.MaxIdFromNextResults | ogre/twitter.py:205 | Reads nothing from a cursor without `max_id=`. Reads an id exactly when the text after the first `max_id=`, cut at `&`, is an integer literal. |
| Fetch.SplitAfterPrefix | ogre/twitter.py:205 | Splitting on `max_id=` after a prefix without `m` gives what follows the first `max_id=`. |
| Fetch.SegmentIsDecimal | ogre/twitter.py:205 | The segment after `max_id=`, cut at `&`, is exactly the id's digits. |
| Fetch.CursorRoundTrip | ogre/twitter.py:205 | A provider cursor `...max_id=<n>&...` is read back as `n`. |
| Fetch.FetchSession | ogre/twitter.py:194-205 | The page builder of `fetch` never raises the invalid-query or query error. It keeps only geotagged statuses and yields at most one feature per status. |
| Fetch.QueryLimit | ogre/twitter.py:175 | The budget is the smaller of the remaining queries and `max_queries`. |
| Fetch.FetchSanitized | ogre/twitter.py:170-215 | Reads the limits exactly when media, quantity and `max_queries` are all positive, and otherwise returns nothing. Makes no more searches than `max_queries` or the remaining budget. Passes a limit failure through. Every call carries the sanitised parameters and a count of 1 to 100. Never raises the invalid-query error. Once the limits are read, its searches and result are those of the loop. |
| Fetch.FetchSpec | ogre/twitter.py:158-215 | Fails with the invalid-query error exactly when sanitising fails, and then makes no call at all. |
| Fetch.Fetch | ogre/twitter.py:150-215 | The method computes exactly what `FetchSpec` describes. |
| Fetch.FetchedFeaturesGeotagged | ogre/twitter.py:194-200 | Every returned feature comes from a geotagged, timestamped post. |
| Fetch.FetchedAtMostQuantity | ogre/twitter.py:184-201 | With a provider that sends no more than it is asked for, at most the quantity is returned. |
| Fetch.ExhaustedLimitsSearchNothing | ogre/twitter.py:175-181 | With no queries remaining, `fetch` makes no search and returns no features. |
| Fetch.TooComplexStopsAtOnce | ogre/twitter.py:189-193 | A first response without statuses gives the query error after exactly one search. |
| Fetch.LastPageEndsSearch | ogre/twitter.py:194-204 | A first page of one bare post and no cursor gives that post's feature after exactly one search. |
| Fetch.OverfullPageExceedsQuantity | ogre/twitter.py:182-204 | A provider that answers a request for one post with two makes `fetch` return two features for a quantity of one. |
| Fetch.DefaultBudgetBound | ogre/twitter.py:154 | With the default `max_queries` of 450, `fetch` makes at most 450 searches. |

## Left out

- I/O and logging: the `LOG` calls, `uuid` query ids and the `remaining < 1`
  warning in `search_limits`.
- Keys: `validate_twitter_keys` and the construction of the API client from
  keys.
- Output format:
  - the FeatureCollection/Feature dictionaries are records;
  - the `type` and `source` constants are not kept;
  - the ISO-8601 rendering of `time` is not modelled (it stays the integer
    millisecond);
  - the base64 encoding of the image is not modelled (it stays the bytes).
- Timestamps:
  - they are integer milliseconds in the Twitter path, so the
    `round(timestamp * 1000)` of `snowflake_id` and the `/ 1000.0` of
    `timestamp_from_snowflake_id` are not modelled;
  - `utcfromtimestamp` range errors are not modelled.
- Snowflake.TimestampFromSnowflakeId: returns milliseconds rather than float
  seconds.
- Geocode strings: the string of `twitter_geocode_from_location` is
  represented by the four values it formats, and `validate_twitter_query`
  compares those values instead of the strings. The two comparisons differ:
  - the format is not injective, since "0,0,3.01km" comes from a radius of
    3.0 with unit "1km" and from a radius of 3.01 with unit "km";
  - equal numbers can format differently, as 3 and 3.0 or 0.0 and -0.0 do.
- Media order: the order of media produced from a Python `set` is
  unspecified. The model lists image before text. Contracts speak only of
  membership and distinctness.
- Provider failures: `api.search` and `get_application_rate_limit_status`
  cannot fail in the model. The provider is a total function to a `Page` and
  the report is a given value, so an exception either call raises, which
  leaves `fetch` in the source, is not modelled.
- Response shape: a search response is a typed `Page` (statuses or none,
  cursor or none). A top-level response that is not a dict, or a
  `search_metadata` that is not one, is not modelled.
- Python conversions:
  - `int()` of strings with underscores or non-ASCII digits is not modelled;
  - `str.lower` and `str.isspace` are ASCII case mapping and Python's
    whitespace set;
  - `float()` of numeric strings in `validation.py` is refused rather than
    parsed;
  - floats are reals.
- Validation.ValidateInterval: it takes the integer-millisecond interval of
  the Twitter path, while `validation.py` documents its interval ends as float
  POSIX seconds. Fractional ends such as -0.5, which it refuses, and
  fractional non-negative ends are not represented. The tuple check
  `Validation.IntervalVerdict` does take real-valued ends.
- Validation.ValidateQuery: the `str(keyword)` and `int(quantity)` checks are
  not modelled, because keywords are strings and quantities integers by type.
- Objects.ValidateQuery: quantities are integers by type, so the truncation
  of `int(query.quantity)` is not modelled. In Python a fractional quantity
  such as -0.001 truncates to 0 and passes.
- Validation.Validate: the same holds for the `int(quantity) < 0` test, which
  admits fractional quantities above -1.
- Validation.Sanitize: the `str(keyword)` and `int(quantity)` conversions it
  returns are identities on the model's types. Turning other Python values
  into a string and an integer is not modelled.
- `ogre/api.py`, `ogre/__main__.py` and `ogre/exceptions.py` are not part of
  this model.
