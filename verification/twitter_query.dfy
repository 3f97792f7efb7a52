/** The query sanitiser: a generic request turned into the provider's search parameters. */
module TwitterQueries {
  import opened Results
  import opened Errors
  import opened Objects
  import Snowflake
  import Text

  /** The media kinds the provider's search can select on. */
  const TwitterMedia: seq<string> := ["image", "text"]

  /** Appended to the keyword when only images are wanted: posts carrying a picture link. */
  const ImageHint: string := " pic.twitter.com"

  /** The search term excluding posts that carry a picture link. */
  const PictureExclusion: string := "-pic.twitter.com"

  /** Appended to the keyword when only text is wanted: posts without a picture link. */
  const TextHint: string := " " + PictureExclusion

  /**
   * The provider's `geocode` parameter, "latitude,longitude,radiusunit".
   * The model keeps the four values the string is formatted from.
   */
  datatype Geocode = Geocode(latitude: real, longitude: real, radius: real, unit: string)

  /** `twitter_geocode_from_location`. */
  function GeocodeFromLocation(l: Location): (g: Geocode)
    ensures g.latitude == l.latitude && g.longitude == l.longitude
    ensures g.radius == l.radius && g.unit == l.unit
  {
    Geocode(l.latitude, l.longitude, l.radius, l.unit)
  }

  /** A query with the provider-specific parameters derived from it. */
  datatype TwitterQuery = TwitterQuery(
    media: seq<string>,
    keyword: string,
    quantity: int,
    location: Option<Location>,
    interval: Option<Interval>,
    geocode: Option<Geocode>,
    sinceId: Option<int>,
    maxId: Option<int>)

  /** The first five fields, `tquery[:5]`. */
  function Generic(tq: TwitterQuery): Query
  {
    Query(tq.media, tq.keyword, tq.quantity, tq.location, tq.interval)
  }

  /**
   * `validate_twitter_query`: the generic part is valid, the media are ones the
   * provider supports, and the geocode and id bounds are the ones derived from
   * the location and the interval.
   */
  function ValidateTwitterQuery(tq: TwitterQuery): (ok: bool)
    ensures ok ==> ValidateQuery(Generic(tq))
    ensures ok ==> forall m :: m in tq.media ==> m in TwitterMedia && m in QueryMedia
    ensures ok ==> tq.quantity >= 0
    ensures ok && tq.location.Some? ==>
      && tq.geocode.Some?
      && tq.geocode.value.latitude == tq.location.value.latitude
      && tq.geocode.value.longitude == tq.location.value.longitude
      && tq.geocode.value.radius == tq.location.value.radius > 0.0
      && tq.geocode.value.unit == tq.location.value.unit
    ensures ok && tq.interval.Some? ==>
      && tq.sinceId.Some? && tq.maxId.Some?
      && tq.sinceId.value <= tq.maxId.value
      && Snowflake.TimestampFromSnowflakeId(tq.sinceId.value) == tq.interval.value.earliest
      && Snowflake.TimestampFromSnowflakeId(tq.maxId.value) == tq.interval.value.latest
    ensures (
        && ValidateQuery(Generic(tq))
        && (forall m :: m in tq.media ==> m in TwitterMedia)
        && (tq.location.Some? ==>
              && tq.geocode.Some?
              && tq.geocode.value.latitude == tq.location.value.latitude
              && tq.geocode.value.longitude == tq.location.value.longitude
              && tq.geocode.value.radius == tq.location.value.radius
              && tq.geocode.value.unit == tq.location.value.unit)
        && (tq.interval.Some? ==>
              && tq.sinceId.Some? && tq.sinceId.value % Snowflake.TimeShift == 0
              && Snowflake.TimestampFromSnowflakeId(tq.sinceId.value) == tq.interval.value.earliest
              && tq.maxId.Some? && tq.maxId.value % Snowflake.TimeShift == 0
              && Snowflake.TimestampFromSnowflakeId(tq.maxId.value) == tq.interval.value.latest)
      ) ==> ok
  {
    && ValidateQuery(Generic(tq))
    && (forall i :: 0 <= i < |tq.media| ==> tq.media[i] in TwitterMedia)
    && (tq.location.Some? ==> tq.geocode == Some(GeocodeFromLocation(tq.location.value)))
    && (tq.interval.Some? ==>
          && tq.sinceId == Some(Snowflake.SnowflakeId(tq.interval.value.earliest))
          && tq.maxId == Some(Snowflake.SnowflakeId(tq.interval.value.latest)))
  }

  /**
   * The requested media the provider supports. Python builds this from a set,
   * whose iteration order is unspecified; the model lists image before text.
   */
  function SupportedMedia(media: seq<string>): (r: seq<string>)
    ensures forall m :: m in r <==> m in media && m in TwitterMedia
    ensures Distinct(r)
  {
    (if "image" in media then ["image"] else []) + (if "text" in media then ["text"] else [])
  }

  /** The hint a request for `media` calls for: one only when exactly one supported medium is asked for. */
  function Hint(media: seq<string>): string
  {
    if "image" in media && "text" !in media then ImageHint
    else if "text" in media && "image" !in media then TextHint
    else ""
  }

  /** The keyword before stripping: the hint of the single supported medium, if there is just one. */
  function HintedKeyword(keyword: string, media: seq<string>): (k: string)
    requires forall m :: m in media ==> m in TwitterMedia
  {
    if |media| == 1 then keyword + (if media[0] == "image" then ImageHint else TextHint)
    else keyword
  }

  /** A stripped keyword that selects nothing by itself. */
  predicate Unsearchable(keyword: string)
  {
    keyword == "" || keyword == PictureExclusion
  }

  /** `twitter_query_from_query`. */
  function TwitterQueryFromQuery(q: Query): (r: Result<TwitterQuery, Error>)
    ensures r.Ok? || r == Err(InvalidQuery)
    ensures r.Err? <==>
      Unsearchable(Text.Strip(q.keyword + Hint(q.media))) && !(q.location.Some? && q.location.value.radius > 0.0)
    ensures r.Ok? ==> forall m :: m in r.value.media <==> m in q.media && m in TwitterMedia
    ensures r.Ok? ==> Distinct(r.value.media)
    ensures r.Ok? ==> r.value.keyword == Text.Strip(q.keyword + Hint(q.media))
    ensures r.Ok? ==> r.value.quantity == q.quantity && r.value.location == q.location && r.value.interval == q.interval
    ensures r.Ok? ==> (r.value.geocode.Some? <==> q.location.Some? && q.location.value.radius > 0.0)
    ensures r.Ok? && r.value.geocode.Some? ==> r.value.geocode.value == GeocodeFromLocation(q.location.value)
    ensures r.Ok? ==> (r.value.sinceId.Some? <==> q.interval.Some?) && (r.value.maxId.Some? <==> q.interval.Some?)
    ensures r.Ok? && q.interval.Some? ==>
      && r.value.sinceId.value % Snowflake.TimeShift == 0
      && Snowflake.TimestampFromSnowflakeId(r.value.sinceId.value) == q.interval.value.earliest
      && r.value.maxId.value % Snowflake.TimeShift == 0
      && Snowflake.TimestampFromSnowflakeId(r.value.maxId.value) == q.interval.value.latest
  {
    var media := SupportedMedia(q.media);
    var keyword := Text.Strip(HintedKeyword(q.keyword, media));
    assert HintedKeyword(q.keyword, media) == q.keyword + Hint(q.media);
    var geocode :=
      if q.location.Some? && q.location.value.radius > 0.0 then Some(GeocodeFromLocation(q.location.value))
      else None;
    if Unsearchable(keyword) && geocode.None? then Err(InvalidQuery)
    else
      Ok(TwitterQuery(
        media,
        keyword,
        q.quantity,
        q.location,
        q.interval,
        geocode,
        if q.interval.None? then None else Some(Snowflake.SnowflakeId(q.interval.value.earliest)),
        if q.interval.None? then None else Some(Snowflake.SnowflakeId(q.interval.value.latest))))
  }

  /** A valid query sanitises, when it sanitises, to a query `validate_twitter_query` accepts. */
  lemma SanitizedQueryIsValid(q: Query)
    requires ValidateQuery(q)
    ensures TwitterQueryFromQuery(q).Ok? ==> ValidateTwitterQuery(TwitterQueryFromQuery(q).value)
  {
    if TwitterQueryFromQuery(q).Ok? {
      var tq := TwitterQueryFromQuery(q).value;
      forall i | 0 <= i < |tq.media|
        ensures tq.media[i] in TwitterMedia && tq.media[i] in QueryMedia
      {
        assert tq.media[i] in tq.media;
      }
      GenericValid(q, Generic(tq));
    }
  }

  /** Validity of a query depends on its media only through their membership in the known kinds. */
  lemma GenericValid(q: Query, g: Query)
    requires ValidateQuery(q)
    requires forall i :: 0 <= i < |g.media| ==> g.media[i] in QueryMedia
    requires g.quantity == q.quantity && g.location == q.location && g.interval == q.interval
    ensures ValidateQuery(g)
  {
  }

  /** Sound and video are dropped: a request for them alone selects no medium at all. */
  lemma UnsupportedMediaDropped()
    ensures SupportedMedia(["sound", "video"]) == []
  {
  }

  /** A text-only request with a blank keyword and no usable location is refused: the hint alone selects nothing. */
  lemma BlankTextOnlyRejected(q: Query)
    requires "text" in q.media && "image" !in q.media
    requires Text.AllSpace(q.keyword)
    requires q.location.None? || q.location.value.radius <= 0.0
    ensures TwitterQueryFromQuery(q) == Err(InvalidQuery)
  {
    assert Hint(q.media) == TextHint;
    Text.StripAfterSpace(q.keyword, TextHint);
    StrippedTextHint();
  }

  /** The text hint stripped on its own is the bare exclusion term. */
  lemma StrippedTextHint()
    ensures Text.Strip(TextHint) == PictureExclusion
  {
    Text.StripAfterSpace(" ", PictureExclusion);
    ExclusionTrimmed();
    Text.StripTrimmed(PictureExclusion);
  }

  /** Neither end of the exclusion term is whitespace. */
  lemma ExclusionTrimmed()
    ensures Text.Trimmed(PictureExclusion)
  {
    var e := PictureExclusion;
    assert e[0] == '-' && e[|e| - 1] == 'm';
  }


  /** With no supported medium, a blank keyword and no usable location the request is refused. */
  lemma BlankUnhintedRejected(q: Query)
    requires "text" !in q.media && "image" !in q.media
    requires Text.AllSpace(q.keyword)
    requires q.location.None? || q.location.value.radius <= 0.0
    ensures TwitterQueryFromQuery(q) == Err(InvalidQuery)
  {
    Text.StripAfterSpace(q.keyword, "");
    assert q.keyword + "" == q.keyword;
  }
}
