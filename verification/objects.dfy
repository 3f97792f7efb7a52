/** The value objects of a request and their invariants. */
module Objects {
  import opened Results

  /** A period of time; both ends are POSIX timestamps in milliseconds. */
  datatype Interval = Interval(earliest: int, latest: int)

  /** A circle on the globe: centre in degrees, radius in `unit`. */
  datatype Location = Location(latitude: real, longitude: real, radius: real, unit: string)

  /** A source-independent request for posts. */
  datatype Query = Query(
    media: seq<string>,
    keyword: string,
    quantity: int,
    location: Option<Location>,
    interval: Option<Interval>)

  /** The media kinds a query may name. */
  const QueryMedia: seq<string> := ["image", "sound", "text", "video"]

  /** The distance units a location may use. */
  const Units: seq<string> := ["km", "mi"]

  /** `validate_interval`: both ends non-negative and in order. */
  function ValidateInterval(i: Interval): (ok: bool)
    ensures ok <==> 0 <= i.earliest && i.earliest <= i.latest
    ensures ok ==> 0 <= i.latest
  {
    0 <= i.earliest <= i.latest
  }

  /** `validate_location`. */
  function ValidateLocation(l: Location): (ok: bool)
    ensures ok <==>
      && -90.0 <= l.latitude <= 90.0
      && -180.0 <= l.longitude <= 180.0
      && l.radius > 0.0
      && (l.unit == "km" || l.unit == "mi")
  {
    && -90.0 <= l.latitude <= 90.0
    && -180.0 <= l.longitude <= 180.0
    && l.radius > 0.0
    && l.unit in Units
  }

  /** `validate_query`: known media, a non-negative quantity, and valid parts where present. */
  function ValidateQuery(q: Query): (ok: bool)
    ensures ok <==>
      && (forall m :: m in q.media ==> m in QueryMedia)
      && q.quantity >= 0
      && (q.location.Some? ==> ValidateLocation(q.location.value))
      && (q.interval.Some? ==> ValidateInterval(q.interval.value))
  {
    && (forall i :: 0 <= i < |q.media| ==> q.media[i] in QueryMedia)
    && q.quantity >= 0
    && (q.location.Some? ==> ValidateLocation(q.location.value))
    && (q.interval.Some? ==> ValidateInterval(q.interval.value))
  }

  /** A query written as a plain tuple, with its location and interval as plain tuples. */
  datatype QueryTuple = QueryTuple(
    media: seq<string>,
    keyword: string,
    quantity: int,
    location: Option<(real, real, real, string)>,
    interval: Option<(int, int)>)

  /** `tuple(query)`, with the nested records flattened to tuples too. */
  function ToTuple(q: Query): QueryTuple
  {
    QueryTuple(
      q.media, q.keyword, q.quantity,
      match q.location
      case None => None
      case Some(l) => Some((l.latitude, l.longitude, l.radius, l.unit)),
      match q.interval
      case None => None
      case Some(i) => Some((i.earliest, i.latest)))
  }

  /** `query_from_tuple`: wraps the location and interval tuples, when present, into records. */
  function QueryFromTuple(t: QueryTuple): (q: Query)
    ensures q.media == t.media && q.keyword == t.keyword && q.quantity == t.quantity
    ensures q.location.Some? <==> t.location.Some?
    ensures q.interval.Some? <==> t.interval.Some?
  {
    Query(
      t.media, t.keyword, t.quantity,
      match t.location
      case None => None
      case Some(l) => Some(Location(l.0, l.1, l.2, l.3)),
      match t.interval
      case None => None
      case Some(i) => Some(Interval(i.0, i.1)))
  }

  /** `query_from_tuple` is the identity on a query. */
  lemma QueryFromTupleIdentity(q: Query)
    ensures QueryFromTuple(ToTuple(q)) == q
  {
  }

  /** Every tuple is the tuple of the query built from it: no information is lost. */
  lemma QueryFromTupleLossless(t: QueryTuple)
    ensures ToTuple(QueryFromTuple(t)) == t
  {
  }
}
