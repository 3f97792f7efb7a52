/** Posts turned into map features: `geojson_from_tweet` and the filtering of a result page. */
module Features {
  import opened Results
  import opened Errors
  import opened Json
  import Snowflake
  import Text

  /** The two values of `coordinates.coordinates`, longitude first as GeoJSON orders them. */
  datatype Point = Point(longitude: Json, latitude: Json)

  /**
   * A GeoJSON Feature of type Point. `time` is the post's millisecond; the
   * ISO-8601 rendering is not modelled. `image` holds the fetched bytes the
   * source stores base64-encoded.
   */
  datatype Feature = Feature(
    geometry: Point,
    time: int,
    original: Json,
    text: Option<Json>,
    image: Option<seq<bv8>>)

  /** Reads the resource at a URL; `None` when the transport fails. */
  type Fetcher = Json -> Option<seq<bv8>>

  /** `v[0]` and `v[1]`, where only a list or a string of length two or more can be indexed so. */
  function PairOf(v: Json): (r: Result<Point, Error>)
    ensures r.Ok? <==> (v.Arr? && |v.items| >= 2) || (v.Str? && |v.s| >= 2)
    ensures v.Arr? && r.Ok? ==> r.value == Point(v.items[0], v.items[1])
    ensures r.Err? ==> r.error == ShapeError
  {
    match v
    case Arr(items) => if |items| >= 2 then Ok(Point(items[0], items[1])) else Err(ShapeError)
    case Str(s) => if |s| >= 2 then Ok(Point(Str([s[0]]), Str([s[1]]))) else Err(ShapeError)
    case _ => Err(ShapeError)
  }

  /** `tweet['coordinates']['coordinates'][0:2]`. */
  function Coordinates(tweet: Json): (r: Result<Point, Error>)
    ensures r.Ok? ==> tweet.Obj? && "coordinates" in tweet.fields
    ensures r.Ok? <==> Dig(tweet, ["coordinates", "coordinates"]).Found? && PairOf(Dig(tweet, ["coordinates", "coordinates"]).value).Ok?
    ensures r.Ok? ==> r == PairOf(Dig(tweet, ["coordinates", "coordinates"]).value)
    ensures r.Err? ==> r.error == ShapeError
  {
    var path := ["coordinates", "coordinates"];
    assert path[1..] == ["coordinates"] && path[1..][1..] == [];
    match Index(tweet, "coordinates")
    case Found(c) =>
      assert Dig(tweet, path) == Dig(c, path[1..]);
      (match Index(c, "coordinates")
       case Found(v) =>
         assert Dig(c, path[1..]) == Found(v);
         PairOf(v)
       case _ => Err(ShapeError))
    case _ => Err(ShapeError)
  }

  /** The millisecond of `tweet['id']`, which must be an integer for `>>`. */
  function Time(tweet: Json): (r: Result<int, Error>)
    ensures r.Ok? <==> tweet.Obj? && "id" in tweet.fields && ShiftOperand(tweet.fields["id"]).Some?
    ensures r.Ok? ==>
      var id := ShiftOperand(tweet.fields["id"]).value;
      Snowflake.SnowflakeId(r.value) <= id < Snowflake.SnowflakeId(r.value) + Snowflake.TimeShift
    ensures r.Err? ==> r.error == ShapeError
  {
    match Index(tweet, "id")
    case Found(i) => (match ShiftOperand(i) case Some(n) => Ok(Snowflake.TimestampFromSnowflakeId(n)) case None => Err(ShapeError))
    case _ => Err(ShapeError)
  }

  /** Text is attached when asked for, or whenever the request is not strict. */
  predicate WantsText(media: seq<string>, strict: bool)
  {
    "text" in media || !strict
  }

  /** An image is looked for when asked for, or whenever the request is not strict. */
  predicate WantsImage(media: seq<string>, strict: bool)
  {
    "image" in media || !strict
  }

  /** `tweet['text']` when `tweet.get('text')` is not None. */
  function TextOf(tweet: Json): Option<Json>
    requires tweet.Obj?
  {
    if "text" in tweet.fields && tweet.fields["text"] != Null then Some(tweet.fields["text"]) else None
  }

  /**
   * What a `for` loop sees when iterating `v`: the items of a list; nothing
   * for an empty dict or string; otherwise the first item already fails
   * (a key or character has no `.get`) or `v` is not iterable.
   */
  function Iterate(v: Json): (r: Result<seq<Json>, Error>)
    ensures v.Arr? ==> r == Ok(v.items)
    ensures r.Ok? ==> r.value == [] || v.Arr?
    ensures r.Ok? <==> v.Arr? || (v.Obj? && |v.fields| == 0) || (v.Str? && |v.s| == 0)
    ensures r.Err? ==> r.error == ShapeError
  {
    match v
    case Arr(items) => Ok(items)
    case Obj(m) => if |m| == 0 then Ok([]) else Err(ShapeError)
    case Str(s) => if |s| == 0 then Ok([]) else Err(ShapeError)
    case _ => Err(ShapeError)
  }

  /** `tweet.get('entities', {}).get('media', ())`, as iterated. */
  function MediaEntities(tweet: Json): Result<seq<Json>, Error>
    requires tweet.Obj?
  {
    var entities := if "entities" in tweet.fields then tweet.fields["entities"] else Obj(map[]);
    match Get(entities, "media", Arr([]))
    case None => Err(ShapeError)
    case Some(v) => Iterate(v)
  }

  /** An entity the scan can look at: a dict whose `type`, if present, is a string. */
  predicate Scannable(e: Json)
  {
    e.Obj? && ("type" !in e.fields || e.fields["type"].Str?)
  }

  function EntityType(e: Json): string
    requires Scannable(e)
  {
    if "type" in e.fields then e.fields["type"].s else ""
  }

  /** `entity.get('media_url_https', entity.get('media_url'))`. */
  function PhotoUrl(e: Json): Json
    requires e.Obj?
  {
    if "media_url_https" in e.fields then e.fields["media_url_https"]
    else if "media_url" in e.fields then e.fields["media_url"]
    else Null
  }

  /** A photo entity with a URL: the one the scan stops at. */
  predicate HasPhoto(e: Json)
  {
    Scannable(e) && Text.Lower(EntityType(e)) == "photo" && PhotoUrl(e) != Null
  }

  /** An entity the scan looks at and moves past. */
  predicate Passed(e: Json)
  {
    Scannable(e) && !HasPhoto(e)
  }

  /** The position where a scan of `entities` stops, `|entities|` when it runs through. */
  function FirstStop(entities: seq<Json>): (k: nat)
    ensures k <= |entities|
    ensures forall i :: 0 <= i < k ==> Passed(entities[i])
    ensures k < |entities| ==> !Passed(entities[k])
  {
    if |entities| == 0 || !Passed(entities[0]) then 0 else 1 + FirstStop(entities[1..])
  }

  /** The URL of the first photo entity that has one, scanning in order. */
  function FirstPhotoUrl(entities: seq<Json>): (r: Result<Option<Json>, Error>)
    ensures FirstStop(entities) == |entities| ==> r == Ok(None)
    ensures FirstStop(entities) < |entities| && HasPhoto(entities[FirstStop(entities)]) ==>
      r == Ok(Some(PhotoUrl(entities[FirstStop(entities)])))
    ensures FirstStop(entities) < |entities| && !Scannable(entities[FirstStop(entities)]) ==> r == Err(ShapeError)
  {
    if |entities| == 0 then Ok(None)
    else if !Scannable(entities[0]) then Err(ShapeError)
    else if HasPhoto(entities[0]) then Ok(Some(PhotoUrl(entities[0])))
    else FirstPhotoUrl(entities[1..])
  }

  /** The photo URL of a post, if the scan of its media entities finds one. */
  function PhotoOf(tweet: Json): Result<Option<Json>, Error>
    requires tweet.Obj?
  {
    match MediaEntities(tweet)
    case Err(e) => Err(e)
    case Ok(entities) => FirstPhotoUrl(entities)
  }

  /** `geojson_from_tweet`. */
  function GeojsonFromTweet(tweet: Json, media: seq<string>, strict: bool, fetch: Fetcher): (r: Result<Feature, Error>)
    ensures r.Ok? ==> Coordinates(tweet) == Ok(r.value.geometry) && r.value.original == tweet
    ensures r.Ok? ==> tweet.Obj? && "id" in tweet.fields && ShiftOperand(tweet.fields["id"]).Some?
    ensures r.Ok? ==>
      var id := ShiftOperand(tweet.fields["id"]).value;
      Snowflake.SnowflakeId(r.value.time) <= id < Snowflake.SnowflakeId(r.value.time) + Snowflake.TimeShift
    ensures r.Ok? ==> (r.value.text.Some? <==> WantsText(media, strict) && "text" in tweet.fields && tweet.fields["text"] != Null)
    ensures r.Ok? && r.value.text.Some? ==> r.value.text.value == tweet.fields["text"]
    ensures r.Ok? && !WantsImage(media, strict) ==> r.value.image.None?
    ensures r.Ok? && WantsImage(media, strict) ==>
      && PhotoOf(tweet).Ok?
      && (r.value.image.Some? <==> PhotoOf(tweet).value.Some?)
      && (r.value.image.Some? ==> fetch(PhotoOf(tweet).value.value) == r.value.image)
    ensures r.Err? <==>
      || Coordinates(tweet).Err?
      || Time(tweet).Err?
      || (WantsImage(media, strict) && (PhotoOf(tweet).Err? || (PhotoOf(tweet).value.Some? && fetch(PhotoOf(tweet).value.value).None?)))
    ensures Coordinates(tweet).Err? || Time(tweet).Err? ==> r == Err(ShapeError)
    ensures r == Err(TransportError) ==> WantsImage(media, strict) && tweet.Obj? && PhotoOf(tweet).Ok?
    ensures r.Err? ==> r.error == ShapeError || r.error == TransportError
  {
    match Coordinates(tweet)
    case Err(e) => Err(e)
    case Ok(geometry) =>
      match Time(tweet)
      case Err(e) => Err(e)
      case Ok(time) =>
        var text := if WantsText(media, strict) then TextOf(tweet) else None;
        if !WantsImage(media, strict) then Ok(Feature(geometry, time, tweet, text, None))
        else
          match PhotoOf(tweet)
          case Err(e) => Err(e)
          case Ok(None) => Ok(Feature(geometry, time, tweet, text, None))
          case Ok(Some(url)) =>
            match fetch(url)
            case None => Err(TransportError)
            case Some(bytes) => Ok(Feature(geometry, time, tweet, text, Some(bytes)))
  }

  /** Outside strict mode the requested media make no difference to a feature. */
  lemma LenientIgnoresMedia(tweet: Json, m1: seq<string>, m2: seq<string>, fetch: Fetcher)
    ensures GeojsonFromTweet(tweet, m1, false, fetch) == GeojsonFromTweet(tweet, m2, false, fetch)
  {
  }

  /** A strict request without images never reads a URL: the fetcher makes no difference. */
  lemma StrictTextOnlyFetchesNothing(tweet: Json, media: seq<string>, f1: Fetcher, f2: Fetcher)
    requires "image" !in media
    ensures GeojsonFromTweet(tweet, media, true, f1) == GeojsonFromTweet(tweet, media, true, f2)
  {
  }

  /** A post carrying only a position and an id. */
  function BarePost(x: Json, y: Json, id: int): Json
  {
    Obj(map["coordinates" := Obj(map["coordinates" := Arr([x, y])]), "id" := Int(id)])
  }

  /** A post carrying only a position and an id becomes a feature of just those. */
  lemma BareTweetFeature(x: Json, y: Json, id: int, media: seq<string>, strict: bool, fetch: Fetcher)
    ensures GeojsonFromTweet(BarePost(x, y, id), media, strict, fetch) ==
      Ok(Feature(Point(x, y), Snowflake.TimestampFromSnowflakeId(id), BarePost(x, y, id), None, None))
  {
    var tweet := BarePost(x, y, id);
    assert "entities" !in tweet.fields;
    assert MediaEntities(tweet) == Ok([]);
  }

  /** The scan stops at the first photo with a URL, whatever follows it. */
  lemma PhotoScanStopsAtFirst(before: seq<Json>, photo: Json, after: seq<Json>)
    requires forall i :: 0 <= i < |before| ==> Passed(before[i])
    requires HasPhoto(photo)
    ensures FirstPhotoUrl(before + [photo] + after) == Ok(Some(PhotoUrl(photo)))
  {
    var es := before + [photo] + after;
    assert es[|before|] == photo;
    assert forall i :: 0 <= i < |before| ==> es[i] == before[i];
    FirstStopAt(es, |before|);
  }

  lemma {:induction false} FirstStopAt(es: seq<Json>, k: nat)
    requires k < |es| && !Passed(es[k])
    requires forall i :: 0 <= i < k ==> Passed(es[i])
    ensures FirstStop(es) == k
  {
    if k > 0 {
      assert forall i :: 0 <= i < k - 1 ==> es[1..][i] == es[i + 1];
      FirstStopAt(es[1..], k - 1);
    }
  }

  /** `status.get('coordinates') is not None and status.get('id') is not None`. */
  predicate Geotagged(status: Json)
    requires status.Obj?
  {
    && "coordinates" in status.fields && status.fields["coordinates"] != Null
    && "id" in status.fields && status.fields["id"] != Null
  }

  predicate AllDicts(statuses: seq<Json>)
  {
    forall i :: 0 <= i < |statuses| ==> statuses[i].Obj?
  }

  /** The geotagged and timestamped statuses, in order. */
  function Keep(statuses: seq<Json>): (r: seq<Json>)
    requires AllDicts(statuses)
    ensures |r| <= |statuses|
    ensures forall i :: 0 <= i < |r| ==> r[i].Obj? && Geotagged(r[i])
  {
    if |statuses| == 0 then []
    else
      assert AllDicts(statuses[1..]) by {
        assert forall i :: 0 <= i < |statuses[1..]| ==> statuses[1..][i] == statuses[i + 1];
      }
      var rest := Keep(statuses[1..]);
      var head := if Geotagged(statuses[0]) then [statuses[0]] else [];
      assert forall i :: 0 <= i < |head + rest| ==> (head + rest)[i] == if i < |head| then statuses[0] else rest[i - |head|];
      head + rest
  }

  /** The filter keeps exactly the geotagged and timestamped statuses. */
  lemma {:induction false} KeepMembers(statuses: seq<Json>)
    requires AllDicts(statuses)
    ensures forall x :: x in Keep(statuses) <==> x in statuses && x.Obj? && Geotagged(x)
  {
    if |statuses| > 0 {
      var tail := statuses[1..];
      assert AllDicts(tail) by {
        assert forall i :: 0 <= i < |tail| ==> tail[i] == statuses[i + 1];
      }
      KeepMembers(tail);
      assert statuses == [statuses[0]] + tail;
      var head := if Geotagged(statuses[0]) then [statuses[0]] else [];
      assert Keep(statuses) == head + Keep(tail);
    }
  }

  lemma AllDictsAppend(a: seq<Json>, b: seq<Json>)
    requires AllDicts(a) && AllDicts(b)
    ensures AllDicts(a + b)
  {
    assert forall i :: 0 <= i < |a + b| ==> (a + b)[i] == if i < |a| then a[i] else b[i - |a|];
  }

  /** Filtering two pages together is filtering each and joining the results. */
  lemma {:induction false} KeepAppend(a: seq<Json>, b: seq<Json>)
    requires AllDicts(a) && AllDicts(b)
    ensures AllDicts(a + b) && Keep(a + b) == Keep(a) + Keep(b)
  {
    AllDictsAppend(a, b);
    if |a| == 0 {
      assert a + b == b;
    } else {
      assert (a + b)[0] == a[0];
      assert (a + b)[1..] == a[1..] + b;
      assert AllDicts(a[1..]) by {
        assert forall i :: 0 <= i < |a[1..]| ==> a[1..][i] == a[i + 1];
      }
      KeepAppend(a[1..], b);
      var head := if Geotagged(a[0]) then [a[0]] else [];
      assert Keep(a + b) == head + Keep((a + b)[1..]);
      assert Keep(a) == head + Keep(a[1..]);
      assert (head + Keep(a[1..])) + Keep(b) == head + (Keep(a[1..]) + Keep(b));
    }
  }

  /**
   * The statuses a page contributes. The source's filter raises at the first
   * status that is not a dict; every such failure is the same shape error.
   */
  function Geotag(statuses: seq<Json>): (r: Result<seq<Json>, Error>)
    ensures r.Ok? <==> AllDicts(statuses)
    ensures r.Ok? ==> r.value == Keep(statuses)
    ensures r.Err? ==> r.error == ShapeError
  {
    if AllDicts(statuses) then Ok(Keep(statuses)) else Err(ShapeError)
  }

  /** Turns one post into a feature, or raises. */
  type Builder = Json -> Result<Feature, Error>

  /** `geojson_from_tweet` with the media, strictness and transport of one `fetch`. */
  function Converter(media: seq<string>, strict: bool, fetch: Fetcher): Builder
  {
    t => GeojsonFromTweet(t, media, strict, fetch)
  }

  /** `[build(t) for t in tweets]`, raising what the first failing post raises. */
  function BuildAll(tweets: seq<Json>, build: Builder): (r: Result<seq<Feature>, Error>)
    ensures r.Ok? <==> forall i :: 0 <= i < |tweets| ==> build(tweets[i]).Ok?
    ensures r.Ok? ==> |r.value| == |tweets|
    ensures r.Ok? ==> forall i :: 0 <= i < |tweets| ==> build(tweets[i]) == Ok(r.value[i])
    ensures r.Err? ==> exists i ::
      && 0 <= i < |tweets|
      && build(tweets[i]) == Err(r.error)
      && (forall j :: 0 <= j < i ==> build(tweets[j]).Ok?)
  {
    if |tweets| == 0 then Ok([])
    else
      match build(tweets[0])
      case Err(e) => Err(e)
      case Ok(f) =>
        match BuildAll(tweets[1..], build)
        case Err(e) =>
          var k :| 0 <= k < |tweets[1..]| && build(tweets[1..][k]) == Err(e) &&
            forall j :: 0 <= j < k ==> build(tweets[1..][j]).Ok?;
          assert forall j :: 1 <= j < k + 1 ==> tweets[j] == tweets[1..][j - 1];
          assert build(tweets[k + 1]) == Err(e);
          Err(e)
        case Ok(fs) =>
          assert forall i :: 1 <= i < |tweets| ==> tweets[i] == tweets[1..][i - 1];
          Ok([f] + fs)
  }

  /** The features one page of statuses contributes. */
  function PageFeatures(statuses: seq<Json>, media: seq<string>, strict: bool, fetch: Fetcher): (r: Result<seq<Feature>, Error>)
    ensures r.Ok? ==> |r.value| <= |statuses|
    ensures r.Ok? ==> forall i :: 0 <= i < |r.value| ==>
      var s := r.value[i].original; s in statuses && s.Obj? && Geotagged(s)
    ensures r.Ok? ==>
      && AllDicts(statuses)
      && |r.value| == |Keep(statuses)|
      && forall i :: 0 <= i < |r.value| ==> r.value[i].original == Keep(statuses)[i]
    ensures !AllDicts(statuses) ==> r == Err(ShapeError)
    ensures r.Ok? <==>
      && AllDicts(statuses)
      && forall i :: 0 <= i < |Keep(statuses)| ==> GeojsonFromTweet(Keep(statuses)[i], media, strict, fetch).Ok?
    ensures r.Ok? ==> forall i :: 0 <= i < |r.value| ==>
      GeojsonFromTweet(Keep(statuses)[i], media, strict, fetch) == Ok(r.value[i])
    ensures r.Err? ==> r.error == ShapeError || r.error == TransportError
  {
    match Geotag(statuses)
    case Err(e) => Err(e)
    case Ok(tweets) =>
      assert tweets == Keep(statuses);
      KeptFrom(statuses);
      ConvertedPosts(tweets, media, strict, fetch);
      BuildAll(tweets, Converter(media, strict, fetch))
  }

  /** Each post `Keep` returns is one of the statuses it was given. */
  lemma KeptFrom(statuses: seq<Json>)
    requires AllDicts(statuses)
    ensures forall i :: 0 <= i < |Keep(statuses)| ==> Keep(statuses)[i] in statuses
  {
    KeepMembers(statuses);
    forall i | 0 <= i < |Keep(statuses)| ensures Keep(statuses)[i] in statuses {
      assert Keep(statuses)[i] in Keep(statuses);
    }
  }

  /** Converting a run of posts keeps each post as its feature's original, and fails only as a post can. */
  lemma ConvertedPosts(tweets: seq<Json>, media: seq<string>, strict: bool, fetch: Fetcher)
    ensures var r := BuildAll(tweets, Converter(media, strict, fetch));
      r.Ok? ==> forall i :: 0 <= i < |r.value| ==> r.value[i].original == tweets[i]
    ensures var r := BuildAll(tweets, Converter(media, strict, fetch));
      r.Err? ==> r.error == ShapeError || r.error == TransportError
  {
    var build := Converter(media, strict, fetch);
    var r := BuildAll(tweets, build);
    if r.Ok? {
      forall i | 0 <= i < |r.value| ensures r.value[i].original == tweets[i] {
        assert GeojsonFromTweet(tweets[i], media, strict, fetch) == Ok(r.value[i]);
      }
    } else {
      var i :| 0 <= i < |tweets| && build(tweets[i]) == Err(r.error);
      assert GeojsonFromTweet(tweets[i], media, strict, fetch) == Err(r.error);
    }
  }

  /** A page of one bare post contributes that post's feature. */
  lemma BarePageFeatures(x: Json, y: Json, id: int, media: seq<string>, strict: bool, fetch: Fetcher)
    ensures PageFeatures([BarePost(x, y, id)], media, strict, fetch) ==
      Ok([Feature(Point(x, y), Snowflake.TimestampFromSnowflakeId(id), BarePost(x, y, id), None, None)])
  {
    var tweet := BarePost(x, y, id);
    BareTweetFeature(x, y, id, media, strict, fetch);
    assert [tweet][1..] == [] && [tweet][0] == tweet;
    var build := Converter(media, strict, fetch);
    assert BuildAll([tweet][1..], build) == Ok([]);
    assert Keep([tweet]) == [tweet];
    var f := Feature(Point(x, y), Snowflake.TimestampFromSnowflakeId(id), tweet, None, None);
    assert build([tweet][0]) == Ok(f);
    assert [f] + [] == [f];
    assert BuildAll([tweet], build) == Ok([f]);
  }

  /** A page repeating a bare post keeps and converts both copies: the filter does not deduplicate. */
  lemma RepeatedBarePageFeatures(x: Json, y: Json, id: int, media: seq<string>, strict: bool, fetch: Fetcher)
    ensures var f := Feature(Point(x, y), Snowflake.TimestampFromSnowflakeId(id), BarePost(x, y, id), None, None);
      PageFeatures([BarePost(x, y, id), BarePost(x, y, id)], media, strict, fetch) == Ok([f, f])
  {
    var tweet := BarePost(x, y, id);
    var page := [tweet, tweet];
    BarePageFeatures(x, y, id, media, strict, fetch);
    var f := Feature(Point(x, y), Snowflake.TimestampFromSnowflakeId(id), tweet, None, None);
    var build := Converter(media, strict, fetch);
    assert page[1..] == [tweet] && page[0] == tweet;
    assert Keep([tweet]) == [tweet];
    assert Keep(page) == [tweet] + Keep([tweet]);
    assert BuildAll([tweet], build) == Ok([f]);
    assert build(page[0]) == Ok(f);
    assert [f] + [f] == [f, f];
    assert BuildAll(page, build) == Ok([f, f]);
  }
}
