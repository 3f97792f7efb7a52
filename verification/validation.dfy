/**
 * The older parameter validator and sanitiser: record validators for
 * intervals, locations and queries, and `validate` / `sanitize` over the
 * loosely typed tuples a caller passes.
 */
module Validation {
  import opened Results
  import Objects
  import Text

  /** `validate_interval`: both ends non-negative; their order is not examined. */
  function ValidateInterval(i: Objects.Interval): (ok: bool)
    ensures ok <==> i.earliest >= 0 && i.latest >= 0
  {
    i.earliest >= 0 && i.latest >= 0
  }

  /**
   * `validate_location`. Its second range check tests the latitude against
   * [-180, 180] where the longitude was meant, so the longitude is never examined.
   */
  function ValidateLocation(l: Objects.Location): (ok: bool)
    ensures ok <==> -90.0 <= l.latitude <= 90.0 && l.radius > 0.0 && (l.unit == "km" || l.unit == "mi")
  {
    && -90.0 <= l.latitude <= 90.0
    && -180.0 <= l.latitude <= 180.0
    && l.radius > 0.0
    && l.unit in Objects.Units
  }

  /** The media check of `validate_query`: it asserts a list of `True`s, which always holds. */
  predicate MediaAsserted(media: seq<string>)
  {
    forall i :: 0 <= i < |media| ==> (media[i] in Objects.QueryMedia ==> true)
  }

  /** `validate_query`: a non-negative quantity and valid parts where present; media are not examined. */
  function ValidateQuery(q: Objects.Query): (ok: bool)
    ensures ok <==>
      && q.quantity >= 0
      && (q.location.Some? ==> ValidateLocation(q.location.value))
      && (q.interval.Some? ==> ValidateInterval(q.interval.value))
  {
    && MediaAsserted(q.media)
    && q.quantity >= 0
    && (q.location.Some? ==> ValidateLocation(q.location.value))
    && (q.interval.Some? ==> ValidateInterval(q.interval.value))
  }

  /** The longitude plays no part in `validate_location`. */
  lemma LongitudeUnchecked(l: Objects.Location, longitude: real)
    ensures ValidateLocation(l.(longitude := longitude)) == ValidateLocation(l)
  {
  }

  /** The media play no part in `validate_query`. */
  lemma MediaUnchecked(q: Objects.Query, media: seq<string>)
    ensures ValidateQuery(q.(media := media)) == ValidateQuery(q)
  {
  }

  /** The record validators of the value objects are stricter than these. */
  lemma ObjectsValidatorsStricter(i: Objects.Interval, l: Objects.Location, q: Objects.Query)
    ensures Objects.ValidateInterval(i) ==> ValidateInterval(i)
    ensures Objects.ValidateLocation(l) ==> ValidateLocation(l)
    ensures Objects.ValidateQuery(q) ==> ValidateQuery(q)
  {
  }

  /** ... and strictly so: a reversed interval, an out-of-range longitude and an unknown medium pass here. */
  lemma ObjectsValidatorsStrictlyStricter()
    ensures ValidateInterval(Objects.Interval(5, 1)) && !Objects.ValidateInterval(Objects.Interval(5, 1))
    ensures var l := Objects.Location(0.0, 500.0, 1.0, "km");
      ValidateLocation(l) && !Objects.ValidateLocation(l)
    ensures var q := Objects.Query(["smell"], "", 1, None, None);
      ValidateQuery(q) && !Objects.ValidateQuery(q)
  {
    var q := Objects.Query(["smell"], "", 1, None, None);
    assert q.media[0] !in Objects.QueryMedia;
  }

  /** One element of a caller's location or interval tuple. */
  datatype Field = Num(n: real) | Str(s: string)

  /** `float(f)`; `None` where Python raises ValueError (numeric strings are not parsed). */
  function AsReal(f: Field): Option<real>
  {
    match f
    case Num(n) => Some(n)
    case Str(_) => None
  }

  /** The keyword arguments of `validate` and `sanitize`. */
  datatype Params = Params(
    media: Option<seq<string>>,
    keyword: string,
    quantity: int,
    location: Option<seq<Field>>,
    interval: Option<seq<Field>>)

  /** Why `validate` rejects its parameters: the ValueError it raises, or the Python error of a mistyped field. */
  datatype Rejection =
    | BadMedium
    | NegativeQuantity
    | LocationArity
    | BadLatitude
    | BadLongitude
    | NegativeRadius
    | BadUnit
    | IntervalArity
    | NegativeEarliest
    | NegativeLatest
    | NotANumber  // float() of a string
    | NotAString  // .lower() of a number

  datatype Verdict = Accepted | Rejected(reason: Rejection)

  /** A medium `validate` accepts, in any letter case. */
  predicate KnownMedium(m: string)
  {
    Text.Lower(m) in Objects.QueryMedia
  }

  function MediaVerdict(media: seq<string>): (v: Verdict)
    ensures v.Accepted? || v == Rejected(BadMedium)
    ensures v.Accepted? <==> forall i :: 0 <= i < |media| ==> KnownMedium(media[i])
  {
    if |media| == 0 then Accepted
    else if !KnownMedium(media[0]) then Rejected(BadMedium)
    else MediaVerdict(media[1..])
  }

  /** A location tuple: four fields checked in order, the first failure reported. */
  function LocationVerdict(loc: seq<Field>): (v: Verdict)
    ensures v.Accepted? <==>
      && |loc| == 4
      && loc[0].Num? && -90.0 <= loc[0].n <= 90.0
      && loc[1].Num? && -180.0 <= loc[1].n <= 180.0
      && loc[2].Num? && loc[2].n >= 0.0
      && loc[3].Str? && Text.Lower(loc[3].s) in Objects.Units
    ensures v == Rejected(LocationArity) <==> |loc| != 4
  {
    if |loc| != 4 then Rejected(LocationArity)
    else match AsReal(loc[0])
      case None => Rejected(NotANumber)
      case Some(latitude) =>
        if latitude < -90.0 || latitude > 90.0 then Rejected(BadLatitude)
        else match AsReal(loc[1])
          case None => Rejected(NotANumber)
          case Some(longitude) =>
            if longitude < -180.0 || longitude > 180.0 then Rejected(BadLongitude)
            else match AsReal(loc[2])
              case None => Rejected(NotANumber)
              case Some(radius) =>
                if radius < 0.0 then Rejected(NegativeRadius)
                else if !loc[3].Str? then Rejected(NotAString)
                else if Text.Lower(loc[3].s) !in Objects.Units then Rejected(BadUnit)
                else Accepted
  }

  /** An interval tuple: two non-negative numbers, in either order. */
  function IntervalVerdict(interval: seq<Field>): (v: Verdict)
    ensures v.Accepted? <==>
      |interval| == 2 && interval[0].Num? && interval[0].n >= 0.0 && interval[1].Num? && interval[1].n >= 0.0
    ensures v == Rejected(IntervalArity) <==> |interval| != 2
  {
    if |interval| != 2 then Rejected(IntervalArity)
    else match AsReal(interval[0])
      case None => Rejected(NotANumber)
      case Some(since) =>
        if since < 0.0 then Rejected(NegativeEarliest)
        else match AsReal(interval[1])
          case None => Rejected(NotANumber)
          case Some(until) =>
            if until < 0.0 then Rejected(NegativeLatest) else Accepted
  }

  /** `validate`: media, then quantity, then location, then interval; the first failure is reported. */
  function Validate(p: Params): (v: Verdict)
    ensures v.Accepted? <==>
      && (p.media.Some? ==> forall i :: 0 <= i < |p.media.value| ==> KnownMedium(p.media.value[i]))
      && p.quantity >= 0
      && (p.location.Some? ==> LocationVerdict(p.location.value).Accepted?)
      && (p.interval.Some? ==> IntervalVerdict(p.interval.value).Accepted?)
    ensures p.media.Some? && MediaVerdict(p.media.value).Rejected? ==> v == Rejected(BadMedium)
    ensures v == Rejected(NegativeQuantity) <==> (p.media.None? || MediaVerdict(p.media.value).Accepted?) && p.quantity < 0
  {
    var media := if p.media.Some? then MediaVerdict(p.media.value) else Accepted;
    if media.Rejected? then media
    else if p.quantity < 0 then Rejected(NegativeQuantity)
    else
      var location := if p.location.Some? then LocationVerdict(p.location.value) else Accepted;
      if location.Rejected? then location
      else if p.interval.Some? then IntervalVerdict(p.interval.value)
      else Accepted
  }

  /** The position of the first occurrence of `x` in `xs`. */
  function FirstIndex(xs: seq<string>, x: string): (k: nat)
    requires x in xs
    ensures k < |xs| && xs[k] == x
    ensures forall j :: 0 <= j < k ==> xs[j] != x
  {
    if xs[0] == x then 0 else 1 + FirstIndex(xs[1..], x)
  }

  /** `xs` with every repeated element dropped, as the append-if-absent loop of `sanitize` does. */
  function Unique(xs: seq<string>): (r: seq<string>)
    ensures Distinct(r)
    ensures forall x :: x in r <==> x in xs
  {
    if |xs| == 0 then []
    else
      var d := Unique(xs[..|xs| - 1]);
      var last := xs[|xs| - 1];
      assert forall x :: x in xs <==> x in xs[..|xs| - 1] || x == last by {
        assert xs == xs[..|xs| - 1] + [last];
      }
      if last in d then d else d + [last]
  }

  lemma FirstIndexExtend(xs: seq<string>, y: string, x: string)
    requires x in xs
    ensures FirstIndex(xs + [y], x) == FirstIndex(xs, x)
  {
    var a := FirstIndex(xs + [y], x);
    var b := FirstIndex(xs, x);
    assert (xs + [y])[b] == x;
    assert a <= b;
    assert xs[a] == x;
  }

  lemma FirstIndexNew(xs: seq<string>, y: string)
    requires y !in xs
    ensures FirstIndex(xs + [y], y) == |xs|
  {
    assert forall j :: 0 <= j < |xs| ==> (xs + [y])[j] == xs[j];
  }

  /** `Unique` keeps every element at the place of its first occurrence. */
  lemma {:induction false} UniqueKeepsFirstOccurrenceOrder(xs: seq<string>)
    ensures forall i, j :: 0 <= i < j < |Unique(xs)| ==> FirstIndex(xs, Unique(xs)[i]) < FirstIndex(xs, Unique(xs)[j])
  {
    if |xs| > 0 {
      var init := xs[..|xs| - 1];
      var last := xs[|xs| - 1];
      assert xs == init + [last];
      var d := Unique(init);
      UniqueKeepsFirstOccurrenceOrder(init);
      forall x | x in d
        ensures FirstIndex(xs, x) == FirstIndex(init, x)
      {
        FirstIndexExtend(init, last, x);
      }
      if last !in d {
        FirstIndexNew(init, last);
        assert Unique(xs) == d + [last];
        forall i, j | 0 <= i < j < |Unique(xs)|
          ensures FirstIndex(xs, Unique(xs)[i]) < FirstIndex(xs, Unique(xs)[j])
        {
          assert Unique(xs)[i] == d[i];
          if j < |d| {
            assert Unique(xs)[j] == d[j];
          }
        }
      }
    }
  }

  /** A duplicate-free sequence is its own `Unique`. */
  lemma {:induction false} UniqueOfDistinct(xs: seq<string>)
    requires Distinct(xs)
    ensures Unique(xs) == xs
  {
    if |xs| > 0 {
      var init := xs[..|xs| - 1];
      UniqueOfDistinct(init);
      assert xs == init + [xs[|xs| - 1]];
    }
  }

  function LowerAll(media: seq<string>): (r: seq<string>)
    ensures |r| == |media| && forall i :: 0 <= i < |media| ==> r[i] == Text.Lower(media[i])
  {
    seq(|media|, i requires 0 <= i < |media| => Text.Lower(media[i]))
  }

  /** The media `sanitize` returns: lowercased, duplicates dropped, in first-occurrence order. */
  function CleanMedia(media: seq<string>): (r: seq<string>)
    ensures Distinct(r)
    ensures forall m :: m in r <==> exists i :: 0 <= i < |media| && Text.Lower(media[i]) == m
    ensures forall m :: m in r ==> Text.Lower(m) == m
    ensures forall i, j :: 0 <= i < j < |r| ==>
      r[i] in LowerAll(media) && r[j] in LowerAll(media) &&
      FirstIndex(LowerAll(media), r[i]) < FirstIndex(LowerAll(media), r[j])
  {
    var lowered := LowerAll(media);
    UniqueKeepsFirstOccurrenceOrder(lowered);
    assert forall m :: m in lowered <==> exists i :: 0 <= i < |media| && Text.Lower(media[i]) == m by {
      forall m | m in lowered ensures exists i :: 0 <= i < |media| && Text.Lower(media[i]) == m {
        var i :| 0 <= i < |lowered| && lowered[i] == m;
      }
    }
    forall m | m in lowered ensures Text.Lower(m) == m {
      var i :| 0 <= i < |lowered| && lowered[i] == m;
      Text.LowerIdempotent(media[i]);
    }
    Unique(lowered)
  }

  /** What `sanitize` returns: media, keyword, quantity, location, interval. */
  datatype Clean = Clean(
    media: seq<string>,
    keyword: string,
    quantity: int,
    location: Option<Objects.Location>,
    interval: Option<(real, real)>)

  /** `sanitize`: validate, then lowercase and deduplicate media, lowercase the unit and order the interval. */
  function Sanitize(p: Params): (r: Result<Clean, Rejection>)
    ensures r.Err? <==> Validate(p).Rejected?
    ensures r.Err? ==> r.error == Validate(p).reason
    ensures r.Ok? ==> r.value.keyword == p.keyword && r.value.quantity == p.quantity
    ensures r.Ok? ==> r.value.media == if p.media.Some? then CleanMedia(p.media.value) else []
    ensures r.Ok? ==> (r.value.location.Some? <==> p.location.Some?)
    ensures r.Ok? && p.location.Some? ==>
      var loc := p.location.value;
      r.value.location == Some(Objects.Location(loc[0].n, loc[1].n, loc[2].n, Text.Lower(loc[3].s)))
    ensures r.Ok? ==> (r.value.interval.Some? <==> p.interval.Some?)
    ensures r.Ok? && p.interval.Some? ==>
      var (since, until) := r.value.interval.value;
      since <= until && multiset{since, until} == multiset{p.interval.value[0].n, p.interval.value[1].n}
  {
    match Validate(p)
    case Rejected(reason) => Err(reason)
    case Accepted =>
      var location :=
        if p.location.None? then None
        else
          var loc := p.location.value;
          Some(Objects.Location(loc[0].n, loc[1].n, loc[2].n, Text.Lower(loc[3].s)));
      var interval :=
        if p.interval.None? then None
        else
          var since, until := p.interval.value[0].n, p.interval.value[1].n;
          Some(if since > until then (until, since) else (since, until));
      Ok(Clean(
        if p.media.Some? then CleanMedia(p.media.value) else [],
        p.keyword,
        p.quantity,
        location,
        interval))
  }

  /** The parameters that pass a sanitised result back in. */
  function Resubmit(c: Clean): Params
  {
    Params(
      Some(c.media),
      c.keyword,
      c.quantity,
      match c.location
      case None => None
      case Some(l) => Some([Num(l.latitude), Num(l.longitude), Num(l.radius), Str(l.unit)]),
      match c.interval
      case None => None
      case Some(i) => Some([Num(i.0), Num(i.1)]))
  }

  /** What `sanitize` returns, `validate` accepts. */
  lemma SanitizedRevalidates(p: Params)
    requires Sanitize(p).Ok?
    ensures Validate(Resubmit(Sanitize(p).value)) == Accepted
  {
    var c := Sanitize(p).value;
    forall i | 0 <= i < |c.media| ensures KnownMedium(c.media[i]) {
      assert c.media[i] in c.media;
    }
    if p.location.Some? {
      Text.LowerIdempotent(p.location.value[3].s);
    }
  }

  /** Media that are already lowercase and duplicate-free are clean. */
  lemma CleanMediaOfClean(media: seq<string>)
    requires Distinct(media)
    requires forall m :: m in media ==> Text.Lower(m) == m
    ensures CleanMedia(media) == media
  {
    var lowered := LowerAll(media);
    assert lowered == media by {
      forall i | 0 <= i < |media| ensures lowered[i] == media[i] {
        assert media[i] in media;
      }
    }
    UniqueOfDistinct(media);
  }

  /** Sanitising a sanitised result changes nothing. */
  lemma SanitizeIdempotent(p: Params)
    requires Sanitize(p).Ok?
    ensures Sanitize(Resubmit(Sanitize(p).value)) == Sanitize(p)
  {
    var c := Sanitize(p).value;
    SanitizedRevalidates(p);
    CleanMediaOfClean(c.media);
    if p.location.Some? {
      Text.LowerIdempotent(p.location.value[3].s);
    }
  }

  /** `validate` admits a zero radius, which `validate_location` of either module refuses. */
  lemma ZeroRadiusAdmitted()
    ensures Validate(Params(None, "", 15, Some([Num(0.0), Num(0.0), Num(0.0), Str("KM")]), None)) == Accepted
    ensures !ValidateLocation(Objects.Location(0.0, 0.0, 0.0, "km"))
    ensures !Objects.ValidateLocation(Objects.Location(0.0, 0.0, 0.0, "km"))
  {
    assert Text.Lower("KM") == "km";
  }
}
