/** The request path of `api/lookup.js`: each chamber's dataset is loaded
    with its bounding box once (lines 75-76); a request with a finite
    latitude and longitude is answered per chamber by the box test and then
    the feature scan (lines 112-134), and the two numbers go out as JSON
    (line 156). */
module Lookup {
  import opened Wrappers
  import opened JsNumber
  import opened Locator

  /** One chamber's GeoJSON document and the box computed for it at load. */
  datatype Dataset = Dataset(geo: Option<Collection>, box: Option<Bbox>)

  /** What a request gets back: a bad request, or the two district numbers as
      they appear in the JSON body (`None` for `null`). */
  datatype Response = BadRequest | Districts(house: Option<real>, senate: Option<real>)

  /** Loading a dataset: the document and its box, computed once. `computed`
      is the box Turf would compute for the document (`None` if it throws). */
  function LoadDataset(geo: Option<Collection>, computed: Option<Bbox>): (ds: Dataset)
    ensures ds.geo == geo
    ensures ds.box.None? ==> computed.None?
  {
    Dataset(geo, CollectionBbox(geo, computed))
  }

  /** One chamber's answer: `None` without a scan when the point fails the
      box test, otherwise the scan's answer. */
  function Locate(ds: Dataset, chamber: string, p: Position,
                  contains: (Feature, Position) -> Containment): (r: Option<JsNumber>)
    ensures !PointInBbox(p, ds.box) ==> r == None
    ensures PointInBbox(p, ds.box) ==> r == FindDistrict(ds.geo, chamber, p, contains)
  {
    if PointInBbox(p, ds.box) then FindDistrict(ds.geo, chamber, p, contains) else None
  }

  /** `JSON.stringify` of a district number: infinities (and NaN) become
      `null`. */
  function JsonNumber(n: Option<JsNumber>): (r: Option<real>)
    ensures r.Some? <==> n.Some? && n.value.Finite?
    ensures r.Some? ==> n.value.value == r.value
  {
    match n
    case Some(Finite(v)) => Some(v)
    case _ => None
  }

  /** The handler, given the already parsed latitude and longitude: a bad
      request unless both are finite; otherwise the house answer from the
      house dataset and the senate answer from the senate dataset, for the
      point `[lng, lat]`. */
  function Handle(latitude: Number, longitude: Number, house: Dataset, senate: Dataset,
                  contains: (Feature, Position) -> Containment): (r: Response)
    ensures r.BadRequest? <==> !latitude.Finite? || !longitude.Finite?
  {
    if !latitude.Finite? || !longitude.Finite? then BadRequest
    else
      var p := Position(longitude.value, latitude.value);
      Districts(JsonNumber(Locate(house, "house", p, contains)),
                JsonNumber(Locate(senate, "senate", p, contains)))
  }

  /** A point that fails a chamber's box test gets `null` for that chamber
      without any feature being looked at: the answer is the same whatever
      the document holds and whatever the containment test says. */
  lemma OutsideBoxIsNull(ds: Dataset, chamber: string, p: Position,
                         contains: (Feature, Position) -> Containment,
                         geo: Option<Collection>, other: (Feature, Position) -> Containment)
    requires !PointInBbox(p, ds.box)
    ensures Locate(ds, chamber, p, contains) == Locate(ds.(geo := geo), chamber, p, other) == None
  {
  }

  /** The two chambers are answered independently: the house number depends
      only on the house dataset and the senate number only on the senate
      dataset. */
  lemma ChambersIndependent(latitude: Number, longitude: Number, house: Dataset, senate: Dataset,
                            house': Dataset, senate': Dataset, contains: (Feature, Position) -> Containment)
    requires latitude.Finite? && longitude.Finite?
    ensures Handle(latitude, longitude, house, senate, contains).house
            == Handle(latitude, longitude, house, senate', contains).house
    ensures Handle(latitude, longitude, house, senate, contains).senate
            == Handle(latitude, longitude, house', senate, contains).senate
  {
  }

  /** A box that holds every point any feature of the document contains. */
  ghost predicate BoxCovers(ds: Dataset, contains: (Feature, Position) -> Containment) {
    Scannable(ds.geo) &&
    forall q: Position, i :: 0 <= i < |ds.geo.value.features.value| && Hit(ds.geo.value.features.value[i], q, contains)
      ==> PointInBbox(q, ds.box)
  }

  /** The box test is only a shortcut: when the box covers every feature the
      point can be found in, gating the scan by it changes no answer. */
  lemma CoveringBoxIsShortcut(ds: Dataset, chamber: string, p: Position,
                              contains: (Feature, Position) -> Containment)
    requires BoxCovers(ds, contains)
    ensures Locate(ds, chamber, p, contains) == FindDistrict(ds.geo, chamber, p, contains)
  {
    if !PointInBbox(p, ds.box) {
      NoMatchIsNull(ds.geo, chamber, p, contains);
    }
  }

  /** The body carries the JSON value of each chamber's answer: a finite
      district number as itself, and `null` both for no district and for an
      infinite one, which a label with a long enough digit run produces. */
  lemma ResponseIsFiniteOrNull(latitude: Number, longitude: Number, house: Dataset, senate: Dataset,
                               contains: (Feature, Position) -> Containment)
    requires latitude.Finite? && longitude.Finite?
    ensures var r := Handle(latitude, longitude, house, senate, contains);
            var p := Position(longitude.value, latitude.value);
            r.Districts?
            && (r.house.Some? <==> Locate(house, "house", p, contains).Some? && Locate(house, "house", p, contains).value.Finite?)
            && (r.senate.Some? <==> Locate(senate, "senate", p, contains).Some? && Locate(senate, "senate", p, contains).value.Finite?)
            && (r.house.Some? ==> InRange(r.house.value))
            && (r.senate.Some? ==> InRange(r.senate.value))
  {
  }
}
