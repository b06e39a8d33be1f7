/** The spatial part of `api/lookup.js`: a collection's bounding box
    (`getCollectionBbox`, lines 65-73), the quick box test (`pointInBbox`,
    lines 78-82) and the scan for the feature containing a point
    (`findDistrict`, lines 84-108). Point-in-polygon and the computed bounding
    box come from the Turf library, which is not part of this model: they enter
    as an oracle parameter and an oracle value. */
module Locator {
  import opened Wrappers
  import opened JsNumber
  import opened Resolver

  /** A GeoJSON position `[lng, lat]`; the handler only builds finite ones. */
  datatype Position = Position(lng: real, lat: real)

  /** A geometry: its `type` member and its coordinate rings. */
  datatype Geometry = Geometry(kind: string, rings: seq<seq<Position>>)

  /** A feature: its `type`, its `geometry` (`None` for a falsy one) and its
      `properties` (`None` for a falsy one). */
  datatype Feature = Feature(kind: string, geometry: Option<Geometry>, properties: Option<Attributes>)

  /** A parsed GeoJSON document: its `type`, its `features` (`None` when that
      member is not an array; `None` entries are falsy array elements) and its
      `bbox` (`None` when that member is not an array). */
  datatype Collection = Collection(kind: string, features: Option<seq<Option<Feature>>>, bbox: Option<seq<Number>>)

  /** A box `[minX, minY, maxX, maxY]`. Its corners are JavaScript numbers:
      Turf's box of a collection without coordinates has infinite corners. */
  datatype Bbox = Bbox(minX: Number, minY: Number, maxX: Number, maxY: Number)

  /** What `turf.booleanPointInPolygon` does for one feature and one point. */
  datatype Containment = Inside | Outside | Throws

  /** The box a dataset is gated by: an embedded four-entry `bbox` member wins;
      otherwise the box Turf computes, passed in as `computed` (`None` when
      Turf throws). */
  function CollectionBbox(fc: Option<Collection>, computed: Option<Bbox>): (r: Option<Bbox>)
    ensures fc.Some? && fc.value.bbox.Some? && |fc.value.bbox.value| == 4 ==>
              var b := fc.value.bbox.value; r == Some(Bbox(b[0], b[1], b[2], b[3]))
    ensures r != computed ==> fc.Some? && fc.value.bbox.Some? && |fc.value.bbox.value| == 4
  {
    if fc.Some? && fc.value.bbox.Some? && |fc.value.bbox.value| == 4 then
      var b := fc.value.bbox.value;
      Some(Bbox(b[0], b[1], b[2], b[3]))
    else
      computed
  }

  /** `x >= b` with JavaScript's comparison: false against NaN. */
  predicate AtLeast(x: real, b: Number) {
    match b
    case Finite(v) => x >= v
    case NaN => false
    case Infinity(negative) => negative
  }

  /** `x <= b` with JavaScript's comparison: false against NaN. */
  predicate AtMost(x: real, b: Number) {
    match b
    case Finite(v) => x <= v
    case NaN => false
    case Infinity(negative) => !negative
  }

  /** The quick box test: a missing box lets every point through; otherwise
      the point must lie within the box, edges included. */
  function PointInBbox(p: Position, box: Option<Bbox>): (r: bool)
    ensures box.None? ==> r
    ensures box.Some? && box.value.minX.Finite? && box.value.minY.Finite?
            && box.value.maxX.Finite? && box.value.maxY.Finite? ==>
              (r <==> box.value.minX.value <= p.lng <= box.value.maxX.value
                      && box.value.minY.value <= p.lat <= box.value.maxY.value)
    ensures box.Some? && NaN in {box.value.minX, box.value.minY, box.value.maxX, box.value.maxY} ==> !r
  {
    match box
    case None => true
    case Some(b) => AtLeast(p.lng, b.minX) && AtMost(p.lng, b.maxX) && AtLeast(p.lat, b.minY) && AtMost(p.lat, b.maxY)
  }

  /** A collection `findDistrict` will scan at all. */
  predicate Scannable(fc: Option<Collection>) {
    fc.Some? && fc.value.kind == "FeatureCollection" && fc.value.features.Some?
  }

  /** A feature the scan tests for containment: a non-null `Feature` whose
      geometry is present and a `Polygon` or a `MultiPolygon`. */
  predicate Eligible(f: Option<Feature>) {
    f.Some? && f.value.kind == "Feature" && f.value.geometry.Some?
    && (f.value.geometry.value.kind == "Polygon" || f.value.geometry.value.kind == "MultiPolygon")
  }

  /** A feature the scan stops at: eligible, and Turf says the point is inside
      it (a throw counts as outside). */
  predicate Hit(f: Option<Feature>, p: Position, contains: (Feature, Position) -> Containment) {
    Eligible(f) && contains(f.value, p) == Inside
  }

  /** The index the scan stops at: the first hit, `|fs|` when there is none. */
  function FirstHit(fs: seq<Option<Feature>>, p: Position, contains: (Feature, Position) -> Containment): (k: nat)
    ensures k <= |fs|
    ensures forall j :: 0 <= j < k ==> !Hit(fs[j], p, contains)
    ensures k < |fs| ==> Hit(fs[k], p, contains)
  {
    if fs == [] then 0
    else if Hit(fs[0], p, contains) then 0
    else 1 + FirstHit(fs[1..], p, contains)
  }

  /** The first hit is the only index with no hit before it and a hit at it
      (or the end, when there is no hit). */
  lemma FirstHitUnique(fs: seq<Option<Feature>>, p: Position, contains: (Feature, Position) -> Containment, k: nat)
    requires k <= |fs|
    requires forall j :: 0 <= j < k ==> !Hit(fs[j], p, contains)
    requires k < |fs| ==> Hit(fs[k], p, contains)
    ensures FirstHit(fs, p, contains) == k
  {
  }

  /** `findDistrict`: `None` for anything but a feature collection with a
      features array; otherwise the district number of the first feature the
      point is inside, and `None` when there is none. */
  function FindDistrict(fc: Option<Collection>, chamber: string, p: Position,
                        contains: (Feature, Position) -> Containment): (r: Option<JsNumber>)
    ensures !Scannable(fc) ==> r == None
    ensures r.Some? ==> exists i :: 0 <= i < |fc.value.features.value| && Hit(fc.value.features.value[i], p, contains)
  {
    if !Scannable(fc) then None
    else
      var fs := fc.value.features.value;
      var k := FirstHit(fs, p, contains);
      if k < |fs| then ExtractDistrictNumber(fs[k].value.properties, chamber) else None
  }

  /** The first feature containing the point decides the answer, even when
      its attributes yield no number: the scan does not go on to a later
      feature that also contains the point. */
  lemma FirstMatchDecides(fc: Option<Collection>, chamber: string, p: Position,
                          contains: (Feature, Position) -> Containment, i: nat)
    requires Scannable(fc) && i < |fc.value.features.value|
    requires Hit(fc.value.features.value[i], p, contains)
    requires forall j :: 0 <= j < i ==> !Hit(fc.value.features.value[j], p, contains)
    ensures FindDistrict(fc, chamber, p, contains)
            == ExtractDistrictNumber(fc.value.features.value[i].value.properties, chamber)
  {
    FirstHitUnique(fc.value.features.value, p, contains, i);
  }

  /** When no feature contains the point, the answer is `None`. */
  lemma NoMatchIsNull(fc: Option<Collection>, chamber: string, p: Position,
                      contains: (Feature, Position) -> Containment)
    requires Scannable(fc)
    requires forall j :: 0 <= j < |fc.value.features.value| ==> !Hit(fc.value.features.value[j], p, contains)
    ensures FindDistrict(fc, chamber, p, contains) == None
  {
    FirstHitUnique(fc.value.features.value, p, contains, |fc.value.features.value|);
  }

  /** A containment test that throws is treated exactly like one that says
      "outside". */
  lemma ThrowIsOutside(fc: Option<Collection>, chamber: string, p: Position,
                       contains: (Feature, Position) -> Containment)
    ensures var settled := (f: Feature, q: Position) => if contains(f, q) == Throws then Outside else contains(f, q);
            FindDistrict(fc, chamber, p, contains) == FindDistrict(fc, chamber, p, settled)
  {
    var settled := (f: Feature, q: Position) => if contains(f, q) == Throws then Outside else contains(f, q);
    if Scannable(fc) {
      var fs := fc.value.features.value;
      forall j | 0 <= j < |fs| ensures Hit(fs[j], p, contains) == Hit(fs[j], p, settled) { }
      var k := FirstHit(fs, p, contains);
      FirstHitUnique(fs, p, settled, k);
    }
  }

  /** A feature the point is not in, whatever the reason (null, not a
      `Feature`, no polygonal geometry, outside, or a throwing test), can be
      inserted anywhere in the features array without changing the answer. */
  lemma NonHitSkipped(c: Collection, chamber: string, p: Position,
                      contains: (Feature, Position) -> Containment, i: nat, g: Option<Feature>)
    requires Scannable(Some(c)) && i <= |c.features.value|
    requires !Hit(g, p, contains)
    ensures var fs := c.features.value;
            FindDistrict(Some(c.(features := Some(fs[..i] + [g] + fs[i..]))), chamber, p, contains)
            == FindDistrict(Some(c), chamber, p, contains)
  {
    var fs := c.features.value;
    var gs := fs[..i] + [g] + fs[i..];
    var k := FirstHit(fs, p, contains);
    var k' := if k < i then k else k + 1;
    forall j | 0 <= j < k' ensures !Hit(gs[j], p, contains) {
      if j < i { assert gs[j] == fs[j]; }
      else if j > i { assert gs[j] == fs[j - 1]; }
    }
    if k' < |gs| {
      assert gs[k'] == fs[k];
    }
    FirstHitUnique(gs, p, contains, k');
  }

  /** Features that are not polygonal are skipped before the containment
      test: the oracle's answer for them does not matter. */
  lemma IneligibleNeverHit(f: Option<Feature>, p: Position, contains: (Feature, Position) -> Containment)
    requires f.Some? && f.value.geometry.Some?
    requires f.value.geometry.value.kind != "Polygon" && f.value.geometry.value.kind != "MultiPolygon"
    ensures !Hit(f, p, contains)
  {
  }

  /** Turf's box of a collection without coordinates has corners
      `[Infinity, Infinity, -Infinity, -Infinity]`; it rejects every point. */
  lemma EmptyBoxRejects(p: Position)
    ensures !PointInBbox(p, Some(Bbox(Infinity(false), Infinity(false), Infinity(true), Infinity(true))))
  {
  }

  /** A box with finite corners, minimum at most maximum, admits its corners
      and rejects a point just past its eastern edge. */
  lemma BoxIsInclusive(minX: real, minY: real, maxX: real, maxY: real)
    requires minX <= maxX && minY <= maxY
    ensures var box := Some(Bbox(Finite(minX), Finite(minY), Finite(maxX), Finite(maxY)));
            PointInBbox(Position(minX, minY), box) && PointInBbox(Position(maxX, maxY), box)
            && PointInBbox(Position(minX, maxY), box) && PointInBbox(Position(maxX, minY), box)
            && !PointInBbox(Position(maxX + 1.0, minY), box)
  {
  }
}
