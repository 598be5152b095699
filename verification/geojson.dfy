/** The GeoJSON front end (include/quavis/vk/geometry/geojson.hpp): walks a
    parsed JSON document and collects the triangle corners of every Polygon
    and MultiPolygon it reaches through Features and FeatureCollections
    (sections 3.1.6, 3.1.7, 3.2 and 3.3 of RFC 7946).

    The JSON value models the parts of the library's value type the walk
    observes: `count("type")` is true only for objects holding the key,
    indexing an object by a missing key yields null, range-for over an
    array visits its elements, over an object its member values, over null
    nothing and over any other value that value once. Converting a position
    to `vec3` reads its first three components as numbers and throws
    otherwise, which the model returns as an error.

    The polygon triangulator (`triangulation::triangulate`) is not part of
    this model and is passed in as a function. */
module GeoJson {
  import opened Wrappers
  import opened Space

  datatype Json =
    | JNull
    | JNum(n: real)
    | JStr(s: string)
    | JArr(elems: seq<Json>)
    | JObj(members: seq<Member>)

  /** An object member. The model keeps the members in their stored order. */
  datatype Member = Member(key: string, value: Json)

  /** A position that cannot be converted to `vec3`. */
  datatype JsonError = NotAPosition(p: Json)

  /** Structural size, used to bound the recursion of the walk. */
  function Size(j: Json): nat
  {
    match j
    case JArr(es) => 1 + SizeAll(es)
    case JObj(ms) => 1 + SizeMembers(ms)
    case _ => 1
  }

  function SizeAll(es: seq<Json>): nat
  {
    if es == [] then 0 else Size(es[0]) + SizeAll(es[1..])
  }

  function SizeMembers(ms: seq<Member>): nat
  {
    if ms == [] then 0 else Size(ms[0].value) + SizeMembers(ms[1..])
  }

  /** The value stored under `key`, if any. */
  function Lookup(ms: seq<Member>, key: string): (r: Option<Json>)
    ensures r.Some? <==> exists k :: 0 <= k < |ms| && ms[k].key == key
    ensures r.Some? ==> exists k :: 0 <= k < |ms| && ms[k].key == key && ms[k].value == r.value
  {
    if ms == [] then None
    else if ms[0].key == key then Some(ms[0].value)
    else Lookup(ms[1..], key)
  }

  /** `js.count(key) > 0`. */
  predicate Has(j: Json, key: string)
  {
    j.JObj? && Lookup(j.members, key).Some?
  }

  /** `js[key]` on an object: the stored value or null. */
  function Get(j: Json, key: string): (r: Json)
    requires j.JObj?
    ensures Has(j, key) || r == JNull
    ensures Has(j, key) ==> exists k :: 0 <= k < |j.members| && j.members[k].key == key && j.members[k].value == r
  {
    match Lookup(j.members, key)
    case Some(v) => v
    case None => JNull
  }

  function Values(ms: seq<Member>): (r: seq<Json>)
    ensures |r| == |ms|
    ensures forall k :: 0 <= k < |ms| ==> r[k] == ms[k].value
  {
    seq(|ms|, k requires 0 <= k < |ms| => ms[k].value)
  }

  /** The values a range-for over `j` visits. */
  function Iter(j: Json): (r: seq<Json>)
    ensures j.JNull? ==> r == []
    ensures j.JArr? ==> r == j.elems
    ensures j.JObj? ==> |r| == |j.members| && forall k :: 0 <= k < |r| ==> r[k] == j.members[k].value
    ensures !j.JNull? && !j.JArr? && !j.JObj? ==> r == [j]
  {
    match j
    case JNull => []
    case JArr(es) => es
    case JObj(ms) => Values(ms)
    case _ => [j]
  }

  /** `{point[0], point[1], point[2]}`: succeeds exactly on an array whose
      first three components are numbers; further components are ignored. */
  function Position(p: Json): (r: Result<Vec3, JsonError>)
    ensures r.Ok? <==> p.JArr? && |p.elems| >= 3 && p.elems[0].JNum? && p.elems[1].JNum? && p.elems[2].JNum?
    ensures r.Ok? ==> r.value == Vec3(p.elems[0].n, p.elems[1].n, p.elems[2].n)
  {
    match p
    case JArr(es) =>
      if |es| >= 3 && es[0].JNum? && es[1].JNum? && es[2].JNum? then Ok(Vec3(es[0].n, es[1].n, es[2].n))
      else Err(NotAPosition(p))
    case _ => Err(NotAPosition(p))
  }

  /** Position of every point of a ring, in order; the first bad one fails. */
  function RingPoints(points: seq<Json>): (r: Result<seq<Vec3>, JsonError>)
    ensures r.Ok? <==> forall k :: 0 <= k < |points| ==> Position(points[k]).Ok?
    ensures r.Ok? ==> |r.value| == |points| && forall k :: 0 <= k < |points| ==> r.value[k] == Position(points[k]).value
  {
    if points == [] then Ok([])
    else
      var v :- Position(points[0]);
      var rest :- RingPoints(points[1..]);
      assert forall k :: 1 <= k < |points| ==> points[k] == points[1..][k - 1];
      Ok([v] + rest)
  }

  /** The points of every ring, one ring after another. */
  function AllPoints(rings: seq<Json>): (r: Result<seq<Vec3>, JsonError>)
    ensures r.Ok? <==> forall k :: 0 <= k < |rings| ==> RingPoints(Iter(rings[k])).Ok?
    ensures r.Ok? ==> |r.value| == CountPoints(rings)
  {
    if rings == [] then Ok([])
    else
      var first :- RingPoints(Iter(rings[0]));
      var rest :- AllPoints(rings[1..]);
      assert forall k :: 1 <= k < |rings| ==> rings[k] == rings[1..][k - 1];
      Ok(first + rest)
  }

  function CountPoints(rings: seq<Json>): nat
  {
    if rings == [] then 0 else |Iter(rings[0])| + CountPoints(rings[1..])
  }

  /** The rings' points are flattened in ring order: the rings of a
      concatenation give the concatenated points, and the first bad ring
      fails the whole. */
  lemma {:induction false} AllPointsConcatenates(a: seq<Json>, b: seq<Json>)
    ensures AllPoints(a + b) == Cat(AllPoints(a), AllPoints(b))
    decreases |a|
  {
    if a == [] {
      assert a + b == b;
      if AllPoints(b).Ok? {
        assert [] + AllPoints(b).value == AllPoints(b).value;
      }
    } else {
      assert (a + b)[0] == a[0];
      assert (a + b)[1..] == a[1..] + b;
      AllPointsConcatenates(a[1..], b);
      AllPointsUnfolds(a + b);
      AllPointsUnfolds(a);
      CatAssociative(RingPoints(Iter(a[0])), AllPoints(a[1..]), AllPoints(b));
    }
  }

  /** One step of AllPoints, in the terms of Cat. */
  lemma AllPointsUnfolds(rings: seq<Json>)
    requires rings != []
    ensures AllPoints(rings) == Cat(RingPoints(Iter(rings[0])), AllPoints(rings[1..]))
  {
  }

  /** A single ring contributes exactly its own positions. */
  lemma AllPointsSingle(ring: Json)
    ensures AllPoints([ring]) == RingPoints(Iter(ring))
  {
    assert [ring][1..] == [];
    match RingPoints(Iter(ring))
    case Ok(a) => assert a + [] == a;
    case Err(_) =>
  }

  /** `triangulate_polygon`: every ring's points, outer ring and holes
      alike, flattened in order and handed to the triangulator. */
  function TriangulatePolygon(coordinates: Json, tri: seq<Vec3> -> seq<Vec3>): (r: Result<seq<Vec3>, JsonError>)
    ensures r.Ok? <==> AllPoints(Iter(coordinates)).Ok?
    ensures r.Ok? ==> r.value == tri(AllPoints(Iter(coordinates)).value)
  {
    var points :- AllPoints(Iter(coordinates));
    Ok(tri(points))
  }

  /** `get_triangles`. */
  function Triangles(j: Json, tri: seq<Vec3> -> seq<Vec3>): (r: Result<seq<Vec3>, JsonError>)
    // an object without "type", and any non-object, yields nothing
    ensures !Has(j, "type") ==> r == Ok([])
    // a type this walk does not know yields nothing either
    ensures Has(j, "type") && Get(j, "type") !in KnownTypes ==> r == Ok([])
    decreases Size(j), 0
  {
    if !Has(j, "type") then Ok([])
    else
      var t := Get(j, "type");
      if t == JStr("FeatureCollection") then
        var features := Get(j, "features");
        GetIsSmaller(j, "features");
        IterIsSmaller(features);
        Collect(Iter(features), tri)
      else if t == JStr("Feature") then
        GetIsSmaller(j, "geometry");
        Triangles(Get(j, "geometry"), tri)
      else if t == JStr("MultiPolygon") then
        EachPolygon(Iter(Get(j, "coordinates")), tri)
      else if t == JStr("Polygon") then
        TriangulatePolygon(Get(j, "coordinates"), tri)
      else
        Ok([])
  }

  const KnownTypes: set<Json> :=
    {JStr("FeatureCollection"), JStr("Feature"), JStr("MultiPolygon"), JStr("Polygon")}

  /** Appending the triangles of a later part to those of an earlier one;
      the earlier failure is the one reported. */
  function Cat(a: Result<seq<Vec3>, JsonError>, b: Result<seq<Vec3>, JsonError>): Result<seq<Vec3>, JsonError>
  {
    if a.Err? then a else if b.Err? then b else Ok(a.value + b.value)
  }

  lemma CatAssociative(a: Result<seq<Vec3>, JsonError>, b: Result<seq<Vec3>, JsonError>, c: Result<seq<Vec3>, JsonError>)
    ensures Cat(Cat(a, b), c) == Cat(a, Cat(b, c))
  {
    if a.Ok? && b.Ok? && c.Ok? {
      assert (a.value + b.value) + c.value == a.value + (b.value + c.value);
    }
  }

  /** The features of a collection, their triangles concatenated in order. */
  function Collect(features: seq<Json>, tri: seq<Vec3> -> seq<Vec3>): (r: Result<seq<Vec3>, JsonError>)
    ensures features == [] ==> r == Ok([])
    decreases SizeAll(features), 1
  {
    if features == [] then Ok([])
    else Cat(Triangles(features[0], tri), Collect(features[1..], tri))
  }

  /** The polygons of a MultiPolygon, their triangles concatenated in order. */
  function EachPolygon(polygons: seq<Json>, tri: seq<Vec3> -> seq<Vec3>): (r: Result<seq<Vec3>, JsonError>)
    ensures r.Ok? <==> forall k :: 0 <= k < |polygons| ==> TriangulatePolygon(polygons[k], tri).Ok?
    ensures r.Ok? ==> |r.value| == SumLengths(polygons, tri)
  {
    if polygons == [] then Ok([])
    else
      var first :- TriangulatePolygon(polygons[0], tri);
      var rest :- EachPolygon(polygons[1..], tri);
      assert forall k :: 1 <= k < |polygons| ==> polygons[k] == polygons[1..][k - 1];
      Ok(first + rest)
  }

  function SumLengths(polygons: seq<Json>, tri: seq<Vec3> -> seq<Vec3>): nat
    requires forall k :: 0 <= k < |polygons| ==> TriangulatePolygon(polygons[k], tri).Ok?
  {
    if polygons == [] then 0
    else |TriangulatePolygon(polygons[0], tri).value| + SumLengths(polygons[1..], tri)
  }

  lemma {:induction false} SizeAllBound(es: seq<Json>, k: nat)
    requires k < |es|
    ensures Size(es[k]) <= SizeAll(es)
  {
    if k > 0 {
      SizeAllBound(es[1..], k - 1);
    }
  }

  lemma {:induction false} SizeMembersBound(ms: seq<Member>, k: nat)
    requires k < |ms|
    ensures Size(ms[k].value) <= SizeMembers(ms)
  {
    if k > 0 {
      SizeMembersBound(ms[1..], k - 1);
    }
  }

  lemma GetIsSmaller(j: Json, key: string)
    requires j.JObj? && |j.members| > 0
    ensures Size(Get(j, key)) < Size(j)
  {
    assert Size(j) == 1 + SizeMembers(j.members);
    if Has(j, key) {
      var k :| 0 <= k < |j.members| && j.members[k].key == key && j.members[k].value == Get(j, key);
      SizeMembersBound(j.members, k);
    } else {
      SizeMembersBound(j.members, 0);
    }
  }

  lemma {:induction false} SizeMembersIsSizeAll(ms: seq<Member>)
    ensures SizeAll(Values(ms)) == SizeMembers(ms)
  {
    if ms != [] {
      assert Values(ms)[1..] == Values(ms[1..]);
      SizeMembersIsSizeAll(ms[1..]);
    }
  }

  lemma IterIsSmaller(j: Json)
    ensures SizeAll(Iter(j)) <= Size(j)
  {
    match j
    case JObj(ms) => SizeMembersIsSizeAll(ms);
    case JArr(es) =>
    case JNull =>
    case _ => assert [j][1..] == [];
  }

  function Feature(geometry: Json): Json
  {
    JObj([Member("type", JStr("Feature")), Member("geometry", geometry)])
  }

  function FeatureCollection(features: seq<Json>): Json
  {
    JObj([Member("type", JStr("FeatureCollection")), Member("features", JArr(features))])
  }

  function Geometry(kind: string, coordinates: Json): Json
  {
    JObj([Member("type", JStr(kind)), Member("coordinates", coordinates)])
  }

  /** When the triangulator emits whole triangles, so does the walk: the
      result is a sequence of corner triples. */
  lemma {:induction false} TrianglesAreTriples(j: Json, tri: seq<Vec3> -> seq<Vec3>)
    requires forall points :: |tri(points)| % 3 == 0
    ensures Triangles(j, tri).Ok? ==> |Triangles(j, tri).value| % 3 == 0
    decreases Size(j), 0
  {
    if Has(j, "type") {
      var t := Get(j, "type");
      if t == JStr("FeatureCollection") {
        GetIsSmaller(j, "features");
        IterIsSmaller(Get(j, "features"));
        CollectAreTriples(Iter(Get(j, "features")), tri);
      } else if t == JStr("Feature") {
        GetIsSmaller(j, "geometry");
        TrianglesAreTriples(Get(j, "geometry"), tri);
      } else if t == JStr("MultiPolygon") {
        EachPolygonAreTriples(Iter(Get(j, "coordinates")), tri);
      }
    }
  }

  lemma {:induction false} CollectAreTriples(fs: seq<Json>, tri: seq<Vec3> -> seq<Vec3>)
    requires forall points :: |tri(points)| % 3 == 0
    ensures Collect(fs, tri).Ok? ==> |Collect(fs, tri).value| % 3 == 0
    decreases SizeAll(fs), 1
  {
    if fs != [] {
      TrianglesAreTriples(fs[0], tri);
      CollectAreTriples(fs[1..], tri);
      var a, b := Triangles(fs[0], tri), Collect(fs[1..], tri);
      if a.Ok? && b.Ok? {
        TriplesAppend(a.value, b.value);
      }
    }
  }

  lemma {:induction false} EachPolygonAreTriples(ps: seq<Json>, tri: seq<Vec3> -> seq<Vec3>)
    requires forall points :: |tri(points)| % 3 == 0
    ensures EachPolygon(ps, tri).Ok? ==> |EachPolygon(ps, tri).value| % 3 == 0
    decreases |ps|
  {
    if ps != [] {
      EachPolygonAreTriples(ps[1..], tri);
      var a, b := TriangulatePolygon(ps[0], tri), EachPolygon(ps[1..], tri);
      if a.Ok? && b.Ok? {
        TriplesAppend(a.value, b.value);
        assert EachPolygon(ps, tri) == Ok(a.value + b.value);
      }
    }
  }

  lemma TriplesAppend(a: seq<Vec3>, b: seq<Vec3>)
    requires |a| % 3 == 0 && |b| % 3 == 0
    ensures |a + b| % 3 == 0
  {
    assert |a + b| == 3 * (|a| / 3 + |b| / 3);
  }

  /** The dispatch of `get_triangles` on any object, whatever else it holds
      and in whatever order: a Feature is its geometry, a FeatureCollection
      its features, a Polygon and a MultiPolygon their coordinates; a missing
      member reads as null. */
  lemma Dispatch(j: Json, tri: seq<Vec3> -> seq<Vec3>)
    requires j.JObj?
    ensures Get(j, "type") == JStr("Feature") ==> Triangles(j, tri) == Triangles(Get(j, "geometry"), tri)
    ensures Get(j, "type") == JStr("FeatureCollection") ==> Triangles(j, tri) == Collect(Iter(Get(j, "features")), tri)
    ensures Get(j, "type") == JStr("MultiPolygon") ==> Triangles(j, tri) == EachPolygon(Iter(Get(j, "coordinates")), tri)
    ensures Get(j, "type") == JStr("Polygon") ==> Triangles(j, tri) == TriangulatePolygon(Get(j, "coordinates"), tri)
    ensures Get(j, "type") !in KnownTypes ==> Triangles(j, tri) == Ok([])
  {
  }

  /** A Feature without a geometry contributes nothing. */
  lemma FeatureWithoutGeometry(j: Json, tri: seq<Vec3> -> seq<Vec3>)
    requires j.JObj? && Get(j, "type") == JStr("Feature") && !Has(j, "geometry")
    ensures Triangles(j, tri) == Ok([])
  {
    Dispatch(j, tri);
  }

  /** The same dispatch, on the two-member objects built above. */
  lemma DispatchFeature(g: Json, tri: seq<Vec3> -> seq<Vec3>)
    ensures Triangles(Feature(g), tri) == Triangles(g, tri)
  {
    var j := Feature(g);
    assert Get(j, "type") == JStr("Feature");
    assert j.members[0].key != "geometry" by { assert |"type"| != |"geometry"|; }
    assert j.members[1..] == [Member("geometry", g)];
    assert Lookup(j.members[1..], "geometry") == Some(g);
    assert Lookup(j.members, "geometry") == Lookup(j.members[1..], "geometry");
    assert Get(j, "geometry") == g;
  }

  lemma DispatchCollection(fs: seq<Json>, tri: seq<Vec3> -> seq<Vec3>)
    ensures Triangles(FeatureCollection(fs), tri) == Collect(fs, tri)
  {
    var j := FeatureCollection(fs);
    assert Get(j, "type") == JStr("FeatureCollection");
    assert j.members[0].key != "features" by { assert |"type"| != |"features"|; }
    assert j.members[1..] == [Member("features", JArr(fs))];
    assert Lookup(j.members[1..], "features") == Some(JArr(fs));
    assert Lookup(j.members, "features") == Lookup(j.members[1..], "features");
    assert Get(j, "features") == JArr(fs);
  }

  lemma DispatchGeometry(kind: string, c: Json, tri: seq<Vec3> -> seq<Vec3>)
    ensures kind == "Polygon" ==> Triangles(Geometry(kind, c), tri) == TriangulatePolygon(c, tri)
    ensures kind == "MultiPolygon" ==> Triangles(Geometry(kind, c), tri) == EachPolygon(Iter(c), tri)
    ensures kind !in {"FeatureCollection", "Feature", "MultiPolygon", "Polygon"} ==>
      Triangles(Geometry(kind, c), tri) == Ok([])
  {
    var j := Geometry(kind, c);
    assert Get(j, "type") == JStr(kind);
    assert j.members[0].key != "coordinates" by { assert |"type"| != |"coordinates"|; }
    assert j.members[1..] == [Member("coordinates", c)];
    assert Lookup(j.members[1..], "coordinates") == Some(c);
    assert Lookup(j.members, "coordinates") == Lookup(j.members[1..], "coordinates");
    assert Get(j, "coordinates") == c;
  }

  /** A FeatureCollection yields its features' triangles, concatenated in
      order; the first failing feature fails the whole collection. */
  lemma {:induction false} CollectionConcatenates(fs: seq<Json>, gs: seq<Json>, tri: seq<Vec3> -> seq<Vec3>)
    ensures Collect(fs + gs, tri) == Cat(Collect(fs, tri), Collect(gs, tri))
    decreases |fs|
  {
    if fs == [] {
      assert fs + gs == gs;
      if Collect(gs, tri).Ok? {
        assert [] + Collect(gs, tri).value == Collect(gs, tri).value;
      }
    } else {
      assert (fs + gs)[0] == fs[0];
      assert (fs + gs)[1..] == fs[1..] + gs;
      CollectionConcatenates(fs[1..], gs, tri);
      CatAssociative(Triangles(fs[0], tri), Collect(fs[1..], tri), Collect(gs, tri));
    }
  }

  /** A collection of one feature is that feature. */
  lemma SingleFeatureCollection(f: Json, tri: seq<Vec3> -> seq<Vec3>)
    ensures Triangles(FeatureCollection([f]), tri) == Triangles(f, tri)
  {
    DispatchCollection([f], tri);
    assert [f][1..] == [];
    match Triangles(f, tri)
    case Ok(a) => assert a + [] == a;
    case Err(_) =>
  }

  /** A MultiPolygon's polygons contribute their triangles in order: the
      polygons of a concatenation give the concatenated triangles, and the
      first failing polygon fails the whole. */
  lemma {:induction false} EachPolygonConcatenates(ps: seq<Json>, qs: seq<Json>, tri: seq<Vec3> -> seq<Vec3>)
    ensures EachPolygon(ps + qs, tri) == Cat(EachPolygon(ps, tri), EachPolygon(qs, tri))
    decreases |ps|
  {
    if ps == [] {
      assert ps + qs == qs;
      if EachPolygon(qs, tri).Ok? {
        assert [] + EachPolygon(qs, tri).value == EachPolygon(qs, tri).value;
      }
    } else {
      assert (ps + qs)[0] == ps[0];
      assert (ps + qs)[1..] == ps[1..] + qs;
      EachPolygonConcatenates(ps[1..], qs, tri);
      EachPolygonUnfolds(ps + qs, tri);
      EachPolygonUnfolds(ps, tri);
      CatAssociative(TriangulatePolygon(ps[0], tri), EachPolygon(ps[1..], tri), EachPolygon(qs, tri));
    }
  }

  /** One step of EachPolygon, in the terms of Cat. */
  lemma EachPolygonUnfolds(ps: seq<Json>, tri: seq<Vec3> -> seq<Vec3>)
    requires ps != []
    ensures EachPolygon(ps, tri) == Cat(TriangulatePolygon(ps[0], tri), EachPolygon(ps[1..], tri))
  {
  }

  /** A single polygon contributes exactly its own triangles. */
  lemma EachPolygonSingle(p: Json, tri: seq<Vec3> -> seq<Vec3>)
    ensures EachPolygon([p], tri) == TriangulatePolygon(p, tri)
  {
    assert [p][1..] == [];
    match TriangulatePolygon(p, tri)
    case Ok(a) => assert a + [] == a;
    case Err(_) =>
  }

  /** A MultiPolygon holding one polygon is that Polygon. */
  lemma SinglePolygon(c: Json, tri: seq<Vec3> -> seq<Vec3>)
    ensures Triangles(Geometry("MultiPolygon", JArr([c])), tri) == Triangles(Geometry("Polygon", c), tri)
  {
    DispatchGeometry("MultiPolygon", JArr([c]), tri);
    DispatchGeometry("Polygon", c, tri);
    assert [c][1..] == [];
    match TriangulatePolygon(c, tri)
    case Ok(a) => assert a + [] == a;
    case Err(_) =>
  }

  /** Point, LineString, GeometryCollection and every other type contribute
      nothing, whatever their coordinates. */
  lemma OtherGeometriesIgnored(kind: string, coordinates: Json, tri: seq<Vec3> -> seq<Vec3>)
    requires kind !in {"FeatureCollection", "Feature", "MultiPolygon", "Polygon"}
    ensures Triangles(Geometry(kind, coordinates), tri) == Ok([])
  {
    DispatchGeometry(kind, coordinates, tri);
  }

  /** Positions written with a fourth component (as altitude-plus-measure
      data would be). */
  function Ring(vs: seq<Vec3>): (r: Json)
    ensures r.JArr? && |r.elems| == |vs|
    ensures forall k :: 0 <= k < |vs| ==> r.elems[k] == JArr([JNum(vs[k].x), JNum(vs[k].y), JNum(vs[k].z), JNum(0.0)])
  {
    JArr(seq(|vs|, k requires 0 <= k < |vs| => JArr([JNum(vs[k].x), JNum(vs[k].y), JNum(vs[k].z), JNum(0.0)])))
  }

  lemma RingRoundTrip(vs: seq<Vec3>)
    ensures RingPoints(Iter(Ring(vs))) == Ok(vs)
  {
    var ps := Iter(Ring(vs));
    forall k | 0 <= k < |ps|
      ensures Position(ps[k]) == Ok(vs[k])
    {
      assert ps[k].elems[..3] == [JNum(vs[k].x), JNum(vs[k].y), JNum(vs[k].z)];
    }
    assert RingPoints(ps).value == vs;
  }

  /** A Polygon's rings are flattened in order, outer ring first, and a
      position with extra components keeps only its first three. */
  lemma PolygonFlattensRings(outer: seq<Vec3>, hole: seq<Vec3>, tri: seq<Vec3> -> seq<Vec3>)
    ensures Triangles(Geometry("Polygon", JArr([Ring(outer), Ring(hole)])), tri) == Ok(tri(outer + hole))
  {
    var rings := [Ring(outer), Ring(hole)];
    DispatchGeometry("Polygon", JArr(rings), tri);
    RingRoundTrip(outer);
    RingRoundTrip(hole);
    assert rings[1..] == [Ring(hole)] && rings[1..][1..] == [];
    assert AllPoints(rings[1..]) == Ok(hole + []);
    assert hole + [] == hole;
  }

  /** A position missing its third component fails the whole document. */
  lemma ShortPositionFails(x: real, y: real, tri: seq<Vec3> -> seq<Vec3>)
    ensures Triangles(Geometry("Polygon", JArr([JArr([JArr([JNum(x), JNum(y)])])])), tri).Err?
  {
    var pos := JArr([JNum(x), JNum(y)]);
    var ring := JArr([pos]);
    DispatchGeometry("Polygon", JArr([ring]), tri);
    assert Position(pos).Err?;
    assert Iter(ring)[0] == pos;
    assert Iter(JArr([ring]))[0] == ring;
  }
}
