/** The OBJ-style dump of test/geojson.cc (`triangulate_file`): one
    `v x y z` line per triangle corner, in order, then one `f a b c` line per
    triangle with the 1-based indices of its three corners.

    The file system and the text parser are not modelled: the document
    arrives already parsed, or not at all when the file cannot be opened.
    Number formatting by the output stream is not modelled either; a line
    keeps its numbers. */
module ObjDump {
  import opened Wrappers
  import opened Space
  import GeoJson

  datatype Line = VertexLine(x: real, y: real, z: real) | FaceLine(a: int, b: int, c: int)

  /** The `v` lines the dump writes for a sequence of corners. */
  function VertexLines(vs: seq<Vec3>): (r: seq<Line>)
    ensures |r| == |vs|
    ensures forall i :: 0 <= i < |vs| ==> r[i] == VertexLine(vs[i].x, vs[i].y, vs[i].z)
  {
    seq(|vs|, i requires 0 <= i < |vs| => VertexLine(vs[i].x, vs[i].y, vs[i].z))
  }

  /** The `f` lines for n corners: face k names corners 3k+1, 3k+2, 3k+3. */
  function FaceLines(n: nat): (r: seq<Line>)
    requires n % 3 == 0
    ensures |r| == n / 3
    ensures forall k :: 0 <= k < n / 3 ==> r[k] == FaceLine(3 * k + 1, 3 * k + 2, 3 * k + 3)
  {
    seq(n / 3, k requires 0 <= k < n / 3 => FaceLine(3 * k + 1, 3 * k + 2, 3 * k + 3))
  }

  /** The two output loops. The face loop steps by three and reads
      `indices[i + 1]` and `indices[i + 2]`, which exist only when the corner
      count is a multiple of three. */
  method Dump(vertices: seq<Vec3>) returns (lines: seq<Line>)
    requires |vertices| % 3 == 0
    ensures lines == VertexLines(vertices) + FaceLines(|vertices|)
    ensures |lines| == |vertices| + |vertices| / 3
    // all vertex lines come before all face lines
    ensures forall i, j :: 0 <= i < j < |lines| && lines[j].VertexLine? ==> lines[i].VertexLine?
  {
    var n := |vertices|;
    var indices := seq(n, i requires 0 <= i < n => i);
    lines := [];
    var i := 0;
    while i < n
      invariant 0 <= i <= n
      invariant lines == VertexLines(vertices[..i])
    {
      lines := lines + [VertexLine(vertices[i].x, vertices[i].y, vertices[i].z)];
      i := i + 1;
    }
    assert vertices[..n] == vertices;
    i := 0;
    while i < n
      invariant 0 <= i <= n && i % 3 == 0
      invariant lines == VertexLines(vertices) + FaceLines(i)
    {
      lines := lines + [FaceLine(indices[i] + 1, indices[i + 1] + 1, indices[i + 2] + 1)];
      i := i + 3;
    }
  }

  /** `triangulate_file`: nothing when the file cannot be opened, otherwise
      the dump of the document's triangles. A failing position conversion
      escapes as an error. */
  method TriangulateFile(document: Option<GeoJson.Json>, tri: seq<Vec3> -> seq<Vec3>) returns (r: Result<seq<Line>, GeoJson.JsonError>)
    requires forall points :: |tri(points)| % 3 == 0
    ensures document.None? ==> r == Ok([])
    ensures document.Some? ==> (r.Ok? <==> GeoJson.Triangles(document.value, tri).Ok?)
    ensures document.Some? && r.Ok? ==>
      Corners(r.value) == Some(GeoJson.Triangles(document.value, tri).value)
  {
    if document.None? {
      return Ok([]);
    }
    var triangles := GeoJson.Triangles(document.value, tri);
    if triangles.Err? {
      return Err(triangles.error);
    }
    GeoJson.TrianglesAreTriples(document.value, tri);
    var lines := Dump(triangles.value);
    DumpRoundTrip(triangles.value);
    return Ok(lines);
  }

  /** Reading a dump back: the vertices of the `v` lines ... */
  function Vertices(lines: seq<Line>): (r: seq<Vec3>)
    ensures |r| <= |lines|
  {
    if lines == [] then []
    else if lines[0].VertexLine? then [Vec3(lines[0].x, lines[0].y, lines[0].z)] + Vertices(lines[1..])
    else Vertices(lines[1..])
  }

  /** ... and the corners the `f` lines name, in face order; None when a
      face names a vertex that does not exist. */
  function Resolve(vs: seq<Vec3>, lines: seq<Line>): (r: Option<seq<Vec3>>)
    ensures r.Some? ==> |r.value| <= 3 * |lines|
  {
    if lines == [] then Some([])
    else if lines[0].VertexLine? then Resolve(vs, lines[1..])
    else
      var f := lines[0];
      if 1 <= f.a <= |vs| && 1 <= f.b <= |vs| && 1 <= f.c <= |vs| then
        match Resolve(vs, lines[1..])
        case None => None
        case Some(rest) => Some([vs[f.a - 1], vs[f.b - 1], vs[f.c - 1]] + rest)
      else None
  }

  /** The triangle corners an OBJ reader recovers from a dump. */
  function Corners(lines: seq<Line>): Option<seq<Vec3>>
  {
    Resolve(Vertices(lines), lines)
  }

  /** Reading the dump back recovers exactly the triangle corners written. */
  lemma DumpRoundTrip(vs: seq<Vec3>)
    requires |vs| % 3 == 0
    ensures Corners(VertexLines(vs) + FaceLines(|vs|)) == Some(vs)
  {
    var lines := VertexLines(vs) + FaceLines(|vs|);
    VerticesOfDump(VertexLines(vs), FaceLines(|vs|), vs);
    ResolveSkipsVertexLines(vs, VertexLines(vs), FaceLines(|vs|));
    ResolveFaces(vs, 0);
    assert vs[0..] == vs;
  }

  lemma {:induction false} VerticesOfDump(vl: seq<Line>, fl: seq<Line>, vs: seq<Vec3>)
    requires vl == VertexLines(vs)
    requires forall k :: 0 <= k < |fl| ==> fl[k].FaceLine?
    ensures Vertices(vl + fl) == vs
    decreases |vl|
  {
    if vl == [] {
      NoVerticesInFaces(fl);
      assert vl + fl == fl;
    } else {
      assert (vl + fl)[1..] == vl[1..] + fl;
      assert vl[1..] == VertexLines(vs[1..]);
      VerticesOfDump(vl[1..], fl, vs[1..]);
      assert vs == [vs[0]] + vs[1..];
    }
  }

  lemma {:induction false} NoVerticesInFaces(fl: seq<Line>)
    requires forall k :: 0 <= k < |fl| ==> fl[k].FaceLine?
    ensures Vertices(fl) == []
    decreases |fl|
  {
    if fl != [] {
      NoVerticesInFaces(fl[1..]);
    }
  }

  lemma {:induction false} ResolveSkipsVertexLines(vs: seq<Vec3>, vl: seq<Line>, fl: seq<Line>)
    requires forall k :: 0 <= k < |vl| ==> vl[k].VertexLine?
    ensures Resolve(vs, vl + fl) == Resolve(vs, fl)
    decreases |vl|
  {
    if vl == [] {
      assert vl + fl == fl;
    } else {
      assert (vl + fl)[1..] == vl[1..] + fl;
      ResolveSkipsVertexLines(vs, vl[1..], fl);
    }
  }

  /** The faces from the k-th on resolve to the corners from 3k on. */
  lemma {:induction false} ResolveFaces(vs: seq<Vec3>, k: nat)
    requires |vs| % 3 == 0 && k <= |vs| / 3
    ensures Resolve(vs, FaceLines(|vs|)[k..]) == Some(vs[3 * k..])
    decreases |vs| / 3 - k
  {
    var fl := FaceLines(|vs|)[k..];
    if k < |vs| / 3 {
      assert fl[0] == FaceLine(3 * k + 1, 3 * k + 2, 3 * k + 3);
      assert fl[1..] == FaceLines(|vs|)[k + 1..];
      ResolveFaces(vs, k + 1);
      assert vs[3 * k..] == [vs[3 * k], vs[3 * k + 1], vs[3 * k + 2]] + vs[3 * (k + 1)..];
    } else {
      assert 3 * k == |vs|;
      assert fl == [] && vs[3 * k..] == [];
    }
  }
}
