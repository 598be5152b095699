/** The fixed-size ring triangulator over flat float arrays
    (include/quavis/vk/geometry/triangulate.h). A polygon is a buffer of
    floats holding its vertices as consecutive (x, y, z) triples. Only rings
    of three and four vertices are handled; any other size leaves both
    out-parameters unwritten, which the model states as `Unwritten`. */
module FlatRing {
  import opened Space

  /** `copy_vec` / `get_vec`: vertex `index` of a flat buffer. */
  function VertexAt(buffer: seq<real>, index: nat): Vec3
    requires 3 * index + 2 < |buffer|
  {
    Vec3(buffer[3 * index], buffer[3 * index + 1], buffer[3 * index + 2])
  }

  /** Lays vertices out back to back, three floats each. */
  function Pack(vs: seq<Vec3>): (f: seq<real>)
    ensures |f| == 3 * |vs|
    ensures forall i :: 0 <= i < |vs| ==> 3 * i + 2 < |f| && VertexAt(f, i) == vs[i]
  {
    if vs == [] then []
    else
      var init := Pack(vs[..|vs| - 1]);
      var v := vs[|vs| - 1];
      init + [v.x, v.y, v.z]
  }

  /** Reads every whole vertex of a buffer; trailing floats that do not
      make up a vertex are ignored. */
  function Unpack(f: seq<real>): (vs: seq<Vec3>)
    ensures |vs| == |f| / 3
    ensures forall i :: 0 <= i < |vs| ==> 3 * i + 2 < |f| && vs[i] == VertexAt(f, i)
  {
    seq(|f| / 3, i requires 0 <= i < |f| / 3 => VertexAt(f, i))
  }

  /** Vertex i occupies offsets 3i, 3i+1 and 3i+2, so laying out and
      reading back are inverse. */
  lemma UnpackPack(vs: seq<Vec3>)
    ensures Unpack(Pack(vs)) == vs
  {
  }

  lemma {:induction false} PackUnpack(f: seq<real>)
    requires |f| % 3 == 0
    ensures Pack(Unpack(f)) == f
  {
    var g := Pack(Unpack(f));
    assert |g| == |f|;
    forall j | 0 <= j < |f|
      ensures g[j] == f[j]
    {
      var i := j / 3;
      assert 3 * i + 2 < |f|;
      assert VertexAt(g, i) == Unpack(f)[i] == VertexAt(f, i);
    }
  }

  /** What `triangulate_ring_no_holes` leaves behind: nothing, or a vertex
      count and the triangle corners as a flat buffer. */
  datatype RingOutput = Unwritten | Written(count: bv32, triangles: seq<real>)

  /** `triangulate_ring_no_holes`: a triangle is copied as it is; a
      quadrilateral v0 v1 v2 v3 becomes the triangles (v0, v1, v2) and
      (v2, v3, v0); any other size is left alone. */
  function RingNoHoles(n: bv32, ring: seq<real>): (r: RingOutput)
    requires n == 3 ==> |ring| >= 9
    requires n == 4 ==> |ring| >= 12
    ensures r.Written? <==> n == 3 || n == 4
    // the handled sizes give n - 2 triangles, three corners each
    ensures r.Written? ==> r.count as int == 3 * (n as int - 2) && |r.triangles| == 3 * r.count as int
    ensures n == 3 ==> Unpack(r.triangles) == [VertexAt(ring, 0), VertexAt(ring, 1), VertexAt(ring, 2)]
    ensures n == 4 ==> (Unpack(r.triangles) ==
      [VertexAt(ring, 0), VertexAt(ring, 1), VertexAt(ring, 2), VertexAt(ring, 2), VertexAt(ring, 3), VertexAt(ring, 0)])
  {
    if n == 3 then
      Written(3, ring[..9])
    else if n == 4 then
      var out := ring[..9] + ring[6..12] + ring[..3];
      assert forall j :: 0 <= j < 9 ==> out[j] == ring[j];
      assert forall j :: 9 <= j < 15 ==> out[j] == ring[j - 3];
      assert forall j :: 15 <= j < 18 ==> out[j] == ring[j - 15];
      Written(6, out)
    else
      Unwritten
  }

  /** `triangulate`: the ring is handed on with its closing vertex dropped,
      as a 32-bit count `num_vertices - 1`. */
  function Triangulate(numVertices: bv32, polygon: seq<real>): (r: RingOutput)
    requires numVertices == 4 ==> |polygon| >= 9
    requires numVertices == 5 ==> |polygon| >= 12
    // only closed triangles and closed quadrilaterals produce output
    ensures r.Written? <==> numVertices == 4 || numVertices == 5
    ensures numVertices == 4 ==> r == RingNoHoles(3, polygon)
    ensures numVertices == 5 ==> r == RingNoHoles(4, polygon)
  {
    RingNoHoles(numVertices - 1, polygon)
  }

  /** An empty polygon wraps the count around to 2^32 - 1, a size the ring
      triangulator does not handle. */
  lemma EmptyPolygonWrapsAround(polygon: seq<real>)
    ensures (0 as bv32) - 1 == 0xFFFF_FFFF
    ensures Triangulate(0, polygon) == Unwritten
  {
  }

  /** The closing vertex is never read: two closed quadrilaterals that
      agree on their first four vertices triangulate alike. */
  lemma ClosingVertexIgnored(p: seq<real>, q: seq<real>)
    requires |p| >= 15 && |q| >= 15
    requires forall i :: 0 <= i < 4 ==> VertexAt(p, i) == VertexAt(q, i)
    ensures Unpack(Triangulate(5, p).triangles) == Unpack(Triangulate(5, q).triangles)
  {
  }
}
