/** The vertex type of include/quavis/vk/geometry/vertex.h: its equality,
    its `std::hash` specialisation and the vertex-input layout it
    describes to the pipeline.

    Coordinates are exact reals, so float equality is value equality (NaN
    and signed zeros are not modelled). `std::hash<float>` is a parameter
    `h` returning a 64-bit `size_t`, whose shifts drop the bits pushed out. */
module Vertex {
  import opened Space

  datatype Vertex = Vertex(pos: Vec3, color: Vec3)

  /** `operator==`: the three position coordinates agree. */
  predicate Equal(a: Vertex, b: Vertex)
  {
    a.pos.x == b.pos.x && a.pos.y == b.pos.y && a.pos.z == b.pos.z
  }

  /** `hash<Vertex>`: the hash of x, mixed with the hash of y shifted left,
      shifted right, then mixed with the hash of z shifted left. */
  function Hash(v: Vertex, h: real -> bv64): bv64
  {
    Mix(h(v.pos.x), h(v.pos.y), h(v.pos.z))
  }

  /** The mixing of the three coordinate hashes, in `size_t` arithmetic. */
  function Mix(a: bv64, b: bv64, c: bv64): bv64
  {
    var mixed := a ^ (b << 1);
    var shifted := mixed >> 1;
    shifted ^ (c << 1)
  }

  /** Equality ignores the colour and is an equivalence. */
  lemma EqualIsPositionEquality(a: Vertex, b: Vertex, c: Vertex)
    ensures Equal(a, b) <==> a.pos == b.pos
    ensures Equal(a, a.(color := c.color))
    ensures Equal(a, b) && Equal(b, c) ==> Equal(a, c)
  {
  }

  /** Equal vertices hash alike, whatever their colours, as a hash used
      with this equality must. */
  lemma EqualVerticesHashAlike(a: Vertex, b: Vertex, h: real -> bv64)
    requires Equal(a, b)
    ensures Hash(a, h) == Hash(b, h)
  {
    assert a.pos == b.pos;
  }

  /** The lowest bit of the x hash is shifted out: two positions whose x
      hashes differ only there collide. */
  lemma LowBitOfXIsLost(p: Vec3, q: Vec3, color: Vec3, h: real -> bv64)
    requires h(p.x) ^ h(q.x) == 1 && p.y == q.y && p.z == q.z
    ensures Hash(Vertex(p, color), h) == Hash(Vertex(q, color), h)
  {
    XorStep(h(p.x), h(q.x), h(p.y), h(p.z));
  }

  /** The top bit of the y hash is shifted out the same way. */
  lemma TopBitOfYIsLost(p: Vec3, q: Vec3, color: Vec3, h: real -> bv64)
    requires h(p.y) ^ h(q.y) == 0x8000_0000_0000_0000 && p.x == q.x && p.z == q.z
    ensures Hash(Vertex(p, color), h) == Hash(Vertex(q, color), h)
  {
    YStep(h(p.x), h(p.y), h(q.y), h(p.z));
  }

  lemma XorStep(a: bv64, a': bv64, b: bv64, c: bv64)
    requires a ^ a' == 1
    ensures Mix(a, b, c) == Mix(a', b, c)
  {
  }

  lemma YStep(a: bv64, b: bv64, b': bv64, c: bv64)
    requires b ^ b' == 0x8000_0000_0000_0000
    ensures Mix(a, b, c) == Mix(a, b', c)
  {
  }

  // Vertex input layout, in bytes: three 32-bit floats per vector.
  const FloatSize: nat := 4
  const Vec3Size: nat := 3 * FloatSize
  const VertexSize: nat := 2 * Vec3Size
  const PosOffset: nat := 0
  const ColorOffset: nat := Vec3Size
  const FormatR32G32B32Sfloat: int := 106

  datatype InputRate = PerVertex | PerInstance
  datatype BindingDescription = BindingDescription(binding: nat, stride: nat, inputRate: InputRate)
  datatype AttributeDescription = AttributeDescription(location: nat, binding: nat, format: int, offset: nat)

  /** `getBindingDescription`: binding 0, one vertex per stride. */
  function GetBindingDescription(): (d: BindingDescription)
    ensures d.binding == 0 && d.stride == VertexSize && d.inputRate == PerVertex
  {
    BindingDescription(0, VertexSize, PerVertex)
  }

  /** `getAttributeDescriptions`: position at location 0, colour at
      location 1, both three floats of binding 0. */
  function GetAttributeDescriptions(): (ds: seq<AttributeDescription>)
    ensures |ds| == 2
    ensures ds[0] == AttributeDescription(0, 0, FormatR32G32B32Sfloat, PosOffset)
    ensures ds[1] == AttributeDescription(1, 0, FormatR32G32B32Sfloat, ColorOffset)
  {
    [AttributeDescription(0, 0, FormatR32G32B32Sfloat, PosOffset),
     AttributeDescription(1, 0, FormatR32G32B32Sfloat, ColorOffset)]
  }

  /** A vertex array as the floats it occupies in memory, struct after
      struct, members in declaration order. */
  function Floats(vs: seq<Vertex>): (fs: seq<real>)
    ensures |fs| == 6 * |vs|
  {
    if vs == [] then []
    else
      var v := vs[0];
      [v.pos.x, v.pos.y, v.pos.z, v.color.x, v.color.y, v.color.z] + Floats(vs[1..])
  }

  /** What the pipeline fetches for an attribute of the i-th vertex: three
      floats at `i * stride + offset` bytes. */
  function Fetch(fs: seq<real>, d: AttributeDescription, i: nat): Vec3
    requires d.offset % FloatSize == 0
    requires (i * VertexSize + d.offset) / FloatSize + 3 <= |fs|
  {
    var k := (i * VertexSize + d.offset) / FloatSize;
    Vec3(fs[k], fs[k + 1], fs[k + 2])
  }

  /** The descriptions agree with the memory layout: location 0 of vertex
      i fetches its position and location 1 its colour. */
  lemma {:induction false} LayoutFetchesMembers(vs: seq<Vertex>, i: nat)
    requires i < |vs|
    ensures var ds := GetAttributeDescriptions();
      && Fetch(Floats(vs), ds[0], i) == vs[i].pos
      && Fetch(Floats(vs), ds[1], i) == vs[i].color
  {
    FloatsAt(vs, i);
    var w := Floats(vs)[6 * i..6 * i + 6];
    assert (i * VertexSize + PosOffset) / FloatSize == 6 * i;
    assert (i * VertexSize + ColorOffset) / FloatSize == 6 * i + 3;
    assert Floats(vs)[6 * i] == w[0] && Floats(vs)[6 * i + 1] == w[1] && Floats(vs)[6 * i + 2] == w[2];
    assert Floats(vs)[6 * i + 3] == w[3] && Floats(vs)[6 * i + 4] == w[4] && Floats(vs)[6 * i + 5] == w[5];
  }

  lemma {:induction false} FloatsAt(vs: seq<Vertex>, i: nat)
    requires i < |vs|
    ensures Floats(vs)[6 * i..6 * i + 6] ==
      [vs[i].pos.x, vs[i].pos.y, vs[i].pos.z, vs[i].color.x, vs[i].color.y, vs[i].color.z]
  {
    if i > 0 {
      FloatsAt(vs[1..], i - 1);
      assert Floats(vs)[6..] == Floats(vs[1..]);
      assert Floats(vs)[6 * i..6 * i + 6] == Floats(vs[1..])[6 * (i - 1)..6 * (i - 1) + 6];
    }
  }
}
