/** The sampling-grid generator of examples/create_grid.py (`create_grid`).

    The points of the first ring of every MultiPolygon polygon are gathered,
    their bounding box is taken, and an Nx by Ny grid of points spanning the
    box in x and y is emitted at the box's mid-height, x-major.

    A feature's geometry is represented by its `coordinates` member as a
    nested list of numbers. Python's failures on malformed input (indexing a
    number, indexing an empty list, taking the extremes of no points) are
    returned as errors. File loading and the command line are not modelled. */
module Grid {
  import opened Wrappers
  import opened Space

  /** A GeoJSON `coordinates` value: a number or a list. */
  datatype Coord = Num(v: real) | List(items: seq<Coord>)

  datatype GridError =
    | NotSubscriptable   // indexing or iterating a number
    | EmptyList          // `[0]` on an empty list
    | NoPoints           // extremes of an empty point array
    | RaggedPoints       // positions that are not equal-length lists of three or more numbers

  /** `coordinate[0][0]` where both indexings are legal. */
  function FirstOfFirst(c: Coord): Result<Coord, GridError>
  {
    if c.Num? then Err(NotSubscriptable)
    else if c.items == [] then Err(EmptyList)
    else if c.items[0].Num? then Err(NotSubscriptable)
    else if c.items[0].items == [] then Err(EmptyList)
    else Ok(c.items[0].items[0])
  }

  /** The positions one geometry contributes: for each of its entries whose
      `[0][0]` is a list (a MultiPolygon polygon), the entries of its first
      ring. Entries of a Polygon (rings, whose `[0][0]` is a number) add
      nothing. */
  function GeometryPoints(entries: seq<Coord>): (r: Result<seq<Coord>, GridError>)
    ensures r.Ok? <==> forall k :: 0 <= k < |entries| ==> FirstOfFirst(entries[k]).Ok?
    ensures r.Ok? ==> forall p :: p in r.value ==>
      exists k :: 0 <= k < |entries| && FirstOfFirst(entries[k]).value.List? && p in entries[k].items[0].items
  {
    if entries == [] then Ok([])
    else
      var head :- FirstOfFirst(entries[0]);
      var rest :- GeometryPoints(entries[1..]);
      assert forall k :: 1 <= k < |entries| ==> entries[k] == entries[1..][k - 1];
      if head.List? then Ok(entries[0].items[0].items + rest) else Ok(rest)
  }

  /** The gathering loop over all features. */
  function Gather(features: seq<Coord>): (r: Result<seq<Coord>, GridError>)
    ensures r.Ok? <==> forall k :: 0 <= k < |features| ==>
      features[k].List? && GeometryPoints(features[k].items).Ok?
    ensures r.Ok? ==> forall p :: p in r.value ==>
      exists k :: 0 <= k < |features| && GeometryPoints(features[k].items).Ok? && p in GeometryPoints(features[k].items).value
  {
    if features == [] then Ok([])
    else if features[0].Num? then Err(NotSubscriptable)
    else
      var head :- GeometryPoints(features[0].items);
      var rest :- Gather(features[1..]);
      assert forall k :: 1 <= k < |features| ==> features[k] == features[1..][k - 1];
      Ok(head + rest)
  }

  /** The entries of two geometries side by side contribute the first's
      positions followed by the second's. */
  lemma {:induction false} GeometryPointsAppend(a: seq<Coord>, b: seq<Coord>)
    ensures GeometryPoints(a + b).Ok? <==> GeometryPoints(a).Ok? && GeometryPoints(b).Ok?
    ensures GeometryPoints(a + b).Ok? ==>
      GeometryPoints(a + b).value == GeometryPoints(a).value + GeometryPoints(b).value
    decreases |a|
  {
    if a == [] {
      assert a + b == b;
    } else {
      assert (a + b)[0] == a[0];
      assert (a + b)[1..] == a[1..] + b;
      GeometryPointsAppend(a[1..], b);
      if GeometryPoints(a + b).Ok? {
        var h := if FirstOfFirst(a[0]).value.List? then a[0].items[0].items else [];
        assert GeometryPoints(a + b).value == h + GeometryPoints(a[1..] + b).value;
        assert GeometryPoints(a).value == h + GeometryPoints(a[1..]).value;
      }
    }
  }

  /** One entry contributes its whole first ring, in order, when it is a
      MultiPolygon polygon, and nothing when it is a Polygon ring. */
  lemma GeometryPointsOne(c: Coord)
    ensures GeometryPoints([c]).Ok? <==> FirstOfFirst(c).Ok?
    ensures GeometryPoints([c]).Ok? ==>
      GeometryPoints([c]).value == (if FirstOfFirst(c).value.List? then c.items[0].items else [])
  {
    assert [c][1..] == [];
    if FirstOfFirst(c).Ok? && FirstOfFirst(c).value.List? {
      assert c.items[0].items + [] == c.items[0].items;
    }
  }

  /** Features side by side contribute the first list's points followed by
      the second's. */
  lemma {:induction false} GatherAppend(a: seq<Coord>, b: seq<Coord>)
    ensures Gather(a + b).Ok? <==> Gather(a).Ok? && Gather(b).Ok?
    ensures Gather(a + b).Ok? ==> Gather(a + b).value == Gather(a).value + Gather(b).value
    decreases |a|
  {
    if a == [] {
      assert a + b == b;
    } else {
      assert (a + b)[0] == a[0];
      assert (a + b)[1..] == a[1..] + b;
      GatherAppend(a[1..], b);
      if Gather(a + b).Ok? {
        var h := GeometryPoints(a[0].items).value;
        assert Gather(a + b).value == h + Gather(a[1..] + b).value;
        assert Gather(a).value == h + Gather(a[1..]).value;
      }
    }
  }

  /** A single feature contributes exactly its geometry's points; a
      geometry that is a bare number cannot be iterated. */
  lemma GatherOne(f: Coord)
    ensures Gather([f]).Ok? <==> f.List? && GeometryPoints(f.items).Ok?
    ensures Gather([f]).Ok? ==> Gather([f]).value == GeometryPoints(f.items).value
  {
    assert [f][1..] == [];
    if f.List? && GeometryPoints(f.items).Ok? {
      assert GeometryPoints(f.items).value + [] == GeometryPoints(f.items).value;
    }
  }

  predicate AllNumbers(cs: seq<Coord>)
  {
    forall k :: 0 <= k < |cs| ==> cs[k].Num?
  }

  /** `np.asarray(points)` as a numeric matrix: every position a list of
      numbers, all of the same length, at least three (the code reads
      column 2). Only the first three columns are kept. */
  function Positions(points: seq<Coord>): (r: Result<seq<Vec3>, GridError>)
    ensures r.Ok? <==> points != [] && points[0].List? && |points[0].items| >= 3 && forall k :: 0 <= k < |points| ==>
      points[k].List? && |points[k].items| == |points[0].items| && AllNumbers(points[k].items)
    ensures r.Ok? ==> |r.value| == |points| && forall k :: 0 <= k < |points| ==>
      r.value[k] == Vec3(points[k].items[0].v, points[k].items[1].v, points[k].items[2].v)
  {
    if points == [] then Err(NoPoints)
    else if points[0].Num? || |points[0].items| < 3 then Err(RaggedPoints)
    else if exists k :: 0 <= k < |points| && !(points[k].List? && |points[k].items| == |points[0].items| && AllNumbers(points[k].items)) then
      Err(RaggedPoints)
    else
      Ok(seq(|points|, k requires 0 <= k < |points| => Vec3(points[k].items[0].v, points[k].items[1].v, points[k].items[2].v)))
  }

  /** Smallest and largest element of a non-empty column. */
  function Min(s: seq<real>): (m: real)
    requires s != []
    ensures m in s && forall k :: 0 <= k < |s| ==> m <= s[k]
  {
    if |s| == 1 then s[0]
    else
      var rest := Min(s[1..]);
      assert forall k :: 1 <= k < |s| ==> s[k] == s[1..][k - 1];
      if s[0] <= rest then s[0] else rest
  }

  function Max(s: seq<real>): (m: real)
    requires s != []
    ensures m in s && forall k :: 0 <= k < |s| ==> s[k] <= m
  {
    if |s| == 1 then s[0]
    else
      var rest := Max(s[1..]);
      assert forall k :: 1 <= k < |s| ==> s[k] == s[1..][k - 1];
      if s[0] >= rest then s[0] else rest
  }

  function Xs(ps: seq<Vec3>): (r: seq<real>)
    ensures |r| == |ps| && forall k :: 0 <= k < |ps| ==> r[k] == ps[k].x
  {
    seq(|ps|, k requires 0 <= k < |ps| => ps[k].x)
  }

  function Ys(ps: seq<Vec3>): (r: seq<real>)
    ensures |r| == |ps| && forall k :: 0 <= k < |ps| ==> r[k] == ps[k].y
  {
    seq(|ps|, k requires 0 <= k < |ps| => ps[k].y)
  }

  function Zs(ps: seq<Vec3>): (r: seq<real>)
    ensures |r| == |ps| && forall k :: 0 <= k < |ps| ==> r[k] == ps[k].z
  {
    seq(|ps|, k requires 0 <= k < |ps| => ps[k].z)
  }

  /** `np.linspace(lo, hi, n)`: n evenly spaced values from lo to hi, both
      ends included; the last value is hi itself. */
  function Linspace(lo: real, hi: real, n: nat): (r: seq<real>)
    ensures |r| == n
    ensures n >= 1 ==> r[0] == lo
    ensures n >= 2 ==> r[n - 1] == hi
    ensures n >= 2 ==> forall i :: 0 <= i < n - 1 ==> r[i + 1] - r[i] == (hi - lo) / (n - 1) as real
    ensures lo <= hi ==> forall i :: 0 <= i < n ==> lo <= r[i] <= hi
  {
    if n == 0 then []
    else if n == 1 then [lo]
    else
      var r := seq(n, i requires 0 <= i < n => if i == n - 1 then hi else Spaced(lo, hi, n, i));
      SpacedFacts(lo, hi, n, r);
      r
  }

  /** Value i of an n-point spacing, before the last is pinned to hi. */
  function Spaced(lo: real, hi: real, n: nat, i: nat): real
    requires n >= 2
  {
    lo + i as real * ((hi - lo) / (n - 1) as real)
  }

  lemma SpacedFacts(lo: real, hi: real, n: nat, r: seq<real>)
    requires n >= 2 && |r| == n
    requires forall i :: 0 <= i < n ==> r[i] == if i == n - 1 then hi else Spaced(lo, hi, n, i)
    ensures r[0] == lo
    ensures forall i :: 0 <= i < n ==> r[i] == Spaced(lo, hi, n, i)
    ensures forall i :: 0 <= i < n - 1 ==> r[i + 1] - r[i] == (hi - lo) / (n - 1) as real
    ensures lo <= hi ==> forall i :: 0 <= i < n ==> lo <= r[i] <= hi
  {
    LastSpacedIsHi(lo, hi, n);
    forall i | 0 <= i < n - 1
      ensures r[i + 1] - r[i] == (hi - lo) / (n - 1) as real
    {
      SpacedStep(lo, hi, n, i);
    }
    if lo <= hi {
      forall i | 0 <= i < n
        ensures lo <= r[i] <= hi
      {
        StepWithinSpan(lo, hi, n, i);
      }
    }
  }

  /** The last spacing value already lands on hi. */
  lemma LastSpacedIsHi(lo: real, hi: real, n: nat)
    requires n >= 2
    ensures Spaced(lo, hi, n, n - 1) == hi
  {
    var step := (hi - lo) / (n - 1) as real;
    assert (n - 1) as real * step == hi - lo;
  }

  lemma SpacedStep(lo: real, hi: real, n: nat, i: nat)
    requires n >= 2
    ensures Spaced(lo, hi, n, i + 1) - Spaced(lo, hi, n, i) == (hi - lo) / (n - 1) as real
  {
    var step := (hi - lo) / (n - 1) as real;
    assert (i + 1) as real * step == i as real * step + step;
  }

  lemma StepWithinSpan(lo: real, hi: real, n: nat, i: nat)
    requires lo <= hi && n >= 2 && i < n
    ensures 0.0 <= i as real * ((hi - lo) / (n - 1) as real) <= hi - lo
  {
    var step := (hi - lo) / (n - 1) as real;
    assert step >= 0.0;
    assert (n - 1) as real * step == hi - lo;
    assert i as real * step <= (n - 1) as real * step by {
      assert ((n - 1) as real - i as real) * step >= 0.0;
    }
  }

  /** The bounding box of a non-empty point set: its corners are the
      per-axis extremes. */
  datatype Box = Box(lo: Vec3, hi: Vec3)

  function BoundingBox(ps: seq<Vec3>): (b: Box)
    requires ps != []
    ensures forall k :: 0 <= k < |ps| ==>
      && b.lo.x <= ps[k].x <= b.hi.x
      && b.lo.y <= ps[k].y <= b.hi.y
      && b.lo.z <= ps[k].z <= b.hi.z
    ensures b.lo.x in Xs(ps) && b.hi.x in Xs(ps)
    ensures b.lo.y in Ys(ps) && b.hi.y in Ys(ps)
    ensures b.lo.z in Zs(ps) && b.hi.z in Zs(ps)
  {
    Box(Vec3(Min(Xs(ps)), Min(Ys(ps)), Min(Zs(ps))), Vec3(Max(Xs(ps)), Max(Ys(ps)), Max(Zs(ps))))
  }

  /** Mid-height of the box, `(max[2] - min[2]) / 2 + min[2]`. */
  function MidHeight(b: Box): (z: real)
    ensures b.lo.z <= b.hi.z ==> b.lo.z <= z <= b.hi.z
    ensures z - b.lo.z == b.hi.z - z
  {
    (b.hi.z - b.lo.z) / 2.0 + b.lo.z
  }

  /** One row of the grid: fixed x, every y. */
  function Row(x: real, yy: seq<real>, z: real): (r: seq<Vec3>)
    ensures |r| == |yy| && forall j :: 0 <= j < |yy| ==> r[j] == Vec3(x, yy[j], z)
  {
    seq(|yy|, j requires 0 <= j < |yy| => Vec3(x, yy[j], z))
  }

  /** The rows for every x, in order. */
  function Rows(xx: seq<real>, yy: seq<real>, z: real): seq<Vec3>
  {
    if xx == [] then [] else Rows(xx[..|xx| - 1], yy, z) + Row(xx[|xx| - 1], yy, z)
  }

  /** The grid has one point per (x, y) pair, x-major: the point for
      (xx[i], yy[j]) sits at i * |yy| + j. */
  lemma {:induction false} RowsLayout(xx: seq<real>, yy: seq<real>, z: real)
    ensures |Rows(xx, yy, z)| == |xx| * |yy|
    ensures forall i, j :: 0 <= i < |xx| && 0 <= j < |yy| ==>
      RowMajor(i, j, |yy|) < |Rows(xx, yy, z)| && Rows(xx, yy, z)[RowMajor(i, j, |yy|)] == Vec3(xx[i], yy[j], z)
    decreases |xx|
  {
    if xx != [] {
      var init := xx[..|xx| - 1];
      var w := |yy|;
      RowsLayout(init, yy, z);
      assert |xx| * w == |init| * w + w;
      forall i, j | 0 <= i < |xx| && 0 <= j < w
        ensures RowMajor(i, j, w) < |Rows(xx, yy, z)| && Rows(xx, yy, z)[RowMajor(i, j, w)] == Vec3(xx[i], yy[j], z)
      {
        if i < |init| {
          RowMajorBound(i, j, |init|, w);
          assert init[i] == xx[i];
        } else {
          assert RowMajor(i, j, w) == |init| * w + j;
        }
      }
    }
  }

  /** Position of (i, j) in a row-major layout of rows of width w. */
  function RowMajor(i: nat, j: nat, w: nat): nat
  {
    i * w + j
  }

  lemma RowMajorBound(i: nat, j: nat, n: nat, w: nat)
    requires i < n && j < w
    ensures RowMajor(i, j, w) < n * w
  {
    assert (i + 1) * w <= n * w by {
      assert (n - (i + 1)) * w >= 0;
    }
  }

  /** Every grid point takes its x from xx, its y from yy and the given z. */
  lemma {:induction false} RowsMembers(xx: seq<real>, yy: seq<real>, z: real)
    ensures forall v :: v in Rows(xx, yy, z) ==> v.x in xx && v.y in yy && v.z == z
    decreases |xx|
  {
    if xx != [] {
      var init := xx[..|xx| - 1];
      RowsMembers(init, yy, z);
      assert forall x :: x in init ==> x in xx;
    }
  }

  /** The two printing loops: x outer, y inner, one point per pair. */
  method Emit(xx: seq<real>, yy: seq<real>, z: real) returns (out: seq<Vec3>)
    ensures out == Rows(xx, yy, z)
  {
    out := [];
    var i := 0;
    while i < |xx|
      invariant 0 <= i <= |xx|
      invariant out == Rows(xx[..i], yy, z)
    {
      var j := 0;
      while j < |yy|
        invariant 0 <= j <= |yy|
        invariant out == Rows(xx[..i], yy, z) + Row(xx[i], yy[..j], z)
      {
        out := out + [Vec3(xx[i], yy[j], z)];
        j := j + 1;
      }
      assert yy[..j] == yy;
      assert xx[..i + 1][..i] == xx[..i];
      i := i + 1;
    }
    assert xx[..i] == xx;
  }

  /** `create_grid`: gather, take the bounding box, emit the grid. */
  method CreateGrid(features: seq<Coord>, nx: nat, ny: nat) returns (r: Result<seq<Vec3>, GridError>)
    ensures r.Ok? <==> Gather(features).Ok? && Positions(Gather(features).value).Ok?
    ensures r.Ok? ==>
      var ps := Positions(Gather(features).value).value;
      var b := BoundingBox(ps);
      && |r.value| == nx * ny
      // every point lies in the box's x and y range, at mid-height
      && (forall v :: v in r.value ==>
            && b.lo.x <= v.x <= b.hi.x
            && b.lo.y <= v.y <= b.hi.y
            && v.z == MidHeight(b))
      // x-major, y-minor order over the two linspaces
      && (forall i, j :: 0 <= i < nx && 0 <= j < ny ==>
            RowMajor(i, j, ny) < |r.value| &&
            r.value[RowMajor(i, j, ny)] == Vec3(Linspace(b.lo.x, b.hi.x, nx)[i], Linspace(b.lo.y, b.hi.y, ny)[j], MidHeight(b)))
  {
    var gathered := Gather(features);
    if gathered.Err? {
      return Err(gathered.error);
    }
    var positions := Positions(gathered.value);
    if positions.Err? {
      return Err(positions.error);
    }
    var ps := positions.value;
    var b := BoundingBox(ps);
    var z := MidHeight(b);
    var xx := Linspace(b.lo.x, b.hi.x, nx);
    var yy := Linspace(b.lo.y, b.hi.y, ny);
    assert b.lo.x <= b.hi.x && b.lo.y <= b.hi.y by {
      assert b.lo.x <= ps[0].x <= b.hi.x;
      assert b.lo.y <= ps[0].y <= b.hi.y;
    }
    var out := Emit(xx, yy, z);
    RowsLayout(xx, yy, z);
    RowsMembers(xx, yy, z);
    return Ok(out);
  }

  /** A single column gives just the box's left edge; an empty count gives
      no points at all. */
  lemma LinspaceEdgeCases(lo: real, hi: real)
    ensures Linspace(lo, hi, 1) == [lo]
    ensures Linspace(lo, hi, 0) == []
  {
  }
}
