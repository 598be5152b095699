/** Three-dimensional polygon points and the top-level `geojson::triangulate`
    of include/geojson.hpp:318-328. The change of basis into the polygon's
    plane (`gramschmidt`, `to2d`) and back (`to3d`) is floating-point
    numerics and is passed in as a pair of functions; the hole bridging and
    the ear clipping in between are the modelled ones. */
module Polygon3 {
  import opened Wrappers
  import opened Planar
  import opened Space
  import Augment
  import EarClip

  /** The plane of a polygon: projection of a point into it and lifting of a
      plane point back into space. */
  datatype Basis = Basis(to2d: Vec3 -> Vec2, to3d: Vec2 -> Vec3)

  function Project(points: seq<Vec3>, b: Basis): (r: seq<Vec2>)
    ensures |r| == |points|
    ensures forall k :: 0 <= k < |points| ==> r[k] == b.to2d(points[k])
  {
    seq(|points|, k requires 0 <= k < |points| => b.to2d(points[k]))
  }

  function Lift(points: seq<Vec2>, b: Basis): (r: seq<Vec3>)
    ensures |r| == |points|
    ensures forall k :: 0 <= k < |points| ==> r[k] == b.to3d(points[k])
  {
    seq(|points|, k requires 0 <= k < |points| => b.to3d(points[k]))
  }

  /** `triangulate`: fewer than three points come back unchanged; otherwise
      project, bridge the holes, clip ears (within `fuel` iterations) and
      lift the corners back. `basisOf` stands for the Gram-Schmidt basis the
      source derives from the points themselves. */
  function Triangulate(points: seq<Vec3>, basisOf: seq<Vec3> -> Basis, fuel: nat): (r: Option<seq<Vec3>>)
    ensures |points| < 3 ==> r == Some(points)
    ensures |points| >= 3 && r.Some? ==>
      var a := Augment.AugmentPolygon(Project(points, basisOf(points)));
      |r.value| == (if |a| >= 3 then 3 * (|a| - 2) else |a|)
    ensures |points| >= 3 && r.Some? ==>
      forall k :: 0 <= k < |r.value| ==>
        exists j :: 0 <= j < |points| &&
          r.value[k] == basisOf(points).to3d(basisOf(points).to2d(points[j]))
  {
    if |points| < 3 then Some(points)
    else
      var b := basisOf(points);
      var flat := Project(points, b);
      var a := Augment.AugmentPolygon(flat);
      match EarClip.Triangulate2d(a, fuel)
      case None => None
      case Some(t) =>
        var out := Lift(t, b);
        assert forall k :: 0 <= k < |out| ==> exists j :: 0 <= j < |points| && out[k] == b.to3d(b.to2d(points[j])) by {
          forall k | 0 <= k < |out|
            ensures exists j :: 0 <= j < |points| && out[k] == b.to3d(b.to2d(points[j]))
          {
            assert t[k] in t;
            assert t[k] in flat;
            var j :| 0 <= j < |flat| && flat[j] == t[k];
          }
        }
        Some(out)
  }

  /** A ring that never returns to its first point has no closed outer
      ring, so nothing is bridged and no triangle comes out. */
  lemma UnclosedRingYieldsNothing(points: seq<Vec3>, basisOf: seq<Vec3> -> Basis, fuel: nat)
    requires |points| >= 3
    requires forall j :: 1 <= j < |points| ==>
      basisOf(points).to2d(points[j]) != basisOf(points).to2d(points[0])
    ensures Triangulate(points, basisOf, fuel) == Some([])
  {
    var flat := Project(points, basisOf(points));
    OuterRingReturns(flat);
    assert Augment.Split(flat).0 == [];
  }

  /** A non-empty outer ring closes on a later copy of the first point. */
  lemma OuterRingReturns(flat: seq<Vec2>)
    ensures Augment.Split(flat).0 != [] ==>
      exists j :: 1 <= j < |flat| && flat[j] == flat[0]
  {
    var (outer, holes) := Augment.Split(flat);
    if outer != [] {
      var rings := Augment.AllRings(outer, holes);
      assert rings[0] == outer;
      FlatStartsWithFirstRing(rings);
      assert flat[|outer|] == flat[0];
    }
  }

  lemma {:induction false} FlatStartsWithFirstRing(rings: seq<seq<Vec2>>)
    requires rings != [] && forall k :: 0 <= k < |rings| ==> |rings[k]| > 0
    ensures Augment.Closed(rings[0]) <= Augment.Flat(rings)
    decreases |rings|
  {
    if |rings| > 1 {
      var init := rings[..|rings| - 1];
      FlatStartsWithFirstRing(init);
      assert init[0] == rings[0];
    } else {
      assert rings[..|rings| - 1] == [];
    }
  }
}
