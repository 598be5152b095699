/** Ear clipping (`triangulate2d`, include/geojson.hpp:266-316).

    Three cursors walk the remaining ("unmarked") vertices. When the triangle
    at the cursors turns counter-clockwise and no other remaining vertex lies
    in it, it is emitted and its middle vertex removed; otherwise the
    cursors advance by one. The loop runs while more than three vertices
    remain, then the last three are emitted as they are.

    The source loop need not terminate (a clockwise ring never offers an
    ear), so the model counts loop iterations against a fuel budget and
    answers None when the budget runs out. */
module EarClip {
  import opened Planar
  import opened Wrappers

  /** The loop state: the remaining vertices, the emitted triangle corners
      and the cursors `index1`, `index2`, `index3`. */
  datatype ClipState = ClipState(unmarked: seq<Vec2>, triangles: seq<Vec2>, i1: nat, i2: nat, i3: nat)

  predicate Valid(s: ClipState)
  {
    s.i1 < |s.unmarked| && s.i2 < |s.unmarked| && s.i3 < |s.unmarked|
  }

  /** The inner `for (vec2 pi : unmarked)` loop: corners are skipped by
      value, any other vertex passing `intriangle2d` disqualifies the ear. */
  function NoVertexInside(us: seq<Vec2>, p0: Vec2, p1: Vec2, p2: Vec2): (r: bool)
    ensures r <==> forall k :: 0 <= k < |us| && us[k] != p0 && us[k] != p1 && us[k] != p2 ==>
      !InTriangle(us[k], p0, p1, p2)
  {
    if us == [] then true
    else if us[0] == p0 || us[0] == p1 || us[0] == p2 then NoVertexInside(us[1..], p0, p1, p2)
    else if InTriangle(us[0], p0, p1, p2) then false
    else NoVertexInside(us[1..], p0, p1, p2)
  }

  /** `found_removable_ear`. */
  predicate IsEar(s: ClipState)
    requires Valid(s)
  {
    var p0 := s.unmarked[s.i1];
    var p1 := s.unmarked[s.i2];
    var p2 := s.unmarked[s.i3];
    Ccw(p0, p1, p2) > 0.0 && NoVertexInside(s.unmarked, p0, p1, p2)
  }

  /** `unmarked.erase(unmarked.begin() + i)`. */
  function RemoveAt(us: seq<Vec2>, i: nat): (r: seq<Vec2>)
    requires i < |us|
    ensures |r| == |us| - 1
    ensures forall k :: 0 <= k < i ==> r[k] == us[k]
    ensures forall k :: i <= k < |r| ==> r[k] == us[k + 1]
  {
    us[..i] + us[i + 1..]
  }

  /** One iteration of the outer loop. */
  function Step(s: ClipState): (r: ClipState)
    requires Valid(s) && |s.unmarked| > 3
    ensures Valid(r)
    ensures |r.triangles| == |s.triangles| + 3 || |r.triangles| == |s.triangles|
    // a clipped ear: counter-clockwise, empty, and only its middle vertex goes
    ensures |r.triangles| > |s.triangles| ==>
      var p0 := s.unmarked[s.i1];
      var p1 := s.unmarked[s.i2];
      var p2 := s.unmarked[s.i3];
      && r.triangles == s.triangles + [p0, p1, p2]
      && Ccw(p0, p1, p2) > 0.0
      && (forall k :: 0 <= k < |s.unmarked| && s.unmarked[k] != p0 && s.unmarked[k] != p1 && s.unmarked[k] != p2
            ==> !InTriangle(s.unmarked[k], p0, p1, p2))
      && r.unmarked == RemoveAt(s.unmarked, s.i2)
      // the cursors keep their positions, wrapped into the shorter ring
      && r.i1 == s.i1 % (|s.unmarked| - 1) && r.i2 == s.i2 % (|s.unmarked| - 1) && r.i3 == s.i3 % (|s.unmarked| - 1)
    // an ear is clipped exactly when the cursors sit on one
    ensures IsEar(s) <==> |r.triangles| > |s.triangles|
    // no ear: nothing is emitted or removed, the cursors move on by one
    ensures |r.triangles| == |s.triangles| ==>
      && r.triangles == s.triangles && r.unmarked == s.unmarked
      && r.i1 == s.i2 && r.i2 == s.i3 && r.i3 == (s.i3 + 1) % |s.unmarked|
  {
    var p0 := s.unmarked[s.i1];
    var p1 := s.unmarked[s.i2];
    var p2 := s.unmarked[s.i3];
    if IsEar(s) then
      var us := RemoveAt(s.unmarked, s.i2);
      ClipState(us, s.triangles + [p0, p1, p2], s.i1 % |us|, s.i2 % |us|, s.i3 % |us|)
    else
      ClipState(s.unmarked, s.triangles, s.i2, s.i3, (s.i3 + 1) % |s.unmarked|)
  }

  /** The emitted corners, read three at a time, are counter-clockwise
      triangles. */
  predicate CcwTriples(tris: seq<Vec2>)
  {
    && |tris| % 3 == 0
    && forall k :: 0 <= k < |tris| && k % 3 == 0 ==> k + 2 < |tris| && Ccw(tris[k], tris[k + 1], tris[k + 2]) > 0.0
  }

  lemma {:induction false} CcwTriplesAppend(tris: seq<Vec2>, p0: Vec2, p1: Vec2, p2: Vec2)
    requires CcwTriples(tris) && Ccw(p0, p1, p2) > 0.0
    ensures CcwTriples(tris + [p0, p1, p2])
  {
    var t := tris + [p0, p1, p2];
    forall k | 0 <= k < |t| && k % 3 == 0
      ensures k + 2 < |t| && Ccw(t[k], t[k + 1], t[k + 2]) > 0.0
    {
      if k < |tris| {
        assert k + 2 < |tris|;
        assert t[k] == tris[k] && t[k + 1] == tris[k + 1] && t[k + 2] == tris[k + 2];
      } else {
        assert k == |tris|;
      }
    }
  }

  /** The outer `while (unmarked.size() > 3)` loop, one fuel unit per
      iteration. */
  function Run(s: ClipState, fuel: nat): (r: Option<ClipState>)
    requires |s.unmarked| >= 3
    requires |s.unmarked| > 3 ==> Valid(s)
    ensures |s.unmarked| == 3 ==> r == Some(s)
    ensures r.Some? ==>
      && |r.value.unmarked| == 3
      && |r.value.triangles| == |s.triangles| + 3 * (|s.unmarked| - 3)
      && (CcwTriples(s.triangles) ==> CcwTriples(r.value.triangles))
      && (forall v :: v in r.value.triangles + r.value.unmarked ==> v in s.triangles + s.unmarked)
    decreases fuel
  {
    if |s.unmarked| <= 3 then Some(s)
    else if fuel == 0 then None
    else
      var s' := Step(s);
      StepKeepsVertices(s);
      StepKeepsCcwTriples(s);
      Run(s', fuel - 1)
  }

  lemma StepKeepsCcwTriples(s: ClipState)
    requires Valid(s) && |s.unmarked| > 3
    ensures CcwTriples(s.triangles) ==> CcwTriples(Step(s).triangles)
  {
    if |Step(s).triangles| > |s.triangles| && CcwTriples(s.triangles) {
      CcwTriplesAppend(s.triangles, s.unmarked[s.i1], s.unmarked[s.i2], s.unmarked[s.i3]);
    }
  }

  /** A step only moves vertices from the remaining ones to the output. */
  lemma StepKeepsVertices(s: ClipState)
    requires Valid(s) && |s.unmarked| > 3
    ensures forall v :: v in Step(s).triangles + Step(s).unmarked ==> v in s.triangles + s.unmarked
  {
    var r := Step(s);
    forall v | v in r.triangles + r.unmarked
      ensures v in s.triangles + s.unmarked
    {
      if v in r.unmarked && |r.triangles| > |s.triangles| {
        var k :| 0 <= k < |r.unmarked| && r.unmarked[k] == v;
        if k < s.i2 {
          assert s.unmarked[k] == v;
        } else {
          assert s.unmarked[k + 1] == v;
        }
      }
    }
  }

  /** `triangulate2d`: Some(corners of the triangles, three per triangle),
      or None if the loop has not finished within `fuel` iterations. */
  function Triangulate2d(points: seq<Vec2>, fuel: nat): (r: Option<seq<Vec2>>)
    // the loop is not entered for three vertices or fewer
    ensures |points| <= 3 ==> r == Some(points)
    // n vertices give n - 2 triangles
    ensures r.Some? && |points| >= 3 ==> |r.value| == 3 * (|points| - 2)
    // every clipped ear is counter-clockwise; the final triple is whatever remained
    ensures r.Some? && |points| >= 3 ==> CcwTriples(r.value[..|r.value| - 3])
    // no vertex is invented
    ensures r.Some? ==> forall v :: v in r.value ==> v in points
  {
    if |points| <= 3 then Some(points)
    else
      var start := ClipState(points, [], 0, 1, 2);
      match Run(start, fuel)
      case None => None
      case Some(t) =>
        var out := t.triangles + t.unmarked;
        assert out[..|out| - 3] == t.triangles;
        assert forall v :: v in start.triangles + start.unmarked ==> v in points;
        Some(out)
  }

  /** A quadrilateral whose first corner triple is a counter-clockwise ear
      not containing the fourth vertex is cut, in one iteration, into the
      triangles (p0, p1, p2) and (p0, p2, p3). */
  lemma QuadrilateralFirstEar(p0: Vec2, p1: Vec2, p2: Vec2, p3: Vec2)
    requires Ccw(p0, p1, p2) > 0.0
    requires p3 != p0 && p3 != p1 && p3 != p2 ==> !InTriangle(p3, p0, p1, p2)
    ensures Triangulate2d([p0, p1, p2, p3], 1) == Some([p0, p1, p2, p0, p2, p3])
  {
    var q := [p0, p1, p2, p3];
    assert q[1..] == [p1, p2, p3] && q[1..][1..] == [p2, p3] && q[1..][1..][1..] == [p3];
    assert NoVertexInside(q, p0, p1, p2);
    var s := ClipState(q, [], 0, 1, 2);
    assert IsEar(s);
    var s' := Step(s);
    assert s'.unmarked == [p0, p2, p3];
    assert s'.triangles == [p0, p1, p2];
    assert Run(s, 1) == Run(s', 0) == Some(s');
    assert s'.triangles + s'.unmarked == [p0, p1, p2, p0, p2, p3];
  }

  /** A clockwise square never offers an ear: every iteration only moves the
      cursors, so no fuel budget is enough. */
  lemma ClockwiseSquareNeverFinishes(fuel: nat)
    ensures Triangulate2d([Vec2(0.0, 0.0), Vec2(0.0, 1.0), Vec2(1.0, 1.0), Vec2(1.0, 0.0)], fuel) == None
  {
    var sq := [Vec2(0.0, 0.0), Vec2(0.0, 1.0), Vec2(1.0, 1.0), Vec2(1.0, 0.0)];
    ClockwiseRunFails(ClipState(sq, [], 0, 1, 2), fuel);
  }

  lemma {:induction false} ClockwiseRunFails(s: ClipState, fuel: nat)
    requires s.unmarked == [Vec2(0.0, 0.0), Vec2(0.0, 1.0), Vec2(1.0, 1.0), Vec2(1.0, 0.0)]
    requires s.i1 < 4 && s.i2 == (s.i1 + 1) % 4 && s.i3 == (s.i2 + 1) % 4
    ensures Run(s, fuel) == None
    decreases fuel
  {
    if fuel > 0 {
      var u := s.unmarked;
      assert Ccw(u[s.i1], u[s.i2], u[s.i3]) == -1.0 by {
        if s.i1 == 0 {
          assert s.i2 == 1 && s.i3 == 2;
        } else if s.i1 == 1 {
          assert s.i2 == 2 && s.i3 == 3;
        } else if s.i1 == 2 {
          assert s.i2 == 3 && s.i3 == 0;
        } else {
          assert s.i2 == 0 && s.i3 == 1;
        }
      }
      assert !IsEar(s);
      var s' := Step(s);
      assert s'.unmarked == u && s'.i1 == s.i2 && s'.i2 == s.i3 && s'.i3 == (s.i3 + 1) % 4;
      ClockwiseRunFails(s', fuel - 1);
    }
  }
}
