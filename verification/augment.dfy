/** Hole bridging of include/geojson.hpp (`augment`): the projected point
    sequence is split into an outer ring and holes, every hole is rotated so
    that its rightmost vertex comes first, the holes are ordered by that
    vertex's x (descending) and each is spliced into the outer ring through a
    bridge edge, leaving one simple vertex sequence for ear clipping. */
module Augment {
  import opened Planar
  import opened Wrappers

  /** `FLT_MIN`, the smallest positive normalised single-precision float,
      1.17549435e-38 written out. It is the starting maximum of the rightmost
      vertex search, so only x values above it can win. */
  const FltMin: real := 0.0000000000000000000000000000000000000117549435

  // ---------------------------------------------------------------------
  // Ring split (include/geojson.hpp:166-180)
  // ---------------------------------------------------------------------

  /** A ring closes at its first return to its starting point: no later
      vertex of the ring repeats the first one. */
  predicate FirstReturn(r: seq<Vec2>)
  {
    |r| > 0 && forall j :: 1 <= j < |r| ==> r[j] != r[0]
  }

  /** A ring as it appears in the input: its vertices followed by the
      duplicate of its first vertex that closes it. */
  function Closed(r: seq<Vec2>): seq<Vec2>
    requires |r| > 0
  {
    r + [r[0]]
  }

  /** The input prefix consumed by a list of rings. */
  function Flat(rings: seq<seq<Vec2>>): (f: seq<Vec2>)
    requires forall k :: 0 <= k < |rings| ==> |rings[k]| > 0
  {
    if rings == [] then [] else Flat(rings[..|rings| - 1]) + Closed(rings[|rings| - 1])
  }

  /** The outer ring followed by the holes, or nothing when no ring closed. */
  function AllRings(outer: seq<Vec2>, holes: seq<seq<Vec2>>): seq<seq<Vec2>>
  {
    if outer == [] then holes else [outer] + holes
  }

  /** What a split promises: the closed rings, outer first, spell out a
      prefix of the input, each ring ends at its first return, and the
      trailing points never return to their first point (an unclosed ring,
      which is dropped). Holes only exist once the outer ring closed. */
  predicate SplitSpec(points: seq<Vec2>, outer: seq<Vec2>, holes: seq<seq<Vec2>>)
  {
    && (outer == [] ==> holes == [])
    && (forall k :: 0 <= k < |AllRings(outer, holes)| ==> FirstReturn(AllRings(outer, holes)[k]))
    && var f := Flat(AllRings(outer, holes));
       && f <= points
       && (|f| < |points| ==> FirstReturn(points[|f|..]))
  }

  /** The state of the scanning loop: `pi` is `polygon_index`, `i` the loop
      variable; everything before `pi` is consumed and points[pi+1..i) was
      compared against points[pi] without a match. */
  predicate ScanInv(points: seq<Vec2>, pi: nat, i: nat, outer: seq<Vec2>, holes: seq<seq<Vec2>>)
  {
    && pi < i
    && pi <= |points|
    && (pi == 0 <==> outer == [])
    && (outer == [] ==> holes == [])
    && (forall k :: 0 <= k < |AllRings(outer, holes)| ==> FirstReturn(AllRings(outer, holes)[k]))
    && Flat(AllRings(outer, holes)) == points[..pi]
    && (forall j :: pi < j < i && j < |points| ==> points[j] != points[pi])
  }

  /** The loop of lines 170-180. On a return to points[pi] the ring
      points[pi..i) is stored (as the outer ring while pi is 0, as a hole
      afterwards) and scanning resumes two past the match: `polygon_index =
      ++i` plus the loop's own increment. */
  function SplitScan(points: seq<Vec2>, pi: nat, i: nat, outer: seq<Vec2>, holes: seq<seq<Vec2>>)
    : (r: (seq<Vec2>, seq<seq<Vec2>>))
    requires ScanInv(points, pi, i, outer, holes)
    ensures SplitSpec(points, r.0, r.1)
    decreases |points| - i
  {
    if i >= |points| then
      ScanFinish(points, pi, i, outer, holes);
      (outer, holes)
    else if points[i] == points[pi] then
      var ring := points[pi..i];
      var outer' := if pi == 0 then ring else outer;
      var holes' := if pi == 0 then holes else holes + [ring];
      ScanClose(points, pi, i, outer, holes, outer', holes');
      SplitScan(points, i + 1, i + 2, outer', holes')
    else
      SplitScan(points, pi, i + 1, outer, holes)
  }

  /** Leaving the loop: whatever was not consumed never returned to its
      first point. */
  lemma ScanFinish(points: seq<Vec2>, pi: nat, i: nat, outer: seq<Vec2>, holes: seq<seq<Vec2>>)
    requires ScanInv(points, pi, i, outer, holes) && i >= |points|
    ensures SplitSpec(points, outer, holes)
  {
    assert points[..pi] + points[pi..] == points;
    if pi < |points| {
      var rest := points[pi..];
      forall j | 1 <= j < |rest|
        ensures rest[j] != rest[0]
      {
        assert rest[j] == points[pi + j];
      }
    }
  }

  /** A return to points[pi] stores the ring points[pi..i) and consumes it
      together with its closing duplicate. */
  lemma ScanClose(points: seq<Vec2>, pi: nat, i: nat, outer: seq<Vec2>, holes: seq<seq<Vec2>>,
                  outer': seq<Vec2>, holes': seq<seq<Vec2>>)
    requires ScanInv(points, pi, i, outer, holes)
    requires i < |points| && points[i] == points[pi]
    requires outer' == if pi == 0 then points[pi..i] else outer
    requires holes' == if pi == 0 then holes else holes + [points[pi..i]]
    ensures ScanInv(points, i + 1, i + 2, outer', holes')
  {
    var ring := points[pi..i];
    var old_rings := AllRings(outer, holes);
    var rings := AllRings(outer', holes');
    assert rings == old_rings + [ring];
    assert rings[..|rings| - 1] == old_rings;
    forall j | 1 <= j < |ring|
      ensures ring[j] != ring[0]
    {
      assert ring[j] == points[pi + j];
    }
    assert FirstReturn(ring);
    forall k | 0 <= k < |rings|
      ensures FirstReturn(rings[k])
    {
      if k < |old_rings| {
        assert rings[k] == old_rings[k];
      }
    }
    assert points[..i + 1] == points[..pi] + Closed(ring);
  }

  /** Splits the point sequence into the outer ring and the holes. */
  function Split(points: seq<Vec2>): (r: (seq<Vec2>, seq<seq<Vec2>>))
    ensures SplitSpec(points, r.0, r.1)
    ensures NonEmptyRings(r.1)
    ensures r.1 != [] ==> |r.0| > 0
  {
    var r := SplitScan(points, 0, 1, [], []);
    SplitSpecRings(points, r.0, r.1);
    r
  }

  /** Every ring of a split is non-empty. */
  lemma SplitSpecRings(points: seq<Vec2>, outer: seq<Vec2>, holes: seq<seq<Vec2>>)
    requires SplitSpec(points, outer, holes)
    ensures NonEmptyRings(holes)
  {
    if outer != [] {
      forall k | 0 <= k < |holes|
        ensures |holes[k]| > 0
      {
        assert AllRings(outer, holes)[k + 1] == holes[k];
      }
    }
  }

  // ---------------------------------------------------------------------
  // Hole rotation (include/geojson.hpp:192-207)
  // ---------------------------------------------------------------------

  /** `max_index`: the first index of the largest x among the x values
      above FLT_MIN, or 0 when no x exceeds FLT_MIN. */
  predicate RightmostSpec(hole: seq<Vec2>, k: nat)
  {
    if exists j :: 0 <= j < |hole| && hole[j].x > FltMin then
      && k < |hole|
      && hole[k].x > FltMin
      && (forall j :: 0 <= j < |hole| ==> hole[j].x <= hole[k].x)
      && (forall j :: 0 <= j < k ==> hole[j].x < hole[k].x)
    else
      k == 0
  }

  function RightmostScan(hole: seq<Vec2>, j: nat, maxX: real, maxIndex: nat): (k: nat)
    requires j <= |hole|
    requires || (maxIndex == 0 && maxX == FltMin && forall t :: 0 <= t < j ==> hole[t].x <= FltMin)
             || (&& maxIndex < j && hole[maxIndex].x == maxX && maxX > FltMin
                 && (forall t :: 0 <= t < j ==> hole[t].x <= maxX)
                 && (forall t :: 0 <= t < maxIndex ==> hole[t].x < maxX))
    ensures RightmostSpec(hole, k)
    decreases |hole| - j
  {
    if j == |hole| then maxIndex
    else if hole[j].x > maxX then RightmostScan(hole, j + 1, hole[j].x, j)
    else RightmostScan(hole, j + 1, maxX, maxIndex)
  }

  function Rightmost(hole: seq<Vec2>): (k: nat)
    ensures RightmostSpec(hole, k)
    ensures |hole| > 0 ==> k < |hole|
  {
    RightmostScan(hole, 0, FltMin, 0)
  }

  /** `std::rotate(begin, begin + k, end)`: element k moves to the front. */
  function Rotate(s: seq<Vec2>, k: nat): (r: seq<Vec2>)
    requires k <= |s|
    ensures |r| == |s|
    ensures forall j :: 0 <= j < |s| ==> r[j] == s[(j + k) % |s|]
    ensures multiset(r) == multiset(s)
  {
    var r := s[k..] + s[..k];
    assert s[..k] + s[k..] == s;
    forall j | 0 <= j < |s|
      ensures r[j] == s[(j + k) % |s|]
    {
      RotateAt(s, k, j);
    }
    r
  }

  lemma RotateAt(s: seq<Vec2>, k: nat, j: nat)
    requires k <= |s| && j < |s|
    ensures (s[k..] + s[..k])[j] == s[(j + k) % |s|]
  {
    if j < |s| - k {
      assert (j + k) % |s| == j + k;
    } else {
      assert (j + k) % |s| == j + k - |s|;
    }
  }

  /** Every hole rotated so that its rightmost vertex leads. */
  function RotateHoles(holes: seq<seq<Vec2>>): (r: seq<seq<Vec2>>)
    requires forall k :: 0 <= k < |holes| ==> |holes[k]| > 0
    ensures |r| == |holes|
    ensures forall k :: 0 <= k < |holes| ==>
      |r[k]| == |holes[k]| && r[k][0] == holes[k][Rightmost(holes[k])] &&
      multiset(r[k]) == multiset(holes[k])
  {
    seq(|holes|, k requires 0 <= k < |holes| => Rotate(holes[k], Rightmost(holes[k])))
  }

  // ---------------------------------------------------------------------
  // Hole order (include/geojson.hpp:216-224)
  // ---------------------------------------------------------------------

  function Key(h: seq<Vec2>): real
    requires |h| > 0
  {
    h[0].x
  }

  predicate NonEmptyRings(hs: seq<seq<Vec2>>)
  {
    forall k :: 0 <= k < |hs| ==> |hs[k]| > 0
  }

  predicate SortedDescending(hs: seq<seq<Vec2>>)
    requires NonEmptyRings(hs)
  {
    forall i, j :: 0 <= i < j < |hs| ==> Key(hs[i]) >= Key(hs[j])
  }

  function InsertDescending(h: seq<Vec2>, s: seq<seq<Vec2>>): (r: seq<seq<Vec2>>)
    requires |h| > 0 && NonEmptyRings(s) && SortedDescending(s)
    ensures NonEmptyRings(r) && SortedDescending(r)
    ensures multiset(r) == multiset(s) + multiset{h}
    ensures forall k :: 0 <= k < |r| ==> r[k] == h || r[k] in s
  {
    if s == [] || Key(h) >= Key(s[0]) then
      ConsSorted(h, s);
      [h] + s
    else
      var rest := InsertDescending(h, s[1..]);
      assert s == [s[0]] + s[1..];
      BoundedByHead(h, s, rest);
      ConsSorted(s[0], rest);
      [s[0]] + rest
  }

  /** A ring whose key bounds a sorted list may lead it. */
  lemma ConsSorted(x: seq<Vec2>, s: seq<seq<Vec2>>)
    requires |x| > 0 && NonEmptyRings(s) && SortedDescending(s)
    requires forall k :: 0 <= k < |s| ==> Key(s[k]) <= Key(x)
    ensures NonEmptyRings([x] + s) && SortedDescending([x] + s)
  {
    var r := [x] + s;
    forall i, j | 0 <= i < j < |r|
      ensures Key(r[i]) >= Key(r[j])
    {
      assert r[j] == s[j - 1];
      if i > 0 {
        assert r[i] == s[i - 1];
      }
    }
  }

  /** Everything inserted into the tail of a sorted list, together with
      a ring of smaller key, stays below the head. */
  lemma BoundedByHead(h: seq<Vec2>, s: seq<seq<Vec2>>, rest: seq<seq<Vec2>>)
    requires |h| > 0 && s != [] && NonEmptyRings(s) && SortedDescending(s) && Key(h) < Key(s[0])
    requires NonEmptyRings(rest)
    requires forall k :: 0 <= k < |rest| ==> rest[k] == h || rest[k] in s[1..]
    ensures forall k :: 0 <= k < |rest| ==> Key(rest[k]) <= Key(s[0])
  {
    forall k | 0 <= k < |rest|
      ensures Key(rest[k]) <= Key(s[0])
    {
      if rest[k] != h {
        var t :| 0 <= t < |s[1..]| && s[1..][t] == rest[k];
        assert s[t + 1] == rest[k];
      }
    }
  }

  /** The holes in descending order of their first vertex's x. `std::sort`
      is not stable; this insertion sort keeps equal keys in input order,
      which is one of the orders the source may produce. */
  function SortHoles(hs: seq<seq<Vec2>>): (r: seq<seq<Vec2>>)
    requires NonEmptyRings(hs)
    ensures NonEmptyRings(r) && SortedDescending(r)
    ensures multiset(r) == multiset(hs)
  {
    if hs == [] then []
    else
      assert hs == [hs[0]] + hs[1..];
      InsertDescending(hs[0], SortHoles(hs[1..]))
  }

  // ---------------------------------------------------------------------
  // Bridging (include/geojson.hpp:229-261)
  // ---------------------------------------------------------------------

  /** Squared distance; the source compares square roots, which order the
      same way. */
  function Dist2(p: Vec2, q: Vec2): real
  {
    (p.x - q.x) * (p.x - q.x) + (p.y - q.y) * (p.y - q.y)
  }

  /** Vertex j of the current polygon may take the bridge to hole start p. */
  predicate Candidate(a: seq<Vec2>, p: Vec2, j: int)
  {
    0 <= j < |a| && a[j].x >= p.x
  }

  /** `closest_index`: the first candidate at minimal distance, 0 if there
      is no candidate. */
  predicate BridgeSpec(a: seq<Vec2>, p: Vec2, c: nat)
  {
    if exists j :: 0 <= j < |a| && Candidate(a, p, j) then
      && Candidate(a, p, c)
      && (forall j :: 0 <= j < |a| && Candidate(a, p, j) ==> Dist2(p, a[c]) <= Dist2(p, a[j]))
      && (forall j :: 0 <= j < c && Candidate(a, p, j) ==> Dist2(p, a[c]) < Dist2(p, a[j]))
    else
      c == 0
  }

  function BridgeScan(a: seq<Vec2>, p: Vec2, j: nat, best: Option<nat>): (c: nat)
    requires j <= |a|
    requires best.None? ==> forall t :: 0 <= t < j ==> !Candidate(a, p, t)
    requires best.Some? ==>
      && best.value < j && Candidate(a, p, best.value)
      && (forall t :: 0 <= t < j && Candidate(a, p, t) ==> Dist2(p, a[best.value]) <= Dist2(p, a[t]))
      && (forall t :: 0 <= t < best.value && Candidate(a, p, t) ==> Dist2(p, a[best.value]) < Dist2(p, a[t]))
    ensures BridgeSpec(a, p, c)
    decreases |a| - j
  {
    if j == |a| then
      match best
      case None => 0
      case Some(b) => b
    else if a[j].x < p.x then BridgeScan(a, p, j + 1, best)
    else if best.None? || Dist2(p, a[j]) < Dist2(p, a[best.value]) then BridgeScan(a, p, j + 1, Some(j))
    else BridgeScan(a, p, j + 1, best)
  }

  function BridgeIndex(a: seq<Vec2>, p: Vec2): (c: nat)
    ensures BridgeSpec(a, p, c)
    ensures |a| > 0 ==> c < |a|
  {
    BridgeScan(a, p, 0, None)
  }

  /** `std::vector::insert(begin + pos, xs)`. */
  function InsertAt(v: seq<Vec2>, pos: nat, xs: seq<Vec2>): (r: seq<Vec2>)
    requires pos <= |v|
    ensures |r| == |v| + |xs|
  {
    v[..pos] + xs + v[pos..]
  }

  /** The polygon with hole h spliced in at bridge vertex c: walk to a[c],
      around the hole, back to the hole's start, back to a[c], and on. */
  function Merge(a: seq<Vec2>, c: nat, h: seq<Vec2>): (r: seq<Vec2>)
    requires c < |a| && |h| > 0
    ensures |r| == |a| + |h| + 2
    ensures forall v :: v in r ==> v in a || v in h
  {
    a[..c + 1] + h + [h[0], a[c]] + a[c + 1..]
  }

  /** The three `insert` calls of lines 253-255, made one after the other on
      the growing vector, build exactly the merged polygon. */
  lemma {:induction false} MergeIsThreeInserts(a: seq<Vec2>, c: nat, h: seq<Vec2>)
    requires c < |a| && |h| > 0
    ensures var a1 := InsertAt(a, c + 1, h);
            var a2 := InsertAt(a1, c + 1 + |h|, [h[0]]);
            c < |a2| &&
            InsertAt(a2, c + 1 + |h| + 1, [a2[c]]) == Merge(a, c, h)
  {
    var a1 := InsertAt(a, c + 1, h);
    assert a1[..c + 1 + |h|] == a[..c + 1] + h;
    assert a1[c + 1 + |h|..] == a[c + 1..];
    var a2 := InsertAt(a1, c + 1 + |h|, [h[0]]);
    assert a2[..c + 1 + |h| + 1] == a[..c + 1] + h + [h[0]];
    assert a2[c + 1 + |h| + 1..] == a[c + 1..];
    assert a2[c] == a[c];
  }

  function HolesWeight(hs: seq<seq<Vec2>>): nat
  {
    if hs == [] then 0 else HolesWeight(hs[..|hs| - 1]) + |hs[|hs| - 1]| + 2
  }

  /** The loop of lines 230-261 over the sorted holes. */
  function BridgeAll(a: seq<Vec2>, hs: seq<seq<Vec2>>): (r: seq<Vec2>)
    requires NonEmptyRings(hs)
    requires hs != [] ==> |a| > 0
    ensures |r| == |a| + HolesWeight(hs)
    ensures forall v :: v in r ==> v in a || exists k :: 0 <= k < |hs| && v in hs[k]
    decreases |hs|
  {
    if hs == [] then a
    else
      var a' := Merge(a, BridgeIndex(a, hs[0][0]), hs[0]);
      var r := BridgeAll(a', hs[1..]);
      HolesWeightCons(hs);
      r
  }

  lemma {:induction false} HolesWeightCons(hs: seq<seq<Vec2>>)
    requires hs != []
    ensures HolesWeight(hs) == |hs[0]| + 2 + HolesWeight(hs[1..])
    decreases |hs|
  {
    if |hs| == 1 {
      assert hs[1..] == [];
      assert hs[..|hs| - 1] == [];
    } else {
      var init := hs[..|hs| - 1];
      HolesWeightCons(init);
      assert init[1..] == hs[1..][..|hs[1..]| - 1];
      assert init[0] == hs[0];
    }
  }

  /** `augment`: split, rotate each hole, order the holes, bridge them in. */
  function AugmentPolygon(points: seq<Vec2>): (r: seq<Vec2>)
    ensures var (outer, holes) := Split(points);
            |r| == |outer| + HolesWeight(SortHoles(RotateHoles(holes)))
    ensures forall v :: v in r ==> v in points
  {
    var (outer, holes) := Split(points);
    var sorted := SortHoles(RotateHoles(holes));
    SortedHolesFromInput(points);
    BridgeAll(outer, sorted)
  }

  /** Rotating and sorting the holes keeps their vertices input vertices. */
  lemma SortedHolesFromInput(points: seq<Vec2>)
    ensures NonEmptyRings(Split(points).1)
    ensures forall v :: v in Split(points).0 ==> v in points
    ensures forall k, v ::
      (0 <= k < |SortHoles(RotateHoles(Split(points).1))| && v in SortHoles(RotateHoles(Split(points).1))[k])
      ==> v in points
  {
    var (outer, holes) := Split(points);
    SplitVerticesFromInput(points);
    forall v | v in outer
      ensures v in points
    {
      assert v in multiset(outer);
    }
    SortedVertices(holes, points);
  }

  lemma SortedVertices(holes: seq<seq<Vec2>>, pool: seq<Vec2>)
    requires NonEmptyRings(holes)
    requires forall k :: 0 <= k < |holes| ==> multiset(holes[k]) <= multiset(pool)
    ensures forall k, v ::
      (0 <= k < |SortHoles(RotateHoles(holes))| && v in SortHoles(RotateHoles(holes))[k]) ==> v in pool
  {
    var rotated := RotateHoles(holes);
    var sorted := SortHoles(rotated);
    forall k, v | 0 <= k < |sorted| && v in sorted[k]
      ensures v in pool
    {
      assert sorted[k] in multiset(rotated);
      var m :| 0 <= m < |rotated| && rotated[m] == sorted[k];
      assert v in multiset(rotated[m]);
      assert multiset(rotated[m]) == multiset(holes[m]);
    }
  }

  /** The vertices of every ring are input vertices. */
  lemma SplitVerticesFromInput(points: seq<Vec2>)
    ensures multiset(Split(points).0) <= multiset(points)
    ensures forall k :: 0 <= k < |Split(points).1| ==> multiset(Split(points).1[k]) <= multiset(points)
  {
    var (outer, holes) := Split(points);
    var rings := AllRings(outer, holes);
    FlatContainsRings(rings);
    var f := Flat(rings);
    assert points == f + points[|f|..];
    if outer != [] {
      assert rings[0] == outer;
      forall k | 0 <= k < |holes|
        ensures multiset(holes[k]) <= multiset(points)
      {
        assert rings[k + 1] == holes[k];
      }
    }
  }

  lemma {:induction false} FlatContainsRings(rings: seq<seq<Vec2>>)
    requires forall k :: 0 <= k < |rings| ==> |rings[k]| > 0
    ensures forall k :: 0 <= k < |rings| ==> multiset(rings[k]) <= multiset(Flat(rings))
    decreases |rings|
  {
    if rings != [] {
      var init := rings[..|rings| - 1];
      FlatContainsRings(init);
      forall k | 0 <= k < |rings|
        ensures multiset(rings[k]) <= multiset(Flat(rings))
      {
        if k < |rings| - 1 {
          assert rings[k] == init[k];
        }
      }
    }
  }
}
