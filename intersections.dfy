/**
 * `Intersections`: closed-form solving of 2D line/line and segment/segment
 * intersections through the perp-product determinant, and of ray/plane
 * intersections in 3D (the plane y = 0, and a general plane). Every routine
 * returns the source's success flag together with its out-parameters.
 */
module Intersections {
  import opened Vectors
  import opened JPLMath

  /** Absolute band on the 2D determinant inside which lines count as parallel. */
  const LineTolerance: real := 0.001
  /** Absolute band on the ray/normal dot product inside which a ray counts as parallel to a plane. */
  const PlaneTolerance: real := 0.00001

  /**
   * A float result that may be non-finite. Only division by an exact zero
   * produces the non-finite cases here: an infinity with the dividend's sign,
   * or NaN for 0 / 0 (the sign of a zero divisor is not modelled).
   */
  datatype ExtReal = Finite(value: real) | PositiveInfinity | NegativeInfinity | NaN {
    /** The float comparison `>= 0`; false for NaN. */
    predicate AtLeastZero() {
      match this
      case Finite(v) => v >= 0.0
      case PositiveInfinity => true
      case NegativeInfinity => false
      case NaN => false
    }
  }

  function Divide(num: real, den: real): (q: ExtReal)
    ensures den != 0.0 ==> q.Finite? && q.value * den == num
    ensures den == 0.0 ==> !q.Finite? && (q.AtLeastZero() <==> num > 0.0)
  {
    if den != 0.0 then Finite(num / den)
    else if num > 0.0 then PositiveInfinity
    else if num < 0.0 then NegativeInfinity
    else NaN
  }

  /** p lies on the line through origin with direction dir. */
  predicate OnLine(p: V2, origin: V2, dir: V2)
  {
    Perp(p.Minus(origin), dir) == 0.0
  }

  /** The perp product is linear in the point moved along a line. */
  lemma PerpAlong(o: V2, d: V2, t: real, q: V2, e: V2)
    ensures Perp(PointAlong(o, d, t).Minus(q), e) == Perp(o, e) + t * Perp(d, e) - Perp(q, e)
  {
  }

  // ---------------------------------------------------------------------------
  // Line2DToLine2D

  datatype LineHit = LineHit(hit: bool, distanceOnRay1: ExtReal)

  /**
   * The parameter along line 1 at which it meets line 2. Lines whose directions
   * have a perp product within the tolerance band fail, with +infinity as the
   * distance.
   */
  function Line2DToLine2D(origin1: V2, dir1: V2, origin2: V2, dir2: V2): (r: LineHit)
    ensures r.hit <==> Abs(Perp(dir2, dir1)) >= LineTolerance
    ensures !r.hit ==> r.distanceOnRay1 == PositiveInfinity
    ensures r.hit ==>
              r.distanceOnRay1.Finite? && OnLine(PointAlong(origin1, dir1, r.distanceOnRay1.value), origin2, dir2)
  {
    var denomin := Perp(dir2, dir1);
    if Abs(denomin) < LineTolerance then
      LineHit(false, PositiveInfinity)
    else
      var t := (Perp(origin1, dir2) + Perp(dir2, origin2)) / denomin;
      LineParameterSolves(origin1, dir1, origin2, dir2, t);
      LineHit(true, Finite(t))
  }

  lemma LineParameterSolves(origin1: V2, dir1: V2, origin2: V2, dir2: V2, t: real)
    requires Perp(dir2, dir1) != 0.0
    requires t == (Perp(origin1, dir2) + Perp(dir2, origin2)) / Perp(dir2, dir1)
    ensures OnLine(PointAlong(origin1, dir1, t), origin2, dir2)
  {
    PerpAlong(origin1, dir1, t, origin2, dir2);
    PerpAntisymmetric(dir1, dir2);
    PerpAntisymmetric(origin2, dir2);
    assert t * Perp(dir2, dir1) == Perp(origin1, dir2) + Perp(dir2, origin2);
  }

  /** On success the returned parameter is the only one that puts line 1's point on line 2. */
  lemma Line2DToLine2DUnique(origin1: V2, dir1: V2, origin2: V2, dir2: V2, s: real)
    requires Line2DToLine2D(origin1, dir1, origin2, dir2).hit
    requires OnLine(PointAlong(origin1, dir1, s), origin2, dir2)
    ensures Line2DToLine2D(origin1, dir1, origin2, dir2).distanceOnRay1 == Finite(s)
  {
    var d := Perp(dir2, dir1);
    PerpAlong(origin1, dir1, s, origin2, dir2);
    PerpAntisymmetric(dir1, dir2);
    PerpAntisymmetric(origin2, dir2);
    assert s * d == Perp(origin1, dir2) + Perp(dir2, origin2);
  }

  // ---------------------------------------------------------------------------
  // SegmentToSegment

  datatype SegmentHit = SegmentHit(hit: bool, distOnSegment1: real, distOnSegment2: real)

  predicate InUnitInterval(t: real)
  {
    0.0 <= t <= 1.0
  }

  /**
   * The parameters on both segments of the crossing point of their lines, and
   * whether both lie in [0, 1]. Near-parallel directions give (false, 0, 0).
   */
  function SegmentToSegment(origin1: V2, dir1: V2, origin2: V2, dir2: V2): (r: SegmentHit)
    ensures r == SegmentHit(false, 0.0, 0.0) <==> Abs(Perp(dir1, dir2)) < LineTolerance
    ensures Abs(Perp(dir1, dir2)) >= LineTolerance ==>
              PointAlong(origin1, dir1, r.distOnSegment1) == PointAlong(origin2, dir2, r.distOnSegment2)
              && (r.hit <==> InUnitInterval(r.distOnSegment1) && InUnitInterval(r.distOnSegment2))
  {
    var denomin := Perp(dir1, dir2);
    if Abs(denomin) < LineTolerance then
      SegmentHit(false, 0.0, 0.0)
    else
      var dir2To1 := origin2.Minus(origin1);
      var t1 := Perp(dir2To1, dir2) / denomin;
      var t2 := Perp(dir2To1, dir1) / denomin;
      SegmentParametersMeet(origin1, dir1, origin2, dir2);
      SegmentHit(t1 <= 1.0 && t1 >= 0.0 && t2 <= 1.0 && t2 >= 0.0, t1, t2)
  }

  lemma SegmentParametersMeet(origin1: V2, dir1: V2, origin2: V2, dir2: V2)
    requires Perp(dir1, dir2) != 0.0
    ensures var w, d := origin2.Minus(origin1), Perp(dir1, dir2);
            PointAlong(origin1, dir1, Perp(w, dir2) / d) == PointAlong(origin2, dir2, Perp(w, dir1) / d)
  {
    var w, d := origin2.Minus(origin1), Perp(dir1, dir2);
    var p1, p2 := Perp(w, dir2), Perp(w, dir1);
    var t1, t2 := p1 / d, p2 / d;
    assert t1 * d == p1 && t2 * d == p2;
    assert p1 * dir1.x - p2 * dir2.x == w.x * d;
    assert p1 * dir1.y - p2 * dir2.y == w.y * d;
    assert (t1 * dir1.x - t2 * dir2.x) * d == w.x * d;
    assert (t1 * dir1.y - t2 * dir2.y) * d == w.y * d;
    assert t1 * dir1.x - t2 * dir2.x == w.x;
    assert t1 * dir1.y - t2 * dir2.y == w.y;
  }

  /** A non-degenerate crossing has exactly one pair of parameters. */
  lemma SegmentToSegmentUnique(origin1: V2, dir1: V2, origin2: V2, dir2: V2, s1: real, s2: real)
    requires Abs(Perp(dir1, dir2)) >= LineTolerance
    requires PointAlong(origin1, dir1, s1) == PointAlong(origin2, dir2, s2)
    ensures SegmentToSegment(origin1, dir1, origin2, dir2).distOnSegment1 == s1
    ensures SegmentToSegment(origin1, dir1, origin2, dir2).distOnSegment2 == s2
  {
    var w, d := origin2.Minus(origin1), Perp(dir1, dir2);
    // w == s1 * dir1 - s2 * dir2; take its perp product with dir2 and with dir1.
    assert w == dir1.Times(s1).Minus(dir2.Times(s2));
    assert Perp(w, dir2) == s1 * d;
    assert Perp(w, dir1) == s2 * d;
  }

  /** Swapping the two segments swaps the two parameters and keeps the verdict. */
  lemma SegmentToSegmentSwap(origin1: V2, dir1: V2, origin2: V2, dir2: V2)
    ensures var r := SegmentToSegment(origin1, dir1, origin2, dir2);
            SegmentToSegment(origin2, dir2, origin1, dir1)
              == SegmentHit(r.hit, r.distOnSegment2, r.distOnSegment1)
  {
    var d := Perp(dir1, dir2);
    PerpAntisymmetric(dir1, dir2);
    if Abs(d) >= LineTolerance {
      var w := origin2.Minus(origin1);
      var w' := origin1.Minus(origin2);
      assert Perp(w', dir1) == -Perp(w, dir1);
      assert Perp(w', dir2) == -Perp(w, dir2);
      assert Perp(w', dir1) / -d == Perp(w, dir1) / d;
      assert Perp(w', dir2) / -d == Perp(w, dir2) / d;
    }
  }

  /** Two unit segments crossing at their midpoints meet at parameter 1/2 on both. */
  lemma SegmentsCrossingAtMidpoints()
    ensures SegmentToSegment(V2(0.0, 0.0), V2(2.0, 2.0), V2(0.0, 2.0), V2(2.0, -2.0))
            == SegmentHit(true, 0.5, 0.5)
  {
    var dir1, dir2, w := V2(2.0, 2.0), V2(2.0, -2.0), V2(0.0, 2.0);
    assert Perp(dir1, dir2) == -8.0;
    assert Perp(w, dir2) == -4.0;
    assert Perp(w, dir1) == -4.0;
  }

  // ---------------------------------------------------------------------------
  // RayToXZPlane and RayToXZPlane_Position

  datatype RayHit = RayHit(hit: bool, distance: real)

  /** The ray parameter at which the ray meets the plane y = 0; a hit only in front of the origin. */
  function RayToXZPlane(origin: V3, dir: V3): (r: RayHit)
    ensures Abs(dir.y) <= PlaneTolerance ==> r == RayHit(false, 0.0)
    ensures Abs(dir.y) > PlaneTolerance ==>
              origin.y + r.distance * dir.y == 0.0 && (r.hit <==> r.distance >= 0.0)
  {
    var dirY := dir.y;
    if Abs(dirY) > PlaneTolerance then
      var distance := -origin.y / dirY;
      RayHit(distance >= 0.0, distance)
    else
      RayHit(false, 0.0)
  }

  /** A hit is exactly a non-grazing ray whose origin is on the plane or on the side it points away from. */
  lemma RayToXZPlaneHitCondition(origin: V3, dir: V3)
    ensures RayToXZPlane(origin, dir).hit <==> Abs(dir.y) > PlaneTolerance && origin.y * dir.y <= 0.0
  {
    var r := RayToXZPlane(origin, dir);
    if Abs(dir.y) > PlaneTolerance {
      assert origin.y * dir.y == -r.distance * (dir.y * dir.y);
      assert dir.y * dir.y > 0.0;
    }
  }

  lemma RayToXZPlaneStraightDown()
    ensures RayToXZPlane(V3(0.0, 5.0, 0.0), V3(0.0, -1.0, 0.0)) == RayHit(true, 5.0)
    ensures !RayToXZPlane(V3(0.0, 5.0, 0.0), V3(1.0, 0.0, 0.0)).hit
  {
  }

  datatype PositionHit = PositionHit(hit: bool, point: V3)

  /** `RayToXZPlane_Position`: the point where the ray meets y = 0, or the zero vector. */
  function RayToXZPlanePosition(origin: V3, dir: V3): (r: PositionHit)
    ensures r.hit == RayToXZPlane(origin, dir).hit
    ensures r.hit ==> r.point.y == 0.0
    ensures r.hit ==> exists t :: t >= 0.0 && r.point == PointAlong3(origin, dir, t)
    ensures !r.hit ==> r.point == Zero3
  {
    var ray := RayToXZPlane(origin, dir);
    if ray.hit then
      PositionHit(true, PointAlong3(origin, dir, ray.distance))
    else
      PositionHit(false, Zero3)
  }

  // ---------------------------------------------------------------------------
  // RayToPlane, both overloads

  datatype PlaneHit = PlaneHit(hit: bool, rayDistance: ExtReal)

  lemma Dot3Along(o: V3, d: V3, t: real, n: V3)
    ensures Dot3(PointAlong3(o, d, t), n) == Dot3(o, n) + t * Dot3(d, n)
  {
  }

  lemma Dot3ScaledNormal(n: V3, k: real, o: V3)
    ensures Dot3(n.Times(k).Minus(o), n) == k * LengthSq3(n) - Dot3(o, n)
  {
  }

  /** A parameter t solving t dot(n, d) == dot(k n - o, n) puts the ray point on the plane dot(p, n) == k |n|^2. */
  lemma HitPointOnPlane(o: V3, d: V3, n: V3, k: real, t: real)
    requires t * Dot3(n, d) == Dot3(n.Times(k).Minus(o), n)
    ensures Dot3(PointAlong3(o, d, t), n) == k * LengthSq3(n)
  {
    Dot3Along(o, d, t, n);
    Dot3ScaledNormal(n, k, o);
    assert Dot3(d, n) == Dot3(n, d);
  }

  /**
   * The plane is the set of points p with dot(p, n) == k * |n|^2 (for a unit
   * normal, dot(p, n) == k). The ray parameter is computed before the
   * denominator is tested, so a ray parallel to the plane yields a non-finite
   * distance; a hit needs a non-grazing ray and a distance >= 0.
   */
  function RayToPlane(origin: V3, dir: V3, planeNormal: V3, planeDistanceFrom0: real): (r: PlaneHit)
    ensures r.hit <==> Abs(Dot3(planeNormal, dir)) > PlaneTolerance
                       && r.rayDistance.Finite? && r.rayDistance.value >= 0.0
    ensures r.rayDistance.Finite? <==> Dot3(planeNormal, dir) != 0.0
    ensures r.rayDistance.Finite? ==>
              Dot3(PointAlong3(origin, dir, r.rayDistance.value), planeNormal)
                == planeDistanceFrom0 * LengthSq3(planeNormal)
  {
    var denom := Dot3(planeNormal, dir);
    var rayDistance := Divide(Dot3(planeNormal.Times(planeDistanceFrom0).Minus(origin), planeNormal), denom);
    if rayDistance.Finite? then
      HitPointOnPlane(origin, dir, planeNormal, planeDistanceFrom0, rayDistance.value);
      PlaneHit(rayDistance.AtLeastZero() && Abs(denom) > PlaneTolerance, rayDistance)
    else
      PlaneHit(rayDistance.AtLeastZero() && Abs(denom) > PlaneTolerance, rayDistance)
  }

  /**
   * The point-on-plane overload: the signed-distance overload with
   * dot(planeNormal, pointOnPlane). For a unit normal the hit point lies in the
   * plane through pointOnPlane.
   */
  function RayToPlaneThroughPoint(origin: V3, dir: V3, planeNormal: V3, pointOnPlane: V3): (r: PlaneHit)
    ensures r.hit <==> Abs(Dot3(planeNormal, dir)) > PlaneTolerance
                       && r.rayDistance.Finite? && r.rayDistance.value >= 0.0
    ensures LengthSq3(planeNormal) == 1.0 && r.rayDistance.Finite? ==>
              Dot3(PointAlong3(origin, dir, r.rayDistance.value).Minus(pointOnPlane), planeNormal) == 0.0
  {
    RayToPlane(origin, dir, planeNormal, Dot3(planeNormal, pointOnPlane))
  }

  /**
   * With a normal that is not of unit length the hit point is not in the plane
   * through pointOnPlane: the normal (0,2,0), the point (0,1,0) and a ray from
   * the origin along +y give distance 4, not 1.
   */
  lemma RayToPlaneThroughPointNonUnitNormal(origin: V3, dir: V3, planeNormal: V3, pointOnPlane: V3)
    requires origin == Zero3 && dir == V3(0.0, 1.0, 0.0)
    requires planeNormal == V3(0.0, 2.0, 0.0) && pointOnPlane == V3(0.0, 1.0, 0.0)
    ensures var r := RayToPlaneThroughPoint(origin, dir, planeNormal, pointOnPlane);
            r.hit && r.rayDistance == Finite(4.0)
            && Dot3(PointAlong3(origin, dir, r.rayDistance.value).Minus(pointOnPlane), planeNormal) != 0.0
  {
    assert Dot3(planeNormal, pointOnPlane) == 2.0;
    assert Dot3(planeNormal.Times(2.0).Minus(origin), planeNormal) == 8.0;
  }
}
