/**
 * `PointIn`: strict containment tests of a 2D point in a triangle, a quad, an
 * axis-aligned rectangle and a circle. Points on a boundary are outside.
 */
module PointIn {
  import opened Vectors
  import opened JPLMath

  /** `math.sign` on a float: -1, 0 or 1. */
  function Sign(x: real): (s: real)
    ensures s == -1.0 || s == 0.0 || s == 1.0
    ensures s > 0.0 <==> x > 0.0
    ensures s < 0.0 <==> x < 0.0
  {
    (if x > 0.0 then 1.0 else 0.0) - (if x < 0.0 then 1.0 else 0.0)
  }

  // ---------------------------------------------------------------------------
  // Triangle

  /**
   * `Triangle` as written: the point must be strictly clockwise of the directed
   * edges v1->v2, v2->v3 and v3->v2. The last two lie on the same line with
   * opposite directions, so no point passes both (see TriangleNeverInside).
   */
  function Triangle(point: V2, v1: V2, v2: V2, v3: V2): (r: bool)
    ensures point == v1 || point == v2 || point == v3 ==> !r
  {
    AreClockwise(FromToV2(v1, point), FromToV2(v1, v2))
    && AreClockwise(FromToV2(v2, point), FromToV2(v2, v3))
    && AreClockwise(FromToV2(v3, point), FromToV2(v3, v2))
  }

  /** The second and third tests of `Triangle` always disagree, so it never reports a point inside. */
  lemma TriangleNeverInside(point: V2, v1: V2, v2: V2, v3: V2)
    ensures !Triangle(point, v1, v2, v3)
  {
    var a, b := FromToV2(v2, point), FromToV2(v2, v3);
    assert FromToV2(v3, point) == a.Minus(b);
    assert FromToV2(v3, v2) == V2(-b.x, -b.y);
    assert Perp(a.Minus(b), V2(-b.x, -b.y)) == -Perp(a, b);
  }

  /** The triangle with the evidently intended third edge v3->v1. */
  function TriangleCorrected(point: V2, v1: V2, v2: V2, v3: V2): (r: bool)
    ensures point == v1 || point == v2 || point == v3 ==> !r
  {
    AreClockwise(FromToV2(v1, point), FromToV2(v1, v2))
    && AreClockwise(FromToV2(v2, point), FromToV2(v2, v3))
    && AreClockwise(FromToV2(v3, point), FromToV2(v3, v1))
  }

  /** For a triangle wound with perp(v2 - v1, v3 - v1) > 0, the centroid is inside the corrected test. */
  lemma TriangleCorrectedCentroidInside(v1: V2, v2: V2, v3: V2)
    requires Perp(FromToV2(v1, v2), FromToV2(v1, v3)) > 0.0
    ensures TriangleCorrected(v1.Plus(v2).Plus(v3).Div(3.0), v1, v2, v3)
  {
    var g := v1.Plus(v2).Plus(v3).Div(3.0);
    var area := Perp(FromToV2(v1, v2), FromToV2(v1, v3));
    assert Perp(FromToV2(v1, g), FromToV2(v1, v2)) == -area / 3.0;
    assert Perp(FromToV2(v2, g), FromToV2(v2, v3)) == -area / 3.0;
    assert Perp(FromToV2(v3, g), FromToV2(v3, v1)) == -area / 3.0;
  }

  /** The corrected test names the same three edges whichever vertex is listed first. */
  lemma TriangleCorrectedRotation(point: V2, v1: V2, v2: V2, v3: V2)
    ensures TriangleCorrected(point, v1, v2, v3) == TriangleCorrected(point, v2, v3, v1)
  {
  }

  /** The triangle (0,0), (2,0), (1,2) and its interior point (1,1): outside as written, inside once corrected. */
  lemma TriangleExample()
    ensures !Triangle(V2(1.0, 1.0), V2(0.0, 0.0), V2(2.0, 0.0), V2(1.0, 2.0))
    ensures TriangleCorrected(V2(1.0, 1.0), V2(0.0, 0.0), V2(2.0, 0.0), V2(1.0, 2.0))
  {
    TriangleNeverInside(V2(1.0, 1.0), V2(0.0, 0.0), V2(2.0, 0.0), V2(1.0, 2.0));
  }

  /**
   * The point (5,5) is outside the same triangle, once corrected. The inputs are
   * fixed through the requires rather than written as literals in the ensures,
   * so that the solver works on names and the proof stays small.
   */
  lemma TriangleExampleOutside(p: V2, v1: V2, v2: V2, v3: V2)
    requires p == V2(5.0, 5.0) && v1 == V2(0.0, 0.0) && v2 == V2(2.0, 0.0) && v3 == V2(1.0, 2.0)
    ensures !TriangleCorrected(p, v1, v2, v3)
  {
    assert FromToV2(v2, p) == V2(3.0, 5.0) && FromToV2(v2, v3) == V2(-1.0, 2.0);
    assert !AreClockwise(FromToV2(v2, p), FromToV2(v2, v3));
  }

  lemma TriangleTranslation(point: V2, v1: V2, v2: V2, v3: V2, offset: V2)
    ensures Triangle(point.Plus(offset), v1.Plus(offset), v2.Plus(offset), v3.Plus(offset))
            == Triangle(point, v1, v2, v3)
    ensures TriangleCorrected(point.Plus(offset), v1.Plus(offset), v2.Plus(offset), v3.Plus(offset))
            == TriangleCorrected(point, v1, v2, v3)
  {
    TranslationKeepsFromTo(point, v1, offset);
    TranslationKeepsFromTo(point, v2, offset);
    TranslationKeepsFromTo(point, v3, offset);
    TranslationKeepsFromTo(v2, v1, offset);
    TranslationKeepsFromTo(v3, v2, offset);
    TranslationKeepsFromTo(v2, v3, offset);
    TranslationKeepsFromTo(v1, v3, offset);
  }

  lemma TranslationKeepsFromTo(to: V2, from: V2, offset: V2)
    ensures FromToV2(from.Plus(offset), to.Plus(offset)) == FromToV2(from, to)
  {
  }

  // ---------------------------------------------------------------------------
  // Quad

  /** The signs of the point's perp product against the four edges q1->q2, q2->q3, q3->q4, q4->q1. */
  function QuadSigns(point: V2, q1: V2, q2: V2, q3: V2, q4: V2): seq<real>
  {
    [ Sign(Perp(FromToV2(q1, point), FromToV2(q1, q2))),
      Sign(Perp(FromToV2(q2, point), FromToV2(q2, q3))),
      Sign(Perp(FromToV2(q3, point), FromToV2(q3, q4))),
      Sign(Perp(FromToV2(q4, point), FromToV2(q4, q1))) ]
  }

  /** `Quad`: the point is on the same strict side of all four edges, or on all four edge lines. */
  function Quad(point: V2, q1: V2, q2: V2, q3: V2, q4: V2): (r: bool)
    ensures r <==> AllSame(QuadSigns(point, q1, q2, q3, q4))
  {
    var s := QuadSigns(point, q1, q2, q3, q4);
    Equal4(s[0], s[1], s[2], s[3])
  }

  /** Starting the edge cycle at q2 instead of q1 does not change the answer. */
  lemma QuadRotation(point: V2, q1: V2, q2: V2, q3: V2, q4: V2)
    ensures Quad(point, q1, q2, q3, q4) == Quad(point, q2, q3, q4, q1)
  {
  }

  /** A quad collapsed to one vertex has every perp product 0, so it accepts every point. */
  lemma QuadCollapsed(point: V2, q: V2)
    ensures Quad(point, q, q, q, q)
  {
    assert FromToV2(q, q) == Zero2;
  }

  /** p is strictly to the left of the directed edge a->b. */
  predicate LeftOf(p: V2, a: V2, b: V2)
  {
    Perp(FromToV2(a, b), FromToV2(a, p)) > 0.0
  }

  /** q1, q2, q3, q4 in counter-clockwise order, each edge having both other vertices strictly on its left. */
  predicate ConvexCounterClockwise(q1: V2, q2: V2, q3: V2, q4: V2)
  {
    && LeftOf(q3, q1, q2) && LeftOf(q4, q1, q2)
    && LeftOf(q4, q2, q3) && LeftOf(q1, q2, q3)
    && LeftOf(q1, q3, q4) && LeftOf(q2, q3, q4)
    && LeftOf(q2, q4, q1) && LeftOf(q3, q4, q1)
  }

  /** For a strictly convex quad in counter-clockwise order, the vertex centroid is inside. */
  lemma QuadConvexCentroidInside(q1: V2, q2: V2, q3: V2, q4: V2)
    requires ConvexCounterClockwise(q1, q2, q3, q4)
    ensures Quad(q1.Plus(q2).Plus(q3).Plus(q4).Div(4.0), q1, q2, q3, q4)
  {
    var g := q1.Plus(q2).Plus(q3).Plus(q4).Div(4.0);
    assert Perp(FromToV2(q1, g), FromToV2(q1, q2)) < 0.0;
    assert Perp(FromToV2(q2, g), FromToV2(q2, q3)) < 0.0;
    assert Perp(FromToV2(q3, g), FromToV2(q3, q4)) < 0.0;
    assert Perp(FromToV2(q4, g), FromToV2(q4, q1)) < 0.0;
  }

  /** A point strictly right of the first edge but strictly left of the second is outside. */
  lemma QuadRejectsOppositeSides(point: V2, q1: V2, q2: V2, q3: V2, q4: V2)
    requires Perp(FromToV2(q1, point), FromToV2(q1, q2)) < 0.0
    requires Perp(FromToV2(q2, point), FromToV2(q2, q3)) > 0.0
    ensures !Quad(point, q1, q2, q3, q4)
  {
    var s := QuadSigns(point, q1, q2, q3, q4);
    assert s[0] < 0.0 < s[1];
  }

  /**
   * The point (2, 0.5) is outside the unit square (0,0), (1,0), (1,1), (0,1): it
   * is on the inner side of the edge (0,0)->(1,0) but beyond (1,0)->(1,1).
   */
  lemma QuadExampleOutside()
    ensures !Quad(V2(2.0, 0.5), V2(0.0, 0.0), V2(1.0, 0.0), V2(1.0, 1.0), V2(0.0, 1.0))
  {
    QuadRejectsOppositeSides(V2(2.0, 0.5), V2(0.0, 0.0), V2(1.0, 0.0), V2(1.0, 1.0), V2(0.0, 1.0));
  }

  lemma QuadTranslation(point: V2, q1: V2, q2: V2, q3: V2, q4: V2, offset: V2)
    ensures Quad(point.Plus(offset), q1.Plus(offset), q2.Plus(offset), q3.Plus(offset), q4.Plus(offset))
            == Quad(point, q1, q2, q3, q4)
  {
    TranslationKeepsFromTo(point, q1, offset);
    TranslationKeepsFromTo(point, q2, offset);
    TranslationKeepsFromTo(point, q3, offset);
    TranslationKeepsFromTo(point, q4, offset);
    TranslationKeepsFromTo(q2, q1, offset);
    TranslationKeepsFromTo(q3, q2, offset);
    TranslationKeepsFromTo(q4, q3, offset);
    TranslationKeepsFromTo(q1, q4, offset);
  }

  // ---------------------------------------------------------------------------
  // Rect, both overloads

  /** The edges-given overload: strictly between left and right and between bottom and top. */
  function Rect(point: V2, top: real, right: real, bottom: real, left: real): (r: bool)
    ensures r ==> left < right && bottom < top
    ensures point.x == left || point.x == right || point.y == bottom || point.y == top ==> !r
  {
    point.x < right && point.x > left && point.y < top && point.y > bottom
  }

  /** The corners-given overload: strictly inside the open box spanned by rectMin and rectMax. */
  function RectMinMax(point: V2, rectMin: V2, rectMax: V2): (r: bool)
    ensures r <==> rectMin.x < point.x < rectMax.x && rectMin.y < point.y < rectMax.y
  {
    Rect(point, rectMax.y, rectMax.x, rectMin.y, rectMin.x)
  }

  lemma RectTranslation(point: V2, top: real, right: real, bottom: real, left: real, offset: V2)
    ensures Rect(point.Plus(offset), top + offset.y, right + offset.x, bottom + offset.y, left + offset.x)
            == Rect(point, top, right, bottom, left)
  {
  }

  // ---------------------------------------------------------------------------
  // Circle

  /** Strictly closer to the centre than |radius|; a point on the circle is outside. */
  function Circle(point: V2, center: V2, radius: real): (r: bool)
    ensures r ==> radius != 0.0
    ensures LengthSq2(FromToV2(center, point)) == radius * radius ==> !r
  {
    LengthSqSymmetric(point, center);
    LengthSq2(FromToV2(point, center)) < radius * radius
  }

  lemma LengthSqSymmetric(a: V2, b: V2)
    ensures LengthSq2(FromToV2(a, b)) == LengthSq2(FromToV2(b, a))
  {
  }

  /**
   * Along any unit direction u from the centre, the point at parameter s is
   * inside exactly when |s| < |radius|.
   */
  lemma CircleAlongUnit(center: V2, u: V2, s: real, radius: real)
    requires LengthSq2(u) == 1.0
    ensures Circle(PointAlong(center, u, s), center, radius) <==> s * s < radius * radius
  {
    var p := PointAlong(center, u, s);
    assert FromToV2(p, center) == V2(-(u.x * s), -(u.y * s));
    assert LengthSq2(FromToV2(p, center)) == s * s * LengthSq2(u);
  }

  lemma CircleRadiusSign(point: V2, center: V2, radius: real)
    ensures Circle(point, center, -radius) == Circle(point, center, radius)
  {
  }

  lemma CircleTranslation(point: V2, center: V2, radius: real, offset: V2)
    ensures Circle(point.Plus(offset), center.Plus(offset), radius) == Circle(point, center, radius)
  {
    TranslationKeepsFromTo(center, point, offset);
  }
}
