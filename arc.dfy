/**
 * `Arc.IsClockwise`: the orientation of two points seen from a centre, as the
 * sign of the perp product of the two radius vectors.
 */
module Arc {
  import opened Vectors
  import opened JPLMath

  /** Turning from the radius to v1 to the radius to v2 goes clockwise (negative perp product). */
  function IsClockwise(v1: V2, v2: V2, center: V2): (r: bool)
    ensures v1 == v2 || v1 == center || v2 == center ==> !r
  {
    AreClockwise(v1.Minus(center), v2.Minus(center))
  }

  /** The test is a strict sign test on the perp product of the radius vectors. */
  lemma IsClockwiseIsNegativePerp(v1: V2, v2: V2, center: V2)
    ensures IsClockwise(v1, v2, center) <==> Perp(FromToV2(center, v1), FromToV2(center, v2)) < 0.0
  {
  }

  /**
   * Swapping the endpoints flips the answer unless the three points are
   * collinear, in which case both orders answer false.
   */
  lemma IsClockwiseSwap(v1: V2, v2: V2, center: V2)
    ensures Perp(v1.Minus(center), v2.Minus(center)) != 0.0 ==>
              IsClockwise(v2, v1, center) == !IsClockwise(v1, v2, center)
    ensures Perp(v1.Minus(center), v2.Minus(center)) == 0.0 ==>
              !IsClockwise(v1, v2, center) && !IsClockwise(v2, v1, center)
  {
    PerpAntisymmetric(v1.Minus(center), v2.Minus(center));
  }

  /** The answer is the orientation of the triangle (center, v1, v2): cyclic relabelling keeps it. */
  lemma IsClockwiseCyclic(v1: V2, v2: V2, center: V2)
    ensures IsClockwise(v1, v2, center) == IsClockwise(v2, center, v1)
    ensures IsClockwise(v1, v2, center) == IsClockwise(center, v1, v2)
  {
    var a, b := v1.Minus(center), v2.Minus(center);
    assert Perp(v2.Minus(v1), center.Minus(v1)) == Perp(a, b);
    assert Perp(center.Minus(v2), v1.Minus(v2)) == Perp(a, b);
  }

  /** Moving all three points by the same offset keeps the answer. */
  lemma IsClockwiseTranslation(v1: V2, v2: V2, center: V2, offset: V2)
    ensures IsClockwise(v1.Plus(offset), v2.Plus(offset), center.Plus(offset)) == IsClockwise(v1, v2, center)
  {
    assert v1.Plus(offset).Minus(center.Plus(offset)) == v1.Minus(center);
    assert v2.Plus(offset).Minus(center.Plus(offset)) == v2.Minus(center);
  }
}
