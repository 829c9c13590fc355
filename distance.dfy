/**
 * `DistanceBetween.PointAndLine`: the distance from a point to the infinite
 * line through `lineOrigin` along `lineDirNormalized`, as the absolute dot
 * product of the point's offset with the direction turned by 90 degrees. The
 * direction is not renormalised: only a unit direction gives the metric
 * distance, any other scales it by the direction's length.
 */
module DistanceBetween {
  import opened Vectors
  import opened JPLMath

  function PointAndLine(point: V2, lineOrigin: V2, lineDirNormalized: V2): (d: real)
    ensures d >= 0.0
    ensures d == Abs(Perp(lineDirNormalized, FromToV2(lineOrigin, point)))
  {
    PerpIsDotWithRotated(lineDirNormalized, FromToV2(lineOrigin, point));
    Abs(Dot2(Rotate90Cw(lineDirNormalized), FromToV2(lineOrigin, point)))
  }

  /** Every point of the line is at distance 0. */
  lemma PointAndLineZeroOnLine(lineOrigin: V2, lineDir: V2, k: real)
    ensures PointAndLine(PointAlong(lineOrigin, lineDir, k), lineOrigin, lineDir) == 0.0
  {
    var w := FromToV2(lineOrigin, PointAlong(lineOrigin, lineDir, k));
    assert w == lineDir.Times(k);
    assert Perp(lineDir, lineDir.Times(k)) == k * Perp(lineDir, lineDir);
  }

  /** For a non-zero direction only the points of the line are at distance 0. */
  lemma PointAndLineZeroOnlyOnLine(point: V2, lineOrigin: V2, lineDir: V2)
    requires LengthSq2(lineDir) > 0.0
    requires PointAndLine(point, lineOrigin, lineDir) == 0.0
    ensures point == PointAlong(lineOrigin, lineDir, Dot2(lineDir, FromToV2(lineOrigin, point)) / LengthSq2(lineDir))
  {
    var w := FromToV2(lineOrigin, point);
    var n, dot := LengthSq2(lineDir), Dot2(lineDir, w);
    var k := dot / n;
    var dx, dy, wx, wy := lineDir.x, lineDir.y, w.x, w.y;
    assert dx * wy - dy * wx == 0.0;
    // Decompose w along the direction and its normal: w |d|^2 == d dot(d, w) + rotate90cw(d) perp(d, w).
    assert wx * n == dx * dot - dy * (dx * wy - dy * wx);
    assert wy * n == dy * dot + dx * (dx * wy - dy * wx);
    assert wx * n == dx * dot && wy * n == dy * dot;
    assert k * n == dot;
    assert (dx * k) * n == wx * n && (dy * k) * n == wy * n;
    assert dx * k == wx && dy * k == wy;
    assert lineDir.Times(k) == w;
  }

  /** Sliding the origin along the direction does not change the result. */
  lemma PointAndLineSlideOrigin(point: V2, lineOrigin: V2, lineDir: V2, k: real)
    ensures PointAndLine(point, PointAlong(lineOrigin, lineDir, k), lineDir) == PointAndLine(point, lineOrigin, lineDir)
  {
    var w := FromToV2(lineOrigin, point);
    assert FromToV2(PointAlong(lineOrigin, lineDir, k), point) == w.Minus(lineDir.Times(k));
    assert Perp(lineDir, w.Minus(lineDir.Times(k))) == Perp(lineDir, w);
  }

  /** Scaling the direction by k scales the result by |k|: the direction is not renormalised. */
  lemma PointAndLineScaleDirection(point: V2, lineOrigin: V2, lineDir: V2, k: real)
    ensures PointAndLine(point, lineOrigin, lineDir.Times(k)) == Abs(k) * PointAndLine(point, lineOrigin, lineDir)
  {
    var w := FromToV2(lineOrigin, point);
    var p := Perp(lineDir, w);
    assert Perp(lineDir.Times(k), w) == k * p by {
      assert (lineDir.x * k) * w.y - (lineDir.y * k) * w.x == k * (lineDir.x * w.y - lineDir.y * w.x);
    }
    AbsProduct(k, p);
  }

  lemma AbsSquare(p: real)
    ensures Abs(p) * Abs(p) == p * p
  {
    if p < 0.0 {
      assert Abs(p) == -p;
    }
  }

  lemma AbsProduct(k: real, p: real)
    ensures Abs(k * p) == Abs(k) * Abs(p)
  {
    if k < 0.0 {
      if p < 0.0 {
        assert k * p == (-k) * (-p);
      } else {
        assert k * p == -((-k) * p);
      }
    } else if p < 0.0 {
      assert k * p == -(k * (-p));
    }
  }

  /** Moving the point and the line by the same offset does not change the result. */
  lemma PointAndLineTranslation(point: V2, lineOrigin: V2, lineDir: V2, offset: V2)
    ensures PointAndLine(point.Plus(offset), lineOrigin.Plus(offset), lineDir) == PointAndLine(point, lineOrigin, lineDir)
  {
    assert FromToV2(lineOrigin.Plus(offset), point.Plus(offset)) == FromToV2(lineOrigin, point);
  }

  /**
   * With a unit direction the result is the metric distance: its square is the
   * squared distance from the point to its orthogonal projection on the line.
   */
  lemma PointAndLineIsDistance(point: V2, lineOrigin: V2, lineDir: V2)
    requires LengthSq2(lineDir) == 1.0
    ensures var d, w := PointAndLine(point, lineOrigin, lineDir), FromToV2(lineOrigin, point);
            d * d == LengthSq2(FromToV2(PointAlong(lineOrigin, lineDir, Dot2(lineDir, w)), point))
  {
    var w := FromToV2(lineOrigin, point);
    var k := Dot2(lineDir, w);
    assert FromToV2(PointAlong(lineOrigin, lineDir, k), point) == w.Minus(lineDir.Times(k));
    UnitSquaresAt(w, lineDir, k);
  }

  /** With a unit direction no point of the line is closer than the result. */
  lemma PointAndLineIsNearest(point: V2, lineOrigin: V2, lineDir: V2, s: real)
    requires LengthSq2(lineDir) == 1.0
    ensures var d := PointAndLine(point, lineOrigin, lineDir);
            d * d <= LengthSq2(FromToV2(PointAlong(lineOrigin, lineDir, s), point))
  {
    var w := FromToV2(lineOrigin, point);
    assert FromToV2(PointAlong(lineOrigin, lineDir, s), point) == w.Minus(lineDir.Times(s));
    UnitSquaresAt(w, lineDir, s);
  }

  /** The squared result is at most the squared distance to any line point, with equality at the projection. */
  lemma UnitSquaresAt(w: V2, dir: V2, s: real)
    requires LengthSq2(dir) == 1.0
    ensures Abs(Perp(dir, w)) * Abs(Perp(dir, w)) <= LengthSq2(w.Minus(dir.Times(s)))
    ensures s == Dot2(dir, w) ==> Abs(Perp(dir, w)) * Abs(Perp(dir, w)) == LengthSq2(w.Minus(dir.Times(s)))
  {
    var p, e := Perp(dir, w), s - Dot2(dir, w);
    UnitSquares(w, dir, s);
    AbsSquare(p);
    SquareNonNegative(e);
    assert LengthSq2(w.Minus(dir.Times(s))) == p * p + e * e;
    assert s == Dot2(dir, w) ==> e * e == 0.0;
  }

  /**
   * For a unit direction d, the squared length of w - s d is perp(d, w)^2 plus
   * (s - dot(d, w))^2.
   */
  lemma UnitSquares(w: V2, dir: V2, s: real)
    requires LengthSq2(dir) == 1.0
    ensures LengthSq2(w.Minus(dir.Times(s))) == Perp(dir, w) * Perp(dir, w) + (s - Dot2(dir, w)) * (s - Dot2(dir, w))
  {
    var a, b, x, y := dir.x, dir.y, w.x, w.y;
    assert w.Minus(dir.Times(s)) == V2(x - s * a, y - s * b);
    SquaresAlongUnit(a, b, x, y, s);
  }

  /** The scalar identity behind UnitSquares, with a^2 + b^2 == 1. */
  lemma SquaresAlongUnit(a: real, b: real, x: real, y: real, s: real)
    requires a * a + b * b == 1.0
    ensures (x - s * a) * (x - s * a) + (y - s * b) * (y - s * b)
            == (a * y - b * x) * (a * y - b * x) + (s - (a * x + b * y)) * (s - (a * x + b * y))
  {
    var u := a * a + b * b;
    var k := a * x + b * y;
    assert (x - s * a) * (x - s * a) + (y - s * b) * (y - s * b) == x * x + y * y - 2.0 * s * k + s * s * u;
    assert (a * y - b * x) * (a * y - b * x) + k * k == u * (x * x + y * y);
    assert (s - k) * (s - k) == s * s - 2.0 * s * k + k * k;
  }

  lemma SquareNonNegative(e: real)
    ensures e * e >= 0.0
  {
    if e < 0.0 {
      assert e * e == (-e) * (-e);
    }
  }
}
