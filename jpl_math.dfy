/**
 * The scalar and vector helpers of `JPLMath`: ordering two numbers, midpoints
 * and differences, the 2D perp product and the orientation test built on it,
 * the 90-degree rotations, first-index argmin/argmax over a slice, running sums
 * and averages over slices, and the chained equality tests.
 *
 * A `NativeSlice<T>` is a read-only view here, so it is modelled as a `seq`.
 */
module JPLMath {
  import opened Vectors

  // ---------------------------------------------------------------------------
  // minmax

  /** `minmax`: the two inputs in non-decreasing order (the out-parameters). */
  method MinMax(a: real, b: real) returns (min: real, max: real)
    ensures min <= max
    ensures multiset{min, max} == multiset{a, b}
  {
    if a > b {
      min, max := b, a;
    } else {
      min, max := a, b;
    }
  }

  // ---------------------------------------------------------------------------
  // middle and fromTo, for float, float2 and float3

  function Middle(a: real, b: real): (m: real)
    ensures m - a == b - m
  {
    (a + b) / 2.0
  }

  function MiddleV2(a: V2, b: V2): (m: V2)
    ensures m.Minus(a) == b.Minus(m)
  {
    a.Plus(b).Div(2.0)
  }

  function MiddleV3(a: V3, b: V3): (m: V3)
    ensures m.Minus(a) == b.Minus(m)
  {
    a.Plus(b).Div(2.0)
  }

  /** The midpoint does not depend on the order of its arguments. */
  lemma MiddleSymmetric(a: real, b: real, u: V2, v: V2, p: V3, q: V3)
    ensures Middle(a, b) == Middle(b, a)
    ensures MiddleV2(u, v) == MiddleV2(v, u)
    ensures MiddleV3(p, q) == MiddleV3(q, p)
  {
  }

  /** `fromTo`: the offset that carries `from` onto `to`. */
  function FromTo(from: real, to: real): (r: real)
    ensures from + r == to
  {
    to - from
  }

  function FromToV2(from: V2, to: V2): V2
  {
    to.Minus(from)
  }

  function FromToV3(from: V3, to: V3): (r: V3)
    ensures from.Plus(r) == to
  {
    to.Minus(from)
  }

  /** `fromTo` gives the offset that carries its first argument onto its second. */
  lemma FromToCarries(a: real, b: real, u: V2, v: V2, p: V3, q: V3)
    ensures a + FromTo(a, b) == b
    ensures u.Plus(FromToV2(u, v)) == v
    ensures p.Plus(FromToV3(p, q)) == q
  {
  }

  // ---------------------------------------------------------------------------
  // perp, cross, areClockwise, rotate90cw, rotate90ccw

  /** The 2D perp (scalar cross) product: the signed area spanned by a and b. */
  function Perp(a: V2, b: V2): real
  {
    a.x * b.y - a.y * b.x
  }

  /** `cross` is defined as `perp`; like it, it changes sign when its arguments swap. */
  function Cross(a: V2, b: V2): (r: real)
    ensures r == -Perp(b, a)
  {
    Perp(a, b)
  }

  lemma PerpAntisymmetric(a: V2, b: V2)
    ensures Perp(a, b) == -Perp(b, a)
    ensures Perp(a, a) == 0.0
    ensures Cross(a, b) == Perp(a, b)
  {
  }

  /** Perp is the dot product with the first argument turned by `rotate90cw`. */
  lemma PerpIsDotWithRotated(a: V2, b: V2)
    ensures Perp(a, b) == Dot2(Rotate90Cw(a), b)
  {
  }

  /** `areClockwise`: the perp product of a and b is strictly negative. */
  predicate AreClockwise(a: V2, b: V2): (r: bool)
    ensures r ==> a != b && a != Zero2 && b != Zero2
  {
    Perp(a, b) < 0.0
  }

  /** Of (a, b) and (b, a) at most one pair is clockwise; neither is exactly when they are parallel. */
  lemma AreClockwiseAsymmetric(a: V2, b: V2)
    ensures !(AreClockwise(a, b) && AreClockwise(b, a))
    ensures !AreClockwise(a, b) && !AreClockwise(b, a) <==> Perp(a, b) == 0.0
  {
    PerpAntisymmetric(a, b);
  }

  /** `rotate90cw`: the vector of the same length, perpendicular to v, with perp(v, r) >= 0. */
  function Rotate90Cw(v: V2): (r: V2)
    ensures Dot2(r, v) == 0.0
    ensures LengthSq2(r) == LengthSq2(v)
    ensures Perp(v, r) == LengthSq2(v)
  {
    V2(-v.y, v.x)
  }

  /** `rotate90ccw`: the vector of the same length, perpendicular to v, with perp(v, r) <= 0. */
  function Rotate90Ccw(v: V2): (r: V2)
    ensures Dot2(r, v) == 0.0
    ensures LengthSq2(r) == LengthSq2(v)
    ensures Perp(v, r) == -LengthSq2(v)
  {
    V2(v.y, -v.x)
  }

  lemma Rotate90Inverse(v: V2)
    ensures Rotate90Ccw(Rotate90Cw(v)) == v
    ensures Rotate90Cw(Rotate90Ccw(v)) == v
  {
  }

  // ---------------------------------------------------------------------------
  // indexOfMin / findMin, indexOfMax / findMax
  //
  // The source is generic over IComparable<T>; the model takes T = float, whose
  // CompareTo is the numeric order.

  /** `indexOfMin`: the first index holding a least element. */
  method IndexOfMin(slice: seq<real>) returns (idx: nat)
    requires |slice| > 0
    ensures idx < |slice|
    ensures forall j :: 0 <= j < |slice| ==> slice[idx] <= slice[j]
    ensures forall j :: 0 <= j < idx ==> slice[idx] < slice[j]
  {
    idx := 0;
    for i := 1 to |slice|
      invariant idx < i
      invariant forall j :: 0 <= j < i ==> slice[idx] <= slice[j]
      invariant forall j :: 0 <= j < idx ==> slice[idx] < slice[j]
    {
      if slice[idx] > slice[i] {
        idx := i;
      }
    }
  }

  /** `indexOfMax`: the first index holding a greatest element. */
  method IndexOfMax(slice: seq<real>) returns (idx: nat)
    requires |slice| > 0
    ensures idx < |slice|
    ensures forall j :: 0 <= j < |slice| ==> slice[j] <= slice[idx]
    ensures forall j :: 0 <= j < idx ==> slice[j] < slice[idx]
  {
    idx := 0;
    for i := 1 to |slice|
      invariant idx < i
      invariant forall j :: 0 <= j < i ==> slice[j] <= slice[idx]
      invariant forall j :: 0 <= j < idx ==> slice[j] < slice[idx]
    {
      if slice[idx] < slice[i] {
        idx := i;
      }
    }
  }

  /** `findMin` over a slice: the element at `indexOfMin`. */
  method FindMin(slice: seq<real>) returns (m: real)
    requires |slice| > 0
    ensures m in slice
    ensures forall j :: 0 <= j < |slice| ==> m <= slice[j]
  {
    var idx := IndexOfMin(slice);
    m := slice[idx];
  }

  /** `findMin` over a whole array: `findMin` of the slice covering it. */
  method FindMinArray(arr: array<real>) returns (m: real)
    requires arr.Length > 0
    ensures m in arr[..]
    ensures forall j :: 0 <= j < arr.Length ==> m <= arr[j]
  {
    m := FindMin(arr[..]);
  }

  /** `findMax` over a slice: the element at `indexOfMax`. */
  method FindMax(slice: seq<real>) returns (m: real)
    requires |slice| > 0
    ensures m in slice
    ensures forall j :: 0 <= j < |slice| ==> slice[j] <= m
  {
    var idx := IndexOfMax(slice);
    m := slice[idx];
  }

  /** `findMax` over a whole array: `findMax` of the slice covering it. */
  method FindMaxArray(arr: array<real>) returns (m: real)
    requires arr.Length > 0
    ensures m in arr[..]
    ensures forall j :: 0 <= j < arr.Length ==> arr[j] <= m
  {
    m := FindMax(arr[..]);
  }

  // ---------------------------------------------------------------------------
  // Specifications of the sums: the total of a sequence, adding from the front.

  function SeqSum(s: seq<real>): real
  {
    if |s| == 0 then 0.0 else SeqSum(s[..|s| - 1]) + s[|s| - 1]
  }

  function SeqSumInt(s: seq<int>): int
  {
    if |s| == 0 then 0 else SeqSumInt(s[..|s| - 1]) + s[|s| - 1]
  }

  function SeqSumV2(s: seq<V2>): V2
  {
    if |s| == 0 then Zero2 else SeqSumV2(s[..|s| - 1]).Plus(s[|s| - 1])
  }

  function SeqSumV3(s: seq<V3>): V3
  {
    if |s| == 0 then Zero3 else SeqSumV3(s[..|s| - 1]).Plus(s[|s| - 1])
  }

  function SeqSumI2(s: seq<I2>): I2
  {
    if |s| == 0 then ZeroI2 else SeqSumI2(s[..|s| - 1]).Plus(s[|s| - 1])
  }

  function SeqSumI3(s: seq<I3>): I3
  {
    if |s| == 0 then ZeroI3 else SeqSumI3(s[..|s| - 1]).Plus(s[|s| - 1])
  }

  /** The sequence of f applied to each element of s. */
  function Project<T, U>(s: seq<T>, f: T -> U): (r: seq<U>)
    ensures |r| == |s|
    ensures forall i :: 0 <= i < |s| ==> r[i] == f(s[i])
  {
    seq(|s|, i requires 0 <= i < |s| => f(s[i]))
  }

  lemma ProjectPrefix<T, U>(s: seq<T>, f: T -> U)
    requires |s| > 0
    ensures Project(s[..|s| - 1], f) == Project(s, f)[..|s| - 1]
  {
  }

  /** The total of a concatenation is the sum of the totals. */
  lemma {:induction false} SeqSumAppend(a: seq<real>, b: seq<real>)
    ensures SeqSum(a + b) == SeqSum(a) + SeqSum(b)
  {
    if |b| == 0 {
      assert a + b == a;
    } else {
      assert (a + b)[..|a + b| - 1] == a + b[..|b| - 1];
      SeqSumAppend(a, b[..|b| - 1]);
    }
  }

  /** Reordering the two halves of a sequence does not change its total. */
  lemma SeqSumRotate(a: seq<real>, b: seq<real>)
    ensures SeqSum(a + b) == SeqSum(b + a)
  {
    SeqSumAppend(a, b);
    SeqSumAppend(b, a);
  }

  /** A total of n elements, each within [lo, hi], lies within [n * lo, n * hi]. */
  lemma {:induction false} SeqSumBounds(s: seq<real>, lo: real, hi: real)
    requires forall i :: 0 <= i < |s| ==> lo <= s[i] <= hi
    ensures lo * (|s| as real) <= SeqSum(s) <= hi * (|s| as real)
  {
    if |s| > 0 {
      var n := |s| - 1;
      SeqSumBounds(s[..n], lo, hi);
      assert lo * (|s| as real) == lo * (n as real) + lo;
      assert hi * (|s| as real) == hi * (n as real) + hi;
    }
  }

  /** Vector sums are taken component by component. */
  lemma {:induction false} SeqSumV2Components(s: seq<V2>)
    ensures SeqSumV2(s) == V2(SeqSum(Project(s, (v: V2) => v.x)), SeqSum(Project(s, (v: V2) => v.y)))
  {
    if |s| > 0 {
      SeqSumV2Components(s[..|s| - 1]);
      ProjectPrefix(s, (v: V2) => v.x);
      ProjectPrefix(s, (v: V2) => v.y);
    }
  }

  lemma {:induction false} SeqSumV3Components(s: seq<V3>)
    ensures SeqSumV3(s) == V3(SeqSum(Project(s, (v: V3) => v.x)),
                              SeqSum(Project(s, (v: V3) => v.y)),
                              SeqSum(Project(s, (v: V3) => v.z)))
  {
    if |s| > 0 {
      SeqSumV3Components(s[..|s| - 1]);
      ProjectPrefix(s, (v: V3) => v.x);
      ProjectPrefix(s, (v: V3) => v.y);
      ProjectPrefix(s, (v: V3) => v.z);
    }
  }

  lemma {:induction false} SeqSumI2Components(s: seq<I2>)
    ensures SeqSumI2(s) == I2(SeqSumInt(Project(s, (v: I2) => v.x)), SeqSumInt(Project(s, (v: I2) => v.y)))
  {
    if |s| > 0 {
      SeqSumI2Components(s[..|s| - 1]);
      ProjectPrefix(s, (v: I2) => v.x);
      ProjectPrefix(s, (v: I2) => v.y);
    }
  }

  lemma {:induction false} SeqSumI3Components(s: seq<I3>)
    ensures SeqSumI3(s) == I3(SeqSumInt(Project(s, (v: I3) => v.x)),
                              SeqSumInt(Project(s, (v: I3) => v.y)),
                              SeqSumInt(Project(s, (v: I3) => v.z)))
  {
    if |s| > 0 {
      SeqSumI3Components(s[..|s| - 1]);
      ProjectPrefix(s, (v: I3) => v.x);
      ProjectPrefix(s, (v: I3) => v.y);
      ProjectPrefix(s, (v: I3) => v.z);
    }
  }

  // ---------------------------------------------------------------------------
  // sum, for float, float2, float3, int, int2 and int3 slices

  method Sum(slice: seq<real>) returns (s: real)
    ensures s == SeqSum(slice)
  {
    s := 0.0;
    for i := 0 to |slice|
      invariant s == SeqSum(slice[..i])
    {
      assert slice[..i + 1][..i] == slice[..i];
      s := s + slice[i];
    }
    assert slice[..|slice|] == slice;
  }

  method SumV2(slice: seq<V2>) returns (s: V2)
    ensures s == SeqSumV2(slice)
  {
    s := Zero2;
    for i := 0 to |slice|
      invariant s == SeqSumV2(slice[..i])
    {
      assert slice[..i + 1][..i] == slice[..i];
      s := s.Plus(slice[i]);
    }
    assert slice[..|slice|] == slice;
  }

  method SumV3(slice: seq<V3>) returns (s: V3)
    ensures s == SeqSumV3(slice)
  {
    s := Zero3;
    for i := 0 to |slice|
      invariant s == SeqSumV3(slice[..i])
    {
      assert slice[..i + 1][..i] == slice[..i];
      s := s.Plus(slice[i]);
    }
    assert slice[..|slice|] == slice;
  }

  method SumInt(slice: seq<int>) returns (s: int)
    ensures s == SeqSumInt(slice)
  {
    s := 0;
    for i := 0 to |slice|
      invariant s == SeqSumInt(slice[..i])
    {
      assert slice[..i + 1][..i] == slice[..i];
      s := s + slice[i];
    }
    assert slice[..|slice|] == slice;
  }

  method SumI2(slice: seq<I2>) returns (s: I2)
    ensures s == SeqSumI2(slice)
  {
    s := ZeroI2;
    for i := 0 to |slice|
      invariant s == SeqSumI2(slice[..i])
    {
      assert slice[..i + 1][..i] == slice[..i];
      s := s.Plus(slice[i]);
    }
    assert slice[..|slice|] == slice;
  }

  method SumI3(slice: seq<I3>) returns (s: I3)
    ensures s == SeqSumI3(slice)
  {
    s := ZeroI3;
    for i := 0 to |slice|
      invariant s == SeqSumI3(slice[..i])
    {
      assert slice[..i + 1][..i] == slice[..i];
      s := s.Plus(slice[i]);
    }
    assert slice[..|slice|] == slice;
  }

  // ---------------------------------------------------------------------------
  // average, for float, float2 and float3 slices (non-empty, as the source asserts)

  /** `average`: the value that, taken |slice| times, gives the slice's total. */
  method Average(slice: seq<real>) returns (avg: real)
    requires |slice| > 0
    ensures avg * (|slice| as real) == SeqSum(slice)
  {
    var s := Sum(slice);
    avg := s / (|slice| as real);
  }

  method AverageV2(slice: seq<V2>) returns (avg: V2)
    requires |slice| > 0
    ensures avg.Times(|slice| as real) == SeqSumV2(slice)
  {
    var s := SumV2(slice);
    avg := s.Div(|slice| as real);
  }

  method AverageV3(slice: seq<V3>) returns (avg: V3)
    requires |slice| > 0
    ensures avg.Times(|slice| as real) == SeqSumV3(slice)
  {
    var s := SumV3(slice);
    avg := s.Div(|slice| as real);
  }

  /** The average of values within [lo, hi] lies within [lo, hi]. */
  lemma AverageWithinBounds(s: seq<real>, lo: real, hi: real)
    requires |s| > 0
    requires forall i :: 0 <= i < |s| ==> lo <= s[i] <= hi
    ensures lo <= SeqSum(s) / (|s| as real) <= hi
  {
    SeqSumBounds(s, lo, hi);
    QuotientBounds(SeqSum(s), |s| as real, lo, hi);
  }

  /** Dividing a value within [lo * n, hi * n] by a positive n gives a value within [lo, hi]. */
  lemma QuotientBounds(x: real, n: real, lo: real, hi: real)
    requires n > 0.0 && lo * n <= x <= hi * n
    ensures lo <= x / n <= hi
  {
    var q := x / n;
    assert q * n == x;
    if q < lo {
      ScaleStrict(q, lo, n);
    } else if q > hi {
      ScaleStrict(hi, q, n);
    }
  }

  lemma ScaleStrict(a: real, b: real, n: real)
    requires a < b && n > 0.0
    ensures a * n < b * n
  {
    assert b * n - a * n == (b - a) * n;
  }

  // ---------------------------------------------------------------------------
  // equal, for two to five arguments

  /** Every element of vs equals every other. */
  ghost predicate AllSame<T>(vs: seq<T>)
  {
    forall i, j :: 0 <= i < |vs| && 0 <= j < |vs| ==> vs[i] == vs[j]
  }

  lemma AllSamePair<T>(a: T, b: T)
    ensures AllSame([a, b]) <==> a == b
  {
    var w := [a, b];
    if a == b {
      forall i, j | 0 <= i < |w| && 0 <= j < |w| ensures w[i] == w[j] {
      }
    } else {
      assert w[0] != w[1];
    }
  }

  /** Extending a sequence keeps all its elements equal iff the new one equals the last. */
  lemma AllSameExtend<T>(vs: seq<T>, v: T)
    requires |vs| > 0
    ensures AllSame(vs + [v]) <==> AllSame(vs) && vs[|vs| - 1] == v
  {
    var w := vs + [v];
    if AllSame(w) {
      forall i, j | 0 <= i < |vs| && 0 <= j < |vs| ensures vs[i] == vs[j] {
        assert w[i] == vs[i] && w[j] == vs[j];
      }
      assert w[|vs| - 1] == w[|vs|];
    }
    if AllSame(vs) && vs[|vs| - 1] == v {
      forall i, j | 0 <= i < |w| && 0 <= j < |w| ensures w[i] == w[j] {
        var i' := if i < |vs| then i else |vs| - 1;
        var j' := if j < |vs| then j else |vs| - 1;
        assert w[i] == vs[i'] && w[j] == vs[j'];
      }
    }
  }

  function Equal2<T(==)>(v1: T, v2: T): (r: bool)
    ensures r <==> AllSame([v1, v2])
  {
    AllSamePair(v1, v2);
    v1 == v2
  }

  function Equal3<T(==)>(v1: T, v2: T, v3: T): (r: bool)
    ensures r <==> AllSame([v1, v2, v3])
  {
    AllSamePair(v1, v2);
    AllSameExtend([v1, v2], v3);
    assert [v1, v2] + [v3] == [v1, v2, v3];
    Equal2(v1, v2) && Equal2(v2, v3)
  }

  function Equal4<T(==)>(v1: T, v2: T, v3: T, v4: T): (r: bool)
    ensures r <==> AllSame([v1, v2, v3, v4])
  {
    AllSameExtend([v1, v2, v3], v4);
    assert [v1, v2, v3] + [v4] == [v1, v2, v3, v4];
    Equal3(v1, v2, v3) && Equal2(v3, v4)
  }

  function Equal5<T(==)>(v1: T, v2: T, v3: T, v4: T, v5: T): (r: bool)
    ensures r <==> AllSame([v1, v2, v3, v4, v5])
  {
    AllSameExtend([v1, v2, v3, v4], v5);
    assert [v1, v2, v3, v4] + [v5] == [v1, v2, v3, v4, v5];
    Equal4(v1, v2, v3, v4) && Equal2(v4, v5)
  }
}
