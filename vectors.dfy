/**
 * Exact-arithmetic stand-ins for the Unity.Mathematics value types the library
 * works on: `float2`/`float3` become `V2`/`V3` over `real`, `int2`/`int3`
 * become `I2`/`I3` over unbounded `int`. Only the operators the library uses
 * are defined: component-wise addition, subtraction, scaling and division,
 * the dot product, the squared length and the point at a
 * parameter along a direction.
 */
module Vectors {

  datatype V2 = V2(x: real, y: real) {
    function Plus(o: V2): V2 { V2(x + o.x, y + o.y) }
    function Minus(o: V2): V2 { V2(x - o.x, y - o.y) }
    function Times(k: real): V2 { V2(x * k, y * k) }
    function Div(k: real): V2 requires k != 0.0 { V2(x / k, y / k) }
  }

  datatype V3 = V3(x: real, y: real, z: real) {
    function Plus(o: V3): V3 { V3(x + o.x, y + o.y, z + o.z) }
    function Minus(o: V3): V3 { V3(x - o.x, y - o.y, z - o.z) }
    function Times(k: real): V3 { V3(x * k, y * k, z * k) }
    function Div(k: real): V3 requires k != 0.0 { V3(x / k, y / k, z / k) }
  }

  datatype I2 = I2(x: int, y: int) {
    function Plus(o: I2): I2 { I2(x + o.x, y + o.y) }
  }

  datatype I3 = I3(x: int, y: int, z: int) {
    function Plus(o: I3): I3 { I3(x + o.x, y + o.y, z + o.z) }
  }

  /** `default(float2)` and `default(float3)`: the zero vectors. */
  const Zero2: V2 := V2(0.0, 0.0)
  const Zero3: V3 := V3(0.0, 0.0, 0.0)
  const ZeroI2: I2 := I2(0, 0)
  const ZeroI3: I3 := I3(0, 0, 0)

  function Dot2(a: V2, b: V2): real { a.x * b.x + a.y * b.y }
  function Dot3(a: V3, b: V3): real { a.x * b.x + a.y * b.y + a.z * b.z }

  function LengthSq2(v: V2): real { Dot2(v, v) }
  function LengthSq3(v: V3): real { Dot3(v, v) }

  function Abs(r: real): real { if r < 0.0 then -r else r }

  /** The point at parameter t along the line or ray from origin in direction dir. */
  function PointAlong(origin: V2, dir: V2, t: real): V2 { origin.Plus(dir.Times(t)) }
  function PointAlong3(origin: V3, dir: V3, t: real): V3 { origin.Plus(dir.Times(t)) }
}
