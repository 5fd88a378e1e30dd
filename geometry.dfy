/** Integer stand-ins for the engine's vector and rotation types.
    Positions are integer vectors in a fixed length unit; a distance test
    "distance(a, b) > t" is written on squared distances, which is exact for
    Euclidean distance since both sides are non-negative. */
module Geometry {

  datatype Vec3 = Vec3(x: int, y: int, z: int) {
    function Add(v: Vec3): Vec3 { Vec3(x + v.x, y + v.y, z + v.z) }
    function Sub(v: Vec3): Vec3 { Vec3(x - v.x, y - v.y, z - v.z) }
  }

  const Zero := Vec3(0, 0, 0)

  /** Orientation snapshot. Only equality and assignment of rotations matter to
      the model; the angle between two rotations is measured by the host. */
  datatype Quaternion = Quaternion(w: int, x: int, y: int, z: int)

  /** Squared Euclidean distance between two points. */
  function DistSq(a: Vec3, b: Vec3): (d: nat)
    ensures d == 0 <==> a == b
  {
    var dx, dy, dz := a.x - b.x, a.y - b.y, a.z - b.z;
    SquareZero(dx);
    SquareZero(dy);
    SquareZero(dz);
    dx * dx + dy * dy + dz * dz
  }

  lemma SquareZero(n: int)
    ensures n * n >= 0
    ensures n * n == 0 <==> n == 0
  {
    if n != 0 {
      if n > 0 { assert n * n >= n; } else { assert n * n >= -n; }
    }
  }

  /** True when the distance from `a` to `b` exceeds the length `threshold`. */
  predicate Exceeds(a: Vec3, b: Vec3, threshold: nat)
  {
    DistSq(a, b) > threshold * threshold
  }
}
