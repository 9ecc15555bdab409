// The Unity engine calls the slicers make, taken as given functions: the
// object's transform, the vector normalisation, the distance ratio used as
// a texture interpolation parameter, and Unity's own Plane and Ray types.
module Engine {
  import opened Geometry

  /** Transform.TransformPoint (local to world) and
      Transform.InverseTransformPoint (world to local) of one object. */
  datatype Transform = Transform(toWorld: Vec3 -> Vec3, toLocal: Vec3 -> Vec3)

  /** Floating-point library results the model does not compute:
      unitFactor(v) is the factor Vector3.normalized multiplies v by
      (one over its length, or zero for a vector too short to normalise);
      edgeRatio(a, b, c) is Vector3.Distance(a, b) / Vector3.Distance(a, c). */
  datatype Numerics = Numerics(unitFactor: Vec3 -> real, edgeRatio: (Vec3, Vec3, Vec3) -> real)

  /** Vector3.normalized: v scaled by a factor. */
  function Normalized(v: Vec3, num: Numerics): Vec3 {
    Scale(num.unitFactor(v), v)
  }

  /** Mathf.Clamp01 */
  function Clamp01(t: real): (r: real)
    ensures 0.0 <= r <= 1.0
    ensures 0.0 <= t <= 1.0 ==> r == t
  {
    if t < 0.0 then 0.0 else if t > 1.0 then 1.0 else t
  }

  /** Vector2.Lerp: clamps its parameter to [0, 1]. */
  function Lerp(a: Vec2, b: Vec2, t: real): Vec2 {
    var c := Clamp01(t);
    Vec2(a.x + (b.x - a.x) * c, a.y + (b.y - a.y) * c)
  }

  /** UnityEngine.Ray; its constructor normalises the direction. */
  datatype Ray = Ray(origin: Vec3, direction: Vec3)

  function NewRay(origin: Vec3, direction: Vec3, num: Numerics): Ray {
    Ray(origin, Normalized(direction, num))
  }

  /** UnityEngine.Plane as the slicer uses it: GetSide(point) and the
      distance Raycast(ray, out distance) stores along the ray. */
  datatype UnityPlane = UnityPlane(getSide: Vec3 -> bool, raycast: Ray -> real)
}
