// Exact vector algebra over the reals. Unity's Vector3/Vector2 use 32-bit
// floats; this model keeps the algebra and drops the rounding.
module Geometry {

  datatype Vec3 = Vec3(x: real, y: real, z: real)
  datatype Vec2 = Vec2(x: real, y: real)

  const Zero3: Vec3 := Vec3(0.0, 0.0, 0.0)
  const Zero2: Vec2 := Vec2(0.0, 0.0)

  function Add(a: Vec3, b: Vec3): Vec3 {
    Vec3(a.x + b.x, a.y + b.y, a.z + b.z)
  }

  function Sub(a: Vec3, b: Vec3): Vec3 {
    Vec3(a.x - b.x, a.y - b.y, a.z - b.z)
  }

  function Scale(k: real, a: Vec3): Vec3 {
    Vec3(k * a.x, k * a.y, k * a.z)
  }

  function Dot(a: Vec3, b: Vec3): real {
    a.x * b.x + a.y * b.y + a.z * b.z
  }

  function Cross(a: Vec3, b: Vec3): Vec3 {
    Vec3(a.y * b.z - a.z * b.y, a.z * b.x - a.x * b.z, a.x * b.y - a.y * b.x)
  }

  /** Twice the vector area of triangle (a, b, c): its direction is the
      triangle's winding normal, its length twice the triangle's area. */
  function Area2(a: Vec3, b: Vec3, c: Vec3): Vec3 {
    Cross(Sub(b, a), Sub(c, a))
  }

  lemma CrossScaleLeft(k: real, a: Vec3, b: Vec3)
    ensures Cross(Scale(k, a), b) == Scale(k, Cross(a, b))
  {
    assert k * a.y * b.z - k * a.z * b.y == k * (a.y * b.z - a.z * b.y);
    assert k * a.z * b.x - k * a.x * b.z == k * (a.z * b.x - a.x * b.z);
    assert k * a.x * b.y - k * a.y * b.x == k * (a.x * b.y - a.y * b.x);
  }

  lemma CrossScaleRight(k: real, a: Vec3, b: Vec3)
    ensures Cross(a, Scale(k, b)) == Scale(k, Cross(a, b))
  {
    assert a.y * (k * b.z) - a.z * (k * b.y) == k * (a.y * b.z - a.z * b.y);
    assert a.z * (k * b.x) - a.x * (k * b.z) == k * (a.z * b.x - a.x * b.z);
    assert a.x * (k * b.y) - a.y * (k * b.x) == k * (a.x * b.y - a.y * b.x);
  }

  lemma DotCrossLeft(a: Vec3, b: Vec3)
    ensures Dot(Cross(a, b), a) == 0.0
  {
  }

  lemma DotCrossRight(a: Vec3, b: Vec3)
    ensures Dot(Cross(a, b), b) == 0.0
  {
  }

  lemma DotScale(n: Vec3, k: real, a: Vec3)
    ensures Dot(n, Scale(k, a)) == k * Dot(n, a)
  {
    assert n.x * (k * a.x) + n.y * (k * a.y) + n.z * (k * a.z)
        == k * (n.x * a.x + n.y * a.y + n.z * a.z);
  }

  lemma DotScaleLeft(k: real, a: Vec3, n: Vec3)
    ensures Dot(Scale(k, a), n) == k * Dot(a, n)
  {
    assert (k * a.x) * n.x + (k * a.y) * n.y + (k * a.z) * n.z
        == k * (a.x * n.x + a.y * n.y + a.z * n.z);
  }

  lemma DotSub(n: Vec3, a: Vec3, b: Vec3)
    ensures Dot(n, Sub(a, b)) == Dot(n, a) - Dot(n, b)
  {
    assert n.x * (a.x - b.x) == n.x * a.x - n.x * b.x;
    assert n.y * (a.y - b.y) == n.y * a.y - n.y * b.y;
    assert n.z * (a.z - b.z) == n.z * a.z - n.z * b.z;
  }

  lemma DotAdd(n: Vec3, a: Vec3, b: Vec3)
    ensures Dot(n, Add(a, b)) == Dot(n, a) + Dot(n, b)
  {
    assert n.x * (a.x + b.x) == n.x * a.x + n.x * b.x;
    assert n.y * (a.y + b.y) == n.y * a.y + n.y * b.y;
    assert n.z * (a.z + b.z) == n.z * a.z + n.z * b.z;
  }

  lemma CrossSelf(a: Vec3)
    ensures Cross(a, a) == Zero3
  {
  }

  lemma CrossAntisymmetric(a: Vec3, b: Vec3)
    ensures Cross(b, a) == Scale(-1.0, Cross(a, b))
  {
  }

  lemma CrossSubLeft(a: Vec3, b: Vec3, c: Vec3)
    ensures Cross(Sub(a, b), c) == Sub(Cross(a, c), Cross(b, c))
  {
    assert (a.y - b.y) * c.z - (a.z - b.z) * c.y == (a.y * c.z - a.z * c.y) - (b.y * c.z - b.z * c.y);
    assert (a.z - b.z) * c.x - (a.x - b.x) * c.z == (a.z * c.x - a.x * c.z) - (b.z * c.x - b.x * c.z);
    assert (a.x - b.x) * c.y - (a.y - b.y) * c.x == (a.x * c.y - a.y * c.x) - (b.x * c.y - b.y * c.x);
  }

  lemma CrossSubRight(a: Vec3, b: Vec3, c: Vec3)
    ensures Cross(a, Sub(b, c)) == Sub(Cross(a, b), Cross(a, c))
  {
    assert a.y * (b.z - c.z) - a.z * (b.y - c.y) == (a.y * b.z - a.z * b.y) - (a.y * c.z - a.z * c.y);
    assert a.z * (b.x - c.x) - a.x * (b.z - c.z) == (a.z * b.x - a.x * b.z) - (a.z * c.x - a.x * c.z);
    assert a.x * (b.y - c.y) - a.y * (b.x - c.x) == (a.x * b.y - a.y * b.x) - (a.x * c.y - a.y * c.x);
  }

  lemma ScaleScale(t: real, k: real, v: Vec3)
    ensures Scale(t, Scale(k, v)) == Scale(t * k, v)
  {
    assert t * (k * v.x) == (t * k) * v.x;
    assert t * (k * v.y) == (t * k) * v.y;
    assert t * (k * v.z) == (t * k) * v.z;
  }
}
