// Slicer.cs: the slicer with its own plane type (CustomPlane), a signed
// real side test, a ray/plane intersection of its own and a bounding-box
// pre-check.
module Slicer {
  import opened Geometry
  import opened Engine
  import opened Slicing

  // ---------------------------------------------------------------------
  // CustomPlane

  /** A plane through `point` with normal `normal`; d is the constant of
      the plane equation normal . x + d == 0. */
  datatype CustomPlane = CustomPlane(point: Vec3, normal: Vec3, d: real)

  /** The normal of the plane through three points: the cross product of
      the two normalised edge vectors from point1. */
  function PlaneNormal(point1: Vec3, point2: Vec3, point3: Vec3, num: Numerics): (n: Vec3)
    ensures n == Scale(num.unitFactor(Sub(point2, point1)) * num.unitFactor(Sub(point3, point1)),
                       Cross(Sub(point2, point1), Sub(point3, point1)))
    ensures Dot(n, Sub(point2, point1)) == 0.0
    ensures Dot(n, Sub(point3, point1)) == 0.0
  {
    var u, v := Sub(point2, point1), Sub(point3, point1);
    var vec1 := Normalized(u, num);
    var vec2 := Normalized(v, num);
    CrossScaleLeft(num.unitFactor(u), u, vec2);
    CrossScaleRight(num.unitFactor(v), u, v);
    DotCrossLeft(u, v);
    DotCrossRight(u, v);
    DotScaleLeft(num.unitFactor(u), Cross(u, vec2), u);
    DotScaleLeft(num.unitFactor(u), Cross(u, vec2), v);
    DotScaleLeft(num.unitFactor(v), Cross(u, v), u);
    DotScaleLeft(num.unitFactor(v), Cross(u, v), v);
    ScaleScale(num.unitFactor(u), num.unitFactor(v), Cross(u, v));
    Cross(vec1, vec2)
  }

  /** The constant D of the plane equation through planeP with normal
      planeN: planeP itself satisfies planeN . planeP + D == 0. */
  function PlaneDConstant(planeP: Vec3, planeN: Vec3): (d: real)
    ensures Dot(planeN, planeP) + d == 0.0
  {
    -1.0 * ((planeN.x * planeP.x) + (planeN.y * planeP.y) + (planeN.z * planeP.z))
  }

  /** Side test: zero on the plane, positive above, negative below. */
  function GetSide(plane: CustomPlane, point: Vec3): (r: real)
    ensures point == plane.point ==> r == 0.0
  {
    Dot(plane.normal, Sub(point, plane.point))
  }

  /** The plane's d agrees with its point and normal, as the only
      constructor (and the all-zero default value) leave it. */
  predicate Consistent(plane: CustomPlane) {
    Dot(plane.normal, plane.point) + plane.d == 0.0
  }

  /** CustomPlane(point1, point2, point3): all three points lie on it. */
  function NewCustomPlane(point1: Vec3, point2: Vec3, point3: Vec3, num: Numerics): (plane: CustomPlane)
    ensures plane.point == point1 && Consistent(plane)
    ensures plane.normal == Scale(num.unitFactor(Sub(point2, point1)) * num.unitFactor(Sub(point3, point1)),
                                  Cross(Sub(point2, point1), Sub(point3, point1)))
    ensures GetSide(plane, point1) == 0.0
    ensures GetSide(plane, point2) == 0.0
    ensures GetSide(plane, point3) == 0.0
  {
    var normal := PlaneNormal(point1, point2, point3, num);
    assert Sub(point1, point1) == Zero3;
    CustomPlane(point1, normal, PlaneDConstant(point1, normal))
  }

  /** The side test is the plane equation's left-hand side. */
  lemma SideIsPlaneEquation(plane: CustomPlane, x: Vec3)
    requires Consistent(plane)
    ensures GetSide(plane, x) == Dot(plane.normal, x) + plane.d
  {
    DotSub(plane.normal, x, plane.point);
  }

  // ---------------------------------------------------------------------
  // Ray / plane intersection

  /** The point where the line through `point` along `direction` meets the
      plane Ax + By + Cz + D == 0. The source divides by
      normal . direction, so a ray parallel to the plane is excluded. */
  function VectorPlanePOI(point: Vec3, direction: Vec3, plane: CustomPlane): (r: Vec3)
    requires Dot(plane.normal, direction) != 0.0
    ensures Dot(plane.normal, r) + plane.d == 0.0
    ensures Cross(Sub(r, point), direction) == Zero3
  {
    var t := RayParameter(point, direction, plane);
    PoiAlgebra(plane.normal, point, direction, plane.d, t);
    Add(point, Scale(t, direction))
  }

  /** The t of r = point + t * direction at the plane. */
  function RayParameter(point: Vec3, direction: Vec3, plane: CustomPlane): (t: real)
    requires Dot(plane.normal, direction) != 0.0
    ensures t * Dot(plane.normal, direction) == -1.0 * (Dot(plane.normal, point) + plane.d)
  {
    var a, b, c, d := plane.normal.x, plane.normal.y, plane.normal.z, plane.d;
    -1.0 * (a * point.x + b * point.y + c * point.z + d) / (a * direction.x + b * direction.y + c * direction.z)
  }

  lemma PoiAlgebra(n: Vec3, p: Vec3, dir: Vec3, d: real, t: real)
    requires t * Dot(n, dir) == -1.0 * (Dot(n, p) + d)
    ensures Dot(n, Add(p, Scale(t, dir))) + d == 0.0
    ensures Cross(Sub(Add(p, Scale(t, dir)), p), dir) == Zero3
  {
    DotAdd(n, p, Scale(t, dir));
    DotScale(n, t, dir);
    assert Sub(Add(p, Scale(t, dir)), p) == Scale(t, dir);
    CrossScaleLeft(t, dir, dir);
    CrossSelf(dir);
  }

  /** A point the intersection returns lies on a consistent plane. */
  lemma PoiOnPlane(point: Vec3, direction: Vec3, plane: CustomPlane)
    requires Consistent(plane) && Dot(plane.normal, direction) != 0.0
    ensures GetSide(plane, VectorPlanePOI(point, direction, plane)) == 0.0
  {
    SideIsPlaneEquation(plane, VectorPlanePOI(point, direction, plane));
  }

  /** Casting from a toward b (normalised) meets the plane at the fraction
      side(a) / (side(a) - side(b)) of the edge a-b; that fraction lies
      strictly inside the edge when a and b are on opposite sides. */
  lemma PoiOnEdge(plane: CustomPlane, a: Vec3, b: Vec3, num: Numerics)
    requires Consistent(plane)
    requires GetSide(plane, a) != GetSide(plane, b)
    requires num.unitFactor(Sub(b, a)) != 0.0
    ensures Dot(plane.normal, Normalized(Sub(b, a), num)) != 0.0
    ensures var lambda := GetSide(plane, a) / (GetSide(plane, a) - GetSide(plane, b));
      VectorPlanePOI(a, Normalized(Sub(b, a), num), plane) == EdgePoint(a, b, lambda)
  {
    var k := num.unitFactor(Sub(b, a));
    var dir := Normalized(Sub(b, a), num);
    EdgeDirectionDot(plane, a, b, k);
    var t := RayParameter(a, dir, plane);
    EdgeParameter(plane, a, b, k);
    PoiIsRayPoint(a, dir, plane);
    ScaleScale(t, k, Sub(b, a));
  }

  lemma PoiIsRayPoint(point: Vec3, direction: Vec3, plane: CustomPlane)
    requires Dot(plane.normal, direction) != 0.0
    ensures VectorPlanePOI(point, direction, plane)
         == Add(point, Scale(RayParameter(point, direction, plane), direction))
  {
  }

  lemma EdgeParameter(plane: CustomPlane, a: Vec3, b: Vec3, k: real)
    requires Consistent(plane)
    requires GetSide(plane, a) != GetSide(plane, b) && k != 0.0
    ensures Dot(plane.normal, Scale(k, Sub(b, a))) != 0.0
    ensures RayParameter(a, Scale(k, Sub(b, a)), plane) * k
         == GetSide(plane, a) / (GetSide(plane, a) - GetSide(plane, b))
  {
    EdgeDirectionDot(plane, a, b, k);
    SideIsPlaneEquation(plane, a);
    ParameterAlongEdge(RayParameter(a, Scale(k, Sub(b, a)), plane), k, GetSide(plane, a), GetSide(plane, b));
  }

  lemma EdgeDirectionDot(plane: CustomPlane, a: Vec3, b: Vec3, k: real)
    requires Consistent(plane)
    ensures Dot(plane.normal, Scale(k, Sub(b, a))) == k * (GetSide(plane, b) - GetSide(plane, a))
  {
    SideIsPlaneEquation(plane, a);
    SideIsPlaneEquation(plane, b);
    DotScale(plane.normal, k, Sub(b, a));
    DotSub(plane.normal, b, a);
  }

  lemma ParameterAlongEdge(t: real, k: real, sa: real, sb: real)
    requires sa != sb && t * (k * (sb - sa)) == -1.0 * sa
    ensures t * k == sa / (sa - sb)
  {
    assert (t * k) * (sa - sb) == sa;
  }

  // ---------------------------------------------------------------------
  // Per-triangle classification

  /** Routing by the signs of the three side values: all positive to
      slice 1, all negative to slice 2, anything else (mixed signs or a
      zero) is split, the lone vertex first. */
  function ClassifySides(vert1Side: real, vert2Side: real, vert3Side: real): (r: Routing)
    ensures ValidRouting(r)
  {
    if vert1Side > 0.0 && vert2Side > 0.0 && vert3Side > 0.0 then ToSlice1
    else if vert1Side < 0.0 && vert2Side < 0.0 && vert3Side < 0.0 then ToSlice2
    else if vert1Side * vert2Side > 0.0 then Bisect(TriOrderFirstPairAlike, VertOrderCW)
    else if vert1Side * vert3Side > 0.0 then Bisect(TriOrderOuterPairAlike, VertOrderCCW)
    else Bisect(TriOrderLastPairAlike, VertOrderCW)
  }

  /** The triangle goes whole to slice 1 exactly when every side is
      positive, whole to slice 2 exactly when every side is negative, and a
      vertex on the plane always sends it to the split branch. */
  lemma ClassifySidesCases(s1: real, s2: real, s3: real)
    ensures ClassifySides(s1, s2, s3) == ToSlice1 <==> s1 > 0.0 && s2 > 0.0 && s3 > 0.0
    ensures ClassifySides(s1, s2, s3) == ToSlice2 <==> s1 < 0.0 && s2 < 0.0 && s3 < 0.0
    ensures s1 == 0.0 || s2 == 0.0 || s3 == 0.0 ==> ClassifySides(s1, s2, s3).Bisect?
  {
  }

  /** With no vertex on the plane and mixed signs, the reordering puts
      first the one vertex whose sign differs from the other two; the
      counter-clockwise table is taken exactly when vertices 1 and 3 agree. */
  lemma OddVertexFirst(s1: real, s2: real, s3: real)
    requires s1 != 0.0 && s2 != 0.0 && s3 != 0.0
    requires !(s1 > 0.0 && s2 > 0.0 && s3 > 0.0) && !(s1 < 0.0 && s2 < 0.0 && s3 < 0.0)
    ensures var r, s := ClassifySides(s1, s2, s3), [s1, s2, s3];
      && r.Bisect?
      && s[r.triOrder[0]] * s[r.triOrder[1]] < 0.0
      && s[r.triOrder[0]] * s[r.triOrder[2]] < 0.0
      && s[r.triOrder[1]] * s[r.triOrder[2]] > 0.0
      && (r.vertOrder == VertOrderCCW <==> s1 * s3 > 0.0)
  {
    var r := ClassifySides(s1, s2, s3);
    assert VertOrderCW != VertOrderCCW by { assert VertOrderCW[0] != VertOrderCCW[0]; }
    SignProducts(s1, s2);
    SignProducts(s1, s3);
    SignProducts(s2, s3);
  }

  // ---------------------------------------------------------------------
  // One triangle of the slicing pass

  /** indexor = i * 3 - (3 - j): corner j of the i-th triangle, counting
      triangles from 1. */
  function Indexor(i: nat, j: nat): (k: nat)
    requires 1 <= i && j < 3
    ensures k == 3 * (i - 1) + j
  {
    i * 3 - (3 - j)
  }

  /** Corner j of triangle i is inside the index array for every i the
      loop visits. */
  lemma IndexorInBounds(mesh: SourceMesh, i: nat, j: nat)
    requires 1 <= i <= TriangleCount(mesh) && j < 3
    ensures Indexor(i, j) < 3 * TriangleCount(mesh) <= |mesh.triangles|
  {
  }

  function LocalTriVerts(mesh: SourceMesh, i: nat): (vs: seq<Vec3>)
    requires ValidMesh(mesh) && 1 <= i <= TriangleCount(mesh)
  {
    [mesh.vertices[mesh.triangles[Indexor(i, 0)]],
     mesh.vertices[mesh.triangles[Indexor(i, 1)]],
     mesh.vertices[mesh.triangles[Indexor(i, 2)]]]
  }

  function TriUVs(mesh: SourceMesh, i: nat): (us: seq<Vec2>)
    requires ValidMesh(mesh) && 1 <= i <= TriangleCount(mesh)
  {
    [mesh.uv[mesh.triangles[Indexor(i, 0)]],
     mesh.uv[mesh.triangles[Indexor(i, 1)]],
     mesh.uv[mesh.triangles[Indexor(i, 2)]]]
  }

  function WorldTriVerts(xf: Transform, local: seq<Vec3>): seq<Vec3>
    requires |local| == 3
  {
    [xf.toWorld(local[0]), xf.toWorld(local[1]), xf.toWorld(local[2])]
  }

  function Sides(plane: CustomPlane, w: seq<Vec3>): Routing
    requires |w| == 3
  {
    ClassifySides(GetSide(plane, w[0]), GetSide(plane, w[1]), GetSide(plane, w[2]))
  }

  /** Neither ray from the odd vertex p1 toward p2 and p3 is parallel to
      the plane, so both intersections are defined. */
  predicate RaysMeetPlane(w: seq<Vec3>, triOrder: seq<nat>, plane: CustomPlane, num: Numerics)
    requires |w| == 3 && |triOrder| == 3 && forall k :: 0 <= k < 3 ==> triOrder[k] < 3
  {
    var p1, p2, p3 := w[triOrder[0]], w[triOrder[1]], w[triOrder[2]];
    && Dot(plane.normal, Normalized(Sub(p2, p1), num)) != 0.0
    && Dot(plane.normal, Normalized(Sub(p3, p1), num)) != 0.0
  }

  /** p1, p2, p3 and the two intersections, in world space. */
  function BisectWorld(w: seq<Vec3>, triOrder: seq<nat>, plane: CustomPlane, num: Numerics): (q: seq<Vec3>)
    requires |w| == 3 && |triOrder| == 3 && forall k :: 0 <= k < 3 ==> triOrder[k] < 3
    requires RaysMeetPlane(w, triOrder, plane, num)
  {
    var p1, p2, p3 := w[triOrder[0]], w[triOrder[1]], w[triOrder[2]];
    [p1, p2, p3,
     VectorPlanePOI(p1, Normalized(Sub(p2, p1), num), plane),
     VectorPlanePOI(p1, Normalized(Sub(p3, p1), num), plane)]
  }

  function ToLocal(xf: Transform, q: seq<Vec3>): (b: seq<Vec3>)
    requires |q| == 5
  {
    [xf.toLocal(q[0]), xf.toLocal(q[1]), xf.toLocal(q[2]), xf.toLocal(q[3]), xf.toLocal(q[4])]
  }

  /** uv1..uv3 and the UVs interpolated at the two intersections. */
  function BisectedTriUVs(b: seq<Vec3>, uv1: Vec2, uv2: Vec2, uv3: Vec2, num: Numerics): seq<Vec2>
    requires |b| == 5
  {
    var t1 := num.edgeRatio(b[0], b[3], b[1]);
    var t2 := num.edgeRatio(b[0], b[4], b[2]);
    [uv1, uv2, uv3, Lerp(uv1, uv2, t1), Lerp(uv1, uv3, t2)]
  }

  /** Triangle i can be processed: when it is split, its rays meet the
      plane. */
  predicate Splittable(mesh: SourceMesh, xf: Transform, plane: CustomPlane, num: Numerics, i: nat)
    requires ValidMesh(mesh) && 1 <= i <= TriangleCount(mesh)
  {
    var w := WorldTriVerts(xf, LocalTriVerts(mesh, i));
    var r := Sides(plane, w);
    r.Bisect? ==> RaysMeetPlane(w, r.triOrder, plane, num)
  }

  /** Everything the pass accumulates: the two slices and, for a convex
      object, the intersection points. */
  datatype PassState = PassState(slice1: Slice, slice2: Slice, pois: seq<Vec3>)

  /** The split points (local space) and their UVs, for a split triangle. */
  function SplitPointsOf(mesh: SourceMesh, xf: Transform, plane: CustomPlane, num: Numerics, i: nat): (r: (seq<Vec3>, seq<Vec2>))
    requires ValidMesh(mesh) && 1 <= i <= TriangleCount(mesh)
    requires Splittable(mesh, xf, plane, num, i)
    requires Sides(plane, WorldTriVerts(xf, LocalTriVerts(mesh, i))).Bisect?
    ensures |r.0| == 5 && |r.1| == 5
    ensures r.1[3] == Lerp(r.1[0], r.1[1], num.edgeRatio(r.0[0], r.0[3], r.0[1]))
    ensures r.1[4] == Lerp(r.1[0], r.1[2], num.edgeRatio(r.0[0], r.0[4], r.0[2]))
  {
    var w := WorldTriVerts(xf, LocalTriVerts(mesh, i));
    var uvs := TriUVs(mesh, i);
    var o := Sides(plane, w).triOrder;
    var b := ToLocal(xf, BisectWorld(w, o, plane, num));
    (b, BisectedTriUVs(b, uvs[o[0]], uvs[o[1]], uvs[o[2]], num))
  }

  /** What triangle i (counting from 1) hands to the slice lists. */
  function TriangleStep(mesh: SourceMesh, xf: Transform, plane: CustomPlane, num: Numerics, i: nat): (st: Step)
    requires ValidMesh(mesh) && 1 <= i <= TriangleCount(mesh)
    requires Splittable(mesh, xf, plane, num, i)
    ensures ValidStep(st)
  {
    var local := LocalTriVerts(mesh, i);
    var w := WorldTriVerts(xf, local);
    var routing := Sides(plane, w);
    if routing.Bisect? then
      var (b, bUVs) := SplitPointsOf(mesh, xf, plane, num, i);
      Step(routing, local, TriUVs(mesh, i), b, bUVs, GetSide(plane, w[routing.triOrder[0]]) > 0.0)
    else
      Step(routing, local, TriUVs(mesh, i), [], [], false)
  }

  /** What triangle i adds to the pass: its corners, and for a convex
      object the two intersections of a split. */
  function SliceTriangle(acc: PassState, mesh: SourceMesh, xf: Transform, plane: CustomPlane,
                         num: Numerics, isConvex: bool, i: nat): (next: PassState)
    requires ValidMesh(mesh) && 1 <= i <= TriangleCount(mesh)
    requires Splittable(mesh, xf, plane, num, i)
    ensures Whole(acc.slice1) && Whole(acc.slice2) ==> Whole(next.slice1) && Whole(next.slice2)
    ensures var split := Sides(plane, WorldTriVerts(xf, LocalTriVerts(mesh, i))).Bisect?;
      && |next.slice1.verts| + |next.slice2.verts| == |acc.slice1.verts| + |acc.slice2.verts| + (if split then 9 else 3)
      && |next.pois| == |acc.pois| + (if isConvex && split then 2 else 0)
      && next.pois[..|acc.pois|] == acc.pois
  {
    var st := TriangleStep(mesh, xf, plane, num, i);
    var r := Apply((acc.slice1, acc.slice2), st);
    DispatchKeepsWhole(acc.slice1, acc.slice2, st.routing, st.tri, st.triUVs, st.pts, st.ptUVs, st.oddOnSlice1);
    PassState(r.0, r.1, acc.pois + StepPois(st, isConvex))
  }

  predicate AllSplittable(mesh: SourceMesh, xf: Transform, plane: CustomPlane, num: Numerics, n: nat)
    requires ValidMesh(mesh) && n <= TriangleCount(mesh)
  {
    forall i :: 1 <= i <= n ==> Splittable(mesh, xf, plane, num, i)
  }

  /** The steps of the first n triangles. */
  function Steps(mesh: SourceMesh, xf: Transform, plane: CustomPlane, num: Numerics, n: nat): (r: seq<Step>)
    requires ValidMesh(mesh) && n <= TriangleCount(mesh)
    requires AllSplittable(mesh, xf, plane, num, n)
    ensures |r| == n && forall k :: 0 <= k < n ==> ValidStep(r[k])
  {
    seq(n, k requires 0 <= k < n => TriangleStep(mesh, xf, plane, num, k + 1))
  }

  /** The intersections a convex object saves: points 3 and 4 of every
      split, two per split triangle. */
  function SavedPois(steps: seq<Step>, isConvex: bool): (r: seq<Vec3>)
    requires forall k :: 0 <= k < |steps| ==> ValidStep(steps[k])
    ensures |r| == if isConvex then 2 * Splits(steps) else 0
  {
    if steps == [] then []
    else SavedPois(steps[..|steps| - 1], isConvex) + StepPois(steps[|steps| - 1], isConvex)
  }

  /** `if (isConvex) { POIs.Add(...) }` for one step. */
  function StepPois(st: Step, isConvex: bool): (r: seq<Vec3>)
    requires ValidStep(st)
    ensures |r| == if isConvex && st.routing.Bisect? then 2 else 0
  {
    if isConvex && st.routing.Bisect? then [st.pts[3], st.pts[4]] else []
  }

  /** The state after the first n triangles. */
  function SliceUpTo(mesh: SourceMesh, xf: Transform, plane: CustomPlane, num: Numerics,
                     isConvex: bool, n: nat): (st: PassState)
    requires ValidMesh(mesh) && n <= TriangleCount(mesh)
    requires AllSplittable(mesh, xf, plane, num, n)
    ensures n == 0 ==> st == PassState(EmptySlice, EmptySlice, [])
  {
    var steps := Steps(mesh, xf, plane, num, n);
    var r := Run(steps);
    PassState(r.0, r.1, SavedPois(steps, isConvex))
  }

  /** One more triangle: the next state is SliceTriangle of the last. */
  lemma SliceUpToNext(mesh: SourceMesh, xf: Transform, plane: CustomPlane, num: Numerics, isConvex: bool, n: nat)
    requires ValidMesh(mesh) && n < TriangleCount(mesh)
    requires AllSplittable(mesh, xf, plane, num, n + 1)
    ensures SliceUpTo(mesh, xf, plane, num, isConvex, n + 1)
         == SliceTriangle(SliceUpTo(mesh, xf, plane, num, isConvex, n), mesh, xf, plane, num, isConvex, n + 1)
  {
    var steps := Steps(mesh, xf, plane, num, n + 1);
    assert steps[..n] == Steps(mesh, xf, plane, num, n);
  }

  // ---------------------------------------------------------------------
  // The slicing pass as the source runs it

  /** The inner loop `for (j = 0; j < 3; j++)` filling the three
      per-triangle arrays: local vertices, world vertices and UVs. */
  method ReadTriangle(mesh: SourceMesh, xf: Transform, i: nat)
      returns (localTriVerts: seq<Vec3>, worldTriVerts: seq<Vec3>, triUVs: seq<Vec2>)
    requires ValidMesh(mesh) && 1 <= i <= TriangleCount(mesh)
    ensures localTriVerts == LocalTriVerts(mesh, i)
    ensures worldTriVerts == WorldTriVerts(xf, localTriVerts)
    ensures triUVs == TriUVs(mesh, i)
  {
    var local := new Vec3[3](_ => Zero3);
    var world := new Vec3[3](_ => Zero3);
    var uvs := new Vec2[3](_ => Zero2);
    ghost var want := LocalTriVerts(mesh, i);
    ghost var wantUVs := TriUVs(mesh, i);
    for j := 0 to 3
      invariant forall k :: 0 <= k < j ==> local[k] == want[k] && world[k] == xf.toWorld(local[k]) && uvs[k] == wantUVs[k]
    {
      var indexor := Indexor(i, j);
      IndexorInBounds(mesh, i, j);
      local[j] := mesh.vertices[mesh.triangles[indexor]];
      world[j] := xf.toWorld(local[j]);
      uvs[j] := mesh.uv[mesh.triangles[indexor]];
    }
    localTriVerts, worldTriVerts, triUVs := local[..], world[..], uvs[..];
  }

  /** One iteration of the triangle loop: the whole-triangle branches, or
      the split branch with its saved intersections. */
  method SliceOneTriangle(acc: PassState, mesh: SourceMesh, xf: Transform, plane: CustomPlane,
                          num: Numerics, isConvex: bool, i: nat) returns (next: PassState)
    requires ValidMesh(mesh) && 1 <= i <= TriangleCount(mesh)
    requires Splittable(mesh, xf, plane, num, i)
    ensures var st := TriangleStep(mesh, xf, plane, num, i);
      var r := Apply((acc.slice1, acc.slice2), st);
      next == PassState(r.0, r.1, acc.pois + StepPois(st, isConvex))
  {
    var slice1, slice2, pois := acc.slice1, acc.slice2, acc.pois;
    var localTriVerts, worldTriVerts, triUVs := ReadTriangle(mesh, xf, i);
    assert Gather(localTriVerts, [0, 1, 2][0..3]) == localTriVerts;
    assert Gather(triUVs, [0, 1, 2][0..3]) == triUVs;
    var vert1Side := GetSide(plane, worldTriVerts[0]);
    var vert2Side := GetSide(plane, worldTriVerts[1]);
    var vert3Side := GetSide(plane, worldTriVerts[2]);
    if vert1Side > 0.0 && vert2Side > 0.0 && vert3Side > 0.0 {
      slice1 := AppendCorners(slice1, localTriVerts, triUVs, [0, 1, 2], 0, 3);
    } else if vert1Side < 0.0 && vert2Side < 0.0 && vert3Side < 0.0 {
      slice2 := AppendCorners(slice2, localTriVerts, triUVs, [0, 1, 2], 0, 3);
    } else {
      var order, triOrder, bisectedTriVerts, bisectedTriUVs :=
        BisectTriangle(mesh, xf, plane, num, i, worldTriVerts, triUVs, vert1Side, vert2Side, vert3Side);
      var p1 := worldTriVerts[order[0]];
      slice1, slice2 := AppendSplit(slice1, slice2, Bisect(order, triOrder), bisectedTriVerts, bisectedTriUVs,
                                    GetSide(plane, p1) > 0.0);
      if isConvex {
        pois := pois + [bisectedTriVerts[3], bisectedTriVerts[4]];
      }
    }
    next := PassState(slice1, slice2, pois);
  }

  /** The split branch up to the appends: the reordering chosen by the
      side products, the five points p1, p2, p3 and the two intersections
      taken back to local space, and their UVs. */
  method BisectTriangle(mesh: SourceMesh, xf: Transform, plane: CustomPlane, num: Numerics, i: nat,
                        worldTriVerts: seq<Vec3>, triUVs: seq<Vec2>,
                        vert1Side: real, vert2Side: real, vert3Side: real)
      returns (order: seq<nat>, triOrder: seq<nat>, bisectedTriVerts: seq<Vec3>, bisectedTriUVs: seq<Vec2>)
    requires ValidMesh(mesh) && 1 <= i <= TriangleCount(mesh)
    requires Splittable(mesh, xf, plane, num, i)
    requires worldTriVerts == WorldTriVerts(xf, LocalTriVerts(mesh, i)) && triUVs == TriUVs(mesh, i)
    requires vert1Side == GetSide(plane, worldTriVerts[0])
    requires vert2Side == GetSide(plane, worldTriVerts[1])
    requires vert3Side == GetSide(plane, worldTriVerts[2])
    requires !(vert1Side > 0.0 && vert2Side > 0.0 && vert3Side > 0.0)
    requires !(vert1Side < 0.0 && vert2Side < 0.0 && vert3Side < 0.0)
    ensures Sides(plane, worldTriVerts) == Bisect(order, triOrder)
    ensures (bisectedTriVerts, bisectedTriUVs) == SplitPointsOf(mesh, xf, plane, num, i)
  {
    if vert1Side * vert2Side > 0.0 {
      order, triOrder := TriOrderFirstPairAlike, VertOrderCW;
    } else if vert1Side * vert3Side > 0.0 {
      order, triOrder := TriOrderOuterPairAlike, VertOrderCCW;
    } else {
      order, triOrder := TriOrderLastPairAlike, VertOrderCW;
    }
    var p1, p2, p3 := worldTriVerts[order[0]], worldTriVerts[order[1]], worldTriVerts[order[2]];
    var uv1, uv2, uv3 := triUVs[order[0]], triUVs[order[1]], triUVs[order[2]];
    bisectedTriVerts := [xf.toLocal(p1), xf.toLocal(p2), xf.toLocal(p3),
      xf.toLocal(VectorPlanePOI(p1, Normalized(Sub(p2, p1), num), plane)),
      xf.toLocal(VectorPlanePOI(p1, Normalized(Sub(p3, p1), num), plane))];
    var t1 := num.edgeRatio(bisectedTriVerts[0], bisectedTriVerts[3], bisectedTriVerts[1]);
    var t2 := num.edgeRatio(bisectedTriVerts[0], bisectedTriVerts[4], bisectedTriVerts[2]);
    bisectedTriUVs := [uv1, uv2, uv3, Lerp(uv1, uv2, t1), Lerp(uv1, uv3, t2)];
  }

  /** The three append loops of a split triangle: table entries 0..3 to the
      slice of p1's side, 3..6 and 6..9 to the other. */
  method AppendSplit(slice1: Slice, slice2: Slice, routing: Routing,
                     bisectedTriVerts: seq<Vec3>, bisectedTriUVs: seq<Vec2>, p1Above: bool)
      returns (next1: Slice, next2: Slice)
    requires ValidRouting(routing) && routing.Bisect?
    requires |bisectedTriVerts| == 5 && |bisectedTriUVs| == 5
    ensures (next1, next2) == Dispatch(slice1, slice2, routing, [], [], bisectedTriVerts, bisectedTriUVs, p1Above)
  {
    var triOrder := routing.vertOrder;
    GatherSplit(bisectedTriVerts, triOrder, 3, 6, 9);
    GatherSplit(bisectedTriUVs, triOrder, 3, 6, 9);
    var midVs, midUs := Gather(bisectedTriVerts, triOrder[3..6]), Gather(bisectedTriUVs, triOrder[3..6]);
    var endVs, endUs := Gather(bisectedTriVerts, triOrder[6..9]), Gather(bisectedTriUVs, triOrder[6..9]);
    assert triOrder[..3] == triOrder[0..3] && triOrder[3..] == triOrder[3..9];
    next1, next2 := slice1, slice2;
    if p1Above {
      EmitConcat(slice2, midVs, midUs, endVs, endUs);
      next1 := AppendCorners(next1, bisectedTriVerts, bisectedTriUVs, triOrder, 0, 3);
      next2 := AppendCorners(next2, bisectedTriVerts, bisectedTriUVs, triOrder, 3, 6);
      next2 := AppendCorners(next2, bisectedTriVerts, bisectedTriUVs, triOrder, 6, 9);
    } else {
      EmitConcat(slice1, midVs, midUs, endVs, endUs);
      next2 := AppendCorners(next2, bisectedTriVerts, bisectedTriUVs, triOrder, 0, 3);
      next1 := AppendCorners(next1, bisectedTriVerts, bisectedTriUVs, triOrder, 3, 6);
      next1 := AppendCorners(next1, bisectedTriVerts, bisectedTriUVs, triOrder, 6, 9);
    }
  }

  /** Slicer.SliceMesh: the triangle loop over i = 1 .. meshTris.Length / 3.
      It returns the two slices' lists and the saved intersection points;
      building the slice objects and destroying the original are left out. */
  method SliceMesh(mesh: SourceMesh, xf: Transform, plane: CustomPlane, num: Numerics, isConvex: bool)
      returns (slice1: Slice, slice2: Slice, pois: seq<Vec3>)
    requires ValidMesh(mesh)
    requires AllSplittable(mesh, xf, plane, num, TriangleCount(mesh))
    ensures PassState(slice1, slice2, pois) == SliceUpTo(mesh, xf, plane, num, isConvex, TriangleCount(mesh))
    ensures Whole(slice1) && Whole(slice2)
  {
    var acc := PassState(EmptySlice, EmptySlice, []);
    var i := 1;
    while i <= |mesh.triangles| / 3
      invariant 1 <= i <= TriangleCount(mesh) + 1
      invariant acc == SliceUpTo(mesh, xf, plane, num, isConvex, i - 1)
    {
      assert Splittable(mesh, xf, plane, num, i);
      acc := SliceOneTriangle(acc, mesh, xf, plane, num, isConvex, i);
      SliceUpToNext(mesh, xf, plane, num, isConvex, i - 1);
      i := i + 1;
    }
    SliceKeepsBuffersWhole(mesh, xf, plane, num, isConvex, TriangleCount(mesh));
    slice1, slice2, pois := acc.slice1, acc.slice2, acc.pois;
  }

  // ---------------------------------------------------------------------
  // What the pass promises

  /** Both slices stay flat lists of whole triangles; between them they
      hold three corners per triangle plus six more per split triangle, and
      a convex object saves two intersection points per split triangle. */
  lemma SliceKeepsBuffersWhole(mesh: SourceMesh, xf: Transform, plane: CustomPlane,
                               num: Numerics, isConvex: bool, n: nat)
    requires ValidMesh(mesh) && n <= TriangleCount(mesh)
    requires AllSplittable(mesh, xf, plane, num, n)
    ensures var st, steps := SliceUpTo(mesh, xf, plane, num, isConvex, n), Steps(mesh, xf, plane, num, n);
      && Whole(st.slice1) && Whole(st.slice2)
      && |st.slice1.verts| + |st.slice2.verts| == 3 * n + 6 * Splits(steps)
      && |st.pois| == (if isConvex then 2 * Splits(steps) else 0)
  {
    RunKeepsWhole(Steps(mesh, xf, plane, num, n));
  }

  // ---------------------------------------------------------------------
  // Geometry of a split in world space

  /** A split triangle none of whose vertices lies on the plane, under a
      normalisation that keeps non-zero vectors non-zero: both rays from
      the odd vertex p1 meet the plane, and the two intersections are the
      points where the plane crosses edges p1-p2 and p1-p3, strictly
      inside them, at the fractions the side values give. */
  lemma BisectCutsEdges(w: seq<Vec3>, plane: CustomPlane, num: Numerics)
    requires |w| == 3 && Consistent(plane)
    requires GetSide(plane, w[0]) != 0.0 && GetSide(plane, w[1]) != 0.0 && GetSide(plane, w[2]) != 0.0
    requires Sides(plane, w).Bisect?
    requires forall v :: v != Zero3 ==> num.unitFactor(v) != 0.0
    ensures var o := Sides(plane, w).triOrder;
      var s1, s2, s3 := GetSide(plane, w[o[0]]), GetSide(plane, w[o[1]]), GetSide(plane, w[o[2]]);
      && RaysMeetPlane(w, o, plane, num)
      && BisectWorld(w, o, plane, num) == SplitPoints(w, o, s1 / (s1 - s2), s1 / (s1 - s3))
      && 0.0 < s1 / (s1 - s2) < 1.0 && 0.0 < s1 / (s1 - s3) < 1.0
  {
    var sides := [GetSide(plane, w[0]), GetSide(plane, w[1]), GetSide(plane, w[2])];
    var o := Sides(plane, w).triOrder;
    OddVertexFirst(sides[0], sides[1], sides[2]);
    var p1, p2, p3 := w[o[0]], w[o[1]], w[o[2]];
    var s1, s2, s3 := sides[o[0]], sides[o[1]], sides[o[2]];
    assert s1 == GetSide(plane, p1) && s2 == GetSide(plane, p2) && s3 == GetSide(plane, p3);
    assert s1 != s2 && s1 != s3;
    assert Sub(p2, p1) != Zero3 && Sub(p3, p1) != Zero3;
    PoiOnEdge(plane, p1, p2, num);
    PoiOnEdge(plane, p1, p3, num);
    SignProductsStrict(s1, s2);
    SignProductsStrict(s1, s3);
    FractionInside(s1, s2);
    FractionInside(s1, s3);
  }

  /** The three triangles a split emits, taken in world space, have the
      source triangle's winding and split its vector area: each is a
      positive multiple of it and the multiples add up to one. */
  lemma SplitPartitionsTriangle(w: seq<Vec3>, plane: CustomPlane, num: Numerics)
    requires |w| == 3 && Consistent(plane)
    requires GetSide(plane, w[0]) != 0.0 && GetSide(plane, w[1]) != 0.0 && GetSide(plane, w[2]) != 0.0
    requires Sides(plane, w).Bisect?
    requires forall v :: v != Zero3 ==> num.unitFactor(v) != 0.0
    ensures RaysMeetPlane(w, Sides(plane, w).triOrder, plane, num)
    ensures var r := Sides(plane, w);
      var q, n := BisectWorld(w, r.triOrder, plane, num), TriArea2(w);
      exists c0: real, c1: real, c2: real ::
        && 0.0 < c0 && 0.0 < c1 && 0.0 < c2 && c0 + c1 + c2 == 1.0
        && TriArea2(TableTriangle(q, r.vertOrder, 0)) == Scale(c0, n)
        && TriArea2(TableTriangle(q, r.vertOrder, 1)) == Scale(c1, n)
        && TriArea2(TableTriangle(q, r.vertOrder, 2)) == Scale(c2, n)
  {
    var r := Sides(plane, w);
    var o := r.triOrder;
    BisectCutsEdges(w, plane, num);
    var s1, s2, s3 := GetSide(plane, w[o[0]]), GetSide(plane, w[o[1]]), GetSide(plane, w[o[2]]);
    var t1, t2 := s1 / (s1 - s2), s1 / (s1 - s3);
    SplitKeepsWindingAndArea(w, r, t1, t2);
    assert 0.0 < t1 * t2 && 0.0 < 1.0 - t2 && 0.0 < t2 * (1.0 - t1);
  }

  /** Under the same normalisation, a mesh none of whose triangle corners
      lies on the plane meets the precondition of SliceMesh. */
  lemma OffPlaneMeshIsSplittable(mesh: SourceMesh, xf: Transform, plane: CustomPlane, num: Numerics)
    requires ValidMesh(mesh) && Consistent(plane)
    requires forall v :: v != Zero3 ==> num.unitFactor(v) != 0.0
    requires forall k :: 0 <= k < 3 * TriangleCount(mesh) ==>
      GetSide(plane, xf.toWorld(mesh.vertices[mesh.triangles[k]])) != 0.0
    ensures AllSplittable(mesh, xf, plane, num, TriangleCount(mesh))
  {
    forall i | 1 <= i <= TriangleCount(mesh)
      ensures Splittable(mesh, xf, plane, num, i)
    {
      var w := WorldTriVerts(xf, LocalTriVerts(mesh, i));
      assert GetSide(plane, w[0]) != 0.0 by { assert Indexor(i, 0) < 3 * TriangleCount(mesh); }
      assert GetSide(plane, w[1]) != 0.0 by { assert Indexor(i, 1) < 3 * TriangleCount(mesh); }
      assert GetSide(plane, w[2]) != 0.0 by { assert Indexor(i, 2) < 3 * TriangleCount(mesh); }
      if Sides(plane, w).Bisect? {
        BisectCutsEdges(w, plane, num);
      }
    }
  }

  /** Why the precondition is needed: a triangle whose first two vertices
      lie on the plane is split with p1, p2 in that order, and the ray from
      p1 toward p2 runs inside the plane, where the source divides by zero. */
  lemma TwoOnPlaneRayIsParallel(w: seq<Vec3>, plane: CustomPlane, num: Numerics)
    requires |w| == 3 && Consistent(plane)
    requires GetSide(plane, w[0]) == 0.0 && GetSide(plane, w[1]) == 0.0
    ensures Sides(plane, w) == Bisect(TriOrderLastPairAlike, VertOrderCW)
    ensures !RaysMeetPlane(w, TriOrderLastPairAlike, plane, num)
  {
    EdgeDirectionDot(plane, w[0], w[1], num.unitFactor(Sub(w[1], w[0])));
  }

  // ---------------------------------------------------------------------
  // Bounding-box pre-check

  function BoxSides(plane: CustomPlane, objMin: Vec3, objMax: Vec3): (sides: seq<real>)
    ensures |sides| == 8
  {
    var c := BoundingBoxVerts(objMin, objMax);
    seq(8, k requires 0 <= k < 8 => GetSide(plane, c[k]))
  }

  /** Some two neighbours in the list have strictly opposite signs. */
  predicate SignChange(sides: seq<real>) {
    exists k :: 1 <= k < |sides| && sides[k - 1] * sides[k] < 0.0
  }

  /** Some entry is positive and some negative. */
  predicate Straddles(sides: seq<real>) {
    (exists a :: 0 <= a < |sides| && sides[a] > 0.0) && (exists b :: 0 <= b < |sides| && sides[b] < 0.0)
  }

  /** Slicer.IsPlaneIntersecting: walks the corners in order, keeping the
      previous corner's side, and reports whether two consecutive corners
      lie strictly on opposite sides. */
  method IsPlaneIntersecting(objMin: Vec3, objMax: Vec3, plane: CustomPlane) returns (r: bool)
    ensures r <==> SignChange(BoxSides(plane, objMin, objMax))
  {
    ghost var sides := BoxSides(plane, objMin, objMax);
    var boundingBoxVerts := BoundingBoxVerts(objMin, objMax);
    var prevProduct := GetSide(plane, boundingBoxVerts[0]);
    var i := 1;
    while i < |boundingBoxVerts|
      invariant 1 <= i <= 8
      invariant prevProduct == sides[i - 1]
      invariant forall k :: 1 <= k < i ==> !(sides[k - 1] * sides[k] < 0.0)
    {
      var currentProduct := GetSide(plane, boundingBoxVerts[i]);
      if prevProduct * currentProduct < 0.0 {
        assert sides[i - 1] * sides[i] < 0.0;
        return true;
      }
      prevProduct := GetSide(plane, boundingBoxVerts[i]);
      i := i + 1;
    }
    return false;
  }

  /** A reported sign change means the box has corners on both sides of
      the plane; when no corner lies on the plane the converse holds too. */
  lemma {:induction false} SignChangeIffStraddles(sides: seq<real>)
    ensures SignChange(sides) ==> Straddles(sides)
    ensures (forall k :: 0 <= k < |sides| ==> sides[k] != 0.0) && Straddles(sides) ==> SignChange(sides)
  {
    if SignChange(sides) {
      var k :| 1 <= k < |sides| && sides[k - 1] * sides[k] < 0.0;
      SignProductsStrict(sides[k - 1], sides[k]);
      if sides[k - 1] > 0.0 {
        assert sides[k - 1] > 0.0 && sides[k] < 0.0;
      } else {
        assert sides[k] > 0.0 && sides[k - 1] < 0.0;
      }
    }
    if (forall k :: 0 <= k < |sides| ==> sides[k] != 0.0) && Straddles(sides) {
      var a :| 0 <= a < |sides| && sides[a] > 0.0;
      var b :| 0 <= b < |sides| && sides[b] < 0.0;
      NeighboursChangeSign(sides, a, b);
    }
  }

  lemma SignProductsStrict(a: real, b: real)
    requires a * b < 0.0
    ensures (a > 0.0 && b < 0.0) || (a < 0.0 && b > 0.0)
  {
    assert a != 0.0 && b != 0.0;
    SignProducts(a, b);
  }

  /** Between a positive and a negative entry of a list without zeros
      there are two neighbours of opposite signs. */
  lemma {:induction false} NeighboursChangeSign(sides: seq<real>, a: nat, b: nat)
    requires a < |sides| && b < |sides| && (sides[a] > 0.0) != (sides[b] > 0.0)
    requires forall k :: 0 <= k < |sides| ==> sides[k] != 0.0
    ensures SignChange(sides)
    decreases if a < b then b - a else a - b
  {
    var lo, hi := if a < b then a else b, if a < b then b else a;
    if (sides[lo] > 0.0) != (sides[lo + 1] > 0.0) {
      SignProducts(sides[lo], sides[lo + 1]);
      assert sides[lo + 1 - 1] * sides[lo + 1] < 0.0;
    } else {
      NeighboursChangeSign(sides, lo + 1, hi);
    }
  }
}
