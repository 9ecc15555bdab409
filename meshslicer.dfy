// MeshSlicer.cs: the slicer driven by Unity's own Plane (a boolean side
// test and Raycast), keeping the slices' lists in static fields.
module MeshSlicer {
  import opened Geometry
  import opened Engine
  import opened Slicing

  // ---------------------------------------------------------------------
  // One triangle of the source mesh (triangles counted from 0)

  /** meshIndexor = (i + 1) * 3 - (3 - j): corner j of triangle i. */
  function MeshIndexor(i: nat, j: nat): (k: nat)
    requires j < 3
    ensures k == 3 * i + j
  {
    (i + 1) * 3 - (3 - j)
  }

  function TriVertsLocal(mesh: SourceMesh, i: nat): seq<Vec3>
    requires ValidMesh(mesh) && i < TriangleCount(mesh)
  {
    [mesh.vertices[mesh.triangles[MeshIndexor(i, 0)]],
     mesh.vertices[mesh.triangles[MeshIndexor(i, 1)]],
     mesh.vertices[mesh.triangles[MeshIndexor(i, 2)]]]
  }

  function TriUVs(mesh: SourceMesh, i: nat): seq<Vec2>
    requires ValidMesh(mesh) && i < TriangleCount(mesh)
  {
    [mesh.uv[mesh.triangles[MeshIndexor(i, 0)]],
     mesh.uv[mesh.triangles[MeshIndexor(i, 1)]],
     mesh.uv[mesh.triangles[MeshIndexor(i, 2)]]]
  }

  function TriVertsWorld(xf: Transform, local: seq<Vec3>): seq<Vec3>
    requires |local| == 3
  {
    [xf.toWorld(local[0]), xf.toWorld(local[1]), xf.toWorld(local[2])]
  }

  // ---------------------------------------------------------------------
  // Classification by Plane.GetSide

  /** All on the positive side: slice 1; none: slice 2; otherwise split,
      reordered so that the vertex alone on its side comes first. */
  function ClassifySides(vert1Side: bool, vert2Side: bool, vert3Side: bool): (r: Routing)
    ensures ValidRouting(r)
  {
    if vert1Side && vert2Side && vert3Side then ToSlice1
    else if !vert1Side && !vert2Side && !vert3Side then ToSlice2
    else if vert1Side == vert2Side then Bisect(TriOrderFirstPairAlike, VertOrderCW)
    else if vert1Side == vert3Side then Bisect(TriOrderOuterPairAlike, VertOrderCCW)
    else Bisect(TriOrderLastPairAlike, VertOrderCW)
  }

  /** A triangle goes whole to slice 1 exactly when all three vertices are
      on the positive side and whole to slice 2 exactly when none is; a
      split puts first the one vertex whose side differs from the other
      two, and takes the counter-clockwise table exactly when that vertex
      is the middle one. */
  lemma ClassifySidesCases(b1: bool, b2: bool, b3: bool)
    ensures ClassifySides(b1, b2, b3) == ToSlice1 <==> b1 && b2 && b3
    ensures ClassifySides(b1, b2, b3) == ToSlice2 <==> !b1 && !b2 && !b3
    ensures var r, b := ClassifySides(b1, b2, b3), [b1, b2, b3];
      r.Bisect? ==>
        && b[r.triOrder[0]] != b[r.triOrder[1]]
        && b[r.triOrder[1]] == b[r.triOrder[2]]
        && (r.vertOrder == VertOrderCCW <==> r.triOrder[0] == 1)
  {
    assert VertOrderCW != VertOrderCCW by { assert VertOrderCW[0] != VertOrderCCW[0]; }
  }

  function Sides(plane: UnityPlane, w: seq<Vec3>): Routing
    requires |w| == 3
  {
    ClassifySides(plane.getSide(w[0]), plane.getSide(w[1]), plane.getSide(w[2]))
  }

  // ---------------------------------------------------------------------
  // The split points

  /** new Ray(from, (to - from).normalized), then origin + direction *
      the distance Plane.Raycast stores. */
  function Poi(plane: UnityPlane, from: Vec3, to: Vec3, num: Numerics): (p: Vec3)
    ensures Cross(Sub(p, from), Sub(to, from)) == Zero3
  {
    var v := Sub(to, from);
    var ray := NewRay(from, Normalized(v, num), num);
    var k := plane.raycast(ray) * (num.unitFactor(Normalized(v, num)) * num.unitFactor(v));
    ScaleScale(num.unitFactor(Normalized(v, num)), num.unitFactor(v), v);
    ScaleScale(plane.raycast(ray), num.unitFactor(Normalized(v, num)) * num.unitFactor(v), v);
    assert Sub(Add(ray.origin, Scale(plane.raycast(ray), ray.direction)), from) == Scale(k, v);
    CrossScaleLeft(k, v, v);
    CrossSelf(v);
    Add(ray.origin, Scale(plane.raycast(ray), ray.direction))
  }

  /** slicedTriVerts and slicedTriUVs of a split triangle: the three local
      vertices reordered, the two intersections brought back to local
      space, and their UVs interpolated along the two edges. */
  function SlicedTri(mesh: SourceMesh, xf: Transform, plane: UnityPlane, num: Numerics, i: nat)
      : (r: (seq<Vec3>, seq<Vec2>))
    requires ValidMesh(mesh) && i < TriangleCount(mesh)
    requires Sides(plane, TriVertsWorld(xf, TriVertsLocal(mesh, i))).Bisect?
    ensures |r.0| == 5 && |r.1| == 5
  {
    var local, uvs := TriVertsLocal(mesh, i), TriUVs(mesh, i);
    var w := TriVertsWorld(xf, local);
    var o := Sides(plane, w).triOrder;
    var w2 := [w[o[0]], w[o[1]], w[o[2]]];
    var v := [local[o[0]], local[o[1]], local[o[2]],
              xf.toLocal(Poi(plane, w2[0], w2[1], num)),
              xf.toLocal(Poi(plane, w2[0], w2[2], num))];
    var t1 := num.edgeRatio(v[0], v[3], v[1]);
    var t2 := num.edgeRatio(v[0], v[4], v[2]);
    (v, [uvs[o[0]], uvs[o[1]], uvs[o[2]], Lerp(uvs[o[0]], uvs[o[1]], t1), Lerp(uvs[o[0]], uvs[o[2]], t2)])
  }

  /** What triangle i hands to the slice lists. */
  function TriangleStep(mesh: SourceMesh, xf: Transform, plane: UnityPlane, num: Numerics, i: nat): (st: Step)
    requires ValidMesh(mesh) && i < TriangleCount(mesh)
    ensures ValidStep(st)
  {
    var local := TriVertsLocal(mesh, i);
    var w := TriVertsWorld(xf, local);
    var routing := Sides(plane, w);
    if routing.Bisect? then
      var (v, vUVs) := SlicedTri(mesh, xf, plane, num, i);
      Step(routing, local, TriUVs(mesh, i), v, vUVs, plane.getSide(w[routing.triOrder[0]]))
    else
      Step(routing, local, TriUVs(mesh, i), [], [], false)
  }

  /** The steps of triangles 0 .. n-1. */
  function Steps(mesh: SourceMesh, xf: Transform, plane: UnityPlane, num: Numerics, n: nat): (r: seq<Step>)
    requires ValidMesh(mesh) && n <= TriangleCount(mesh)
    ensures |r| == n && forall k :: 0 <= k < n ==> ValidStep(r[k])
  {
    seq(n, k requires 0 <= k < n => TriangleStep(mesh, xf, plane, num, k))
  }

  /** The two slices after triangles 0 .. n-1. */
  function SliceUpTo(mesh: SourceMesh, xf: Transform, plane: UnityPlane, num: Numerics, n: nat): (r: (Slice, Slice))
    requires ValidMesh(mesh) && n <= TriangleCount(mesh)
    ensures n == 0 ==> r == (EmptySlice, EmptySlice)
  {
    Run(Steps(mesh, xf, plane, num, n))
  }

  /** One more triangle applies its step to the slices so far. */
  lemma SliceUpToNext(mesh: SourceMesh, xf: Transform, plane: UnityPlane, num: Numerics, n: nat)
    requires ValidMesh(mesh) && n < TriangleCount(mesh)
    ensures SliceUpTo(mesh, xf, plane, num, n + 1)
         == Apply(SliceUpTo(mesh, xf, plane, num, n), TriangleStep(mesh, xf, plane, num, n))
  {
    var steps := Steps(mesh, xf, plane, num, n + 1);
    assert steps[..n] == Steps(mesh, xf, plane, num, n);
  }

  /** Both slices stay flat lists of whole triangles, and between them
      they hold three corners per triangle plus six per split triangle. */
  lemma SliceKeepsBuffersWhole(mesh: SourceMesh, xf: Transform, plane: UnityPlane, num: Numerics, n: nat)
    requires ValidMesh(mesh) && n <= TriangleCount(mesh)
    ensures var st, steps := SliceUpTo(mesh, xf, plane, num, n), Steps(mesh, xf, plane, num, n);
      && Whole(st.0) && Whole(st.1)
      && |st.0.verts| + |st.1.verts| == 3 * n + 6 * Splits(steps)
  {
    RunKeepsWhole(Steps(mesh, xf, plane, num, n));
  }

  // ---------------------------------------------------------------------
  // The static slice lists and SliceMesh

  /** The class's static lists slice1Verts .. slice2UVs. They are reset at
      the start of every SliceMesh and keep the last result afterwards. */
  class SliceState {
    var slice1Verts: seq<Vec3>
    var slice2Verts: seq<Vec3>
    var slice1Tris: seq<int>
    var slice2Tris: seq<int>
    var slice1UVs: seq<Vec2>
    var slice2UVs: seq<Vec2>

    function Slice1(): Slice
      reads this
    {
      Slice(slice1Verts, slice1Tris, slice1UVs)
    }

    function Slice2(): Slice
      reads this
    {
      Slice(slice2Verts, slice2Tris, slice2UVs)
    }

    constructor ()
      ensures Slice1() == EmptySlice && Slice2() == EmptySlice
    {
      slice1Verts, slice2Verts := [], [];
      slice1Tris, slice2Tris := [], [];
      slice1UVs, slice2UVs := [], [];
    }

    /** One `for (j = lo; j < hi; j++)` append loop, into slice 1 or 2:
        Verts.Add(v); Tris.Add(Verts.Count - 1); UVs.Add(uv). */
    method AddCorners(toSlice1: bool, pts: seq<Vec3>, uvs: seq<Vec2>, order: seq<nat>, lo: nat, hi: nat)
      modifies this
      requires lo <= hi <= |order|
      requires forall k :: 0 <= k < |order| ==> order[k] < |pts| && order[k] < |uvs|
      ensures toSlice1 ==> Slice1() == Emit(old(Slice1()), Gather(pts, order[lo..hi]), Gather(uvs, order[lo..hi]))
      ensures toSlice1 ==> Slice2() == old(Slice2())
      ensures !toSlice1 ==> Slice2() == Emit(old(Slice2()), Gather(pts, order[lo..hi]), Gather(uvs, order[lo..hi]))
      ensures !toSlice1 ==> Slice1() == old(Slice1())
    {
      for j := lo to hi
        invariant toSlice1 ==> Slice1() == Emit(old(Slice1()), Gather(pts, order[lo..j]), Gather(uvs, order[lo..j]))
        invariant toSlice1 ==> Slice2() == old(Slice2())
        invariant !toSlice1 ==> Slice2() == Emit(old(Slice2()), Gather(pts, order[lo..j]), Gather(uvs, order[lo..j]))
        invariant !toSlice1 ==> Slice1() == old(Slice1())
      {
        assert Gather(pts, order[lo..j + 1]) == Gather(pts, order[lo..j]) + [pts[order[j]]];
        assert Gather(uvs, order[lo..j + 1]) == Gather(uvs, order[lo..j]) + [uvs[order[j]]];
        if toSlice1 {
          EmitAdd(old(Slice1()), Gather(pts, order[lo..j]), Gather(uvs, order[lo..j]), pts[order[j]], uvs[order[j]]);
          slice1Verts := slice1Verts + [pts[order[j]]];
          slice1Tris := slice1Tris + [|slice1Verts| - 1];
          slice1UVs := slice1UVs + [uvs[order[j]]];
        } else {
          EmitAdd(old(Slice2()), Gather(pts, order[lo..j]), Gather(uvs, order[lo..j]), pts[order[j]], uvs[order[j]]);
          slice2Verts := slice2Verts + [pts[order[j]]];
          slice2Tris := slice2Tris + [|slice2Verts| - 1];
          slice2UVs := slice2UVs + [uvs[order[j]]];
        }
      }
    }

    /** The body of the triangle loop for triangle i. */
    method SliceOneTriangle(mesh: SourceMesh, xf: Transform, plane: UnityPlane, num: Numerics, i: nat)
      modifies this
      requires ValidMesh(mesh) && i < TriangleCount(mesh)
      ensures (Slice1(), Slice2()) == Apply((old(Slice1()), old(Slice2())), TriangleStep(mesh, xf, plane, num, i))
    {
      var triVertsLocal, triVertsWorld, triUVs := ReadTriangle(mesh, xf, i);
      assert Gather(triVertsLocal, [0, 1, 2][0..3]) == triVertsLocal;
      assert Gather(triUVs, [0, 1, 2][0..3]) == triUVs;
      var vert1Side := plane.getSide(triVertsWorld[0]);
      var vert2Side := plane.getSide(triVertsWorld[1]);
      var vert3Side := plane.getSide(triVertsWorld[2]);
      if vert1Side && vert2Side && vert3Side {
        AddCorners(true, triVertsLocal, triUVs, [0, 1, 2], 0, 3);
      } else if !vert1Side && !vert2Side && !vert3Side {
        AddCorners(false, triVertsLocal, triUVs, [0, 1, 2], 0, 3);
      } else {
        var triOrder: seq<nat>, vertOrder: seq<nat>;
        if vert1Side == vert2Side {
          triOrder, vertOrder := TriOrderFirstPairAlike, VertOrderCW;
        } else if vert1Side == vert3Side {
          triOrder, vertOrder := TriOrderOuterPairAlike, VertOrderCCW;
        } else {
          triOrder, vertOrder := TriOrderLastPairAlike, VertOrderCW;
        }
        var slicedTriVerts, slicedTriUVs := SliceTriangleCorners(xf, plane, num, triVertsLocal,
                                                                  triVertsWorld, triUVs, triOrder);
        assert Sides(plane, triVertsWorld) == Bisect(triOrder, vertOrder);
        assert slicedTriVerts == [slicedTriVerts[0], slicedTriVerts[1], slicedTriVerts[2], slicedTriVerts[3], slicedTriVerts[4]];
        assert slicedTriUVs == [slicedTriUVs[0], slicedTriUVs[1], slicedTriUVs[2], slicedTriUVs[3], slicedTriUVs[4]];
        assert (slicedTriVerts, slicedTriUVs) == SlicedTri(mesh, xf, plane, num, i);
        AddSplitTriangle(Bisect(triOrder, vertOrder), triVertsLocal, triUVs, slicedTriVerts, slicedTriUVs,
                         plane.getSide(triVertsWorld[triOrder[0]]));
      }
    }

    /** The two append loops of a split triangle: table entries 0..3 go to
        the odd vertex's slice, entries 3..9 to the other. */
    method AddSplitTriangle(routing: Routing, tri: seq<Vec3>, triUVs: seq<Vec2>,
                            slicedTriVerts: seq<Vec3>, slicedTriUVs: seq<Vec2>, oddOnSlice1: bool)
      modifies this
      requires ValidRouting(routing) && routing.Bisect?
      requires |slicedTriVerts| == 5 && |slicedTriUVs| == 5
      ensures (Slice1(), Slice2())
           == Dispatch(old(Slice1()), old(Slice2()), routing, tri, triUVs, slicedTriVerts, slicedTriUVs, oddOnSlice1)
    {
      var vertOrder := routing.vertOrder;
      assert vertOrder[..3] == vertOrder[0..3] && vertOrder[3..] == vertOrder[3..9];
      AddCorners(oddOnSlice1, slicedTriVerts, slicedTriUVs, vertOrder, 0, 3);
      AddCorners(!oddOnSlice1, slicedTriVerts, slicedTriUVs, vertOrder, 3, 9);
    }

    /** MeshSlicer.SliceMesh: resets the six lists and runs the triangle
        loop over i = 0 .. meshTris.Length / 3 - 1. Building the slice
        objects and destroying the original are left out. */
    method SliceMesh(mesh: SourceMesh, xf: Transform, plane: UnityPlane, num: Numerics)
      modifies this
      requires ValidMesh(mesh)
      ensures (Slice1(), Slice2()) == SliceUpTo(mesh, xf, plane, num, TriangleCount(mesh))
      ensures Whole(Slice1()) && Whole(Slice2())
    {
      slice1Verts, slice2Verts := [], [];
      slice1Tris, slice2Tris := [], [];
      slice1UVs, slice2UVs := [], [];
      var i := 0;
      while i < |mesh.triangles| / 3
        invariant 0 <= i <= TriangleCount(mesh)
        invariant (Slice1(), Slice2()) == SliceUpTo(mesh, xf, plane, num, i)
      {
        SliceOneTriangle(mesh, xf, plane, num, i);
        SliceUpToNext(mesh, xf, plane, num, i);
        i := i + 1;
      }
      SliceKeepsBuffersWhole(mesh, xf, plane, num, TriangleCount(mesh));
    }
  }

  /** The `for (j = 0; j < 3; j++)` loop filling triVertsLocal,
      triVertsWorld and triUVs. */
  method ReadTriangle(mesh: SourceMesh, xf: Transform, i: nat)
      returns (triVertsLocal: seq<Vec3>, triVertsWorld: seq<Vec3>, triUVs: seq<Vec2>)
    requires ValidMesh(mesh) && i < TriangleCount(mesh)
    ensures triVertsLocal == TriVertsLocal(mesh, i)
    ensures triVertsWorld == TriVertsWorld(xf, triVertsLocal)
    ensures triUVs == TriUVs(mesh, i)
  {
    var local := new Vec3[3](_ => Zero3);
    var world := new Vec3[3](_ => Zero3);
    var uvs := new Vec2[3](_ => Zero2);
    ghost var want, wantUVs := TriVertsLocal(mesh, i), TriUVs(mesh, i);
    for j := 0 to 3
      invariant forall k :: 0 <= k < j ==> local[k] == want[k] && world[k] == xf.toWorld(local[k]) && uvs[k] == wantUVs[k]
    {
      var meshIndexor := MeshIndexor(i, j);
      local[j] := mesh.vertices[mesh.triangles[meshIndexor]];
      world[j] := xf.toWorld(local[j]);
      uvs[j] := mesh.uv[mesh.triangles[meshIndexor]];
    }
    triVertsLocal, triVertsWorld, triUVs := local[..], world[..], uvs[..];
  }

  /** The reordering loop over triOrder into slicedTriVerts,
      slicedTriUVs and triVertsWorld2, then the two intersections and
      their UVs in entries 3 and 4. */
  method SliceTriangleCorners(xf: Transform, plane: UnityPlane, num: Numerics,
                              triVertsLocal: seq<Vec3>, triVertsWorld: seq<Vec3>, triUVs: seq<Vec2>,
                              triOrder: seq<nat>)
      returns (slicedTriVerts: seq<Vec3>, slicedTriUVs: seq<Vec2>)
    requires |triVertsLocal| == 3 && |triVertsWorld| == 3 && |triUVs| == 3
    requires |triOrder| == 3 && forall k :: 0 <= k < 3 ==> triOrder[k] < 3
    ensures |slicedTriVerts| == 5 && |slicedTriUVs| == 5
    ensures forall k :: 0 <= k < 3 ==>
      slicedTriVerts[k] == triVertsLocal[triOrder[k]] && slicedTriUVs[k] == triUVs[triOrder[k]]
    ensures var p := triVertsWorld[triOrder[0]];
      && slicedTriVerts[3] == xf.toLocal(Poi(plane, p, triVertsWorld[triOrder[1]], num))
      && slicedTriVerts[4] == xf.toLocal(Poi(plane, p, triVertsWorld[triOrder[2]], num))
    ensures slicedTriUVs[3] == Lerp(slicedTriUVs[0], slicedTriUVs[1], num.edgeRatio(slicedTriVerts[0], slicedTriVerts[3], slicedTriVerts[1]))
    ensures slicedTriUVs[4] == Lerp(slicedTriUVs[0], slicedTriUVs[2], num.edgeRatio(slicedTriVerts[0], slicedTriVerts[4], slicedTriVerts[2]))
  {
    var verts := new Vec3[5](_ => Zero3);
    var uvs := new Vec2[5](_ => Zero2);
    var world2 := new Vec3[3](_ => Zero3);
    for j := 0 to |triOrder|
      invariant forall k :: 0 <= k < j ==>
        && verts[k] == triVertsLocal[triOrder[k]]
        && uvs[k] == triUVs[triOrder[k]]
        && world2[k] == triVertsWorld[triOrder[k]]
    {
      verts[j] := triVertsLocal[triOrder[j]];
      uvs[j] := triUVs[triOrder[j]];
      world2[j] := triVertsWorld[triOrder[j]];
    }
    var poiRay1 := NewRay(world2[0], Normalized(Sub(world2[1], world2[0]), num), num);
    var poiRay2 := NewRay(world2[0], Normalized(Sub(world2[2], world2[0]), num), num);
    var rayDistance := plane.raycast(poiRay1);
    var poi1 := Add(poiRay1.origin, Scale(rayDistance, poiRay1.direction));
    rayDistance := plane.raycast(poiRay2);
    var poi2 := Add(poiRay2.origin, Scale(rayDistance, poiRay2.direction));
    verts[3] := xf.toLocal(poi1);
    verts[4] := xf.toLocal(poi2);
    var t1 := num.edgeRatio(verts[0], verts[3], verts[1]);
    var t2 := num.edgeRatio(verts[0], verts[4], verts[2]);
    uvs[3] := Lerp(uvs[0], uvs[1], t1);
    uvs[4] := Lerp(uvs[0], uvs[2], t2);
    slicedTriVerts, slicedTriUVs := verts[..], uvs[..];
  }

  // ---------------------------------------------------------------------
  // Geometry of a split, for a Plane that behaves as Unity's does

  /** Unity's Plane with normal n and distance d: GetSide(p) is
      n . p + d > 0, and whenever a ray is not parallel to the plane the
      distance Raycast stores puts the ray's point on the plane. */
  ghost predicate PlaneOf(plane: UnityPlane, n: Vec3, d: real) {
    && (forall p {:trigger plane.getSide(p)} :: plane.getSide(p) <==> Dot(n, p) + d > 0.0)
    && (forall ray: Ray {:trigger plane.raycast(ray)} :: Dot(n, ray.direction) != 0.0 ==>
          Dot(n, Add(ray.origin, Scale(plane.raycast(ray), ray.direction))) + d == 0.0)
  }

  /** The only point of the line a + mu (b - a) on the plane is at the
      fraction fixed by the two ends' plane values. */
  lemma LineMeetsPlane(n: Vec3, d: real, a: Vec3, b: Vec3, mu: real)
    requires Dot(n, a) != Dot(n, b)
    requires Dot(n, Add(a, Scale(mu, Sub(b, a)))) + d == 0.0
    ensures mu == (Dot(n, a) + d) / ((Dot(n, a) + d) - (Dot(n, b) + d))
  {
    DotAdd(n, a, Scale(mu, Sub(b, a)));
    DotScale(n, mu, Sub(b, a));
    DotSub(n, b, a);
    assert mu * ((Dot(n, a) + d) - (Dot(n, b) + d)) == Dot(n, a) + d;
  }

  lemma ScaleNonZero(k: real, v: Vec3)
    requires k != 0.0 && v != Zero3
    ensures Scale(k, v) != Zero3
  {
    if v.x != 0.0 { assert k * v.x != 0.0; }
    else if v.y != 0.0 { assert k * v.y != 0.0; }
    else { assert v.z != 0.0; assert k * v.z != 0.0; }
  }

  /** The factor the two normalisations put on the edge vector. */
  function DirectionFactor(v: Vec3, num: Numerics): real {
    num.unitFactor(Normalized(v, num)) * num.unitFactor(v)
  }

  /** The intersection lies on the line through a and b: at the distance
      Raycast stores times the normalisation factor along b - a. */
  lemma PoiOnLine(plane: UnityPlane, a: Vec3, b: Vec3, num: Numerics)
    ensures var v := Sub(b, a);
      var ray := NewRay(a, Normalized(v, num), num);
      && ray.direction == Scale(DirectionFactor(v, num), v)
      && Poi(plane, a, b, num) == Add(a, Scale(plane.raycast(ray) * DirectionFactor(v, num), v))
  {
    var v := Sub(b, a);
    var k1 := num.unitFactor(v);
    var k2 := num.unitFactor(Scale(k1, v));
    var ray := NewRay(a, Normalized(v, num), num);
    ScaleScale(k2, k1, v);
    ScaleScale(plane.raycast(ray), k2 * k1, v);
  }

  /** A normalisation that keeps non-zero vectors non-zero leaves a
      non-zero factor. */
  lemma DirectionFactorNonZero(v: Vec3, num: Numerics)
    requires v != Zero3
    requires forall u :: u != Zero3 ==> num.unitFactor(u) != 0.0
    ensures DirectionFactor(v, num) != 0.0
  {
    ScaleNonZero(num.unitFactor(v), v);
  }

  /** When a and b lie on opposite sides, the intersection Poi computes
      from a toward b is the point of edge a-b on the plane. The ray's direction is normalised twice (once by
      .normalized, once by the Ray constructor); both only rescale it. */
  lemma PoiOnEdge(plane: UnityPlane, n: Vec3, d: real, a: Vec3, b: Vec3, num: Numerics)
    requires PlaneOf(plane, n, d)
    requires OppositeSigns(Dot(n, a) + d, Dot(n, b) + d)
    requires forall v :: v != Zero3 ==> num.unitFactor(v) != 0.0
    ensures var sa, sb := Dot(n, a) + d, Dot(n, b) + d;
      Poi(plane, a, b, num) == EdgePoint(a, b, sa / (sa - sb))
  {
    assert Dot(n, a) != Dot(n, b);
    RayNotParallel(n, a, b, num);
    PoiAtEdgeFraction(plane, n, d, a, b, num);
  }

  /** The ray from a toward b is not parallel to a plane that a and b are
      at different heights above. */
  lemma RayNotParallel(n: Vec3, a: Vec3, b: Vec3, num: Numerics)
    requires Dot(n, a) != Dot(n, b)
    requires forall v :: v != Zero3 ==> num.unitFactor(v) != 0.0
    ensures Dot(n, NewRay(a, Normalized(Sub(b, a), num), num).direction) != 0.0
  {
    var v := Sub(b, a);
    assert v != Zero3 by { DotSub(n, b, a); }
    var k := DirectionFactor(v, num);
    var ray := NewRay(a, Normalized(v, num), num);
    assert ray.direction == Scale(k, v) by { ScaleScale(num.unitFactor(Normalized(v, num)), num.unitFactor(v), v); }
    DirectionFactorNonZero(v, num);
    DotScale(n, k, v);
    DotSub(n, b, a);
  }

  /** Where the ray from a toward b meets the plane: at the fraction of
      edge a-b fixed by the two ends' plane values. */
  lemma PoiAtEdgeFraction(plane: UnityPlane, n: Vec3, d: real, a: Vec3, b: Vec3, num: Numerics)
    requires PlaneOf(plane, n, d)
    requires Dot(n, a) != Dot(n, b)
    requires Dot(n, NewRay(a, Normalized(Sub(b, a), num), num).direction) != 0.0
    ensures var sa, sb := Dot(n, a) + d, Dot(n, b) + d;
      Poi(plane, a, b, num) == EdgePoint(a, b, sa / (sa - sb))
  {
    var v := Sub(b, a);
    var k := DirectionFactor(v, num);
    var ray := NewRay(a, Normalized(v, num), num);
    var p := Poi(plane, a, b, num);
    assert Dot(n, p) + d == 0.0;
    assert p == Add(a, Scale(plane.raycast(ray) * k, v)) by { PoiOnLine(plane, a, b, num); }
    LinePointOnPlane(n, d, a, b, p, plane.raycast(ray) * k);
  }

  /** A point of the line through a and b that lies on the plane is the
      edge point at the fraction fixed by the two ends' plane values. */
  lemma LinePointOnPlane(n: Vec3, d: real, a: Vec3, b: Vec3, p: Vec3, mu: real)
    requires Dot(n, a) != Dot(n, b)
    requires p == Add(a, Scale(mu, Sub(b, a))) && Dot(n, p) + d == 0.0
    ensures var sa, sb := Dot(n, a) + d, Dot(n, b) + d;
      p == EdgePoint(a, b, sa / (sa - sb))
  {
    LineMeetsPlane(n, d, a, b, mu);
  }

  /** A split triangle none of whose vertices lies on the plane, under a
      normalisation that keeps non-zero vectors non-zero: the two
      intersections are the points where the plane crosses edges p1-p2
      and p1-p3, strictly inside them, at the fractions the plane values
      of the vertices give. */
  lemma SplitCutsEdges(w: seq<Vec3>, plane: UnityPlane, n: Vec3, d: real, num: Numerics)
    requires |w| == 3 && PlaneOf(plane, n, d)
    requires Dot(n, w[0]) + d != 0.0 && Dot(n, w[1]) + d != 0.0 && Dot(n, w[2]) + d != 0.0
    requires Sides(plane, w).Bisect?
    requires forall v :: v != Zero3 ==> num.unitFactor(v) != 0.0
    ensures var o := Sides(plane, w).triOrder;
      var p1, p2, p3 := w[o[0]], w[o[1]], w[o[2]];
      var s1, s2, s3 := Dot(n, p1) + d, Dot(n, p2) + d, Dot(n, p3) + d;
      && [p1, p2, p3, Poi(plane, p1, p2, num), Poi(plane, p1, p3, num)]
         == SplitPoints(w, o, s1 / (s1 - s2), s1 / (s1 - s3))
      && 0.0 < s1 / (s1 - s2) < 1.0 && 0.0 < s1 / (s1 - s3) < 1.0
  {
    var o := Sides(plane, w).triOrder;
    var p1, p2, p3 := w[o[0]], w[o[1]], w[o[2]];
    var s1, s2, s3 := Dot(n, p1) + d, Dot(n, p2) + d, Dot(n, p3) + d;
    assert plane.getSide(p1) != plane.getSide(p2) && plane.getSide(p1) != plane.getSide(p3) by {
      ClassifySidesCases(plane.getSide(w[0]), plane.getSide(w[1]), plane.getSide(w[2]));
      assert [plane.getSide(w[0]), plane.getSide(w[1]), plane.getSide(w[2])][o[0]] == plane.getSide(p1);
    }
    EdgeCut(plane, n, d, p1, p2, num);
    EdgeCut(plane, n, d, p1, p3, num);
  }

  /** The cut on one edge whose ends GetSide puts on different sides. */
  lemma EdgeCut(plane: UnityPlane, n: Vec3, d: real, a: Vec3, b: Vec3, num: Numerics)
    requires PlaneOf(plane, n, d)
    requires Dot(n, a) + d != 0.0 && Dot(n, b) + d != 0.0
    requires plane.getSide(a) != plane.getSide(b)
    requires forall v :: v != Zero3 ==> num.unitFactor(v) != 0.0
    ensures var sa, sb := Dot(n, a) + d, Dot(n, b) + d;
      && Poi(plane, a, b, num) == EdgePoint(a, b, sa / (sa - sb))
      && 0.0 < sa / (sa - sb) < 1.0
  {
    var sa, sb := Dot(n, a) + d, Dot(n, b) + d;
    OppositeSides(plane, n, d, a, b);
    assert Poi(plane, a, b, num) == EdgePoint(a, b, sa / (sa - sb)) by { PoiOnEdge(plane, n, d, a, b, num); }
    assert 0.0 < sa / (sa - sb) < 1.0 by { FractionInside(sa, sb); }
  }

  /** Two points off the plane that GetSide puts on different sides have
      plane values of opposite signs. */
  lemma OppositeSides(plane: UnityPlane, n: Vec3, d: real, a: Vec3, b: Vec3)
    requires PlaneOf(plane, n, d)
    requires Dot(n, a) + d != 0.0 && Dot(n, b) + d != 0.0
    requires plane.getSide(a) != plane.getSide(b)
    ensures OppositeSigns(Dot(n, a) + d, Dot(n, b) + d)
  {
    assert plane.getSide(a) <==> Dot(n, a) + d > 0.0;
    assert plane.getSide(b) <==> Dot(n, b) + d > 0.0;
  }

  /** The three triangles a split emits, taken in world space, have the
      source triangle's winding and split its vector area: each is a
      positive multiple of it and the multiples add up to one. */
  lemma SplitPartitionsTriangle(w: seq<Vec3>, plane: UnityPlane, n: Vec3, d: real, num: Numerics)
    requires |w| == 3 && PlaneOf(plane, n, d)
    requires Dot(n, w[0]) + d != 0.0 && Dot(n, w[1]) + d != 0.0 && Dot(n, w[2]) + d != 0.0
    requires Sides(plane, w).Bisect?
    requires forall v :: v != Zero3 ==> num.unitFactor(v) != 0.0
    ensures var r := Sides(plane, w);
      var o := r.triOrder;
      var q := [w[o[0]], w[o[1]], w[o[2]], Poi(plane, w[o[0]], w[o[1]], num), Poi(plane, w[o[0]], w[o[2]], num)];
      exists c0: real, c1: real, c2: real ::
        && 0.0 < c0 && 0.0 < c1 && 0.0 < c2 && c0 + c1 + c2 == 1.0
        && TriArea2(TableTriangle(q, r.vertOrder, 0)) == Scale(c0, TriArea2(w))
        && TriArea2(TableTriangle(q, r.vertOrder, 1)) == Scale(c1, TriArea2(w))
        && TriArea2(TableTriangle(q, r.vertOrder, 2)) == Scale(c2, TriArea2(w))
  {
    var r := Sides(plane, w);
    var o := r.triOrder;
    SplitCutsEdges(w, plane, n, d, num);
    var s1, s2, s3 := Dot(n, w[o[0]]) + d, Dot(n, w[o[1]]) + d, Dot(n, w[o[2]]) + d;
    var t1, t2 := s1 / (s1 - s2), s1 / (s1 - s3);
    SplitKeepsWindingAndArea(w, r, t1, t2);
    assert 0.0 < t1 * t2 && 0.0 < 1.0 - t2 && 0.0 < t2 * (1.0 - t1);
  }

  // ---------------------------------------------------------------------
  // Bounding-box pre-check

  /** Some corner after the first is on a different side from the first. */
  predicate SideDiffersFromFirst(plane: UnityPlane, corners: seq<Vec3>)
    requires |corners| > 0
  {
    exists k :: 1 <= k < |corners| && plane.getSide(corners[k]) != plane.getSide(corners[0])
  }

  /** Some corner is on the positive side and some is not. */
  predicate CornersOnBothSides(plane: UnityPlane, corners: seq<Vec3>) {
    (exists a :: 0 <= a < |corners| && plane.getSide(corners[a]))
    && (exists b :: 0 <= b < |corners| && !plane.getSide(corners[b]))
  }

  /** Comparing every corner with the first finds exactly the boxes with
      corners on both sides. */
  lemma SideDiffersIffBothSides(plane: UnityPlane, corners: seq<Vec3>)
    requires |corners| > 0
    ensures SideDiffersFromFirst(plane, corners) <==> CornersOnBothSides(plane, corners)
  {
    if CornersOnBothSides(plane, corners) {
      var a :| 0 <= a < |corners| && plane.getSide(corners[a]);
      var b :| 0 <= b < |corners| && !plane.getSide(corners[b]);
      if plane.getSide(corners[0]) {
        assert b != 0;
      } else {
        assert a != 0;
      }
    }
    if SideDiffersFromFirst(plane, corners) {
      var k :| 1 <= k < |corners| && plane.getSide(corners[k]) != plane.getSide(corners[0]);
      if plane.getSide(corners[0]) {
        assert !plane.getSide(corners[k]);
      } else {
        assert plane.getSide(corners[k]);
      }
    }
  }

  /** MeshSlicer.IsPlaneIntersectingMesh, as written: the corners of
      mesh.bounds, which Unity gives in the mesh's local space, tested
      against the plane, which is in world space. */
  method IsPlaneIntersectingMesh(objMin: Vec3, objMax: Vec3, plane: UnityPlane) returns (r: bool)
    ensures r <==> CornersOnBothSides(plane, BoundingBoxVerts(objMin, objMax))
  {
    var meshBoundVerts := BoundingBoxVerts(objMin, objMax);
    var side := plane.getSide(meshBoundVerts[0]);
    SideDiffersIffBothSides(plane, meshBoundVerts);
    for i := 1 to |meshBoundVerts|
      invariant forall k :: 1 <= k < i ==> plane.getSide(meshBoundVerts[k]) == side
    {
      if plane.getSide(meshBoundVerts[i]) != side {
        return true;
      }
    }
    return false;
  }

  function WorldCorners(xf: Transform, corners: seq<Vec3>): (w: seq<Vec3>)
    ensures |w| == |corners|
    ensures forall k :: 0 <= k < |corners| ==> w[k] == xf.toWorld(corners[k])
  {
    seq(|corners|, k requires 0 <= k < |corners| => xf.toWorld(corners[k]))
  }

  /** The check with the box corners first taken to world space, as the
      world-space plane needs. */
  method IsPlaneIntersectingObject(objMin: Vec3, objMax: Vec3, xf: Transform, plane: UnityPlane) returns (r: bool)
    ensures r <==> CornersOnBothSides(plane, WorldCorners(xf, BoundingBoxVerts(objMin, objMax)))
  {
    var worldBoundVerts := WorldCorners(xf, BoundingBoxVerts(objMin, objMax));
    var side := plane.getSide(worldBoundVerts[0]);
    SideDiffersIffBothSides(plane, worldBoundVerts);
    for i := 1 to |worldBoundVerts|
      invariant forall k :: 1 <= k < i ==> plane.getSide(worldBoundVerts[k]) == side
    {
      if plane.getSide(worldBoundVerts[i]) != side {
        return true;
      }
    }
    return false;
  }

  /** A unit cube moved by (10, 0, 0) and the plane x = 10.5 that cuts it
      in world space: the local corners all lie on one side, so the check
      as written reports no intersection, while the world-space check
      reports one. */
  lemma LocalBoundsMissTheCut()
    ensures var xf := Transform((v: Vec3) => Add(v, Vec3(10.0, 0.0, 0.0)), (v: Vec3) => Sub(v, Vec3(10.0, 0.0, 0.0)));
      var plane := UnityPlane((v: Vec3) => v.x - 10.5 > 0.0, (ray: Ray) => 0.0);
      var box := BoundingBoxVerts(Zero3, Vec3(1.0, 1.0, 1.0));
      && !CornersOnBothSides(plane, box)
      && CornersOnBothSides(plane, WorldCorners(xf, box))
  {
    var xf := Transform((v: Vec3) => Add(v, Vec3(10.0, 0.0, 0.0)), (v: Vec3) => Sub(v, Vec3(10.0, 0.0, 0.0)));
    var plane := UnityPlane((v: Vec3) => v.x - 10.5 > 0.0, (ray: Ray) => 0.0);
    var box := BoundingBoxVerts(Zero3, Vec3(1.0, 1.0, 1.0));
    var w := WorldCorners(xf, box);
    assert plane.getSide(w[1]) && !plane.getSide(w[0]);
  }

  // ---------------------------------------------------------------------
  // Line and AddTriangle

  /** A segment of the cut outline, in local and world space, with its
      world direction. */
  datatype Line = Line(localPoint1: Vec3, localPoint2: Vec3, worldPoint1: Vec3, worldPoint2: Vec3, worldDir: Vec3)

  /** The Line constructor: keeps the four points and sets worldDir to the
      normalised world segment: parallel to it, and its projection on the
      segment is the normalisation factor times the squared length. */
  function NewLine(localP1: Vec3, localP2: Vec3, worldP1: Vec3, worldP2: Vec3, num: Numerics): (l: Line)
    ensures l.localPoint1 == localP1 && l.localPoint2 == localP2
    ensures l.worldPoint1 == worldP1 && l.worldPoint2 == worldP2
    ensures Cross(l.worldDir, Sub(worldP2, worldP1)) == Zero3
    ensures Dot(l.worldDir, Sub(worldP2, worldP1))
      == num.unitFactor(Sub(worldP2, worldP1)) * Dot(Sub(worldP2, worldP1), Sub(worldP2, worldP1))
  {
    var v := Sub(worldP2, worldP1);
    var dir := Normalized(v, num);
    CrossScaleLeft(num.unitFactor(v), v, v);
    CrossSelf(v);
    DotScaleLeft(num.unitFactor(v), v, v);
    Line(localP1, localP2, worldP1, worldP2, dir)
  }

  /** The three corners AddTriangle emits for lines index and index + 1:
      clockwise (next.localPoint2, this.localPoint2, this.localPoint1),
      counter-clockwise the same three reversed. */
  function FanCorners(lineList: seq<Line>, index: int, isClockWise: bool): seq<Vec3>
    requires 0 <= index && index + 1 < |lineList|
  {
    var l, next := lineList[index], lineList[index + 1];
    if isClockWise then [next.localPoint2, l.localPoint2, l.localPoint1]
    else [l.localPoint1, l.localPoint2, next.localPoint2]
  }

  /** The corners appended before the list index goes out of range: a
      clockwise call with index -1 reads line 0 first, a counter-clockwise
      call with the last index reads that line twice first. */
  function CornersBeforeThrow(lineList: seq<Line>, index: int, isClockWise: bool): seq<Vec3> {
    if |lineList| < 2 then []
    else if isClockWise && index == -1 then [lineList[0].localPoint2]
    else if !isClockWise && index == |lineList| - 1 then [lineList[index].localPoint1, lineList[index].localPoint2]
    else []
  }

  function ZeroUVs(n: nat): seq<Vec2> {
    seq(n, _ => Zero2)
  }

  /** MeshSlicer.AddTriangle over the lists s: throws (thrown) when the
      line list has fewer than two lines or a line index is out of range,
      keeping whatever corners were appended before; otherwise appends the
      fan triangle of lines index and index + 1 with zero UVs. */
  method AddTriangle(lineList: seq<Line>, s: Slice, isClockWise: bool, index: int, normal: Vec3)
      returns (r: Slice, thrown: bool)
    ensures thrown <==> !(2 <= |lineList| && 0 <= index && index + 1 < |lineList|)
    ensures !thrown ==> r == Emit(s, FanCorners(lineList, index, isClockWise), ZeroUVs(3))
    ensures thrown ==> r == Emit(s, CornersBeforeThrow(lineList, index, isClockWise),
                                 ZeroUVs(|CornersBeforeThrow(lineList, index, isClockWise)|))
  {
    r := s;
    if |lineList| < 2 {
      return r, true;
    }
    if isClockWise {
      if !(0 <= index + 1 < |lineList|) {
        return r, true;
      }
      r := r.Add(lineList[index + 1].localPoint2, Zero2);
      if !(0 <= index < |lineList|) {
        return r, true;
      }
      r := r.Add(lineList[index].localPoint2, Zero2);
      r := r.Add(lineList[index].localPoint1, Zero2);
    } else {
      if !(0 <= index < |lineList|) {
        return r, true;
      }
      r := r.Add(lineList[index].localPoint1, Zero2);
      r := r.Add(lineList[index].localPoint2, Zero2);
      if !(0 <= index + 1 < |lineList|) {
        return r, true;
      }
      r := r.Add(lineList[index + 1].localPoint2, Zero2);
    }
    thrown := false;
  }

  /** The two orientations emit the same corners in reverse order, so the
      emitted triangles have opposite windings. */
  lemma FanWindingsOpposite(lineList: seq<Line>, index: int)
    requires 0 <= index && index + 1 < |lineList|
    ensures var cw, ccw := FanCorners(lineList, index, true), FanCorners(lineList, index, false);
      && (forall k :: 0 <= k < 3 ==> cw[k] == ccw[2 - k])
      && TriArea2(cw) == Scale(-1.0, TriArea2(ccw))
  {
    var ccw := FanCorners(lineList, index, false);
    Area2Reverse(ccw[0], ccw[1], ccw[2]);
  }
}
