// What the two slicers (MeshSlicer.cs and Slicer.cs) share: the source
// mesh, the flat non-indexed output buffers, the two fixed re-triangulation
// tables and the routing of one classified triangle into the buffers.
module Slicing {
  import opened Geometry

  /** Mesh.vertices, Mesh.triangles (stride 3) and Mesh.uv of the source. */
  datatype SourceMesh = SourceMesh(vertices: seq<Vec3>, triangles: seq<int>, uv: seq<Vec2>)

  /** Both slicers visit meshTris.Length / 3 triangles; trailing indices
      beyond a multiple of three are never read. */
  function TriangleCount(m: SourceMesh): nat {
    |m.triangles| / 3
  }

  /** Every index the triangle loop reads names a vertex and a UV. */
  predicate ValidMesh(m: SourceMesh) {
    forall k :: 0 <= k < 3 * TriangleCount(m) ==>
      0 <= m.triangles[k] < |m.vertices| && m.triangles[k] < |m.uv|
  }

  /** The three lists one side of the cut accumulates: vertices, triangle
      indices and UVs. */
  datatype Slice = Slice(verts: seq<Vec3>, tris: seq<int>, uvs: seq<Vec2>) {
    /** One corner: Verts.Add(v); Tris.Add(Verts.Count - 1); UVs.Add(uv). */
    function Add(v: Vec3, uv: Vec2): Slice {
      var verts' := verts + [v];
      Slice(verts', tris + [|verts'| - 1], uvs + [uv])
    }
  }

  const EmptySlice: Slice := Slice([], [], [])

  function Iota(start: int, n: nat): seq<int> {
    seq(n, k => start + k)
  }

  /** The corners vs (with UVs us) appended one by one. */
  function Emit(s: Slice, vs: seq<Vec3>, us: seq<Vec2>): Slice {
    Slice(s.verts + vs, s.tris + Iota(|s.verts|, |vs|), s.uvs + us)
  }

  /** A non-indexed buffer: the three lists have one entry per corner and
      every index is the position of its own vertex. */
  predicate Flat(s: Slice) {
    && |s.tris| == |s.verts|
    && |s.uvs| == |s.verts|
    && s.tris == Iota(0, |s.verts|)
  }

  /** A flat buffer holding whole triangles only. */
  predicate Whole(s: Slice) {
    Flat(s) && |s.verts| % 3 == 0
  }

  function Gather<T>(xs: seq<T>, order: seq<nat>): seq<T>
    requires forall k :: 0 <= k < |order| ==> order[k] < |xs|
  {
    seq(|order|, k requires 0 <= k < |order| => xs[order[k]])
  }

  lemma EmitAdd(s: Slice, vs: seq<Vec3>, us: seq<Vec2>, v: Vec3, uv: Vec2)
    ensures Emit(s, vs + [v], us + [uv]) == Emit(s, vs, us).Add(v, uv)
  {
    assert Iota(|s.verts|, |vs| + 1) == Iota(|s.verts|, |vs|) + [|s.verts| + |vs|];
  }

  lemma EmitConcat(s: Slice, vs: seq<Vec3>, us: seq<Vec2>, vs': seq<Vec3>, us': seq<Vec2>)
    ensures Emit(Emit(s, vs, us), vs', us') == Emit(s, vs + vs', us + us')
  {
    IotaConcat(|s.verts|, |vs|, |vs'|);
    assert s.verts + vs + vs' == s.verts + (vs + vs');
    assert s.uvs + us + us' == s.uvs + (us + us');
  }

  /** Appending corners to a flat buffer keeps it flat, and the appended
      vertices and UVs are exactly the given ones, in order. */
  lemma EmitKeepsFlat(s: Slice, vs: seq<Vec3>, us: seq<Vec2>)
    requires Flat(s) && |vs| == |us|
    ensures Flat(Emit(s, vs, us))
    ensures Emit(s, vs, us).verts == s.verts + vs && Emit(s, vs, us).uvs == s.uvs + us
  {
    IotaConcat(0, |s.verts|, |vs|);
  }

  lemma IotaConcat(start: int, a: nat, b: nat)
    ensures Iota(start, a) + Iota(start + a, b) == Iota(start, a + b)
  {
    var joined := Iota(start, a) + Iota(start + a, b);
    forall k | 0 <= k < a + b
      ensures joined[k] == Iota(start, a + b)[k]
    {
      if k >= a {
        assert joined[k] == Iota(start + a, b)[k - a];
      }
    }
  }

  lemma GatherSplit<T>(xs: seq<T>, order: seq<nat>, lo: nat, mid: nat, hi: nat)
    requires lo <= mid <= hi <= |order|
    requires forall k :: 0 <= k < |order| ==> order[k] < |xs|
    ensures Gather(xs, order[lo..mid]) + Gather(xs, order[mid..hi]) == Gather(xs, order[lo..hi])
  {
  }

  /** The source's inner loop `for (j = lo; j < hi; j++)` that appends
      corner order[j] of the split points to one side's lists. */
  method AppendCorners(s: Slice, pts: seq<Vec3>, uvs: seq<Vec2>, order: seq<nat>, lo: nat, hi: nat)
      returns (r: Slice)
    requires lo <= hi <= |order|
    requires forall k :: 0 <= k < |order| ==> order[k] < |pts| && order[k] < |uvs|
    ensures r == Emit(s, Gather(pts, order[lo..hi]), Gather(uvs, order[lo..hi]))
  {
    r := s;
    for j := lo to hi
      invariant r == Emit(s, Gather(pts, order[lo..j]), Gather(uvs, order[lo..j]))
    {
      assert Gather(pts, order[lo..j + 1]) == Gather(pts, order[lo..j]) + [pts[order[j]]];
      assert Gather(uvs, order[lo..j + 1]) == Gather(uvs, order[lo..j]) + [uvs[order[j]]];
      EmitAdd(s, Gather(pts, order[lo..j]), Gather(uvs, order[lo..j]), pts[order[j]], uvs[order[j]]);
      r := r.Add(pts[order[j]], uvs[order[j]]);
    }
  }

  // ---------------------------------------------------------------------
  // Re-triangulation of a split triangle.
  //
  // The five points of a split triangle are: 0 the odd vertex, 1 and 2 the
  // other two vertices, 3 the cut on edge 0-1, 4 the cut on edge 0-2.

  const VertOrderCW: seq<nat> := [0, 3, 4, 1, 2, 4, 4, 3, 1]
  const VertOrderCCW: seq<nat> := [4, 3, 0, 4, 2, 1, 1, 3, 4]

  /** Either table: three triangles over the five points; the first is the
      odd vertex with both cuts, the other two cover the quadrilateral
      1-2-4-3 and never use the odd vertex. */
  lemma TableShape(clockwise: bool)
    ensures var t := if clockwise then VertOrderCW else VertOrderCCW;
      && |t| == 9
      && (forall k :: 0 <= k < 9 ==> t[k] < 5)
      && multiset(t[..3]) == multiset{0, 3, 4}
      && (forall k :: 3 <= k < 9 ==> t[k] != 0)
      && (forall v :: 1 <= v < 5 ==> v in t[3..])
  {
    if clockwise {
      assert VertOrderCW[..3] == [0, 3, 4];
      assert VertOrderCW[3..] == [1, 2, 4, 4, 3, 1];
    } else {
      assert VertOrderCCW[..3] == [4, 3, 0];
      assert VertOrderCCW[3..] == [4, 2, 1, 1, 3, 4];
    }
  }

  /** Each triangle of the counter-clockwise table is the matching triangle
      of the clockwise table read backwards. */
  lemma CcwReversesCw()
    ensures forall k :: 0 <= k < 9 ==> VertOrderCCW[k] == VertOrderCW[3 * (k / 3) + 2 - k % 3]
  {
  }

  /** The reorderings of a split triangle's vertices: odd vertex first. */
  const TriOrderFirstPairAlike: seq<nat> := [2, 0, 1]
  const TriOrderOuterPairAlike: seq<nat> := [1, 0, 2]
  const TriOrderLastPairAlike: seq<nat> := [0, 1, 2]

  /** How one triangle is routed: verbatim to slice 1, verbatim to slice 2,
      or split after reordering its vertices by triOrder, re-triangulated
      with vertOrder. */
  datatype Routing = ToSlice1 | ToSlice2 | Bisect(triOrder: seq<nat>, vertOrder: seq<nat>)

  /** The three reorderings the source uses and their tables: a rotation
      keeps the clockwise table, the transposition takes the other. */
  predicate ValidRouting(r: Routing) {
    r.Bisect? ==>
      || (r.triOrder == TriOrderFirstPairAlike && r.vertOrder == VertOrderCW)
      || (r.triOrder == TriOrderOuterPairAlike && r.vertOrder == VertOrderCCW)
      || (r.triOrder == TriOrderLastPairAlike && r.vertOrder == VertOrderCW)
  }

  predicate IsRotation(p: seq<nat>) {
    p == [0, 1, 2] || p == [1, 2, 0] || p == [2, 0, 1]
  }

  /** The reordering keeps the triangle's orientation exactly when the
      clockwise table is chosen. */
  lemma TableMatchesReordering(r: Routing)
    requires ValidRouting(r) && r.Bisect?
    ensures IsRotation(r.triOrder) <==> r.vertOrder == VertOrderCW
    ensures multiset(r.triOrder) == multiset{0, 1, 2}
  {
    assert VertOrderCW != VertOrderCCW by { assert VertOrderCW[0] != VertOrderCCW[0]; }
    if r.triOrder == TriOrderOuterPairAlike {
      assert r.triOrder[0] == 1 && r.triOrder[1] == 0;
    }
  }

  /** The three corners of triangle k of a table over the five points. */
  function TableTriangle<T>(pts: seq<T>, table: seq<nat>, k: nat): seq<T>
    requires |pts| == 5 && |table| == 9 && k < 3
    requires forall j :: 0 <= j < 9 ==> table[j] < 5
  {
    [pts[table[3 * k]], pts[table[3 * k + 1]], pts[table[3 * k + 2]]]
  }

  /** Where one classified triangle goes. tri/triUVs are its corners in
      their original order; pts/ptUVs the five split points when split, and
      oddOnSlice1 tells which side the odd vertex lies on. A split sends
      table entries 0..3 to the odd vertex's side and 3..9 to the other. */
  function Dispatch(s1: Slice, s2: Slice, routing: Routing,
                    tri: seq<Vec3>, triUVs: seq<Vec2>,
                    pts: seq<Vec3>, ptUVs: seq<Vec2>, oddOnSlice1: bool): (Slice, Slice)
    requires ValidRouting(routing)
    requires routing.Bisect? ==> |pts| == 5 && |ptUVs| == 5
  {
    match routing
    case ToSlice1 => (Emit(s1, tri, triUVs), s2)
    case ToSlice2 => (s1, Emit(s2, tri, triUVs))
    case Bisect(_, table) =>
      var oddVs, oddUs := Gather(pts, table[..3]), Gather(ptUVs, table[..3]);
      var restVs, restUs := Gather(pts, table[3..]), Gather(ptUVs, table[3..]);
      if oddOnSlice1 then (Emit(s1, oddVs, oddUs), Emit(s2, restVs, restUs))
      else (Emit(s1, restVs, restUs), Emit(s2, oddVs, oddUs))
  }

  /** Routing keeps both buffers flat and made of whole triangles; a
      triangle kept whole adds 3 corners to one side and leaves the other
      alone, a split one adds 3 to the odd vertex's side and 6 to the other. */
  lemma DispatchKeepsWhole(s1: Slice, s2: Slice, routing: Routing,
                           tri: seq<Vec3>, triUVs: seq<Vec2>,
                           pts: seq<Vec3>, ptUVs: seq<Vec2>, oddOnSlice1: bool)
    requires ValidRouting(routing)
    requires routing.Bisect? ==> |pts| == 5 && |ptUVs| == 5
    requires |tri| == 3 && |triUVs| == 3
    ensures var r := Dispatch(s1, s2, routing, tri, triUVs, pts, ptUVs, oddOnSlice1);
      && (Whole(s1) && Whole(s2) ==> Whole(r.0) && Whole(r.1))
      && |r.0.verts| == |s1.verts| + (match routing
                                       case ToSlice1 => 3
                                       case ToSlice2 => 0
                                       case Bisect(_, _) => if oddOnSlice1 then 3 else 6)
      && |r.1.verts| == |s2.verts| + (match routing
                                       case ToSlice1 => 0
                                       case ToSlice2 => 3
                                       case Bisect(_, _) => if oddOnSlice1 then 6 else 3)
  {
    match routing
    case ToSlice1 =>
      EmitKeepsWhole(s1, tri, triUVs);
    case ToSlice2 =>
      EmitKeepsWhole(s2, tri, triUVs);
    case Bisect(_, table) =>
      var oddVs, oddUs := Gather(pts, table[..3]), Gather(ptUVs, table[..3]);
      var restVs, restUs := Gather(pts, table[3..]), Gather(ptUVs, table[3..]);
      if oddOnSlice1 {
        EmitKeepsWhole(s1, oddVs, oddUs);
        EmitKeepsWhole(s2, restVs, restUs);
      } else {
        EmitKeepsWhole(s1, restVs, restUs);
        EmitKeepsWhole(s2, oddVs, oddUs);
      }
  }

  /** Appending whole triangles keeps a buffer whole. */
  lemma EmitKeepsWhole(s: Slice, vs: seq<Vec3>, us: seq<Vec2>)
    requires |vs| == |us| && |vs| % 3 == 0
    ensures |Emit(s, vs, us).verts| == |s.verts| + |vs|
    ensures Whole(s) ==> Whole(Emit(s, vs, us))
  {
    if Whole(s) {
      EmitKeepsFlat(s, vs, us);
    }
  }

  /** What one triangle hands to the slice lists: its routing, its three
      corners and UVs, and, for a split, the five points with their UVs and
      whether the odd vertex is on slice 1's side. */
  datatype Step = Step(routing: Routing, tri: seq<Vec3>, triUVs: seq<Vec2>,
                       pts: seq<Vec3>, ptUVs: seq<Vec2>, oddOnSlice1: bool)

  predicate ValidStep(st: Step) {
    && ValidRouting(st.routing)
    && |st.tri| == 3 && |st.triUVs| == 3
    && (st.routing.Bisect? ==> |st.pts| == 5 && |st.ptUVs| == 5)
  }

  function Apply(acc: (Slice, Slice), st: Step): (Slice, Slice)
    requires ValidStep(st)
  {
    Dispatch(acc.0, acc.1, st.routing, st.tri, st.triUVs, st.pts, st.ptUVs, st.oddOnSlice1)
  }

  /** The two slices after the steps, in order, starting from empty lists. */
  function Run(steps: seq<Step>): (Slice, Slice)
    requires forall k :: 0 <= k < |steps| ==> ValidStep(steps[k])
  {
    if steps == [] then (EmptySlice, EmptySlice)
    else Apply(Run(steps[..|steps| - 1]), steps[|steps| - 1])
  }

  /** The number of split triangles among the steps. */
  function Splits(steps: seq<Step>): nat {
    if steps == [] then 0
    else Splits(steps[..|steps| - 1]) + (if steps[|steps| - 1].routing.Bisect? then 1 else 0)
  }

  /** Both slices stay flat lists of whole triangles, and between them they
      hold three corners per triangle plus six per split triangle. */
  lemma {:induction false} RunKeepsWhole(steps: seq<Step>)
    requires forall k :: 0 <= k < |steps| ==> ValidStep(steps[k])
    ensures Whole(Run(steps).0) && Whole(Run(steps).1)
    ensures |Run(steps).0.verts| + |Run(steps).1.verts| == 3 * |steps| + 6 * Splits(steps)
  {
    if steps != [] {
      var init, st := steps[..|steps| - 1], steps[|steps| - 1];
      RunKeepsWhole(init);
      var acc := Run(init);
      DispatchKeepsWhole(acc.0, acc.1, st.routing, st.tri, st.triUVs, st.pts, st.ptUVs, st.oddOnSlice1);
    }
  }

  // ---------------------------------------------------------------------
  // Geometry of the re-triangulation.

  /** The point a fraction t of the way from a to b. */
  function EdgePoint(a: Vec3, b: Vec3, t: real): Vec3 {
    Add(a, Scale(t, Sub(b, a)))
  }

  /** Two plane values of strictly opposite signs. */
  predicate OppositeSigns(sa: real, sb: real) {
    (sa > 0.0 && sb < 0.0) || (sa < 0.0 && sb > 0.0)
  }

  /** Between two ends of opposite signs the zero of the plane value lies
      strictly inside the edge. */
  lemma FractionInside(sa: real, sb: real)
    requires OppositeSigns(sa, sb)
    ensures sa != sb && 0.0 < sa / (sa - sb) < 1.0
  {
    if sa > 0.0 {
      assert sa - sb > sa;
    } else {
      assert sa - sb < sa;
    }
  }

  /** The sign of a product of two non-zero reals. */
  lemma SignProducts(a: real, b: real)
    requires a != 0.0 && b != 0.0
    ensures a * b > 0.0 <==> (a > 0.0 <==> b > 0.0)
    ensures a * b < 0.0 <==> (a > 0.0 <==> b < 0.0)
  {
    if a > 0.0 {
      if b > 0.0 { assert a * b > 0.0; } else { assert a * b < 0.0; }
    } else {
      if b > 0.0 { assert a * b < 0.0; } else { assert a * b > 0.0; }
    }
  }

  lemma Area2Rotate(a: Vec3, b: Vec3, c: Vec3)
    ensures Area2(c, a, b) == Area2(a, b, c)
  {
  }

  lemma Area2Reverse(a: Vec3, b: Vec3, c: Vec3)
    ensures Area2(c, b, a) == Scale(-1.0, Area2(a, b, c))
  {
  }

  lemma Area2Swap(a: Vec3, b: Vec3, c: Vec3)
    ensures Area2(b, a, c) == Scale(-1.0, Area2(a, b, c))
  {
  }

  /** The clockwise table's three triangles over odd vertex a, neighbours b
      and c, and cuts at fractions t1 (on a-b) and t2 (on a-c). */
  lemma CwTableAreas(a: Vec3, b: Vec3, c: Vec3, t1: real, t2: real)
    ensures var p3, p4, n := EdgePoint(a, b, t1), EdgePoint(a, c, t2), Area2(a, b, c);
      && Area2(a, p3, p4) == Scale(t1 * t2, n)
      && Area2(b, c, p4) == Scale(1.0 - t2, n)
      && Area2(p4, p3, b) == Scale(t2 * (1.0 - t1), n)
  {
    CwOddArea(a, b, c, t1, t2);
    CwFarArea(a, b, c, t1, t2);
    CwMiddleArea(a, b, c, t1, t2);
  }

  lemma CwOddArea(a: Vec3, b: Vec3, c: Vec3, t1: real, t2: real)
    ensures Area2(a, EdgePoint(a, b, t1), EdgePoint(a, c, t2)) == Scale(t1 * t2, Area2(a, b, c))
  {
    var u, v := Sub(b, a), Sub(c, a);
    assert Sub(EdgePoint(a, b, t1), a) == Scale(t1, u);
    assert Sub(EdgePoint(a, c, t2), a) == Scale(t2, v);
    CrossScaleLeft(t1, u, Scale(t2, v));
    CrossScaleRight(t2, u, v);
    ScaleScale(t1, t2, Cross(u, v));
  }

  /** (c - b) x (p4 - b) = (v - u) x (t2 v - u) with u = b - a, v = c - a. */
  lemma CwFarArea(a: Vec3, b: Vec3, c: Vec3, t1: real, t2: real)
    ensures Area2(b, c, EdgePoint(a, c, t2)) == Scale(1.0 - t2, Area2(a, b, c))
  {
    var u, v := Sub(b, a), Sub(c, a);
    var p4 := EdgePoint(a, c, t2);
    assert Sub(c, b) == Sub(v, u);
    assert Sub(p4, b) == Sub(Scale(t2, v), u);
    CrossSubLeft(v, u, Sub(Scale(t2, v), u));
    CrossSubRight(v, Scale(t2, v), u);
    CrossSubRight(u, Scale(t2, v), u);
    CrossScaleRight(t2, v, v);
    CrossScaleRight(t2, u, v);
    CrossSelf(v);
    CrossSelf(u);
    CrossAntisymmetric(u, v);
  }

  /** (p3 - p4) x (b - p4) = (t1 u - t2 v) x (u - t2 v). */
  lemma CwMiddleArea(a: Vec3, b: Vec3, c: Vec3, t1: real, t2: real)
    ensures Area2(EdgePoint(a, c, t2), EdgePoint(a, b, t1), b) == Scale(t2 * (1.0 - t1), Area2(a, b, c))
  {
    var u, v := Sub(b, a), Sub(c, a);
    var p3, p4 := EdgePoint(a, b, t1), EdgePoint(a, c, t2);
    assert Sub(p3, p4) == Sub(Scale(t1, u), Scale(t2, v));
    assert Sub(b, p4) == Sub(u, Scale(t2, v));
    CrossSubLeft(Scale(t1, u), Scale(t2, v), Sub(u, Scale(t2, v)));
    CrossSubRight(Scale(t1, u), u, Scale(t2, v));
    CrossSubRight(Scale(t2, v), u, Scale(t2, v));
    CrossScaleLeft(t1, u, u);
    CrossScaleLeft(t1, u, Scale(t2, v));
    CrossScaleLeft(t2, v, u);
    CrossScaleLeft(t2, v, Scale(t2, v));
    CrossScaleRight(t2, v, v);
  }

  /** The five points of a split triangle w reordered by triOrder, with the
      cuts a fraction t1 along edge 0-1 and t2 along edge 0-2. */
  function SplitPoints(w: seq<Vec3>, triOrder: seq<nat>, t1: real, t2: real): (p: seq<Vec3>)
    requires |w| == 3 && |triOrder| == 3 && forall k :: 0 <= k < 3 ==> triOrder[k] < 3
  {
    var p0, p1, p2 := w[triOrder[0]], w[triOrder[1]], w[triOrder[2]];
    [p0, p1, p2, EdgePoint(p0, p1, t1), EdgePoint(p0, p2, t2)]
  }

  function TriArea2(tri: seq<Vec3>): Vec3
    requires |tri| == 3
  {
    Area2(tri[0], tri[1], tri[2])
  }

  /** The counter-clockwise table over the same five points: each triangle
      is the clockwise one reversed, so its winding is negated. */
  lemma CcwTableAreas(a: Vec3, b: Vec3, c: Vec3, t1: real, t2: real)
    ensures var p3, p4, n := EdgePoint(a, b, t1), EdgePoint(a, c, t2), Area2(a, b, c);
      && Area2(p4, p3, a) == Scale(-(t1 * t2), n)
      && Area2(p4, c, b) == Scale(-(1.0 - t2), n)
      && Area2(b, p3, p4) == Scale(-(t2 * (1.0 - t1)), n)
  {
    var p3, p4 := EdgePoint(a, b, t1), EdgePoint(a, c, t2);
    CwTableAreas(a, b, c, t1, t2);
    Area2Reverse(a, p3, p4);
    Area2Reverse(b, c, p4);
    Area2Reverse(p4, p3, b);
  }

  /** Whichever reordering and table the routing picks, the three emitted
      triangles have the source triangle's winding scaled by t1*t2, 1-t2 and
      t2*(1-t1): factors that add up to one, so the emitted vector areas sum
      to the source triangle's, and all three are positive when both cuts
      lie strictly inside their edges. */
  lemma SplitKeepsWindingAndArea(w: seq<Vec3>, routing: Routing, t1: real, t2: real)
    requires |w| == 3 && ValidRouting(routing) && routing.Bisect?
    ensures var p, table, n := SplitPoints(w, routing.triOrder, t1, t2), routing.vertOrder, TriArea2(w);
      && TriArea2(TableTriangle(p, table, 0)) == Scale(t1 * t2, n)
      && TriArea2(TableTriangle(p, table, 1)) == Scale(1.0 - t2, n)
      && TriArea2(TableTriangle(p, table, 2)) == Scale(t2 * (1.0 - t1), n)
    ensures t1 * t2 + (1.0 - t2) + t2 * (1.0 - t1) == 1.0
    ensures 0.0 < t1 < 1.0 && 0.0 < t2 < 1.0 ==>
      0.0 < t1 * t2 && 0.0 < 1.0 - t2 && 0.0 < t2 * (1.0 - t1)
  {
    var p := SplitPoints(w, routing.triOrder, t1, t2);
    var table := routing.vertOrder;
    if routing.triOrder == TriOrderOuterPairAlike {
      var a, b, c := w[1], w[0], w[2];
      assert p == [a, b, c, EdgePoint(a, b, t1), EdgePoint(a, c, t2)];
      assert table == VertOrderCCW;
      CcwTableAreas(a, b, c, t1, t2);
      Area2Swap(w[0], w[1], w[2]);
      var n := Area2(w[0], w[1], w[2]);
      assert Area2(a, b, c) == Scale(-1.0, n);
      NegateScale(t1 * t2, n);
      NegateScale(1.0 - t2, n);
      NegateScale(t2 * (1.0 - t1), n);
    } else {
      var a, b, c := p[0], p[1], p[2];
      assert table == VertOrderCW;
      CwTableAreas(a, b, c, t1, t2);
      if routing.triOrder == TriOrderFirstPairAlike {
        Area2Rotate(w[0], w[1], w[2]);
      }
    }
  }

  lemma NegateScale(k: real, n: Vec3)
    ensures Scale(-k, Scale(-1.0, n)) == Scale(k, n)
  {
  }

  // ---------------------------------------------------------------------
  // The object's bounding box

  /** The eight corners of the box [objMin, objMax] in the source's order. */
  function BoundingBoxVerts(objMin: Vec3, objMax: Vec3): (c: seq<Vec3>)
    ensures |c| == 8
    ensures forall k :: 0 <= k < 8 ==>
      && (c[k].x == objMin.x || c[k].x == objMax.x)
      && (c[k].y == objMin.y || c[k].y == objMax.y)
      && (c[k].z == objMin.z || c[k].z == objMax.z)
  {
    [objMin,
     objMax,
     Vec3(objMin.x, objMin.y, objMax.z),
     Vec3(objMin.x, objMax.y, objMin.z),
     Vec3(objMax.x, objMin.y, objMin.z),
     Vec3(objMin.x, objMax.y, objMax.z),
     Vec3(objMax.x, objMin.y, objMax.z),
     Vec3(objMax.x, objMax.y, objMin.z)]
  }

  /** Every corner of the box is listed: each choice of minimum or maximum
      per coordinate appears among the eight. */
  lemma BoxCornersComplete(objMin: Vec3, objMax: Vec3)
    ensures forall x, y, z ::
      (x == objMin.x || x == objMax.x) && (y == objMin.y || y == objMax.y) && (z == objMin.z || z == objMax.z)
      ==> Vec3(x, y, z) in BoundingBoxVerts(objMin, objMax)
  {
    var c := BoundingBoxVerts(objMin, objMax);
    forall x, y, z | (x == objMin.x || x == objMax.x) && (y == objMin.y || y == objMax.y) && (z == objMin.z || z == objMax.z)
      ensures Vec3(x, y, z) in c
    {
      if x == objMin.x && y == objMin.y && z == objMin.z { assert c[0] == Vec3(x, y, z); }
      else if x == objMax.x && y == objMax.y && z == objMax.z { assert c[1] == Vec3(x, y, z); }
      else if x == objMin.x && y == objMin.y { assert c[2] == Vec3(x, y, z); }
      else if x == objMin.x && z == objMin.z { assert c[3] == Vec3(x, y, z); }
      else if y == objMin.y && z == objMin.z { assert c[4] == Vec3(x, y, z); }
      else if x == objMin.x { assert c[5] == Vec3(x, y, z); }
      else if y == objMin.y { assert c[6] == Vec3(x, y, z); }
      else { assert c[7] == Vec3(x, y, z); }
    }
  }
}
