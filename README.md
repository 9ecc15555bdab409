# Unity mesh slicer: a verified model of the slicing pass

The repository cuts a Unity mesh in two along a plane. It has two near-identical slicers:

- `MeshSlicer.SliceMesh` classifies each source triangle with Unity's own `Plane`, whose `GetSide` answers true or false.
- `Slicer.SliceMesh` classifies with its own `CustomPlane`, whose `GetSide` returns a signed real.

Both slicers run the same pass over the source triangles:

- A triangle wholly on one side is copied, corners and UVs unchanged, into that side's lists.
- A triangle that straddles the plane is reordered so its lone ("odd") vertex comes first.
- It is then cut by two ray/plane intersections and re-emitted as three triangles, read off a fixed nine-entry table (`vertOrderCW` or `vertOrderCCW`).
- One of those triangles goes to the odd vertex's side and two go to the other side.

The output lists are flat and non-indexed: every index appended is the position of the vertex just appended.

Around the pass the model also covers:

- the `CustomPlane` algebra: the normal from three points, the constant `d` and the side test;
- `VectorPlanePOI`, the ray/plane intersection;
- the two bounding-box pre-checks;
- the `Line` record and the cap-triangle helper `AddTriangle`.

Modules:

- `Geometry`: vectors over exact reals, with dot, cross and twice-the-vector-area, and their algebra.
- `Engine`: the Unity calls the code makes, taken as given functions:
  - `Transform.TransformPoint` and `InverseTransformPoint`;
  - the factor `.normalized` scales by, and the distance ratio used for UV interpolation;
  - `Plane.GetSide` and `Plane.Raycast`;
  - `Ray`, and `Vector2.Lerp` with `Mathf.Clamp01`.
- `Slicing`, the part both slicers share:
  - the source mesh and the flat output lists (`Slice`) with their invariant (`Flat`, `Whole`);
  - the two tables, the routing of one triangle (`Dispatch`) and the pass as a fold over per-triangle steps (`Run`);
  - the geometry of the re-triangulation, including the bounding-box corners.
- `MeshSlicer`: MeshSlicer.cs.
  - Its static lists are the fields of the class `SliceState`, which `SliceMesh` resets and then appends to.
  - The class proves each method against the fold in `Slicing`.
- `Slicer`: Slicer.cs.
  - Its local lists and the saved intersection points (`POIs`) form a `PassState`.
  - `SliceOneTriangle` and `SliceMesh` are loops proved against the same fold.

Three facts about the code that the model keeps:

- A vertex lying exactly on the plane sends its triangle to the split branch (Slicer.cs:116-157).
- Neither pass builds boundary segments (`Line`). Slicer.cs:219-222 only saves the two cut points of each split triangle, and only when the object is convex.
- The plane normal is the cross product of the two normalised edge vectors and is not normalised again (Slicer.cs:29-33).

## Model

| member | source | states |
|---|---|---|
| Slicer.PlaneNormal | Assets/Scripts/Slicer.cs:29-33 | the normal is the cross product of the edge vectors point2 - point1 and point3 - point1, scaled by the product of their two normalisation factors; it is orthogonal to both edges |
| Slicer.GetSide | Assets/Scripts/Slicer.cs:21-23 | the plane's own point has side value 0 (the full plane equation is Slicer.SideIsPlaneEquation) |
| Slicer.PlaneDConstant | Assets/Scripts/Slicer.cs:25-27 | d satisfies the plane equation at the given point: normal . point + d == 0 |
| Slicer.NewCustomPlane | Assets/Scripts/Slicer.cs:13-19 | the plane built from three points keeps point1, its normal is the scaled cross product of the two edges (which fixes the side that counts as positive), its d is consistent with its point and normal, and all three points have side value 0 |
| Slicer.SideIsPlaneEquation | Assets/Scripts/Slicer.cs:21-23 | on a consistent plane GetSide(x) is the plane equation's left-hand side normal . x + d, for every x |
| Slicer.VectorPlanePOI | Assets/Scripts/Slicer.cs:294-306 | for a ray not parallel to the plane, the returned point satisfies the plane equation and lies on the line through point along direction |
| Slicer.RayParameter | Assets/Scripts/Slicer.cs:301 | the parameter t solves t * (normal . direction) == -(normal . point + d) |
| Slicer.PoiOnPlane | Assets/Scripts/Slicer.cs:294-306 | the intersection lies on the plane as the side test sees it: GetSide is 0 there |
| Slicer.PoiOnEdge | Assets/Scripts/Slicer.cs:164-165 | casting from a toward the normalised b - a meets the plane at the fraction side(a) / (side(a) - side(b)) of edge a-b, and that ray is not parallel to the plane |
| Slicer.ClassifySides | Assets/Scripts/Slicer.cs:116-157 | every routing picks one of the three reorderings with its matching table |
| Slicer.ClassifySidesCases | Assets/Scripts/Slicer.cs:116-128 | whole to slice 1 iff all three sides are positive, whole to slice 2 iff all three are negative, and any zero side leads to the split branch |
| Slicer.OddVertexFirst | Assets/Scripts/Slicer.cs:133-157 | with non-zero mixed signs, the first reordered vertex is the one whose sign differs from the other two, and the CCW table is chosen iff vertices 1 and 3 agree in sign |
| Slicer.Indexor | Assets/Scripts/Slicer.cs:103 | the index of corner j of triangle i (counted from 1) is 3(i-1)+j |
| Slicer.IndexorInBounds | Assets/Scripts/Slicer.cs:94-108 | every index the loop reads lies within the first 3 * (count / 3) entries of the index array |
| Slicer.ReadTriangle | Assets/Scripts/Slicer.cs:97-108 | the inner loop fills the local corners, their world images and the UVs of triangle i |
| Slicer.TriangleStep | Assets/Scripts/Slicer.cs:110-177 | each triangle's routing, corners and five split points form a well-formed step (a valid routing, 3 corners, 5 split points when split) |
| Slicer.SliceOneTriangle | Assets/Scripts/Slicer.cs:94-223 | one loop iteration appends exactly what the step of triangle i routes, plus its two intersections for a convex object |
| Slicer.BisectTriangle | Assets/Scripts/Slicer.cs:130-177 | the reordering picked by the side products is the routing's, and the five local points and their UVs are the split points of triangle i |
| Slicer.AppendSplit | Assets/Scripts/Slicer.cs:179-216 | the three append loops send table entries 0..3 to the slice of p1's side and entries 3..9 to the other |
| Slicer.SplitPointsOf | Assets/Scripts/Slicer.cs:159-177 | a split triangle has five local points and five UVs; the UVs at the two cuts are interpolated between the UV of p1 and the UVs of p2 and p3 by the distance ratios along those edges |
| Slicer.SliceTriangle | Assets/Scripts/Slicer.cs:110-222 | one triangle keeps both slices whole, adds 3 corners (9 when split) between them, keeps the saved points and appends two more exactly when the object is convex and the triangle is split |
| Slicer.SliceUpTo | Assets/Scripts/Slicer.cs:85-93 | the fold over no triangles is the empty lists and no saved points; with Slicer.SliceUpToNext it defines the state after every prefix of the loop |
| Slicer.SliceUpToNext | Assets/Scripts/Slicer.cs:94 | the state after n+1 triangles is one iteration applied to the state after n |
| Slicer.SliceMesh | Assets/Scripts/Slicer.cs:74-224 | the loop over all triangles ends in the state of the fold over all steps, and both slices are flat lists of whole triangles |
| Slicer.SliceKeepsBuffersWhole | Assets/Scripts/Slicer.cs:116-222 | after n triangles both slices are flat lists of whole triangles holding 3n + 6 * (split count) corners between them, and a convex object has saved 2 * (split count) points, otherwise none |
| Slicer.Steps | Assets/Scripts/Slicer.cs:94 | the loop visits exactly n well-formed steps, one per triangle, in loop order |
| Slicer.SavedPois | Assets/Scripts/Slicer.cs:218-222 | a convex object saves two points per split triangle, a non-convex one none |
| Slicer.StepPois | Assets/Scripts/Slicer.cs:219-222 | one triangle saves two points exactly when it is split and the object is convex |
| Slicer.BisectCutsEdges | Assets/Scripts/Slicer.cs:159-166 | for a split triangle with no vertex on the plane, both rays meet the plane, and the two intersections are the plane's crossings of edges p1-p2 and p1-p3, strictly inside them |
| Slicer.SplitPartitionsTriangle | Assets/Scripts/Slicer.cs:140-216 | the three table triangles over the world-space corners and cut points keep the world triangle's winding, and their vector areas are positive fractions of its vector area that add up to one |
| Slicer.OffPlaneMeshIsSplittable | Assets/Scripts/Slicer.cs:159-166 | a mesh with no corner exactly on the plane meets SliceMesh's precondition |
| Slicer.TwoOnPlaneRayIsParallel | Assets/Scripts/Slicer.cs:149-165 | a triangle whose first two vertices lie on the plane is split in the original order, and its first ray is parallel to the plane, so the source divides by zero |
| Slicer.IsPlaneIntersecting | Assets/Scripts/Slicer.cs:268-291 | returns true iff some two consecutive corners, in the listed order, have a side product below zero |
| Slicer.SignChangeIffStraddles | Assets/Scripts/Slicer.cs:282-290 | a sign change between neighbours implies corners on both sides; the converse holds when no corner lies on the plane |
| Slicer.NeighboursChangeSign | Assets/Scripts/Slicer.cs:282-290 | in a list without zeros, a positive and a negative entry imply two neighbours of opposite signs |
| MeshSlicer.MeshIndexor | Assets/Scripts/MeshSlicer.cs:38 | the index of corner j of triangle i (counted from 0) is 3i+j |
| MeshSlicer.ReadTriangle | Assets/Scripts/MeshSlicer.cs:34-42 | the inner loop fills the local corners, their world images and the UVs of triangle i |
| MeshSlicer.ClassifySides | Assets/Scripts/MeshSlicer.cs:46-90 | every routing picks one of the three reorderings with its matching table |
| MeshSlicer.ClassifySidesCases | Assets/Scripts/MeshSlicer.cs:43-90 | whole to slice 1 iff all three sides are true, whole to slice 2 iff all are false; a split puts first the vertex whose side differs from the other two, and takes the CCW table iff that vertex is the middle one |
| MeshSlicer.SliceTriangleCorners | Assets/Scripts/MeshSlicer.cs:62-108 | the five split points: the reordered local corners and UVs, the two Raycast intersections taken back to local space, and their UVs interpolated along the two edges |
| MeshSlicer.Poi | Assets/Scripts/MeshSlicer.cs:93-99 | the point Raycast gives along the ray from one corner toward another lies on the line through those two corners |
| MeshSlicer.SlicedTri | Assets/Scripts/MeshSlicer.cs:62-108 | a split triangle has five points and five UVs |
| MeshSlicer.TriangleStep | Assets/Scripts/MeshSlicer.cs:43-108 | each triangle's routing, corners and split points form a well-formed step |
| MeshSlicer.Steps | Assets/Scripts/MeshSlicer.cs:32 | the loop visits exactly n well-formed steps, one per triangle, in loop order |
| MeshSlicer.SliceUpTo | Assets/Scripts/MeshSlicer.cs:25-32 | the fold over no triangles is the pair of empty slices, as the reset leaves them; with MeshSlicer.SliceUpToNext it defines the slices after every prefix of the loop |
| MeshSlicer.SliceState.constructor | Assets/Scripts/MeshSlicer.cs:25-30 | the six lists start empty |
| MeshSlicer.SliceState.AddCorners | Assets/Scripts/MeshSlicer.cs:113-117 | one append loop adds the chosen corners, in order, with indices equal to their new positions and with their UVs, to one slice, and leaves the other slice unchanged |
| MeshSlicer.SliceState.AddSplitTriangle | Assets/Scripts/MeshSlicer.cs:110-137 | table entries 0..3 go to the odd vertex's slice and entries 3..9 go to the other slice |
| MeshSlicer.SliceState.SliceOneTriangle | Assets/Scripts/MeshSlicer.cs:33-138 | one loop iteration changes the two slices exactly as the step of triangle i routes them |
| MeshSlicer.SliceState.SliceMesh | Assets/Scripts/MeshSlicer.cs:13-139 | after the reset and the loop, the lists hold the fold over all triangles and both slices are flat lists of whole triangles |
| MeshSlicer.SliceUpToNext | Assets/Scripts/MeshSlicer.cs:32 | the slices after n+1 triangles are triangle n's step applied to the slices after n |
| MeshSlicer.SliceKeepsBuffersWhole | Assets/Scripts/MeshSlicer.cs:46-137 | after n triangles both slices are flat lists of whole triangles holding 3n + 6 * (split count) corners between them |
| MeshSlicer.PoiOnEdge | Assets/Scripts/MeshSlicer.cs:93-99 | for a plane behaving like Unity's, the intersection from a toward b with a and b on opposite sides is the edge point at the fraction sa / (sa - sb) |
| MeshSlicer.PoiAtEdgeFraction | Assets/Scripts/MeshSlicer.cs:93-99 | a ray that is not parallel to the plane and runs along a-b meets it at the fraction fixed by the two ends' plane values |
| MeshSlicer.SplitCutsEdges | Assets/Scripts/MeshSlicer.cs:93-102 | for a split triangle with no vertex on the plane, the two intersections are the crossings of edges p1-p2 and p1-p3, strictly inside them |
| MeshSlicer.SplitPartitionsTriangle | Assets/Scripts/MeshSlicer.cs:66-137 | the three table triangles over the world-space corners and cut points keep the world triangle's winding, and their vector areas are positive fractions of its vector area that add up to one |
| MeshSlicer.SideDiffersIffBothSides | Assets/Scripts/MeshSlicer.cs:165-171 | some corner differing from the first corner is the same as corners lying on both sides |
| MeshSlicer.IsPlaneIntersectingMesh | Assets/Scripts/MeshSlicer.cs:152-172 | as written: true iff the local-space box corners lie on both sides of the plane |
| MeshSlicer.IsPlaneIntersectingObject | Assets/Scripts/MeshSlicer.cs:152-172 | corrected: true iff the box corners, taken to world space, lie on both sides of the plane |
| MeshSlicer.LocalBoundsMissTheCut | Assets/Scripts/MeshSlicer.cs:153-154 | a cube moved by (10, 0, 0) and cut by the plane x = 10.5: the check as written says no, the world-space check says yes |
| MeshSlicer.NewLine | Assets/Scripts/MeshSlicer.cs:244-250 | the Line constructor keeps the four points, and its world direction is parallel to the world segment, with a projection on it equal to the normalisation factor times its squared length |
| MeshSlicer.AddTriangle | Assets/Scripts/MeshSlicer.cs:178-203 | throws iff there are fewer than two lines or a line index is out of range, keeping the corners appended before the throw; otherwise appends the three fan corners with indices equal to their positions and zero UVs |
| MeshSlicer.FanWindingsOpposite | Assets/Scripts/MeshSlicer.cs:182-202 | the clockwise corners are the counter-clockwise ones reversed, so the two windings are opposite |
| Slicing.TableShape | Assets/Scripts/MeshSlicer.cs:6-7 | each table has nine entries below 5; its first triangle is {0, 3, 4}; its other two never use point 0 and together cover points 1 to 4 |
| Slicing.CcwReversesCw | Assets/Scripts/MeshSlicer.cs:6-7 | each triangle of the CCW table is the matching CW triangle read backwards |
| Slicing.TableMatchesReordering | Assets/Scripts/MeshSlicer.cs:66-90 | each reordering is a permutation of the corners, and the CW table is chosen iff the reordering is a rotation |
| Slicing.AppendCorners | Assets/Scripts/Slicer.cs:182-215 | one append loop adds the chosen corners in order, with indices equal to their new positions and with their UVs |
| Slicing.EmitKeepsFlat | Assets/Scripts/Slicer.cs:117-121 | appending corners to a flat list keeps it flat and appends exactly the given vertices and UVs |
| Slicing.DispatchKeepsWhole | Assets/Scripts/MeshSlicer.cs:46-137 | routing one triangle keeps both lists whole; a whole triangle adds 3 corners to one side, a split one 3 to the odd vertex's side and 6 to the other |
| Slicing.RunKeepsWhole | Assets/Scripts/Slicer.cs:94-224 | after any sequence of steps both lists are whole, with 3 corners per triangle plus 6 per split triangle between them |
| Slicing.SplitKeepsWindingAndArea | Assets/Scripts/Slicer.cs:140-156 | for either table, the three triangles over the five points are the source triangle's vector area times t1 t2, 1 - t2 and t2 (1 - t1); these add up to one and are positive for cuts strictly inside the edges |
| Slicing.CwTableAreas | Assets/Scripts/MeshSlicer.cs:6 | the clockwise table's triangles have vector areas t1 t2, 1 - t2 and t2 (1 - t1) times the source triangle's |
| Slicing.CcwTableAreas | Assets/Scripts/MeshSlicer.cs:7 | the counter-clockwise table's triangles have the negated areas of the clockwise table's triangles |
| Slicing.FractionInside | Assets/Scripts/MeshSlicer.cs:93-99 | between ends of opposite signs, the plane's crossing lies strictly inside the edge |
| Slicing.BoundingBoxVerts | Assets/Scripts/Slicer.cs:272-281 | the eight listed corners each take every coordinate from either the minimum or the maximum corner |
| Slicing.BoxCornersComplete | Assets/Scripts/MeshSlicer.cs:155-164 | every corner of the box, each coordinate from the minimum or the maximum, is among the eight listed |

## Left out

- Building the slice objects (`BuildSlice`: mesh creation, recomputed normals and bounds, colliders, rigidbody and centre of mass, tags) and `Destroy` of the original: scene plumbing with no logic to check.
- `Slicer.Update` and `Slicer.Slice` (mouse input, finding tagged objects) and the other scripts: input and camera code.
- The empty `TriangulatePolygon`, the empty convex "fill mesh" branch, the commented-out `Polygon` and the never-assigned `lineLoop` field: none has live behaviour.
- Floating-point rounding, NaN and infinity: coordinates are exact reals.
- Unity's `TransformPoint`, `InverseTransformPoint`, `.normalized`, `Plane.GetSide`, `Plane.Raycast` and `Vector3.Distance` are given functions with no computed body. The geometric lemmas state what they assume of them (`PlaneOf`, a normalisation that keeps non-zero vectors non-zero).
- Aliasing of the lists `AddTriangle` receives by reference: the model passes them as one value and returns the new value.
- `AddTriangle`'s `normal` parameter is kept in the model but, as in the source, never read.
- The bounds come from Unity: `mesh.bounds` in MeshSlicer.cs and the renderer's world-space bounds in Slicer.cs. They are parameters `objMin`, `objMax`.
- Slicer.SliceMesh: requires that every split triangle's two rays are not parallel to the plane (`AllSplittable`). The source divides by zero there and goes on with non-finite coordinates, which reals cannot represent. `Slicer.TwoOnPlaneRayIsParallel` shows when this happens, and `Slicer.OffPlaneMeshIsSplittable` shows when it cannot.
- Slicer.SliceMesh: also requires every index the loop reads to name a vertex and a UV (`ValidMesh`). The source would throw an index-out-of-range exception there.
- MeshSlicer.SliceState.SliceMesh: requires `ValidMesh` for the same reason.
- MeshSlicer.NewLine: does not prove that the direction points from point 1 to point 2, which needs the normalisation factor to be positive. It states that the direction is parallel to the segment, with the factor times the squared length as its projection.
- Slicer.PlaneNormal: does not state that the normal is non-zero. Three collinear points give the zero normal in the source too, and so does a normalisation factor of zero.
- Slicer.SplitPartitionsTriangle: states winding and area for the triangles over the world-space points. The pass emits their images under `InverseTransformPoint`, a given function the model does not constrain, so nothing is stated about the areas of the local triangles actually appended.
- MeshSlicer.SplitPartitionsTriangle: the same as above; the appended corners are the local vertices and the local images of the two Raycast points.

## Findings

| source | as written | input that shows it | evidently intended | confidence | as-written member | corrected member |
|---|---|---|---|---|---|---|
| Assets/Scripts/MeshSlicer.cs:152-172 | tests the corners of `mesh.bounds`, which are in the mesh's local space, against a world-space plane | a unit cube at local [0,1]^3 placed at world offset (10, 0, 0), and the world plane x = 10.5: every local corner has x - 10.5 < 0, so the check reports no intersection although the plane cuts the object | take the corners to world space before the side test, or use the renderer's world-space bounds as Slicer.cs does | not executed | MeshSlicer.IsPlaneIntersectingMesh, MeshSlicer.LocalBoundsMissTheCut | MeshSlicer.IsPlaneIntersectingObject |
