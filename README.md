# Shapes, inventory and task tracker: a Dafny model

This project models the deterministic core of three programs from one portfolio repository:

- **The mesh engine of a 3D scene (`ShapeMeshes`).** Each `Load*Mesh` routine fills a vertex buffer and an index buffer and records their counts in a `GLMesh`. Each `Draw*Mesh` routine issues `(primitive, offset, count)` draw calls over those buffers. The model keeps the integer structure:
  - which vertex every generator emits, named by the integer sample its position is computed from (the cone's side pushes each shared rim point twice, once per adjacent slice with that slice's normal, and both copies carry the same name);
  - which index triples it emits over those vertices;
  - how the segment counts are clamped;
  - the counts stored in the mesh;
  - the sub-ranges each draw sends, and the guards that skip a draw;
  - the warn-once flags of the deprecated `*Lines` wrappers.

  The generators are methods whose loops append to sequences. Each is proved equal to a pure specification function. Lemmas about those functions prove:
  - the vertex and index counts;
  - that every index addresses a vertex;
  - which vertices each triangle or quad joins, including the `(i + 1) % n` wrap of rings and the open seam of the partial cone.
- **The inventory data layer of an Android app.**
  - `ValidationUtils` is modelled as predicates.
  - `PasswordUtils` is modelled with its `"salt:digest"` format and its XOR comparison loop. SHA-256 and Base64 are uninterpreted parameters.
  - `Inventory` and `ItemMetadata` are classes. `ItemMetadata` follows the model class of the original app tree (`model/ItemMetadata.java`), whose constructor stores its four fields as given.
  - `InventoryRepository` is a class over the two tables (items and item metadata), the keys they generate and the zero-stock alerts sent. It covers:
    - the order in which inserts are validated;
    - unique item names;
    - optional metadata, upserted on update;
    - the quantity delta clamped at 0, in 32-bit arithmetic;
    - the zero-stock alert;
    - the SQL text and arguments built by `getItems`.
- **The task tracker, backed by a document store.**
  - `Contact`, `Task` and `Appointment` have validating constructors. The appointment's "not in the past" check takes the current time as a parameter.
  - Their repositories map each record to a document and back, and store it in a collection keyed by ID. This model of MongoDB has:
    - a `$set` update of the fields that are neither null nor empty;
    - a duplicate-key error on insert;
    - lookups that rebuild the record through its constructor.
  - The services add the existence rules on top.

Java semantics are written out in `java_lang.dfy`:
- `null` is an `Option`;
- a thrown exception is the `Err` case of a `Result`;
- `int` is 32-bit with wrap-around;
- `String.trim` strips characters at or below U+0020;
- `String.split` drops trailing empty strings.

C++ `int / 2` truncates toward zero (`TruncDiv`).

## Model

| member | source | states |
|---|---|---|
| MeshTopology.AtLeast | artifact-two/enhanced/3DShapes/ShapeMeshes.cpp:191 | `if (n < lo) n = lo` and `std::max(lo, n)` give a value at least lo and at least n, equal to one of them |
| MeshTopology.TruncDiv | artifact-two/enhanced/3DShapes/ShapeMeshes.cpp:742 | C++ integer division rounds toward zero: for a negative dividend the quotient is the ceiling, for a non-negative one the floor |
| MeshTopology.FanAddresses | artifact-two/enhanced/3DShapes/ShapeMeshes.cpp:206-216 | triangle i of a cap fan joins the centre to rim vertices i and (i + 1) % n, in the order the flag selects |
| MeshTopology.ConeStructure | artifact-two/enhanced/3DShapes/ShapeMeshes.cpp:189-252 | the cone has 3n + 2 vertices, a 3n-index bottom fan that wraps with (i + 1) % n and 3n side indices joining the apex to wall vertices i and i + 1; every index is in bounds |
| MeshTopology.ConeSideTriangle | artifact-two/enhanced/3DShapes/ShapeMeshes.cpp:226-251 | side triangle i of the cone joins the apex to wall vertices i and i + 1 |
| MeshTopology.CylinderStructure | artifact-two/enhanced/3DShapes/ShapeMeshes.cpp:277-347 | the cylinder has 4n + 6 vertices; its bottom [0, 3n) and top [3n, 6n) fans wrap with (i + 1) % n, and its 6n side indices join wall columns i and i + 1; every index is in bounds |
| MeshTopology.CylinderSideQuad | artifact-two/enhanced/3DShapes/ShapeMeshes.cpp:337-346 | side quad i of the cylinder joins the bottom and top wall vertices of columns i and i + 1 |
| MeshTopology.TaperedCylinderStructure | artifact-two/enhanced/3DShapes/ShapeMeshes.cpp:824-919 | the tapered cylinder has 4n + 2 vertices and 12n indices: bottom [0, 3n), top [3n, 6n) in reverse winding, sides [6n, 12n) that wrap with (i + 1) % n; every index is in bounds |
| MeshTopology.TaperedCylinderSideQuad | artifact-two/enhanced/3DShapes/ShapeMeshes.cpp:903-919 | side quad i joins wall columns i and (i + 1) % n |
| MeshTopology.PartialConeStructure | artifact-two/enhanced/3DShapes/ShapeMeshes.cpp:1731-1782 | the partial cone has 2n + 2 vertices and 6n indices; quad i uses only vertices 2i .. 2i + 3, so slice n is never joined back to slice 0 |
| MeshTopology.PartialConeQuad | artifact-two/enhanced/3DShapes/ShapeMeshes.cpp:1767-1781 | quad i of the partial cone joins the bottom and apex vertices of steps i and i + 1 |
| MeshTopology.TubeStructure | artifact-two/enhanced/3DShapes/ShapeMeshes.cpp:1526-1599 | the tube has 4n + 4 vertices, 12n wall and 12n end-cap indices; each block of twelve joins the outer and inner ring vertices of steps i and i + 1; every index is in bounds |
| MeshTopology.TubeWallTriangles | artifact-two/enhanced/3DShapes/ShapeMeshes.cpp:1552-1570 | the four wall triangles of step i join the named outer and inner wall vertices of steps i and i + 1 |
| MeshTopology.TubeCapTriangles | artifact-two/enhanced/3DShapes/ShapeMeshes.cpp:1573-1591 | the four end-cap triangles of step i join the named bottom and top ring vertices of steps i and i + 1 |
| MeshTopology.GridShapeStructure | artifact-two/enhanced/3DShapes/ShapeMeshes.cpp:947-1013 | a grid of R x C cells has (R + 1)(C + 1) samples and 6RC indices (nothing for R or C below 1); cell (r, c) joins samples (r, c), (r, c + 1), (r + 1, c), (r + 1, c + 1); every index is in bounds |
| MeshTopology.GridCorners | artifact-two/enhanced/3DShapes/ShapeMeshes.cpp:998-1010 | sample (r, c) of the grid is vertex r(C + 1) + c, and the cell's other corners are at offsets 1, C + 1 and C + 2 |
| MeshTopology.WrapIsMod | artifact-two/enhanced/3DShapes/ShapeMeshes.cpp:3081-3082 | the wrapped successor used by the spiral's rings is (j + 1) % n and below n |
| MeshTopology.SpiralStructure | artifact-two/enhanced/3DShapes/ShapeMeshes.cpp:3012-3165 | the spiral has (ringCount + 8)T vertices and 6T(ringCount + 7) indices; tube band (i, j) joins ring vertices i·T + j and the wrapped (j + 1) % T of rings i and i + 1; the cap bands do the same over the cap rings; every index is in bounds |
| MeshTopology.SpiralCounts | artifact-two/enhanced/3DShapes/ShapeMeshes.cpp:3017-3165 | vertex and index counts of the spiral |
| MeshTopology.SpiralTubeAt | artifact-two/enhanced/3DShapes/ShapeMeshes.cpp:3017-3072 | vertex i·T + j of the spiral is sample j of ring i |
| MeshTopology.SpiralCapAt | artifact-two/enhanced/3DShapes/ShapeMeshes.cpp:3104-3130 | the 8 cap rings occupy [ringCount·T, ringCount·T + 8T) |
| MeshTopology.SpiralJoinBlock | artifact-two/enhanced/3DShapes/ShapeMeshes.cpp:3152-3165 | join quad j joins the last cap ring to the recorded ring-0 vertices j and (j + 1) % T |
| MeshTopology.SpiralInBounds | artifact-two/enhanced/3DShapes/ShapeMeshes.cpp:3077-3165 | every spiral index is below ringCount·T + 8T |
| MeshTopology.ExtraTorusStructure | artifact-two/enhanced/3DShapes/ShapeMeshes.cpp:1097-1170 | the extra tori push 7 vertices per cell of their grid, each a sample of that grid |
| MeshTables.TableVertices | artifact-two/enhanced/3DShapes/ShapeMeshes.cpp:113-163 | a constant vertex table of n rows gives vertices 0 .. n - 1 |
| MeshTables.BoxFaceIndices | artifact-two/enhanced/3DShapes/ShapeMeshes.cpp:156-163 | the box has 36 indices; indices 6k .. 6k + 5 are face k's two triangles |
| MeshTables.BoxInBounds | artifact-two/enhanced/3DShapes/ShapeMeshes.cpp:116-163 | every box index is below the 24 table vertices |
| MeshTables.BoxBlock | artifact-two/enhanced/3DShapes/ShapeMeshes.cpp:156-163 | face k's six indices lie in 4k .. 4k + 3 |
| MeshTables.BoxGeometry | artifact-two/enhanced/3DShapes/ShapeMeshes.cpp:116-153 | each face's four table rows share one axis-aligned unit normal, lie on the face's plane and wind outward |
| MeshTables.BoxCentroid | artifact-two/enhanced/3DShapes/ShapeMeshes.cpp:116-153 | each face's constant normal has a positive dot product with the face's centroid |
| MeshTables.BoxWinding | artifact-two/enhanced/3DShapes/ShapeMeshes.cpp:116-163 | both triangles of each face wind counter-clockwise seen from outside, along its normal |
| MeshTables.BoxCorner | artifact-two/enhanced/3DShapes/ShapeMeshes.cpp:116-153 | every corner of face k carries the face's normal and lies on the plane at distance 0.5 along it |
| MeshTables.ListTriangles | artifact-two/enhanced/3DShapes/ShapeMeshes.cpp:2313 | a triangle list of s indices makes |s| / 3 triangles of consecutive triples |
| MeshTables.StripTriangles | artifact-two/enhanced/3DShapes/ShapeMeshes.cpp:1900 | a triangle strip of s indices makes |s| - 2 triangles of overlapping triples |
| MeshTables.PlaneAsStrip | artifact-two/enhanced/3DShapes/ShapeMeshes.cpp:366-392 | the plane's six indices are two triangles as a list, but four (one degenerate) as the strip the draw uses |
| MeshTables.FinFaceIndices | artifact-two/enhanced/3DShapes/ShapeMeshes.cpp:2059-2166 | the fin has 36 indices; face k's six indices lie in 4k .. 4k + 3 |
| MeshTables.FinInBounds | artifact-two/enhanced/3DShapes/ShapeMeshes.cpp:2059-2166 | every fin index is below its 24 vertices |
| MeshGenerators.CapLoop | artifact-two/enhanced/3DShapes/ShapeMeshes.cpp:289-321 | a cap loop emits the centre and the rim, and exactly the fan over them |
| MeshGenerators.ConeBuffers | artifact-two/enhanced/3DShapes/ShapeMeshes.cpp:189-252 | LoadConeMesh's loops clamp n to at least 3 and build exactly ConeVertices(n) and ConeIndices(n) |
| MeshGenerators.ConeSideLoop | artifact-two/enhanced/3DShapes/ShapeMeshes.cpp:226-251 | the side loop emits two wall vertices and one apex triangle per slice |
| MeshGenerators.CylinderBuffers | artifact-two/enhanced/3DShapes/ShapeMeshes.cpp:277-347 | LoadCylinderMesh's loops clamp n and build exactly CylinderVertices(n) and CylinderIndices(n) |
| MeshGenerators.CylinderAssembly | artifact-two/enhanced/3DShapes/ShapeMeshes.cpp:277-347 | the bottom, top and side loops' outputs concatenate to the cylinder's buffers |
| MeshGenerators.CylinderSideLoop | artifact-two/enhanced/3DShapes/ShapeMeshes.cpp:325-347 | n + 1 wall columns and one quad for each of the first n |
| MeshGenerators.TaperedCylinderBuffers | artifact-two/enhanced/3DShapes/ShapeMeshes.cpp:824-919 | LoadTaperedCylinderMesh's loops clamp n and build exactly its specification buffers |
| MeshGenerators.TaperedCylinderAssembly | artifact-two/enhanced/3DShapes/ShapeMeshes.cpp:824-919 | the four loops' outputs concatenate to the tapered cylinder's buffers |
| MeshGenerators.WallLoop | artifact-two/enhanced/3DShapes/ShapeMeshes.cpp:882-901 | one bottom and one top wall vertex per step |
| MeshGenerators.TaperedSideLoop | artifact-two/enhanced/3DShapes/ShapeMeshes.cpp:903-919 | the side loop builds exactly the wrapping side quads |
| MeshGenerators.PartialConeBuffers | artifact-two/enhanced/3DShapes/ShapeMeshes.cpp:1731-1782 | DrawPartialConeMesh's loops clamp n and build exactly the open-seam buffers |
| MeshGenerators.TubeBuffers | artifact-two/enhanced/3DShapes/ShapeMeshes.cpp:1526-1599 | LoadTubeMesh's three loops clamp n and build exactly TubeVertices(n) and TubeIndices(n) |
| MeshGenerators.TubeVertexLoop | artifact-two/enhanced/3DShapes/ShapeMeshes.cpp:1537-1549 | the n+1 steps push outer bottom, outer top, inner bottom, inner top of step i: exactly TubeVertices(n) |
| MeshGenerators.TubeWallLoop | artifact-two/enhanced/3DShapes/ShapeMeshes.cpp:1552-1570 | the n steps push the outer wall quad and the inner wall quad of step i, indices from 4i to 4i+7: exactly TubeWalls(n) |
| MeshGenerators.TubeCapLoop | artifact-two/enhanced/3DShapes/ShapeMeshes.cpp:1573-1591 | the n steps push the bottom ring quad and the top ring quad of step i: exactly TubeCaps(n) |
| MeshGenerators.GridSamples | artifact-two/enhanced/3DShapes/ShapeMeshes.cpp:961-995 | the nested sample loops `i <= R`, `j <= C` emit exactly the grid's samples, row by row |
| MeshGenerators.GridCells | artifact-two/enhanced/3DShapes/ShapeMeshes.cpp:998-1013 | the nested cell loops `i < R`, `j < C` emit exactly the grid's index list |
| MeshGenerators.ExtraTorusBuffers | artifact-two/enhanced/3DShapes/ShapeMeshes.cpp:1097-1170 | the extra tori's cell loop emits exactly their 7-per-cell vertex list |
| MeshGenerators.SpiralBuffers | artifact-two/enhanced/3DShapes/ShapeMeshes.cpp:3012-3165 | DrawSpiralMesh's loops build exactly SpiralVertices and SpiralIndices |
| MeshGenerators.SpiralTubeRings | artifact-two/enhanced/3DShapes/ShapeMeshes.cpp:3017-3072 | the ring loop emits the tube rings and records ring 0's indices 0 .. T - 1 |
| MeshGenerators.RingStart | artifact-two/enhanced/3DShapes/ShapeMeshes.cpp:3069-3073 | ringStartIndices[j] == j for every j < T |
| MeshGenerators.SpiralCapRings | artifact-two/enhanced/3DShapes/ShapeMeshes.cpp:3104-3130 | the cap ring loop appends the 8 cap rings after the tube rings |
| MeshGenerators.SpiralBandLoop | artifact-two/enhanced/3DShapes/ShapeMeshes.cpp:3077-3100 | the band loop emits exactly the wrapped quads between consecutive rings |
| MeshGenerators.SpiralJoinLoop | artifact-two/enhanced/3DShapes/ShapeMeshes.cpp:3152-3165 | the join loop emits exactly the quads from the last cap ring to ring 0 |
| MeshDraws.UnloadedDrawsNothing | artifact-two/enhanced/3DShapes/ShapeMeshes.h:53-66 | a mesh with every name and count 0 makes every guarded draw issue nothing and every unguarded draw count 0 |
| MeshDraws.WholeDraw | artifact-two/enhanced/3DShapes/ShapeMeshes.cpp:2393-2405 | the guarded draws (DrawTubeMesh, DrawBoxMesh, DrawTorusMesh) of a loaded mesh pass the `vao == 0 \|\| nIndices == 0` guard and send exactly its index list, each index in bounds |
| MeshDraws.BoxDraws | artifact-two/enhanced/3DShapes/ShapeMeshes.cpp:1614-1626 | DrawBoxMesh on a loaded box sends its 36 indices, all below 24 |
| MeshDraws.BoxSideDraws | artifact-two/enhanced/3DShapes/ShapeMeshes.cpp:1644-1676 | DrawBoxMeshSide issues one guarded call of 6 indices at offset 6·k, which fits in 36 and sends face k |
| MeshDraws.BoxSideNames | artifact-two/enhanced/3DShapes/ShapeMeshes.cpp:1655-1672 | only left, right and top draw the face of their own name; front draws the back face (offset 0), back the bottom face, bottom the front face |
| MeshDraws.ConeDraws | artifact-two/enhanced/3DShapes/ShapeMeshes.cpp:1690-1717 | DrawConeMesh sends the bottom fan (0, 3n) on request and always the sides (3n, 3n), all in bounds |
| MeshDraws.CylinderDraws | artifact-two/enhanced/3DShapes/ShapeMeshes.cpp:1854-1878 | DrawCylinderMesh sends bottom (0, 3n), top (3n, 3n) and sides (6n, 6n), each on request, all in bounds |
| MeshDraws.TaperedCylinderDraws | artifact-two/enhanced/3DShapes/ShapeMeshes.cpp:2248-2273 | DrawTaperedCylinderMesh sends exactly the bottom, top and side ranges of the tapered cylinder, each on request |
| MeshDraws.GridDraws | artifact-two/enhanced/3DShapes/ShapeMeshes.cpp:1996-2010 | sphere and hemisphere (1996-2010), torus (2287-2301), spring (2369-2382) and curved cone (2763-2768) draws of a loaded grid send its whole index list, all in bounds |
| MeshDraws.HalfGridDraws | artifact-two/enhanced/3DShapes/ShapeMeshes.cpp:2025-2039 | the half draw of a 2h-row grid sends exactly the first h rows' indices |
| MeshDraws.HalfRows | artifact-two/enhanced/3DShapes/ShapeMeshes.cpp:2344-2358 | the first h rows of a 2h-row grid are the first half of its index list |
| MeshDraws.PlaneDraws | artifact-two/enhanced/3DShapes/ShapeMeshes.cpp:1892-1903 | DrawPlaneMesh reads the six-index triangle list as a GL_TRIANGLE_STRIP, giving four triangles |
| MeshDraws.PrismDraws | artifact-two/enhanced/3DShapes/ShapeMeshes.cpp:1916-1927 | the prism draws its 32 vertices as a strip of 30 triangles; its 3 uploaded indices are never drawn |
| MeshDraws.PyramidDraws | artifact-two/enhanced/3DShapes/ShapeMeshes.cpp:1941-1983 | the pyramids draw their vertices as strips: 10 and 16 triangles |
| MeshDraws.ExtraTorusDraws | artifact-two/enhanced/3DShapes/ShapeMeshes.cpp:2309-2331 | each extra torus draws its 6300 vertices as 2100 separate triangles |
| MeshDraws.FinDraws | artifact-two/enhanced/3DShapes/ShapeMeshes.cpp:2179-2232 | the fin's draws (0, 36), (0, 6), (6, 6), (0, 12) and (12, 24) all fit; front and back use vertices 0 .. 7, the untextured sides 8 .. 23 |
| MeshManager.ShapeMeshes.constructor | artifact-two/enhanced/3DShapes/ShapeMeshes.h:238-251 | all twelve warning flags and the layout flags start false; every mesh starts with names and counts 0 |
| MeshManager.ShapeMeshes.GenName | artifact-two/enhanced/3DShapes/ShapeMeshes.cpp:80-81 | glGen* hands out a nonzero name never handed out before |
| MeshManager.ShapeMeshes.InitializeMesh | artifact-two/enhanced/3DShapes/ShapeMeshes.cpp:76-98 | stores nVertices = (8 · rows) / 8 and nIndices, new VAO and VBO, an EBO only for a non-empty index list, and sets the attribute layout |
| MeshManager.ShapeMeshes.LoadBoxMesh | artifact-two/enhanced/3DShapes/ShapeMeshes.cpp:113-171 | the box mesh holds the 24 table vertices and the 36 box indices |
| MeshManager.ShapeMeshes.LoadPlaneMesh | artifact-two/enhanced/3DShapes/ShapeMeshes.cpp:366-392 | the plane mesh holds 4 vertices and 6 indices |
| MeshManager.ShapeMeshes.LoadPrismMesh | artifact-two/enhanced/3DShapes/ShapeMeshes.cpp:410-476 | the prism mesh holds 32 vertices but only 3 indices |
| MeshManager.ShapeMeshes.LoadPyramid3Mesh | artifact-two/enhanced/3DShapes/ShapeMeshes.cpp:492-562 | the three-sided pyramid holds its vertices, no indices, and keeps its old element buffer name |
| MeshManager.ShapeMeshes.LoadPyramid4Mesh | artifact-two/enhanced/3DShapes/ShapeMeshes.cpp:579-650 | the four-sided pyramid holds its vertices, no indices, and keeps its old element buffer name |
| MeshManager.ShapeMeshes.LoadFinMesh | artifact-two/enhanced/3DShapes/ShapeMeshes.cpp:2059-2166 | the fin uploads by itself: new names, 36 indices stored, vertex count left as it was |
| MeshManager.ShapeMeshes.LoadConeMesh | artifact-two/enhanced/3DShapes/ShapeMeshes.cpp:189-256 | stores numSlices = max(3, n) and the cone's buffers for that n |
| MeshManager.ShapeMeshes.LoadCylinderMesh | artifact-two/enhanced/3DShapes/ShapeMeshes.cpp:277-351 | stores the clamped numSlices and the cylinder's buffers |
| MeshManager.ShapeMeshes.LoadTaperedCylinderMesh | artifact-two/enhanced/3DShapes/ShapeMeshes.cpp:824-923 | stores the clamped numSlices and the tapered cylinder's buffers |
| MeshManager.ShapeMeshes.LoadTubeMesh | artifact-two/enhanced/3DShapes/ShapeMeshes.cpp:1526-1599 | stores the clamped numSlices and the tube's buffers |
| MeshManager.ShapeMeshes.LoadGrid | artifact-two/enhanced/3DShapes/ShapeMeshes.cpp:961-1013 | a grid shape's sample and cell loops, stored through InitializeMesh |
| MeshManager.ShapeMeshes.LoadSphereMesh | artifact-two/enhanced/3DShapes/ShapeMeshes.cpp:672-733 | the sphere of L x N cells, unclamped |
| MeshManager.ShapeMeshes.LoadHemisphereMesh | artifact-two/enhanced/3DShapes/ShapeMeshes.cpp:735-797 | the hemisphere keeps latitudeSegments / 2 rows, truncating toward zero |
| MeshManager.ShapeMeshes.LoadTorusMesh | artifact-two/enhanced/3DShapes/ShapeMeshes.cpp:947-1021 | both segment counts clamped to at least 3, then the grid |
| MeshManager.ShapeMeshes.LoadSpringMesh | artifact-two/enhanced/3DShapes/ShapeMeshes.cpp:1425-1506 | mainSegments clamped to 1 and tubeSegments to 8; mainSegments · tubeSegments rows of tubeSegments cells |
| MeshManager.ShapeMeshes.LoadCurvedConeMesh | artifact-two/enhanced/3DShapes/ShapeMeshes.cpp:2666-2754 | stores slices clamped to 3 and steps clamped to 1, then steps x slices cells |
| MeshManager.ShapeMeshes.LoadExtraTorus | artifact-two/enhanced/3DShapes/ShapeMeshes.cpp:1034-1215 | a new VAO and first vbo, the 6300-vertex list, no indices |
| MeshManager.ShapeMeshes.LoadExtraTorusMesh1 | artifact-two/enhanced/3DShapes/ShapeMeshes.cpp:1034-1215 | the first extra torus holds its vertex list and no indices |
| MeshManager.ShapeMeshes.LoadExtraTorusMesh2 | artifact-two/enhanced/3DShapes/ShapeMeshes.cpp:1228-1409 | the second extra torus, the same structure |
| MeshManager.ShapeMeshes.GenNames | artifact-two/enhanced/3DShapes/ShapeMeshes.cpp:2811-2818 | three fresh names and nothing else |
| MeshManager.ShapeMeshes.LoadTaperedTorusMesh | artifact-two/enhanced/3DShapes/ShapeMeshes.cpp:2811-2818 | only new VAO, VBO and EBO names |
| MeshManager.ShapeMeshes.LoadSpiralMesh | artifact-two/enhanced/3DShapes/ShapeMeshes.cpp:2949-2954 | only new VAO, VBO and EBO names |
| MeshManager.ShapeMeshes.LoadSineConeMesh | artifact-two/enhanced/3DShapes/ShapeMeshes.cpp:3227-3232 | only new VAO, VBO and EBO names |
| MeshManager.ShapeMeshes.LoadSuperellipsoidMesh | artifact-two/enhanced/3DShapes/ShapeMeshes.cpp:3471-3477 | only new VAO, VBO and EBO names |
| MeshManager.ShapeMeshes.DrawTaperedTorusMesh | artifact-two/enhanced/3DShapes/ShapeMeshes.cpp:2820-2910 | uploads mainSegments x tubeSegments cells (no clamp) and draws all of them, all in bounds; the stored counts are untouched |
| MeshManager.ShapeMeshes.DrawSineConeMesh | artifact-two/enhanced/3DShapes/ShapeMeshes.cpp:3234-3363 | uploads heightSegments x radialSegments cells (no clamp) and draws all of them, all in bounds |
| MeshManager.ShapeMeshes.DrawSuperellipsoidMesh | artifact-two/enhanced/3DShapes/ShapeMeshes.cpp:3479-3652 | both counts clamped to 3; stores vSegments as numSlices and both counts, then draws the whole in-bounds index list |
| MeshManager.ShapeMeshes.DrawSpiralMesh | artifact-two/enhanced/3DShapes/ShapeMeshes.cpp:2956-3187 | uploads the spiral's rings, caps and join and draws every index, all in bounds |
| MeshManager.ShapeMeshes.DrawPartialConeMesh | artifact-two/enhanced/3DShapes/ShapeMeshes.cpp:1724-1836 | draws the open-seam partial cone from temporary buffers, all in bounds, leaving the object unchanged |
| MeshManager.ShapeMeshes.DrawBoxMeshLines | artifact-two/enhanced/3DShapes/ShapeMeshes.cpp:2411-2417 | warns only when its own flag was unset, sets it, then draws the box |
| MeshManager.ShapeMeshes.DrawConeMeshLines | artifact-two/enhanced/3DShapes/ShapeMeshes.cpp:2427-2433 | warns once, then DrawConeMesh with the bottom |
| MeshManager.ShapeMeshes.DrawCylinderMeshLines | artifact-two/enhanced/3DShapes/ShapeMeshes.cpp:2435-2441 | warns once; the `true` lands in bDrawTop, so all three parts are drawn |
| MeshManager.ShapeMeshes.DrawPlaneMeshLines | artifact-two/enhanced/3DShapes/ShapeMeshes.cpp:2443-2449 | warns once, then draws the plane |
| MeshManager.ShapeMeshes.DrawPrismMeshLines | artifact-two/enhanced/3DShapes/ShapeMeshes.cpp:2451-2457 | warns once, then draws the prism |
| MeshManager.ShapeMeshes.DrawPyramid3MeshLines | artifact-two/enhanced/3DShapes/ShapeMeshes.cpp:2459-2465 | warns once, then draws the three-sided pyramid |
| MeshManager.ShapeMeshes.DrawPyramid4MeshLines | artifact-two/enhanced/3DShapes/ShapeMeshes.cpp:2467-2473 | warns once, then draws the four-sided pyramid |
| MeshManager.ShapeMeshes.DrawSphereMeshLines | artifact-two/enhanced/3DShapes/ShapeMeshes.cpp:2475-2481 | warns once, then draws the sphere |
| MeshManager.ShapeMeshes.DrawHalfSphereMeshLines | artifact-two/enhanced/3DShapes/ShapeMeshes.cpp:2483-2489 | warns once, then draws the hemisphere mesh, not half of the sphere |
| MeshManager.ShapeMeshes.DrawTaperedCylinderMeshLines | artifact-two/enhanced/3DShapes/ShapeMeshes.cpp:2491-2497 | warns once; all three parts of the tapered cylinder are drawn |
| MeshManager.ShapeMeshes.DrawTorusMeshLines | artifact-two/enhanced/3DShapes/ShapeMeshes.cpp:2499-2505 | warns once, then the guarded torus draw |
| MeshManager.ShapeMeshes.DrawHalfTorusMeshLines | artifact-two/enhanced/3DShapes/ShapeMeshes.cpp:2507-2513 | warns once, then the first half of the torus indices |
| MeshCounts.GridCounts | artifact-two/enhanced/3DShapes/ShapeMeshes.cpp:680-727 | an R x C grid has (R + 1)(C + 1) samples and 6RC indices |
| MeshCounts.DefaultSphereCounts | artifact-two/enhanced/3DShapes/ShapeMeshes.h:134 | LoadSphereMesh(18, 18) gives 361 vertices and 1944 indices |
| MeshCounts.DefaultHemisphereCounts | artifact-two/enhanced/3DShapes/ShapeMeshes.h:135 | the default hemisphere has 9 rows: 190 vertices and 972 indices |
| MeshCounts.SmallHemisphere | artifact-two/enhanced/3DShapes/ShapeMeshes.cpp:742-745 | below 2 latitude segments the hemisphere has no cells; one ring of samples from -1 to 1, none from -2 down |
| MeshCounts.TorusClamp | artifact-two/enhanced/3DShapes/ShapeMeshes.cpp:950-951 | a torus asked for 3 or fewer segments gets 3 x 3 cells: 16 vertices, 54 indices |
| MeshCounts.DefaultSpringCounts | artifact-two/enhanced/3DShapes/ShapeMeshes.h:142 | the default spring has 108 rows of 18 cells |
| MeshCounts.UnclampedGrids | artifact-two/enhanced/3DShapes/ShapeMeshes.cpp:2837-2888 | tapered torus and sine cone do not clamp: 0 or fewer rows or columns give no indices, -1 or fewer no vertices |
| MeshCounts.DefaultConeCounts | artifact-two/enhanced/3DShapes/ShapeMeshes.h:128 | the default cone (18 slices) has 56 vertices and 108 indices |
| MeshCounts.ConeClamp | artifact-two/enhanced/3DShapes/ShapeMeshes.cpp:191 | a cone asked for 3 or fewer slices gets 3: 11 vertices and 18 indices, the same buffers as Cone(3) |
| MeshCounts.DefaultCylinderCounts | artifact-two/enhanced/3DShapes/ShapeMeshes.h:129 | the default cylinder (36 slices) has 150 vertices and 432 indices |
| MeshCounts.DefaultTaperedCylinderCounts | artifact-two/enhanced/3DShapes/ShapeMeshes.h:137 | the default tapered cylinder (18 slices) has 74 vertices and 216 indices |
| MeshCounts.DefaultTubeCounts | artifact-two/enhanced/3DShapes/ShapeMeshes.h:143 | the default tube (30 slices) has 124 vertices and 720 indices |
| JavaLang.Wrap32 | artifact-one/enhanced/artifact-one-enhanced/InventoryAppJenLakey/app/src/main/java/com/example/inventoryapp/repository/InventoryRepository.java:374 | Java int addition wraps modulo 2^32 and is exact when the sum fits |
| JavaLang.DeltaRoundTrip | artifact-one/enhanced/artifact-one-enhanced/InventoryAppJenLakey/app/src/main/java/com/example/inventoryapp/repository/InventoryRepository.java:414-424 | current + (q - current) is q again in 32-bit arithmetic, even when the difference overflows |
| JavaLang.TrimStart | artifact-one/enhanced/artifact-one-enhanced/InventoryAppJenLakey/app/src/main/java/com/example/inventoryapp/utils/ValidationUtils.java:51 | strips exactly the leading run of characters at or below U+0020 |
| JavaLang.TrimEnd | artifact-one/enhanced/artifact-one-enhanced/InventoryAppJenLakey/app/src/main/java/com/example/inventoryapp/utils/ValidationUtils.java:51 | strips exactly the trailing run of characters at or below U+0020 |
| JavaLang.TrimIsCore | artifact-one/enhanced/artifact-one-enhanced/InventoryAppJenLakey/app/src/main/java/com/example/inventoryapp/utils/ValidationUtils.java:51 | trim is the infix that starts and ends with a non-trimmable character and contains every such character |
| JavaLang.TrimEmptyIff | artifact-one/enhanced/artifact-one-enhanced/InventoryAppJenLakey/app/src/main/java/com/example/inventoryapp/utils/ValidationUtils.java:76 | trim is empty iff every character is at or below U+0020 |
| JavaLang.TrimPadding | artifact-one/enhanced/artifact-one-enhanced/InventoryAppJenLakey/app/src/main/java/com/example/inventoryapp/utils/ValidationUtils.java:51 | padding with a trimmable character on either side does not change the trim |
| JavaLang.TrimIdempotent | artifact-one/enhanced/artifact-one-enhanced/InventoryAppJenLakey/app/src/main/java/com/example/inventoryapp/utils/ValidationUtils.java:88 | trimming twice is trimming once |
| JavaLang.Pieces | artifact-one/enhanced/artifact-one-enhanced/InventoryAppJenLakey/app/src/main/java/com/example/inventoryapp/utils/PasswordUtils.java:52 | cutting at every separator gives at least one piece, none containing the separator |
| JavaLang.PiecesJoinBack | artifact-one/enhanced/artifact-one-enhanced/InventoryAppJenLakey/app/src/main/java/com/example/inventoryapp/utils/PasswordUtils.java:52 | for every string, the pieces joined back with the separator give the string again |
| JavaLang.DropTrailingEmpty | artifact-one/enhanced/artifact-one-enhanced/InventoryAppJenLakey/app/src/main/java/com/example/inventoryapp/utils/PasswordUtils.java:52 | removes exactly the trailing run of empty pieces |
| JavaLang.Split | artifact-one/enhanced/artifact-one-enhanced/InventoryAppJenLakey/app/src/main/java/com/example/inventoryapp/utils/PasswordUtils.java:52 | String.split: a string without the separator splits to itself; no piece contains the separator |
| JavaLang.SplitJoinsBack | artifact-one/enhanced/artifact-one-enhanced/InventoryAppJenLakey/app/src/main/java/com/example/inventoryapp/utils/PasswordUtils.java:52 | for every string, the split's pieces joined with the separator are a prefix of it and only separators follow; when the separator occurs, the last piece kept is non-empty (or none is kept) |
| JavaLang.SplitJoined | artifact-one/enhanced/artifact-one-enhanced/InventoryAppJenLakey/app/src/main/java/com/example/inventoryapp/utils/PasswordUtils.java:35-36 | x ":" y with separator-free parts and y non-empty splits back to [x, y] |
| JavaLang.SplitTrailingSeparator | artifact-one/enhanced/artifact-one-enhanced/InventoryAppJenLakey/app/src/main/java/com/example/inventoryapp/utils/PasswordUtils.java:52-53 | "abc:" splits to one piece, because trailing empty strings are dropped |
| Validation.IsValidUsername | artifact-one/enhanced/artifact-one-enhanced/InventoryAppJenLakey/app/src/main/java/com/example/inventoryapp/utils/ValidationUtils.java:23-25 | holds iff the name is non-null and has at least 3 characters |
| Validation.IsValidPassword | artifact-one/enhanced/artifact-one-enhanced/InventoryAppJenLakey/app/src/main/java/com/example/inventoryapp/utils/ValidationUtils.java:30-32 | holds iff the password is non-null and has at least 6 characters |
| Validation.DoPasswordsMatch | artifact-one/enhanced/artifact-one-enhanced/InventoryAppJenLakey/app/src/main/java/com/example/inventoryapp/utils/ValidationUtils.java:37-39 | false when p1 is null, otherwise string equality |
| Validation.IsValidPhoneNumber | artifact-one/enhanced/artifact-one-enhanced/InventoryAppJenLakey/app/src/main/java/com/example/inventoryapp/utils/ValidationUtils.java:47-54 | null or empty is accepted; otherwise the trimmed text must match `^\+?[0-9 ]{7,}$` |
| Validation.PhonePatternShape | artifact-one/enhanced/artifact-one-enhanced/InventoryAppJenLakey/app/src/main/java/com/example/inventoryapp/utils/ValidationUtils.java:53 | a match is an optional '+' then at least 7 digits or spaces |
| Validation.PhonePaddingIgnored | artifact-one/enhanced/artifact-one-enhanced/InventoryAppJenLakey/app/src/main/java/com/example/inventoryapp/utils/ValidationUtils.java:51-53 | surrounding whitespace does not change the verdict |
| Validation.BlankPhoneRejected | artifact-one/enhanced/artifact-one-enhanced/InventoryAppJenLakey/app/src/main/java/com/example/inventoryapp/utils/ValidationUtils.java:47-54 | the empty string is accepted but a whitespace-only one is rejected |
| Validation.IsValidItemName | artifact-one/enhanced/artifact-one-enhanced/InventoryAppJenLakey/app/src/main/java/com/example/inventoryapp/utils/ValidationUtils.java:61-63 | holds iff the name is non-null and non-empty, so a whitespace-only name passes |
| Validation.IsValidQuantity | artifact-one/enhanced/artifact-one-enhanced/InventoryAppJenLakey/app/src/main/java/com/example/inventoryapp/utils/ValidationUtils.java:68-70 | holds iff the quantity is at least 0 |
| Validation.IsValidCategory | artifact-one/enhanced/artifact-one-enhanced/InventoryAppJenLakey/app/src/main/java/com/example/inventoryapp/utils/ValidationUtils.java:75-77 | holds iff the category is null or has a character above U+0020 |
| Validation.IsValidMetadata | artifact-one/enhanced/artifact-one-enhanced/InventoryAppJenLakey/app/src/main/java/com/example/inventoryapp/utils/ValidationUtils.java:84-90 | null or empty is accepted; otherwise the trimmed length must be 1 .. 255 |
| Validation.ShortMetadataValid | artifact-one/enhanced/artifact-one-enhanced/InventoryAppJenLakey/app/src/main/java/com/example/inventoryapp/utils/ValidationUtils.java:84-90 | text of at most 255 characters is accepted iff it is empty or not blank |
| Passwords.Hash | artifact-one/enhanced/artifact-one-enhanced/InventoryAppJenLakey/app/src/main/java/com/example/inventoryapp/utils/PasswordUtils.java:23-40 | the stored form is Base64(salt) ":" Base64(SHA-256(salt ‖ raw)) with a 16-byte salt; it splits back into the two parts, which decode to salt and digest |
| Passwords.SplitJoinedWhenClean | artifact-one/enhanced/artifact-one-enhanced/InventoryAppJenLakey/app/src/main/java/com/example/inventoryapp/utils/PasswordUtils.java:52 | joining two separator-free parts, the second non-empty, splits back to them |
| Passwords.DigestsEqual | artifact-one/enhanced/artifact-one-enhanced/InventoryAppJenLakey/app/src/main/java/com/example/inventoryapp/utils/PasswordUtils.java:65-69 | the XOR-accumulate loop scans the whole length and ends with diff == 0 iff the digests are equal byte for byte |
| Passwords.Verify | artifact-one/enhanced/artifact-one-enhanced/InventoryAppJenLakey/app/src/main/java/com/example/inventoryapp/utils/PasswordUtils.java:49-73 | verify: false for a null stored value, a split not giving exactly two parts, undecodable parts or a length mismatch; otherwise the comparison's verdict |
| Passwords.HashVerifies | artifact-one/enhanced/artifact-one-enhanced/InventoryAppJenLakey/app/src/main/java/com/example/inventoryapp/utils/PasswordUtils.java:23-73 | verify(raw, hash(raw)) is true when decode undoes encode |
| Passwords.VerifiesHashIff | artifact-one/enhanced/artifact-one-enhanced/InventoryAppJenLakey/app/src/main/java/com/example/inventoryapp/utils/PasswordUtils.java:49-73 | another password verifies against a hash iff its salted digest is the same |
| Passwords.TrailingSeparatorRejected | artifact-one/enhanced/artifact-one-enhanced/InventoryAppJenLakey/app/src/main/java/com/example/inventoryapp/utils/PasswordUtils.java:52-53 | a stored value like "abc:" is rejected |
| Passwords.NoSeparatorRejected | artifact-one/enhanced/artifact-one-enhanced/InventoryAppJenLakey/app/src/main/java/com/example/inventoryapp/utils/PasswordUtils.java:52-53 | a stored value without ':' is rejected |
| Passwords.WrongLengthRejected | artifact-one/enhanced/artifact-one-enhanced/InventoryAppJenLakey/app/src/main/java/com/example/inventoryapp/utils/PasswordUtils.java:64 | an expected digest whose length differs from SHA-256's is rejected |
| Inventories.Inventory.constructor | artifact-one/enhanced/artifact-one-enhanced/InventoryAppJenLakey/app/src/main/java/com/example/inventoryapp/model/Inventory.java:45-50 | stores itemId, itemName, quantity and the nullable category unchanged, without checks |
| Inventories.Inventory.ForInsert | artifact-one/enhanced/artifact-one-enhanced/InventoryAppJenLakey/app/src/main/java/com/example/inventoryapp/model/Inventory.java:53-58 | the insert constructor leaves itemId at 0, the auto-generate placeholder |
| InventoryRepo.NextAfter | artifact-one/enhanced/artifact-one-enhanced/InventoryAppJenLakey/app/src/main/java/com/example/inventoryapp/model/Inventory.java:27 | the key counter moves past every key it generates |
| InventoryRepo.InsertFailure | artifact-one/enhanced/artifact-one-enhanced/InventoryAppJenLakey/app/src/main/java/com/example/inventoryapp/repository/InventoryRepository.java:116-135 | the insert checks run in order: bad name, negative quantity, duplicate name; the category check never fires; no error iff all pass and the requested key is free |
| InventoryRepo.CategoryCheckPasses | artifact-one/enhanced/artifact-one-enhanced/InventoryAppJenLakey/app/src/main/java/com/example/inventoryapp/repository/InventoryRepository.java:124-127 | any non-blank category passes isValidCategory, so that branch is dead |
| InventoryRepo.NonBlankMetadataCheck | artifact-one/enhanced/artifact-one-enhanced/InventoryAppJenLakey/app/src/main/java/com/example/inventoryapp/repository/InventoryRepository.java:142-147 | for a non-blank field, isValidMetadata only bounds the trimmed length by 255 |
| InventoryRepo.InsertItem | artifact-one/enhanced/artifact-one-enhanced/InventoryAppJenLakey/app/src/main/java/com/example/inventoryapp/repository/InventoryRepository.java:114-166 | throws exactly when a check fails, naming the first failed check, and then persists nothing |
| InventoryRepo.InsertOutcome | artifact-one/enhanced/artifact-one-enhanced/InventoryAppJenLakey/app/src/main/java/com/example/inventoryapp/repository/InventoryRepository.java:135-163 | a successful insert adds the item under a new key; metadata with itemId set is stored only when some field is non-blank and all non-blank fields are valid; an alert is sent iff the quantity is 0 |
| InventoryRepo.InsertKeepsValid | artifact-one/enhanced/artifact-one-enhanced/InventoryAppJenLakey/app/src/main/java/com/example/inventoryapp/model/Inventory.java:20-23 | inserting keeps item names unique and the counters ahead of the keys |
| InventoryRepo.StoreMetadataValid | artifact-one/enhanced/artifact-one-enhanced/InventoryAppJenLakey/app/src/main/java/com/example/inventoryapp/repository/InventoryRepository.java:151 | storing a metadata row keeps the tables valid |
| InventoryRepo.UpdateUpserts | artifact-one/enhanced/artifact-one-enhanced/InventoryAppJenLakey/app/src/main/java/com/example/inventoryapp/repository/InventoryRepository.java:179-241 | an accepted update (the category check passing whatever the category) replaces the item row by key, upserts metadata (update, or insert when 0 rows change), leaves metadata alone when null or blank, and alerts iff the quantity is 0 |
| InventoryRepo.UpdateRejected | artifact-one/enhanced/artifact-one-enhanced/InventoryAppJenLakey/app/src/main/java/com/example/inventoryapp/repository/InventoryRepository.java:179-240 | an update with an empty name or a negative quantity returns early; one onto another item's name throws in updateItem and is caught; both change nothing |
| InventoryRepo.UpdateKeepsValid | artifact-one/enhanced/artifact-one-enhanced/InventoryAppJenLakey/app/src/main/java/com/example/inventoryapp/repository/InventoryRepository.java:179-241 | updating keeps item names unique |
| InventoryRepo.UpsertMetadataValid | artifact-one/enhanced/artifact-one-enhanced/InventoryAppJenLakey/app/src/main/java/com/example/inventoryapp/repository/InventoryRepository.java:212-224 | the metadata upsert keeps the tables valid |
| InventoryRepo.DeletesCompared | artifact-one/enhanced/artifact-one-enhanced/InventoryAppJenLakey/app/src/main/java/com/example/inventoryapp/repository/InventoryRepository.java:251-262 | deleteItemCascade removes only the item row and reports 1 or 0 rows; deleteItemById removes the item and exactly its metadata; other rows stay |
| InventoryRepo.DeletesKeepValid | artifact-one/enhanced/artifact-one-enhanced/InventoryAppJenLakey/app/src/main/java/com/example/inventoryapp/repository/InventoryRepository.java:251-262 | both deletes keep the tables valid |
| InventoryRepo.ClampedQuantity | artifact-one/enhanced/artifact-one-enhanced/InventoryAppJenLakey/app/src/main/java/com/example/inventoryapp/repository/InventoryRepository.java:374-375 | the new quantity is never negative; without overflow it is max(0, current + delta) |
| InventoryRepo.QuantityUpdateEffect | artifact-one/enhanced/artifact-one-enhanced/InventoryAppJenLakey/app/src/main/java/com/example/inventoryapp/repository/InventoryRepository.java:363-401 | for a stored item only its quantity changes, to a value at least 0; an alert is sent iff it becomes 0 |
| InventoryRepo.QuantityUpdateMissing | artifact-one/enhanced/artifact-one-enhanced/InventoryAppJenLakey/app/src/main/java/com/example/inventoryapp/repository/InventoryRepository.java:367-371 | a missing id changes nothing |
| InventoryRepo.UpdateQuantitySetsValue | artifact-one/enhanced/artifact-one-enhanced/InventoryAppJenLakey/app/src/main/java/com/example/inventoryapp/repository/InventoryRepository.java:414-424 | updateQuantity(id, q) on a stored item succeeds and leaves exactly q (0 for negative q), delta = q - current notwithstanding |
| InventoryRepo.QuantityUpdateKeepsValid | artifact-one/enhanced/artifact-one-enhanced/InventoryAppJenLakey/app/src/main/java/com/example/inventoryapp/repository/InventoryRepository.java:363-401 | quantity updates keep the tables valid |
| InventoryRepo.ItemsQueryShape | artifact-one/enhanced/artifact-one-enhanced/InventoryAppJenLakey/app/src/main/java/com/example/inventoryapp/repository/InventoryRepository.java:294-345 | the SQL always starts with the LEFT JOIN select and ends with " ORDER BY " and the sort; "WHERE " and the field's condition sit in between, and the keyword is the one argument, iff a filter is active |
| InventoryRepo.KeysNamedEmpty | artifact-one/enhanced/artifact-one-enhanced/InventoryAppJenLakey/app/src/main/java/com/example/inventoryapp/repository/InventoryRepository.java:129 | the name count is positive iff some row has the name |
| InventoryRepo.InventoryRepository.constructor | artifact-one/enhanced/artifact-one-enhanced/InventoryAppJenLakey/app/src/main/java/com/example/inventoryapp/repository/InventoryRepository.java:57-64 | a repository over valid tables |
| InventoryRepo.InventoryRepository.CountByName | artifact-one/enhanced/artifact-one-enhanced/InventoryAppJenLakey/app/src/main/java/com/example/inventoryapp/repository/InventoryRepository.java:129 | the count is positive iff the name is taken |
| InventoryRepo.InventoryRepository.InsertItemRow | artifact-one/enhanced/artifact-one-enhanced/InventoryAppJenLakey/app/src/main/java/com/example/inventoryapp/repository/InventoryRepository.java:135 | Room insert: the row under the requested key, or the next generated one for 0 |
| InventoryRepo.InventoryRepository.InsertMetadata | artifact-one/enhanced/artifact-one-enhanced/InventoryAppJenLakey/app/src/main/java/com/example/inventoryapp/repository/InventoryRepository.java:151 | metadata insert with REPLACE on conflict |
| InventoryRepo.InventoryRepository.UpdateMetadata | artifact-one/enhanced/artifact-one-enhanced/InventoryAppJenLakey/app/src/main/java/com/example/inventoryapp/repository/InventoryRepository.java:220 | update by primary key, reporting 1 or 0 rows |
| InventoryRepo.InventoryRepository.TriggerZeroStockAlert | artifact-one/enhanced/artifact-one-enhanced/InventoryAppJenLakey/app/src/main/java/com/example/inventoryapp/repository/InventoryRepository.java:77-99 | appends one zero-stock alert and changes nothing else |
| InventoryRepo.InventoryRepository.CheckInsert | artifact-one/enhanced/artifact-one-enhanced/InventoryAppJenLakey/app/src/main/java/com/example/inventoryapp/repository/InventoryRepository.java:116-132 | the checks, in order, report exactly InsertFailure without changing anything |
| InventoryRepo.InventoryRepository.AttachMetadata | artifact-one/enhanced/artifact-one-enhanced/InventoryAppJenLakey/app/src/main/java/com/example/inventoryapp/repository/InventoryRepository.java:138-156 | sets meta.itemId and stores the metadata exactly when it is given, not all blank, and valid |
| InventoryRepo.InventoryRepository.InsertItemWithMetadata | artifact-one/enhanced/artifact-one-enhanced/InventoryAppJenLakey/app/src/main/java/com/example/inventoryapp/repository/InventoryRepository.java:114-166 | result and new tables equal InsertItem; meta.itemId changes only when the metadata is stored |
| InventoryRepo.InventoryRepository.UpdateItemWithMetadata | artifact-one/enhanced/artifact-one-enhanced/InventoryAppJenLakey/app/src/main/java/com/example/inventoryapp/repository/InventoryRepository.java:179-241 | the new tables equal UpdateItem |
| InventoryRepo.InventoryRepository.CheckUpdateFields | artifact-one/enhanced/artifact-one-enhanced/InventoryAppJenLakey/app/src/main/java/com/example/inventoryapp/repository/InventoryRepository.java:182-197 | true exactly when the name and quantity are valid and the category is null, blank or valid, checked in that order |
| InventoryRepo.InventoryRepository.UpsertIfAcceptable | artifact-one/enhanced/artifact-one-enhanced/InventoryAppJenLakey/app/src/main/java/com/example/inventoryapp/repository/InventoryRepository.java:204-227 | metadata that is provided and acceptable is updated by key, or inserted when no row matched; otherwise the tables are unchanged |
| InventoryRepo.InventoryRepository.NameClash | artifact-one/enhanced/artifact-one-enhanced/InventoryAppJenLakey/app/src/main/java/com/example/inventoryapp/repository/InventoryRepository.java:200 | true iff another item holds the name: the case in which the unique item_name index makes updateItem throw, ending the background job |
| InventoryRepo.InventoryRepository.DeleteItemCascade | artifact-one/enhanced/artifact-one-enhanced/InventoryAppJenLakey/app/src/main/java/com/example/inventoryapp/repository/InventoryRepository.java:251-255 | the row count and new tables equal DeleteItemRow |
| InventoryRepo.InventoryRepository.DeleteItemById | artifact-one/enhanced/artifact-one-enhanced/InventoryAppJenLakey/app/src/main/java/com/example/inventoryapp/repository/InventoryRepository.java:256-262 | the new tables equal DeletedById |
| InventoryRepo.InventoryRepository.UpdateItemQuantity | artifact-one/enhanced/artifact-one-enhanced/InventoryAppJenLakey/app/src/main/java/com/example/inventoryapp/repository/InventoryRepository.java:363-401 | the new tables equal QuantityAdjusted |
| InventoryRepo.InventoryRepository.UpdateQuantity | artifact-one/enhanced/artifact-one-enhanced/InventoryAppJenLakey/app/src/main/java/com/example/inventoryapp/repository/InventoryRepository.java:414-424 | throws for a missing id with nothing changed, else the tables equal QuantitySet |
| InventoryRepo.InventoryRepository.GetItems | artifact-one/enhanced/artifact-one-enhanced/InventoryAppJenLakey/app/src/main/java/com/example/inventoryapp/repository/InventoryRepository.java:294-345 | the StringBuilder and argument list build exactly ItemsQuery |
| Documents.GetString | artifact-three/enhanced/CS499-database-enhancement/src/main/java/edu/snhu/jenniferlakey/repository/ContactRepository.java:54-58 | Document.getString: the string under the key, null when missing |
| Documents.GetDate | artifact-three/enhanced/CS499-database-enhancement/src/main/java/edu/snhu/jenniferlakey/repository/AppointmentRepository.java:55 | Document.getDate: the date under the key, null when missing |
| Documents.AppendString | artifact-three/enhanced/CS499-database-enhancement/src/main/java/edu/snhu/jenniferlakey/repository/ContactRepository.java:43-48 | after append, getString reads back the appended value and the other fields are unchanged |
| Documents.AppendIfNonEmpty | artifact-three/enhanced/CS499-database-enhancement/src/main/java/edu/snhu/jenniferlakey/repository/ContactRepository.java:86-97 | a field is appended only when the value is neither null nor empty |
| Documents.SetFields | artifact-three/enhanced/CS499-database-enhancement/src/main/java/edu/snhu/jenniferlakey/repository/ContactRepository.java:103 | `$set` adds or overwrites exactly the given fields |
| Documents.UpdateOne | artifact-three/enhanced/CS499-database-enhancement/src/main/java/edu/snhu/jenniferlakey/repository/ContactRepository.java:103 | updateOne by ID sets the fields of that document only; no match changes nothing |
| Documents.UpdateOneKeyed | artifact-three/enhanced/CS499-database-enhancement/src/main/java/edu/snhu/jenniferlakey/repository/ContactRepository.java:82-103 | an update that leaves the ID field alone keeps every document under its own ID |
| Documents.SetSameFields | artifact-three/enhanced/CS499-database-enhancement/src/main/java/edu/snhu/jenniferlakey/repository/ContactRepository.java:103 | setting fields to the values they hold changes nothing |
| Contacts.ContactViolation | artifact-three/enhanced/CS499-database-enhancement/src/main/java/edu/snhu/jenniferlakey/models/Contact.java:41-55 | the first broken rule, in order: ID null or over 10, first or last name null or over 10, phone null or not exactly 10 (length only), address null or over 30; none iff all hold |
| Contacts.Contact.constructor | artifact-three/enhanced/CS499-database-enhancement/src/main/java/edu/snhu/jenniferlakey/models/Contact.java:57-61 | a valid construction stores all five fields exactly |
| Contacts.Contact.New | artifact-three/enhanced/CS499-database-enhancement/src/main/java/edu/snhu/jenniferlakey/models/Contact.java:40-62 | throws IllegalArgumentException with the first broken rule's message, or returns a new contact holding the fields |
| Contacts.Contact.SetFirstName | artifact-three/enhanced/CS499-database-enhancement/src/main/java/edu/snhu/jenniferlakey/models/Contact.java:75-78 | replaces only the first name, unchecked; the ID is final |
| Contacts.Contact.SetLastName | artifact-three/enhanced/CS499-database-enhancement/src/main/java/edu/snhu/jenniferlakey/models/Contact.java:85-88 | replaces only the last name, unchecked |
| Contacts.Contact.SetPhone | artifact-three/enhanced/CS499-database-enhancement/src/main/java/edu/snhu/jenniferlakey/models/Contact.java:95-98 | replaces only the phone, unchecked |
| Contacts.Contact.SetAddress | artifact-three/enhanced/CS499-database-enhancement/src/main/java/edu/snhu/jenniferlakey/models/Contact.java:105-107 | replaces only the address, unchecked |
| ContactRepo.ToDocumentFields | artifact-three/enhanced/CS499-database-enhancement/src/main/java/edu/snhu/jenniferlakey/repository/ContactRepository.java:42-49 | each of the five fields reads back from its key |
| ContactRepo.DocumentRoundTrip | artifact-three/enhanced/CS499-database-enhancement/src/main/java/edu/snhu/jenniferlakey/repository/ContactRepository.java:42-59 | fromDocument(toDocument(c)) has the same five fields as a valid c |
| ContactRepo.InvalidDocumentRejected | artifact-three/enhanced/CS499-database-enhancement/src/main/java/edu/snhu/jenniferlakey/repository/ContactRepository.java:52-59 | a stored document breaking Contact's rules makes fromDocument throw the constructor's message |
| ContactRepo.FromDocumentId | artifact-three/enhanced/CS499-database-enhancement/src/main/java/edu/snhu/jenniferlakey/repository/ContactRepository.java:52-59 | a contact read back carries the document's ID and satisfies the rules |
| ContactRepo.FoundFields | artifact-three/enhanced/CS499-database-enhancement/src/main/java/edu/snhu/jenniferlakey/repository/ContactRepository.java:75-78 | a contact found by ID is stored under it, with the stored fields |
| ContactRepo.UpdateDocumentFields | artifact-three/enhanced/CS499-database-enhancement/src/main/java/edu/snhu/jenniferlakey/repository/ContactRepository.java:83-97 | the update document holds exactly the non-null, non-empty fields and never the ID |
| ContactRepo.UpdateWritesNonEmpty | artifact-three/enhanced/CS499-database-enhancement/src/main/java/edu/snhu/jenniferlakey/repository/ContactRepository.java:81-104 | update writes only the non-empty fields, keeps the rest and every other document, and is a no-op when none qualify or the ID is absent |
| ContactRepo.UpdatedKeyed | artifact-three/enhanced/CS499-database-enhancement/src/main/java/edu/snhu/jenniferlakey/repository/ContactRepository.java:81-104 | update keeps every document under its own ID |
| ContactRepo.InsertDeleteKeyed | artifact-three/enhanced/CS499-database-enhancement/src/main/java/edu/snhu/jenniferlakey/repository/ContactRepository.java:62-109 | insert and delete keep every document under its own ID |
| ContactRepo.CrudEffects | artifact-three/enhanced/CS499-database-enhancement/src/main/java/edu/snhu/jenniferlakey/repository/ContactRepository.java:62-109 | inserting a stored ID throws "Contact ID already exists" with no change, otherwise adds the document; delete removes only that ID; findById of an absent ID is null |
| ContactRepo.InsertThenFind | artifact-three/enhanced/CS499-database-enhancement/src/main/java/edu/snhu/jenniferlakey/repository/ContactRepository.java:62-78 | a valid contact inserted under a new ID is found with the same fields |
| ContactRepo.ContactRepository.constructor | artifact-three/enhanced/CS499-database-enhancement/src/main/java/edu/snhu/jenniferlakey/repository/ContactRepository.java:26-39 | a repository over a collection keyed by ID |
| ContactRepo.ContactRepository.Insert | artifact-three/enhanced/CS499-database-enhancement/src/main/java/edu/snhu/jenniferlakey/repository/ContactRepository.java:62-72 | throws and keeps the collection exactly when Inserted fails, else stores Inserted's collection |
| ContactRepo.ContactRepository.FindById | artifact-three/enhanced/CS499-database-enhancement/src/main/java/edu/snhu/jenniferlakey/repository/ContactRepository.java:75-78 | returns null, throws or returns a new contact exactly as Found does, with Found's fields |
| ContactRepo.ContactRepository.Update | artifact-three/enhanced/CS499-database-enhancement/src/main/java/edu/snhu/jenniferlakey/repository/ContactRepository.java:81-104 | the new collection equals Updated |
| ContactRepo.ContactRepository.Delete | artifact-three/enhanced/CS499-database-enhancement/src/main/java/edu/snhu/jenniferlakey/repository/ContactRepository.java:107-109 | the new collection equals Deleted |
| ContactServices.DeleteThenGet | artifact-three/enhanced/CS499-database-enhancement/src/main/java/edu/snhu/jenniferlakey/services/ContactService.java:39-45 | deleting a missing contact throws "Contact not found"; after deleting a stored one, getContact returns null and the others stay |
| ContactServices.UpdateReplacesNonEmpty | artifact-three/enhanced/CS499-database-enhancement/src/main/java/edu/snhu/jenniferlakey/services/ContactService.java:55-76 | a missing ID throws; otherwise exactly the non-null, non-empty arguments replace fields, the rest stay, and an all-empty call changes nothing |
| ContactServices.AllKeptUnchanged | artifact-three/enhanced/CS499-database-enhancement/src/main/java/edu/snhu/jenniferlakey/services/ContactService.java:61-75 | writing back the fields just read changes nothing |
| ContactServices.UpdateNotRevalidated | artifact-three/enhanced/CS499-database-enhancement/src/main/java/edu/snhu/jenniferlakey/services/ContactService.java:62-73 | an 11-character first name is accepted by update, after which the lookup throws "Invalid first name" |
| ContactServices.ApplyNonEmpty | artifact-three/enhanced/CS499-database-enhancement/src/main/java/edu/snhu/jenniferlakey/services/ContactService.java:62-73 | the setter calls: one per non-null, non-empty argument |
| ContactServices.ContactService.constructor | artifact-three/enhanced/CS499-database-enhancement/src/main/java/edu/snhu/jenniferlakey/services/ContactService.java:17-19 | a service over a repository on the given collection |
| ContactServices.ContactService.AddNewContact | artifact-three/enhanced/CS499-database-enhancement/src/main/java/edu/snhu/jenniferlakey/services/ContactService.java:30-32 | the repository's insert, so an existing ID throws IllegalArgumentException |
| ContactServices.ContactService.DeleteContact | artifact-three/enhanced/CS499-database-enhancement/src/main/java/edu/snhu/jenniferlakey/services/ContactService.java:39-45 | the result and new collection equal DeleteOutcome |
| ContactServices.ContactService.UpdateContact | artifact-three/enhanced/CS499-database-enhancement/src/main/java/edu/snhu/jenniferlakey/services/ContactService.java:55-76 | the result and new collection equal UpdateOutcome |
| ContactServices.ContactService.GetContact | artifact-three/enhanced/CS499-database-enhancement/src/main/java/edu/snhu/jenniferlakey/services/ContactService.java:81-83 | the repository's findById |
| Tasks.TaskViolation | artifact-three/enhanced/CS499-database-enhancement/src/main/java/edu/snhu/jenniferlakey/models/Task.java:35-43 | the first broken rule: ID null or over 10, name null or over 20, description null or over 50; none iff all hold |
| Tasks.Task.constructor | artifact-three/enhanced/CS499-database-enhancement/src/main/java/edu/snhu/jenniferlakey/models/Task.java:45-47 | a valid construction stores all fields exactly |
| Tasks.Task.New | artifact-three/enhanced/CS499-database-enhancement/src/main/java/edu/snhu/jenniferlakey/models/Task.java:34-48 | throws with the first broken rule's message, or returns a new task holding the fields |
| Tasks.Task.SetName | artifact-three/enhanced/CS499-database-enhancement/src/main/java/edu/snhu/jenniferlakey/models/Task.java:61-64 | replaces only the name, unchecked; the ID is final |
| Tasks.Task.SetDescription | artifact-three/enhanced/CS499-database-enhancement/src/main/java/edu/snhu/jenniferlakey/models/Task.java:71-73 | replaces only the description, unchecked |
| TaskRepo.ToDocumentFields | artifact-three/enhanced/CS499-database-enhancement/src/main/java/edu/snhu/jenniferlakey/repository/TaskRepository.java:42-47 | each field reads back from its key |
| TaskRepo.DocumentRoundTrip | artifact-three/enhanced/CS499-database-enhancement/src/main/java/edu/snhu/jenniferlakey/repository/TaskRepository.java:42-55 | fromDocument(toDocument(t)) has the same ID, name and description as a valid t |
| TaskRepo.InvalidDocumentRejected | artifact-three/enhanced/CS499-database-enhancement/src/main/java/edu/snhu/jenniferlakey/repository/TaskRepository.java:50-55 | a stored document breaking Task's rules makes fromDocument throw |
| TaskRepo.FoundFields | artifact-three/enhanced/CS499-database-enhancement/src/main/java/edu/snhu/jenniferlakey/repository/TaskRepository.java:71-74 | a task found by ID is stored under it, with the stored fields |
| TaskRepo.UpdateDocumentFields | artifact-three/enhanced/CS499-database-enhancement/src/main/java/edu/snhu/jenniferlakey/repository/TaskRepository.java:79-89 | the update document holds exactly the non-null, non-empty fields and never the ID |
| TaskRepo.UpdateWritesNonEmpty | artifact-three/enhanced/CS499-database-enhancement/src/main/java/edu/snhu/jenniferlakey/repository/TaskRepository.java:77-94 | update sets name and description only when non-empty, keeps the rest, and is otherwise a no-op |
| TaskRepo.UpdatedKeyed | artifact-three/enhanced/CS499-database-enhancement/src/main/java/edu/snhu/jenniferlakey/repository/TaskRepository.java:77-94 | update keeps every document under its own ID |
| TaskRepo.InsertDeleteKeyed | artifact-three/enhanced/CS499-database-enhancement/src/main/java/edu/snhu/jenniferlakey/repository/TaskRepository.java:58-99 | insert and delete keep every document under its own ID |
| TaskRepo.CrudEffects | artifact-three/enhanced/CS499-database-enhancement/src/main/java/edu/snhu/jenniferlakey/repository/TaskRepository.java:58-99 | a duplicate taskID throws "Task ID already exists" with no change; delete removes only that ID; findById of an absent ID is null |
| TaskRepo.InsertThenFind | artifact-three/enhanced/CS499-database-enhancement/src/main/java/edu/snhu/jenniferlakey/repository/TaskRepository.java:58-74 | a valid task inserted under a new ID is found with the same fields |
| TaskRepo.TaskRepository.constructor | artifact-three/enhanced/CS499-database-enhancement/src/main/java/edu/snhu/jenniferlakey/repository/TaskRepository.java:26-39 | a repository over a collection keyed by ID |
| TaskRepo.TaskRepository.Insert | artifact-three/enhanced/CS499-database-enhancement/src/main/java/edu/snhu/jenniferlakey/repository/TaskRepository.java:58-69 | throws and keeps the collection exactly when Inserted fails, else stores Inserted's collection |
| TaskRepo.TaskRepository.FindById | artifact-three/enhanced/CS499-database-enhancement/src/main/java/edu/snhu/jenniferlakey/repository/TaskRepository.java:71-74 | returns null, throws or returns a new task exactly as Found does |
| TaskRepo.TaskRepository.Update | artifact-three/enhanced/CS499-database-enhancement/src/main/java/edu/snhu/jenniferlakey/repository/TaskRepository.java:77-94 | the new collection equals Updated |
| TaskRepo.TaskRepository.Delete | artifact-three/enhanced/CS499-database-enhancement/src/main/java/edu/snhu/jenniferlakey/repository/TaskRepository.java:97-99 | the new collection equals Deleted |
| TaskServices.DeleteThenGet | artifact-three/enhanced/CS499-database-enhancement/src/main/java/edu/snhu/jenniferlakey/services/TaskService.java:39-45 | deleting a missing task throws "Task not found"; after deleting a stored one, getTask returns null |
| TaskServices.UpdateReplacesNonEmpty | artifact-three/enhanced/CS499-database-enhancement/src/main/java/edu/snhu/jenniferlakey/services/TaskService.java:55-70 | a missing ID throws; otherwise name and description are replaced only by non-null, non-empty arguments, the other field kept |
| TaskServices.AllKeptUnchanged | artifact-three/enhanced/CS499-database-enhancement/src/main/java/edu/snhu/jenniferlakey/services/TaskService.java:61-69 | writing back the fields just read changes nothing |
| TaskServices.UpdateNotRevalidated | artifact-three/enhanced/CS499-database-enhancement/src/main/java/edu/snhu/jenniferlakey/services/TaskService.java:61-69 | a 21-character name is accepted by update, after which the lookup throws "Invalid task name" |
| TaskServices.TaskService.constructor | artifact-three/enhanced/CS499-database-enhancement/src/main/java/edu/snhu/jenniferlakey/services/TaskService.java:17-19 | a service over a repository on the given collection |
| TaskServices.TaskService.AddNewTask | artifact-three/enhanced/CS499-database-enhancement/src/main/java/edu/snhu/jenniferlakey/services/TaskService.java:30-32 | the repository's insert, so a duplicate ID throws |
| TaskServices.TaskService.DeleteTask | artifact-three/enhanced/CS499-database-enhancement/src/main/java/edu/snhu/jenniferlakey/services/TaskService.java:39-45 | the result and new collection equal DeleteOutcome |
| TaskServices.TaskService.UpdateTask | artifact-three/enhanced/CS499-database-enhancement/src/main/java/edu/snhu/jenniferlakey/services/TaskService.java:55-70 | the result and new collection equal UpdateOutcome |
| TaskServices.TaskService.GetTask | artifact-three/enhanced/CS499-database-enhancement/src/main/java/edu/snhu/jenniferlakey/services/TaskService.java:75-77 | the repository's findById |
| Appointments.AppointmentViolation | artifact-three/enhanced/CS499-database-enhancement/src/main/java/edu/snhu/jenniferlakey/models/Appointment.java:36-44 | the first broken rule: ID null or over 10, date null or strictly before now, description null or over 50; none iff all hold |
| Appointments.NewAppointment | artifact-three/enhanced/CS499-database-enhancement/src/main/java/edu/snhu/jenniferlakey/models/Appointment.java:35-49 | throws with the first broken rule's message, or the appointment holding all three fields |
| Appointments.DateBoundary | artifact-three/enhanced/CS499-database-enhancement/src/main/java/edu/snhu/jenniferlakey/models/Appointment.java:39-41 | a date equal to now is accepted, one millisecond earlier is rejected |
| Appointments.ValidUntilDate | artifact-three/enhanced/CS499-database-enhancement/src/main/java/edu/snhu/jenniferlakey/models/Appointment.java:51-64 | an appointment, which never changes, stays valid exactly until its date passes |
| AppointmentRepo.DocumentRoundTrip | artifact-three/enhanced/CS499-database-enhancement/src/main/java/edu/snhu/jenniferlakey/repository/AppointmentRepository.java:44-57 | fromDocument(toDocument(a)) preserves ID, date and description while the date has not passed |
| AppointmentRepo.UpdateSetsDate | artifact-three/enhanced/CS499-database-enhancement/src/main/java/edu/snhu/jenniferlakey/repository/AppointmentRepository.java:79-95 | update always sets the date, sets the description only when non-empty, and touches no other document |
| AppointmentRepo.UpdatedKeyed | artifact-three/enhanced/CS499-database-enhancement/src/main/java/edu/snhu/jenniferlakey/repository/AppointmentRepository.java:79-95 | update keeps every document under its own ID |
| AppointmentRepo.InsertDeleteKeyed | artifact-three/enhanced/CS499-database-enhancement/src/main/java/edu/snhu/jenniferlakey/repository/AppointmentRepository.java:61-100 | insert and delete keep every document under its own ID |
| AppointmentRepo.CrudEffects | artifact-three/enhanced/CS499-database-enhancement/src/main/java/edu/snhu/jenniferlakey/repository/AppointmentRepository.java:61-100 | a duplicate appointmentID throws with no change; delete removes only that ID; findById of an absent ID is null |
| AppointmentRepo.FoundUntilDatePasses | artifact-three/enhanced/CS499-database-enhancement/src/main/java/edu/snhu/jenniferlakey/repository/AppointmentRepository.java:52-57 | a stored appointment is found until its date passes; after that findById throws "Invalid appointment date" |
| AppointmentRepo.AppointmentRepository.constructor | artifact-three/enhanced/CS499-database-enhancement/src/main/java/edu/snhu/jenniferlakey/repository/AppointmentRepository.java:28-41 | a repository over a collection keyed by ID |
| AppointmentRepo.AppointmentRepository.Insert | artifact-three/enhanced/CS499-database-enhancement/src/main/java/edu/snhu/jenniferlakey/repository/AppointmentRepository.java:61-71 | throws and keeps the collection exactly when Inserted fails, else stores Inserted's collection |
| AppointmentRepo.AppointmentRepository.FindById | artifact-three/enhanced/CS499-database-enhancement/src/main/java/edu/snhu/jenniferlakey/repository/AppointmentRepository.java:73-76 | equals Found at the given time |
| AppointmentRepo.AppointmentRepository.Update | artifact-three/enhanced/CS499-database-enhancement/src/main/java/edu/snhu/jenniferlakey/repository/AppointmentRepository.java:79-95 | the new collection equals Updated |
| AppointmentRepo.AppointmentRepository.Delete | artifact-three/enhanced/CS499-database-enhancement/src/main/java/edu/snhu/jenniferlakey/repository/AppointmentRepository.java:98-100 | the new collection equals Deleted |
| AppointmentServices.DeleteThenGet | artifact-three/enhanced/CS499-database-enhancement/src/main/java/edu/snhu/jenniferlakey/services/AppointmentService.java:39-45 | deleting a missing appointment throws "Appointment not found"; after deleting a stored one, getAppointment returns null at any later time |
| AppointmentServices.PastAppointmentStuck | artifact-three/enhanced/CS499-database-enhancement/src/main/java/edu/snhu/jenniferlakey/services/AppointmentService.java:39-68 | once a stored appointment's date has passed, both delete and update throw "Invalid appointment date" |
| AppointmentServices.UpdateWritesDate | artifact-three/enhanced/CS499-database-enhancement/src/main/java/edu/snhu/jenniferlakey/services/AppointmentService.java:62-68 | a missing ID throws; otherwise the repository's partial update is applied |
| AppointmentServices.AppointmentService.constructor | artifact-three/enhanced/CS499-database-enhancement/src/main/java/edu/snhu/jenniferlakey/services/AppointmentService.java:17-19 | a service over a repository on the given collection |
| AppointmentServices.AppointmentService.AddNewAppointment | artifact-three/enhanced/CS499-database-enhancement/src/main/java/edu/snhu/jenniferlakey/services/AppointmentService.java:30-32 | the repository's insert, so a duplicate ID throws |
| AppointmentServices.AppointmentService.DeleteAppointment | artifact-three/enhanced/CS499-database-enhancement/src/main/java/edu/snhu/jenniferlakey/services/AppointmentService.java:39-45 | the result and new collection equal DeleteOutcome |
| AppointmentServices.AppointmentService.GetAppointment | artifact-three/enhanced/CS499-database-enhancement/src/main/java/edu/snhu/jenniferlakey/services/AppointmentService.java:50-52 | equals the repository's findById |
| AppointmentServices.AppointmentService.UpdateAppointment | artifact-three/enhanced/CS499-database-enhancement/src/main/java/edu/snhu/jenniferlakey/services/AppointmentService.java:62-68 | the result and new collection equal UpdateOutcome |

## Left out

- OpenGL calls are not modelled: glGen*, glBind*, glBufferData, glVertexAttribPointer, glPolygonMode and the rest. A GL object name comes from a counter. A buffer's upload is the vertex and index data it now holds. A draw is the `(primitive, offset, count)` it issues.
- `SetShaderMemoryLayout` is not modelled; `SetWireframeMode` and every draw's `wireframe` parameter are not modelled either, so polygon mode is not part of the model.
- Floating-point geometry is not modelled: positions, normals, texture coordinates and every trigonometric, power, cross-product and normalisation result. `QuadCrossProduct` and `CalculateTriangleNormal` are not modelled. The spiral's rotated frames, the sine cone's second normal pass and the superellipsoid's signed powers are also left out. A vertex is named by the integer sample its position comes from; a name does not always fix the normal, because the cone's side gives the two copies of a shared rim point, both named `Wall(Bottom, i + 1)`, the normals of slices i and i + 1. The box table's positions and normals are kept as integers scaled by 2.
- `MeshManager.ShapeMeshes.DrawSpiralMesh` and `MeshGenerators.SpiralBuffers` take the spiral's ring count as an input (at least 2), because the source computes it by float comparisons.
- `MeshManager.ShapeMeshes.DrawPartialConeMesh` does not model the arc clamp (a float) or the temporary GL names being deleted again; the object's state is left unchanged, as in the source.
- `MeshManager.ShapeMeshes.LoadSpringMesh` does not model the overflow of `mainSegments * tubeSegments` in C++ `int`, because the product is taken as unbounded.
- The uninitialised `curveSteps` and `ibo` members of `GLMesh` are not modelled: the model gives `GLMesh` a declared value of 0 everywhere.
- The commented-out parameterless `DrawHalfSphereMesh()` is not modelled, because it is not compiled.
- Java string lengths are counted in characters of Dafny's `string`, not in UTF-16 code units.
- `Passwords.Hash` takes SHA-256, Base64 and the 16-byte salt from `SecureRandom` as parameters. Its `RuntimeException` path is left out, because it needs a missing SHA-256 provider.
- `Passwords.DigestsEqual` is proved correct but states nothing about timing: constant-time behaviour is not modelled. The XOR accumulator works on 8-bit values; Java's promotion of bytes to `int` does not change whether the result is 0.
- `Passwords.Verify` models a null stored value as false, which is what the `catch` clause makes of the NullPointerException. A raw password of null is not modelled.
- The Android UI, `InventoryViewModel` and LiveData are not modelled. The notification and SMS senders, and the SharedPreferences and user lookup in `triggerZeroStockAlert`, are not modelled either: an alert is recorded as a `ZeroStock(itemId, itemName)` event.
- The executor is not modelled: each task body is a synchronous call.
- The Room DAOs are not part of this model; their effects are written as map updates. Insert aborts on a key clash, an id of 0 means "generate", metadata insert replaces, and update matches on the primary key.
- Foreign keys and their cascades are not modelled, so `deleteItemCascade` removes only the item row, as its own code does.
- Room's `long` row id is taken as an `int` without the narrowing cast, because generated keys stay small.
- `InventoryRepo.ItemsQueryShape` states the structure of the SQL and its arguments. It does not state the text of each condition. `FilterClause` holds that text, including the `IS NULL` alternatives that keep items without metadata in the result of the DESCRIPTION and LOCATION filters.
- The SQL query is only built as text with its arguments, not run.
- `getItemWithMetadata` and `getItemByIdSync` pass straight through to a DAO lookup and are not modelled as operations. The model reads the item map directly where the source calls `getItemByIdSync`.
- `InventoryRepo.InventoryRepository.UpdateItemQuantity` keeps the source's check on the resulting quantity, but that check can never fire, because the clamp already ensures a value of at least 0.
- The MongoDB client, the `MongoConnection` singleton and `App.java` are not part of this model. The index drop and unique-index creation in the repository constructors are not modelled; the unique index is the collection being a map keyed by ID. A `MongoWriteException` other than a duplicate key is rethrown by the source and is not modelled.
- A document field holding null is treated like a missing one. `getString` on a stored value that is not a string would throw `ClassCastException`; the model reads it as null instead.
- Lookups, updates and deletes by a null ID are not modelled: IDs are non-null strings.
- The `updateFields.isEmpty()` branch of the appointment update is not modelled as a separate case. Any `Appointment` object has a non-null date, so that branch can never be taken.
- The test files are not modelled; their assertions appear as the lemmas above.
