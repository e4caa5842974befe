/**
 * What ShapeMeshes' draw routines send to the GPU.  A GLMesh is the
 * per-shape record of GL object names and counts, together with the vertex
 * and index data last uploaded into its buffers; a draw routine reads one
 * mesh and issues a list of draw calls, each a primitive mode, an offset and
 * a count.  The lemmas say which part of a loaded mesh each routine sends.
 */
module MeshDraws {
  import opened MeshTopology
  import opened MeshTables

  /**
   * A GLMesh.  `vao`, `vbo`, `vbo0` (the first of the two `vbos`) and `ebo`
   * are GL object names, 0 meaning none; `vertexData` and `indexData` are
   * the contents of the vertex buffer and of the element buffer the VAO
   * records; `layoutSet` says the VAO's vertex attribute layout
   * (position, normal, texture coordinate) has been configured.
   */
  datatype GLMesh = GLMesh(vao: nat, vbo: nat, vbo0: nat, ebo: nat,
                           nVertices: nat, nIndices: nat, numSlices: int, curveSteps: int,
                           vertexData: seq<Vertex>, indexData: seq<int>, layoutSet: bool)

  /** A mesh as declared: every name and count 0, nothing uploaded. */
  const Unloaded: GLMesh := GLMesh(0, 0, 0, 0, 0, 0, 0, 0, [], [], false)

  /** Floats per vertex row: position (3), normal (3), texture coordinate (2). */
  const FloatsPerRow: nat := 3 + 3 + 2

  datatype Primitive = Triangles | TriangleStrip

  /**
   * `Elements` is glDrawElements: `count` indices of the element buffer
   * from position `offset`.  `Arrays` is glDrawArrays: the `count`
   * consecutive vertices from vertex `offset`.
   */
  datatype DrawCall =
    | Elements(mode: Primitive, offset: int, count: int)
    | Arrays(mode: Primitive, offset: int, count: int)

  /** The call reads only data the mesh holds. */
  predicate Fits(m: GLMesh, c: DrawCall)
  {
    0 <= c.offset && 0 <= c.count &&
    c.offset + c.count <= (if c.Elements? then |m.indexData| else |m.vertexData|)
  }

  predicate AllFit(m: GLMesh, calls: seq<DrawCall>)
  {
    forall i :: 0 <= i < |calls| ==> Fits(m, calls[i])
  }

  /** The vertex numbers one call sends down the pipeline, in order. */
  function Sent(m: GLMesh, c: DrawCall): (s: seq<int>)
    requires Fits(m, c)
    ensures |s| == c.count
  {
    if c.Elements? then m.indexData[c.offset .. c.offset + c.count]
    else seq(c.count, (i: int) => c.offset + i)
  }

  function SentAll(m: GLMesh, calls: seq<DrawCall>): seq<int>
    requires AllFit(m, calls)
  {
    if calls == [] then [] else Sent(m, calls[0]) + SentAll(m, calls[1..])
  }

  /** Every call of the list has count 0. */
  predicate DrawsNothing(calls: seq<DrawCall>)
  {
    forall i :: 0 <= i < |calls| ==> calls[i].count == 0
  }

  /**
   * The mesh has a VAO and holds `vs` and `idx` with their counts: what
   * InitializeMesh leaves behind.  With no indices the new VAO records no
   * element buffer, so its element data is empty.
   */
  predicate Holds(m: GLMesh, vs: seq<Vertex>, idx: seq<int>)
  {
    m.vao != 0 && m.vertexData == vs && m.nVertices == |vs| && m.nIndices == |idx| && m.indexData == idx
  }

  // ---------------------------------------------------------------------
  // The draw routines.  Routines with the same body share one function.
  // ---------------------------------------------------------------------

  /** DrawBoxMesh, DrawTorusMesh, DrawTubeMesh: skipped without a VAO or without indices. */
  function DrawGuarded(m: GLMesh): seq<DrawCall>
  {
    if m.vao == 0 || m.nIndices == 0 then [] else [Elements(Triangles, 0, m.nIndices)]
  }

  /** DrawSphereMesh, DrawHemisphereMesh, DrawFinMesh, DrawCurvedConeMesh: unguarded. */
  function DrawIndexed(m: GLMesh): seq<DrawCall>
  {
    [Elements(Triangles, 0, m.nIndices)]
  }

  /** DrawHalfSphereMesh and DrawHalfTorusMesh: the first half of the index list. */
  function DrawHalf(m: GLMesh): seq<DrawCall>
  {
    if m.vao == 0 || m.nIndices == 0 then [] else [Elements(Triangles, 0, m.nIndices / 2)]
  }

  /** DrawSpringMesh: guarded on the vertex count, draws the index list. */
  function DrawSpringMesh(m: GLMesh): seq<DrawCall>
  {
    if m.vao == 0 || m.nVertices == 0 then [] else [Elements(Triangles, 0, m.nIndices)]
  }

  /** The box sides as BoxSide declares them. */
  datatype BoxSide = BackSide | BottomSide | LeftSide | RightSide | TopSide | FrontSide

  /** The block of six indices DrawBoxMeshSide selects for a side. */
  function SideBlock(side: BoxSide): nat
  {
    match side
    case FrontSide => 0
    case BackSide => 1
    case LeftSide => 2
    case RightSide => 3
    case TopSide => 4
    case BottomSide => 5
  }

  function DrawBoxMeshSide(m: GLMesh, side: BoxSide): seq<DrawCall>
  {
    if m.vao == 0 || m.nIndices == 0 then [] else [Elements(Triangles, 6 * SideBlock(side), 6)]
  }

  /** The call when the flag asks for it, else nothing. */
  function Optional(flag: bool, c: DrawCall): seq<DrawCall>
  {
    if flag then [c] else []
  }

  /** DrawConeMesh: skipped without a VAO; the bottom fan on request, then always the sides. */
  function DrawConeMesh(m: GLMesh, bDrawBottom: bool): seq<DrawCall>
  {
    var n := m.numSlices;
    if m.vao == 0 then []
    else Optional(bDrawBottom, Elements(Triangles, 0, 3 * n)) + [Elements(Triangles, 3 * n, 3 * n)]
  }

  /** DrawCylinderMesh and DrawTaperedCylinderMesh: bottom, top and sides, each on request. */
  function DrawCappedMesh(m: GLMesh, bDrawTop: bool, bDrawBottom: bool, bDrawSides: bool): seq<DrawCall>
  {
    var n := m.numSlices;
    Optional(bDrawBottom, Elements(Triangles, 0, 3 * n)) +
    Optional(bDrawTop, Elements(Triangles, 3 * n, 3 * n)) +
    Optional(bDrawSides, Elements(Triangles, 6 * n, 6 * n))
  }

  /** DrawPlaneMesh: the index list read as a triangle strip. */
  function DrawPlaneMesh(m: GLMesh): seq<DrawCall>
  {
    [Elements(TriangleStrip, 0, m.nIndices)]
  }

  /** DrawPrismMesh: the vertices read as a strip, unguarded. */
  function DrawPrismMesh(m: GLMesh): seq<DrawCall>
  {
    [Arrays(TriangleStrip, 0, m.nVertices)]
  }

  /** DrawPyramid3Mesh and DrawPyramid4Mesh: the vertices read as a strip, skipped when there are none. */
  function DrawPyramidMesh(m: GLMesh): seq<DrawCall>
  {
    if m.nVertices == 0 then [] else [Arrays(TriangleStrip, 0, m.nVertices)]
  }

  /** DrawExtraTorusMesh1 and DrawExtraTorusMesh2: the vertices read as a triangle list. */
  function DrawArraysAll(m: GLMesh): seq<DrawCall>
  {
    [Arrays(Triangles, 0, m.nVertices)]
  }

  /** The fin's partial draws do not look at the mesh's counts. */
  const FinSidesDraw: seq<DrawCall> := [Elements(Triangles, 0, 6), Elements(Triangles, 6, 6)]
  const FinFrontOnlyDraw: seq<DrawCall> := [Elements(Triangles, 0, 6)]
  const FinBackOnlyDraw: seq<DrawCall> := [Elements(Triangles, 6, 6)]
  const FinUntexturedSidesDraw: seq<DrawCall> := [Elements(Triangles, 12, 24)]

  // ---------------------------------------------------------------------
  // Sending, call by call.
  // ---------------------------------------------------------------------

  lemma SentOne(m: GLMesh, c: DrawCall)
    requires Fits(m, c)
    ensures AllFit(m, [c]) && SentAll(m, [c]) == Sent(m, c)
  {
    assert [c][1..] == [];
  }

  lemma SentAppend(m: GLMesh, a: seq<DrawCall>, b: seq<DrawCall>)
    requires AllFit(m, a) && AllFit(m, b)
    ensures AllFit(m, a + b) && SentAll(m, a + b) == SentAll(m, a) + SentAll(m, b)
  {
    assert AllFit(m, a + b) by {
      forall i | 0 <= i < |a + b|
        ensures Fits(m, (a + b)[i])
      {
        if i >= |a| {
          assert (a + b)[i] == b[i - |a|];
        }
      }
    }
    if a != [] {
      assert (a + b)[1..] == a[1..] + b;
      SentAppend(m, a[1..], b);
    } else {
      assert a + b == b;
    }
  }

  /** The element range [offset, offset + count) of a mesh whose index data is x + y + ... */
  lemma SentSlice(m: GLMesh, offset: nat, part: seq<int>)
    requires offset + |part| <= |m.indexData| && m.indexData[offset .. offset + |part|] == part
    ensures Fits(m, Elements(Triangles, offset, |part|)) && Sent(m, Elements(Triangles, offset, |part|)) == part
  {
  }

  /** An optional call over the range of `part` sends `part` when asked for, else nothing. */
  lemma OptionalSent(m: GLMesh, flag: bool, offset: nat, part: seq<int>)
    requires offset + |part| <= |m.indexData| && m.indexData[offset .. offset + |part|] == part
    ensures AllFit(m, Optional(flag, Elements(Triangles, offset, |part|)))
    ensures SentAll(m, Optional(flag, Elements(Triangles, offset, |part|))) == if flag then part else []
  {
    if flag {
      SentOne(m, Elements(Triangles, offset, |part|));
    }
  }

  /** A draw of the whole uploaded index list sends exactly that list. */
  lemma UploadedDraw(m: GLMesh, idx: seq<int>)
    requires m.indexData == idx
    ensures AllFit(m, [Elements(Triangles, 0, |idx|)]) && SentAll(m, [Elements(Triangles, 0, |idx|)]) == idx
  {
    assert m.indexData[0 .. |idx|] == idx;
    SentOne(m, Elements(Triangles, 0, |idx|));
  }

  /** A fresh mesh draws nothing, guarded or not. */
  lemma UnloadedDrawsNothing(side: BoxSide, bDrawBottom: bool, bDrawTop: bool, bDrawSides: bool)
    ensures DrawGuarded(Unloaded) == [] && DrawHalf(Unloaded) == [] && DrawSpringMesh(Unloaded) == []
    ensures DrawBoxMeshSide(Unloaded, side) == [] && DrawConeMesh(Unloaded, bDrawBottom) == []
    ensures DrawPyramidMesh(Unloaded) == []
    ensures DrawsNothing(DrawIndexed(Unloaded)) && DrawsNothing(DrawPlaneMesh(Unloaded))
    ensures DrawsNothing(DrawPrismMesh(Unloaded)) && DrawsNothing(DrawArraysAll(Unloaded))
    ensures DrawsNothing(DrawCappedMesh(Unloaded, bDrawTop, bDrawBottom, bDrawSides))
  {
  }

  // ---------------------------------------------------------------------
  // Loaded meshes.
  // ---------------------------------------------------------------------

  /** An indexed mesh drawn whole sends exactly its index list, every index addressing one of its vertices. */
  lemma WholeDraw(m: GLMesh, vs: seq<Vertex>, idx: seq<int>)
    requires Holds(m, vs, idx) && idx != [] && InBounds(idx, |vs|)
    ensures DrawGuarded(m) == DrawIndexed(m) && AllFit(m, DrawIndexed(m))
    ensures SentAll(m, DrawIndexed(m)) == idx && InBounds(SentAll(m, DrawIndexed(m)), |m.vertexData|)
  {
    assert m.indexData[0 .. |idx|] == idx;
    SentOne(m, Elements(Triangles, 0, |idx|));
  }

  /** The box draws its 36 indices, every one addressing one of its 24 vertices. */
  lemma BoxDraws(m: GLMesh)
    requires Holds(m, TableVertices(BoxVertexCount), BoxIndices())
    ensures AllFit(m, DrawGuarded(m)) && SentAll(m, DrawGuarded(m)) == BoxIndices()
    ensures InBounds(SentAll(m, DrawGuarded(m)), |m.vertexData|)
  {
    BoxFaceIndices(0);
    BoxInBounds();
    WholeDraw(m, TableVertices(BoxVertexCount), BoxIndices());
  }

  /**
   * The side drawn as `side` is block SideBlock(side) of the table: face
   * k's own two triangles over its vertices 4k .. 4k+3.
   */
  lemma BoxSideDraws(m: GLMesh, side: BoxSide)
    requires Holds(m, TableVertices(BoxVertexCount), BoxIndices())
    ensures |DrawBoxMeshSide(m, side)| == 1 && AllFit(m, DrawBoxMeshSide(m, side))
    ensures SentAll(m, DrawBoxMeshSide(m, side)) == BoxFace(SideBlock(side))
  {
    var k := SideBlock(side);
    BoxFaceIndices(k);
    var c := Elements(Triangles, 6 * k, 6);
    assert m.indexData[6 * k .. 6 * k + 6] == BoxFace(k);
    SentOne(m, c);
  }

  /** The face names of the box table's six blocks, in table order. */
  datatype BoxFaceName = BackFace | BottomFace | LeftFace | RightFace | TopFace | FrontFace

  const BoxFaceOrder: seq<BoxFaceName> := [BackFace, BottomFace, LeftFace, RightFace, TopFace, FrontFace]

  function SideName(side: BoxSide): BoxFaceName
  {
    match side
    case BackSide => BackFace
    case BottomSide => BottomFace
    case LeftSide => LeftFace
    case RightSide => RightFace
    case TopSide => TopFace
    case FrontSide => FrontFace
  }

  /**
   * DrawBoxMeshSide draws the table face of the side's own name only for
   * left, right and top; front draws the back face, back the bottom face
   * and bottom the front face.
   */
  lemma BoxSideNames(side: BoxSide)
    ensures SideBlock(side) < |BoxFaceOrder|
    ensures BoxFaceOrder[SideBlock(side)] == SideName(side) <==> side in {LeftSide, RightSide, TopSide}
    ensures side == FrontSide ==> BoxFaceOrder[SideBlock(side)] == BackFace
    ensures side == BackSide ==> BoxFaceOrder[SideBlock(side)] == BottomFace
    ensures side == BottomSide ==> BoxFaceOrder[SideBlock(side)] == FrontFace
  {
  }

  /**
   * A loaded cone (n slices) draws its bottom fan [0, 3n) when asked and
   * always its sides [3n, 6n); all indices address its vertices.
   */
  lemma ConeDraws(m: GLMesh, n: nat, bDrawBottom: bool)
    requires n >= 3 && m.numSlices == n && Holds(m, ConeVertices(n), ConeIndices(n))
    ensures AllFit(m, DrawConeMesh(m, bDrawBottom))
    ensures SentAll(m, DrawConeMesh(m, bDrawBottom)) == (if bDrawBottom then ConeBottom(n) else []) + ConeSides(n)
    ensures InBounds(SentAll(m, DrawConeMesh(m, bDrawBottom)), |m.vertexData|)
  {
    ConeStructure(n);
    var bottom, sides := ConeBottom(n), ConeSides(n);
    assert m.indexData == bottom + sides;
    assert m.indexData[0 .. 3 * n] == bottom;
    assert m.indexData[3 * n .. 6 * n] == sides;
    var cs := Elements(Triangles, 3 * n, 3 * n);
    OptionalSent(m, bDrawBottom, 0, bottom);
    SentOne(m, cs);
    SentAppend(m, Optional(bDrawBottom, Elements(Triangles, 0, 3 * n)), [cs]);
    InBoundsAppend(bottom, sides, |m.vertexData|);
    assert InBounds(sides, |m.vertexData|) by {
      forall j | 0 <= j < |sides|
        ensures 0 <= sides[j] < |m.vertexData|
      {
        assert sides[j] == m.indexData[3 * n + j];
      }
    }
  }

  /** The three ranges of a capped shape's index list, drawn on request. */
  lemma CappedRanges(m: GLMesh, bottom: seq<int>, top: seq<int>, sides: seq<int>,
                     bDrawTop: bool, bDrawBottom: bool, bDrawSides: bool)
    requires m.numSlices >= 0
    requires |bottom| == 3 * m.numSlices && |top| == 3 * m.numSlices && |sides| == 6 * m.numSlices
    requires m.indexData == bottom + top + sides
    ensures AllFit(m, DrawCappedMesh(m, bDrawTop, bDrawBottom, bDrawSides))
    ensures SentAll(m, DrawCappedMesh(m, bDrawTop, bDrawBottom, bDrawSides)) ==
      (if bDrawBottom then bottom else []) + (if bDrawTop then top else []) + (if bDrawSides then sides else [])
  {
    var n := m.numSlices;
    assert m.indexData[0 .. 3 * n] == bottom;
    assert m.indexData[3 * n .. 6 * n] == top;
    assert m.indexData[6 * n .. 12 * n] == sides;
    var b := Optional(bDrawBottom, Elements(Triangles, 0, 3 * n));
    var t := Optional(bDrawTop, Elements(Triangles, 3 * n, 3 * n));
    var s := Optional(bDrawSides, Elements(Triangles, 6 * n, 6 * n));
    OptionalSent(m, bDrawBottom, 0, bottom);
    OptionalSent(m, bDrawTop, 3 * n, top);
    OptionalSent(m, bDrawSides, 6 * n, sides);
    SentAppend(m, b, t);
    SentAppend(m, b + t, s);
  }

  /** Every index of a sub-range of an in-bounds list is in bounds. */
  lemma RangesInBounds(bottom: seq<int>, top: seq<int>, sides: seq<int>, n: int,
                       bDrawTop: bool, bDrawBottom: bool, bDrawSides: bool)
    requires InBounds(bottom + top + sides, n)
    ensures InBounds((if bDrawBottom then bottom else []) + (if bDrawTop then top else []) + (if bDrawSides then sides else []), n)
  {
    var all := bottom + top + sides;
    assert InBounds(bottom, n) by {
      forall j | 0 <= j < |bottom| ensures 0 <= bottom[j] < n { assert bottom[j] == all[j]; }
    }
    assert InBounds(top, n) by {
      forall j | 0 <= j < |top| ensures 0 <= top[j] < n { assert top[j] == all[|bottom| + j]; }
    }
    assert InBounds(sides, n) by {
      forall j | 0 <= j < |sides| ensures 0 <= sides[j] < n { assert sides[j] == all[|bottom| + |top| + j]; }
    }
    var b: seq<int> := if bDrawBottom then bottom else [];
    var t: seq<int> := if bDrawTop then top else [];
    var s: seq<int> := if bDrawSides then sides else [];
    InBoundsAppend(b, t, n);
    InBoundsAppend(b + t, s, n);
  }

  /**
   * A loaded cylinder (n slices) draws, each on request, its bottom fan
   * [0, 3n), its top fan [3n, 6n) and its sides [6n, 12n); all indices
   * address its vertices.
   */
  lemma CylinderDraws(m: GLMesh, n: nat, bDrawTop: bool, bDrawBottom: bool, bDrawSides: bool)
    requires n >= 3 && m.numSlices == n && Holds(m, CylinderVertices(n), CylinderIndices(n))
    ensures AllFit(m, DrawCappedMesh(m, bDrawTop, bDrawBottom, bDrawSides))
    ensures SentAll(m, DrawCappedMesh(m, bDrawTop, bDrawBottom, bDrawSides)) ==
      (if bDrawBottom then CylinderBottom(n) else []) + (if bDrawTop then CylinderTop(n) else []) +
      (if bDrawSides then CylinderSides(n) else [])
    ensures InBounds(SentAll(m, DrawCappedMesh(m, bDrawTop, bDrawBottom, bDrawSides)), |m.vertexData|)
  {
    CylinderStructure(n);
    CappedRanges(m, CylinderBottom(n), CylinderTop(n), CylinderSides(n), bDrawTop, bDrawBottom, bDrawSides);
    RangesInBounds(CylinderBottom(n), CylinderTop(n), CylinderSides(n), |m.vertexData|, bDrawTop, bDrawBottom, bDrawSides);
  }

  /** The same for the tapered cylinder, whose ranges are laid out alike. */
  lemma TaperedCylinderDraws(m: GLMesh, n: nat, bDrawTop: bool, bDrawBottom: bool, bDrawSides: bool)
    requires n >= 3 && m.numSlices == n && Holds(m, TaperedCylinderVertices(n), TaperedCylinderIndices(n))
    ensures AllFit(m, DrawCappedMesh(m, bDrawTop, bDrawBottom, bDrawSides))
    ensures SentAll(m, DrawCappedMesh(m, bDrawTop, bDrawBottom, bDrawSides)) ==
      (if bDrawBottom then TaperedCylinderBottom(n) else []) + (if bDrawTop then TaperedCylinderTop(n) else []) +
      (if bDrawSides then TaperedCylinderSides(n) else [])
    ensures InBounds(SentAll(m, DrawCappedMesh(m, bDrawTop, bDrawBottom, bDrawSides)), |m.vertexData|)
  {
    TaperedCylinderStructure(n);
    CappedRanges(m, TaperedCylinderBottom(n), TaperedCylinderTop(n), TaperedCylinderSides(n), bDrawTop, bDrawBottom, bDrawSides);
    RangesInBounds(TaperedCylinderBottom(n), TaperedCylinderTop(n), TaperedCylinderSides(n), |m.vertexData|,
                   bDrawTop, bDrawBottom, bDrawSides);
  }

  /**
   * A loaded grid shape of at least one cell, drawn whole (guarded or not),
   * sends its whole index list, every index addressing one of its samples.
   */
  lemma GridDraws(m: GLMesh, mainSegments: int, crossSegments: int, w: Winding)
    requires mainSegments > 0 && crossSegments > 0
    requires Holds(m, GridShapeVertices(mainSegments, crossSegments), GridShapeIndices(mainSegments, crossSegments, w))
    ensures DrawGuarded(m) == DrawIndexed(m) == DrawSpringMesh(m) && AllFit(m, DrawIndexed(m))
    ensures SentAll(m, DrawIndexed(m)) == GridShapeIndices(mainSegments, crossSegments, w)
    ensures InBounds(SentAll(m, DrawIndexed(m)), |m.vertexData|)
  {
    GridShapeStructure(mainSegments, crossSegments, w);
    MulMono(1, mainSegments, crossSegments * 6);
    WholeDraw(m, GridShapeVertices(mainSegments, crossSegments), GridShapeIndices(mainSegments, crossSegments, w));
    MulMono(1, mainSegments + 1, crossSegments + 1);
  }

  /**
   * The half draw of a grid shape with an even number of rows 2h sends
   * exactly the index list of its first h rows.
   */
  lemma HalfGridDraws(m: GLMesh, h: nat, crossSegments: int, w: Winding)
    requires h > 0 && crossSegments > 0
    requires Holds(m, GridShapeVertices(2 * h, crossSegments), GridShapeIndices(2 * h, crossSegments, w))
    ensures AllFit(m, DrawHalf(m))
    ensures SentAll(m, DrawHalf(m)) == GridShapeIndices(h, crossSegments, w)
    ensures InBounds(SentAll(m, DrawHalf(m)), |m.vertexData|)
  {
    var half := GridShapeIndices(h, crossSegments, w);
    HalfRows(h, crossSegments, w);
    assert m.nIndices / 2 == |half|;
    assert m.indexData[0 .. |half|] == half;
    SentOne(m, Elements(Triangles, 0, |half|));
    PrefixInBounds(half, m.indexData, |m.vertexData|);
  }

  /** The first h rows of a 2h-row grid are the first half of its index list, and all its indices are in bounds. */
  lemma HalfRows(h: nat, crossSegments: int, w: Winding)
    requires h > 0 && crossSegments > 0
    ensures |GridShapeIndices(2 * h, crossSegments, w)| == 2 * |GridShapeIndices(h, crossSegments, w)| > 0
    ensures GridShapeIndices(h, crossSegments, w) <= GridShapeIndices(2 * h, crossSegments, w)
    ensures InBounds(GridShapeIndices(2 * h, crossSegments, w), |GridShapeVertices(2 * h, crossSegments)|)
  {
    var c: nat := crossSegments;
    SamplesLength(2 * h + 1, c + 1, GridLabel());
    GridInBounds(2 * h, c, w);
    GridIndicesLength(2 * h, c, c + 1, w);
    GridIndicesLength(h, c, c + 1, w);
    GridRowsPrefix(h, 2 * h, c, crossSegments + 1, w);
    assert 2 * h * (c * 6) == 2 * (h * (c * 6));
    MulMono(1, h, c * 6);
  }

  lemma PrefixInBounds(a: seq<int>, b: seq<int>, n: int)
    requires a <= b && InBounds(b, n)
    ensures InBounds(a, n)
  {
    forall j | 0 <= j < |a| ensures 0 <= a[j] < n { assert a[j] == b[j]; }
  }

  /** The plane's six indices, read as a strip, make four triangles: the first twice over, a degenerate one, the second. */
  lemma PlaneDraws(m: GLMesh)
    requires Holds(m, TableVertices(PlaneVertexCount), PlaneIndices)
    ensures AllFit(m, DrawPlaneMesh(m)) && SentAll(m, DrawPlaneMesh(m)) == PlaneIndices
    ensures DrawPlaneMesh(m)[0].mode == TriangleStrip
    ensures StripTriangles(SentAll(m, DrawPlaneMesh(m))) == [[0, 1, 2], [1, 2, 0], [2, 0, 2], [0, 2, 3]]
  {
    PlaneAsStrip();
    assert m.indexData[0 .. 6] == PlaneIndices;
    SentOne(m, Elements(TriangleStrip, 0, 6));
  }

  /**
   * A mesh drawn with glDrawArrays over its `k` vertices sends the vertex
   * numbers 0 .. k-1; its element buffer, if any, is not read.
   */
  lemma ArraysDraw(m: GLMesh, k: nat, mode: Primitive)
    requires m.nVertices == k && |m.vertexData| == k
    ensures AllFit(m, [Arrays(mode, 0, k)])
    ensures SentAll(m, [Arrays(mode, 0, k)]) == seq(k, (i: int) => i)
    ensures !Arrays(mode, 0, k).Elements?
  {
    SentOne(m, Arrays(mode, 0, k));
  }

  /** The prism's 32 vertices drawn as a strip make 30 triangles; its three uploaded indices are never drawn. */
  lemma PrismDraws(m: GLMesh)
    requires Holds(m, TableVertices(PrismVertexCount), PrismIndices)
    ensures DrawPrismMesh(m) == [Arrays(TriangleStrip, 0, 32)] && AllFit(m, DrawPrismMesh(m))
    ensures |StripTriangles(SentAll(m, DrawPrismMesh(m)))| == 30
    ensures forall i :: 0 <= i < |DrawPrismMesh(m)| ==> !DrawPrismMesh(m)[i].Elements?
  {
    ArraysDraw(m, 32, TriangleStrip);
  }

  /** The pyramids' vertices drawn as strips: 10 triangles for the three-sided one, 16 for the four-sided one. */
  lemma PyramidDraws(m: GLMesh, k: nat)
    requires k == Pyramid3VertexCount || k == Pyramid4VertexCount
    requires Holds(m, TableVertices(k), [])
    ensures DrawPyramidMesh(m) == [Arrays(TriangleStrip, 0, k)] && AllFit(m, DrawPyramidMesh(m))
    ensures |StripTriangles(SentAll(m, DrawPyramidMesh(m)))| == k - 2
  {
    ArraysDraw(m, k, TriangleStrip);
  }

  /**
   * An extra torus draws its 6300 vertices as 2100 separate triangles, every
   * vertex a sample of its 30 x 30 grid.
   */
  lemma ExtraTorusDraws(m: GLMesh)
    requires Holds(m, ExtraTorusVertices(ExtraTorusSegments, ExtraTorusSegments), [])
    ensures m.nVertices == 6300 && DrawArraysAll(m) == [Arrays(Triangles, 0, 6300)] && AllFit(m, DrawArraysAll(m))
    ensures |ListTriangles(SentAll(m, DrawArraysAll(m)))| == 2100
    ensures forall v :: v in m.vertexData ==> v.GridPoint? && 0 <= v.row < 30 && 0 <= v.col < 30
  {
    ExtraTorusArrays(m, ExtraTorusSegments, ExtraTorusSegments);
  }

  /** An extra torus over an a x b grid drawn as separate triangles over its 7ab vertices. */
  lemma ExtraTorusArrays(m: GLMesh, a: nat, b: nat)
    requires Holds(m, ExtraTorusVertices(a, b), [])
    ensures m.nVertices == 7 * a * b && DrawArraysAll(m) == [Arrays(Triangles, 0, 7 * a * b)] && AllFit(m, DrawArraysAll(m))
    ensures |ListTriangles(SentAll(m, DrawArraysAll(m)))| == 7 * a * b / 3
    ensures forall v :: v in m.vertexData ==> v.GridPoint? && 0 <= v.row < a && 0 <= v.col < b
  {
    ExtraTorusStructure(a, b);
    ArraysDraw(m, 7 * a * b, Triangles);
  }

  /**
   * The fin draws all 36 indices; its "sides" are the front and back
   * blocks [0, 12), which use only vertices 0 .. 7, and its untextured
   * sides the other four [12, 36), which use only vertices 8 .. 23.
   */
  lemma FinDraws(m: GLMesh)
    requires m.vao != 0 && m.indexData == FinIndices() && m.nIndices == 36
    ensures AllFit(m, DrawIndexed(m)) && SentAll(m, DrawIndexed(m)) == FinIndices()
    ensures AllFit(m, FinSidesDraw) && SentAll(m, FinSidesDraw) == FinIndices()[0 .. 12]
    ensures AllFit(m, FinFrontOnlyDraw) && SentAll(m, FinFrontOnlyDraw) == FinIndices()[0 .. 6]
    ensures AllFit(m, FinBackOnlyDraw) && SentAll(m, FinBackOnlyDraw) == FinIndices()[6 .. 12]
    ensures AllFit(m, FinUntexturedSidesDraw) && SentAll(m, FinUntexturedSidesDraw) == FinIndices()[12 .. 36]
    ensures forall i :: 0 <= i < 12 ==> 0 <= FinIndices()[i] < 8
    ensures forall i :: 12 <= i < 36 ==> 8 <= FinIndices()[i] < 24
  {
    FinFaceIndices(0);
    FinFaceIndices(1);
    FinFaceIndices(2);
    FinFaceIndices(3);
    FinFaceIndices(4);
    FinFaceIndices(5);
    var f, b := Elements(Triangles, 0, 6), Elements(Triangles, 6, 6);
    assert m.indexData[0 .. 36] == FinIndices();
    SentOne(m, Elements(Triangles, 0, 36));
    SentOne(m, f);
    SentOne(m, b);
    SentOne(m, Elements(Triangles, 12, 24));
    SentAppend(m, [f], [b]);
    assert FinSidesDraw == [f] + [b];
    assert FinIndices()[0 .. 6] + FinIndices()[6 .. 12] == FinIndices()[0 .. 12];
  }
}
