/**
 * The ShapeMeshes object: one GLMesh per shape, the "already warned" flags
 * of the deprecated line-drawing wrappers, and the memory-layout flag.  GL
 * object names come from a counter standing for glGenVertexArrays and
 * glGenBuffers, which hand out names never handed out before.
 */
module MeshManager {
  import opened MeshTopology
  import opened MeshTables
  import opened MeshGenerators
  import opened MeshDraws

  /** The header's default segment counts. */
  const DefaultConeSlices: int := 18
  const DefaultCylinderSlices: int := 36
  const DefaultSphereSegments: int := 18
  const DefaultTaperedCylinderSlices: int := 18
  const DefaultTorusSegments: int := 18
  const DefaultSpringMainSegments: int := 6
  const DefaultSpringTubeSegments: int := 18
  const DefaultTubeSlices: int := 30

  /** The one draw call of a routine that uploads `idx` and draws all of it. */
  function DrawUploaded(idx: seq<int>): seq<DrawCall>
  {
    [Elements(Triangles, 0, |idx|)]
  }

  class ShapeMeshes {
    var boxMesh: GLMesh
    var coneMesh: GLMesh
    var cylinderMesh: GLMesh
    var planeMesh: GLMesh
    var prismMesh: GLMesh
    var pyramid3Mesh: GLMesh
    var pyramid4Mesh: GLMesh
    var sphereMesh: GLMesh
    var hemisphereMesh: GLMesh
    var taperedCylinderMesh: GLMesh
    var torusMesh: GLMesh
    var extraTorusMesh1: GLMesh
    var extraTorusMesh2: GLMesh
    var springMesh: GLMesh
    var tubeMesh: GLMesh
    var finMesh: GLMesh
    var curvedConeMesh: GLMesh
    var taperedTorusMesh: GLMesh
    var spiralMesh: GLMesh
    var sineConeMesh: GLMesh
    var superellipsoidMesh: GLMesh

    var boxWarned: bool
    var coneWarned: bool
    var cylinderWarned: bool
    var planeWarned: bool
    var prismWarned: bool
    var pyramid3Warned: bool
    var pyramid4Warned: bool
    var sphereWarned: bool
    var halfSphereWarned: bool
    var taperedCylinderWarned: bool
    var torusWarned: bool
    var halfTorusWarned: bool

    /** Declared to make the memory layout happen once; nothing ever sets it. */
    var memoryLayoutDone: bool
    var isMemoryLayoutSet: bool

    /** The next GL object name; 0 is never a name. */
    var nextName: nat

    predicate Valid()
      reads this
    {
      nextName >= 1 && !memoryLayoutDone
    }

    /** Every mesh as declared, no warning shown yet. */
    constructor ()
      ensures Valid()
      ensures boxMesh == coneMesh == cylinderMesh == planeMesh == prismMesh == Unloaded
      ensures pyramid3Mesh == pyramid4Mesh == sphereMesh == hemisphereMesh == Unloaded
      ensures taperedCylinderMesh == torusMesh == extraTorusMesh1 == extraTorusMesh2 == Unloaded
      ensures springMesh == tubeMesh == finMesh == Unloaded
      ensures curvedConeMesh == taperedTorusMesh == spiralMesh == sineConeMesh == superellipsoidMesh == Unloaded
      ensures !boxWarned && !coneWarned && !cylinderWarned && !planeWarned && !prismWarned
      ensures !pyramid3Warned && !pyramid4Warned && !sphereWarned && !halfSphereWarned
      ensures !taperedCylinderWarned && !torusWarned && !halfTorusWarned
      ensures !isMemoryLayoutSet
    {
      boxMesh, coneMesh, cylinderMesh, planeMesh, prismMesh := Unloaded, Unloaded, Unloaded, Unloaded, Unloaded;
      pyramid3Mesh, pyramid4Mesh, sphereMesh, hemisphereMesh := Unloaded, Unloaded, Unloaded, Unloaded;
      taperedCylinderMesh, torusMesh, extraTorusMesh1, extraTorusMesh2 := Unloaded, Unloaded, Unloaded, Unloaded;
      springMesh, tubeMesh, finMesh := Unloaded, Unloaded, Unloaded;
      curvedConeMesh, taperedTorusMesh, spiralMesh, sineConeMesh, superellipsoidMesh :=
        Unloaded, Unloaded, Unloaded, Unloaded, Unloaded;
      boxWarned, coneWarned, cylinderWarned, planeWarned, prismWarned := false, false, false, false, false;
      pyramid3Warned, pyramid4Warned, sphereWarned, halfSphereWarned := false, false, false, false;
      taperedCylinderWarned, torusWarned, halfTorusWarned := false, false, false;
      memoryLayoutDone, isMemoryLayoutSet := false, false;
      nextName := 1;
    }

    /** glGenVertexArrays(1, ...) or glGenBuffers(1, ...): a name not handed out before. */
    method GenName() returns (name: nat)
      requires Valid()
      modifies this`nextName
      ensures Valid() && name != 0 && name == old(nextName) && nextName == name + 1
    {
      name := nextName;
      nextName := nextName + 1;
    }

    /**
     * InitializeMesh: the counts of `vs` and `idx`, a new VAO and VBO, a new
     * element buffer only for a non-empty index list, and the attribute
     * layout whenever memoryLayoutDone is unset, which it always is.
     */
    method InitializeMesh(mesh: GLMesh, vs: seq<Vertex>, idx: seq<int>) returns (m: GLMesh)
      requires Valid()
      modifies this`nextName
      ensures Valid() && Holds(m, vs, idx) && m.layoutSet
      ensures m.vao == old(nextName) && m.vbo == old(nextName) + 1
      ensures m.ebo == (if idx == [] then mesh.ebo else old(nextName) + 2)
      ensures nextName == old(nextName) + (if idx == [] then 2 else 3)
      ensures m.vbo0 == mesh.vbo0 && m.numSlices == mesh.numSlices && m.curveSteps == mesh.curveSteps
    {
      var vao := GenName();
      var vbo := GenName();
      var ebo := mesh.ebo;
      if idx != [] {
        ebo := GenName();
      }
      m := mesh.(vao := vao, vbo := vbo, ebo := ebo,
                 nVertices := (FloatsPerRow * |vs|) / FloatsPerRow, nIndices := |idx|,
                 vertexData := vs, indexData := idx, layoutSet := !memoryLayoutDone);
    }

    // -------------------------------------------------------------------
    // Loads from constant tables.
    // -------------------------------------------------------------------

    method LoadBoxMesh()
      requires Valid()
      modifies this`boxMesh, this`nextName
      ensures Valid() && old(nextName) <= boxMesh.vao < nextName && boxMesh.layoutSet
      ensures Holds(boxMesh, TableVertices(BoxVertexCount), BoxIndices())
    {
      boxMesh := InitializeMesh(boxMesh, TableVertices(BoxVertexCount), BoxIndices());
    }

    method LoadPlaneMesh()
      requires Valid()
      modifies this`planeMesh, this`nextName
      ensures Valid() && old(nextName) <= planeMesh.vao < nextName && planeMesh.layoutSet
      ensures Holds(planeMesh, TableVertices(PlaneVertexCount), PlaneIndices)
    {
      planeMesh := InitializeMesh(planeMesh, TableVertices(PlaneVertexCount), PlaneIndices);
    }

    method LoadPrismMesh()
      requires Valid()
      modifies this`prismMesh, this`nextName
      ensures Valid() && old(nextName) <= prismMesh.vao < nextName && prismMesh.layoutSet
      ensures Holds(prismMesh, TableVertices(PrismVertexCount), PrismIndices)
    {
      prismMesh := InitializeMesh(prismMesh, TableVertices(PrismVertexCount), PrismIndices);
    }

    /** No indices: the pyramid keeps whatever element buffer name it had. */
    method LoadPyramid3Mesh()
      requires Valid()
      modifies this`pyramid3Mesh, this`nextName
      ensures Valid() && old(nextName) <= pyramid3Mesh.vao < nextName && pyramid3Mesh.layoutSet
      ensures Holds(pyramid3Mesh, TableVertices(Pyramid3VertexCount), [])
      ensures pyramid3Mesh.ebo == old(pyramid3Mesh.ebo)
    {
      pyramid3Mesh := InitializeMesh(pyramid3Mesh, TableVertices(Pyramid3VertexCount), []);
    }

    method LoadPyramid4Mesh()
      requires Valid()
      modifies this`pyramid4Mesh, this`nextName
      ensures Valid() && old(nextName) <= pyramid4Mesh.vao < nextName && pyramid4Mesh.layoutSet
      ensures Holds(pyramid4Mesh, TableVertices(Pyramid4VertexCount), [])
      ensures pyramid4Mesh.ebo == old(pyramid4Mesh.ebo)
    {
      pyramid4Mesh := InitializeMesh(pyramid4Mesh, TableVertices(Pyramid4VertexCount), []);
    }

    /**
     * LoadFinMesh uploads by itself: new VAO, VBO and EBO, the 36 indices and
     * the attribute layout; it stores the index count but not the vertex count.
     */
    method LoadFinMesh()
      requires Valid()
      modifies this`finMesh, this`nextName
      ensures Valid() && nextName == old(nextName) + 3 && finMesh.layoutSet
      ensures finMesh.vao == old(nextName) && finMesh.vbo == old(nextName) + 1 && finMesh.ebo == old(nextName) + 2
      ensures finMesh.vertexData == TableVertices(FinVertexCount) && finMesh.indexData == FinIndices()
      ensures finMesh.nIndices == 36 && finMesh.nVertices == old(finMesh.nVertices)
      ensures finMesh.numSlices == old(finMesh.numSlices) && finMesh.vbo0 == old(finMesh.vbo0)
    {
      var vao := GenName();
      var vbo := GenName();
      var ebo := GenName();
      FinFaceIndices(0);
      finMesh := finMesh.(vao := vao, vbo := vbo, ebo := ebo, vertexData := TableVertices(FinVertexCount),
                          indexData := FinIndices(), nIndices := |FinIndices()|, layoutSet := true);
    }

    // -------------------------------------------------------------------
    // Loads from generator loops.
    // -------------------------------------------------------------------

    method LoadConeMesh(numSlices: int)
      requires Valid()
      modifies this`coneMesh, this`nextName
      ensures Valid() && old(nextName) <= coneMesh.vao < nextName && coneMesh.layoutSet
      ensures coneMesh.numSlices == AtLeast(3, numSlices)
      ensures Holds(coneMesh, ConeVertices(AtLeast(3, numSlices)), ConeIndices(AtLeast(3, numSlices)))
    {
      var slices, vertices, indices := ConeBuffers(numSlices);
      coneMesh := coneMesh.(numSlices := slices);
      coneMesh := InitializeMesh(coneMesh, vertices, indices);
    }

    method LoadCylinderMesh(numSlices: int)
      requires Valid()
      modifies this`cylinderMesh, this`nextName
      ensures Valid() && old(nextName) <= cylinderMesh.vao < nextName && cylinderMesh.layoutSet
      ensures cylinderMesh.numSlices == AtLeast(3, numSlices)
      ensures Holds(cylinderMesh, CylinderVertices(AtLeast(3, numSlices)), CylinderIndices(AtLeast(3, numSlices)))
    {
      var slices, vertices, indices := CylinderBuffers(numSlices);
      cylinderMesh := cylinderMesh.(numSlices := slices);
      cylinderMesh := InitializeMesh(cylinderMesh, vertices, indices);
    }

    method LoadTaperedCylinderMesh(numSlices: int)
      requires Valid()
      modifies this`taperedCylinderMesh, this`nextName
      ensures Valid() && old(nextName) <= taperedCylinderMesh.vao < nextName && taperedCylinderMesh.layoutSet
      ensures taperedCylinderMesh.numSlices == AtLeast(3, numSlices)
      ensures Holds(taperedCylinderMesh, TaperedCylinderVertices(AtLeast(3, numSlices)),
                    TaperedCylinderIndices(AtLeast(3, numSlices)))
    {
      var slices, vertices, indices := TaperedCylinderBuffers(numSlices);
      taperedCylinderMesh := taperedCylinderMesh.(numSlices := slices);
      taperedCylinderMesh := InitializeMesh(taperedCylinderMesh, vertices, indices);
    }

    method LoadTubeMesh(numSlices: int)
      requires Valid()
      modifies this`tubeMesh, this`nextName
      ensures Valid() && old(nextName) <= tubeMesh.vao < nextName && tubeMesh.layoutSet
      ensures tubeMesh.numSlices == AtLeast(3, numSlices)
      ensures Holds(tubeMesh, TubeVertices(AtLeast(3, numSlices)), TubeIndices(AtLeast(3, numSlices)))
    {
      var slices, vertices, indices := TubeBuffers(numSlices);
      tubeMesh := tubeMesh.(numSlices := slices);
      tubeMesh := InitializeMesh(tubeMesh, vertices, indices);
    }

    /** A grid shape of `rows` x `cols` cells, loaded through InitializeMesh. */
    method LoadGrid(mesh: GLMesh, rows: int, cols: int, w: Winding) returns (m: GLMesh)
      requires Valid()
      modifies this`nextName
      ensures Valid() && old(nextName) <= m.vao < nextName && m.layoutSet
      ensures Holds(m, GridShapeVertices(rows, cols), GridShapeIndices(rows, cols, w))
      ensures m.numSlices == mesh.numSlices && m.curveSteps == mesh.curveSteps
    {
      var vertices := GridSamples(rows, cols);
      var indices := GridCells(rows, cols, w);
      m := InitializeMesh(mesh, vertices, indices);
    }

    method LoadSphereMesh(latitudeSegments: int, longitudeSegments: int)
      requires Valid()
      modifies this`sphereMesh, this`nextName
      ensures Valid() && old(nextName) <= sphereMesh.vao < nextName && sphereMesh.layoutSet
      ensures Holds(sphereMesh, GridShapeVertices(latitudeSegments, longitudeSegments),
                    GridShapeIndices(latitudeSegments, longitudeSegments, SphereWinding))
    {
      sphereMesh := LoadGrid(sphereMesh, latitudeSegments, longitudeSegments, SphereWinding);
    }

    /** Rows up to latitudeSegments / 2 only, the C++ division truncating toward zero. */
    method LoadHemisphereMesh(latitudeSegments: int, longitudeSegments: int)
      requires Valid()
      modifies this`hemisphereMesh, this`nextName
      ensures Valid() && old(nextName) <= hemisphereMesh.vao < nextName && hemisphereMesh.layoutSet
      ensures Holds(hemisphereMesh, GridShapeVertices(TruncDiv(latitudeSegments, 2), longitudeSegments),
                    GridShapeIndices(TruncDiv(latitudeSegments, 2), longitudeSegments, SphereWinding))
    {
      var hemiLatSegments := TruncDiv(latitudeSegments, 2);
      hemisphereMesh := LoadGrid(hemisphereMesh, hemiLatSegments, longitudeSegments, SphereWinding);
    }

    method LoadTorusMesh(mainSegments: int, tubeSegments: int)
      requires Valid()
      modifies this`torusMesh, this`nextName
      ensures Valid() && old(nextName) <= torusMesh.vao < nextName && torusMesh.layoutSet
      ensures Holds(torusMesh, GridShapeVertices(AtLeast(3, mainSegments), AtLeast(3, tubeSegments)),
                    GridShapeIndices(AtLeast(3, mainSegments), AtLeast(3, tubeSegments), StripWinding))
    {
      var m, t := AtLeast(3, mainSegments), AtLeast(3, tubeSegments);
      torusMesh := LoadGrid(torusMesh, m, t, StripWinding);
    }

    /** One grid row per step of the coil: mainSegments * tubeSegments rows after the clamps. */
    method LoadSpringMesh(mainSegments: int, tubeSegments: int)
      requires Valid()
      modifies this`springMesh, this`nextName
      ensures Valid() && old(nextName) <= springMesh.vao < nextName && springMesh.layoutSet
      ensures Holds(springMesh,
                    GridShapeVertices(AtLeast(1, mainSegments) * AtLeast(8, tubeSegments), AtLeast(8, tubeSegments)),
                    GridShapeIndices(AtLeast(1, mainSegments) * AtLeast(8, tubeSegments), AtLeast(8, tubeSegments),
                                     StripWinding))
    {
      var m, t := AtLeast(1, mainSegments), AtLeast(8, tubeSegments);
      springMesh := LoadGrid(springMesh, m * t, t, StripWinding);
    }

    /** Stores the clamped slice and step counts, then steps x slices cells. */
    method LoadCurvedConeMesh(numSlices: int, curveSteps: int)
      requires Valid()
      modifies this`curvedConeMesh, this`nextName
      ensures Valid() && old(nextName) <= curvedConeMesh.vao < nextName && curvedConeMesh.layoutSet
      ensures curvedConeMesh.numSlices == AtLeast(3, numSlices) && curvedConeMesh.curveSteps == AtLeast(1, curveSteps)
      ensures Holds(curvedConeMesh, GridShapeVertices(AtLeast(1, curveSteps), AtLeast(3, numSlices)),
                    GridShapeIndices(AtLeast(1, curveSteps), AtLeast(3, numSlices), StripWinding))
    {
      var slices, steps := numSlices, curveSteps;
      if slices < 3 {
        slices := 3;
      }
      if steps < 1 {
        steps := 1;
      }
      curvedConeMesh := curvedConeMesh.(numSlices := slices, curveSteps := steps);
      curvedConeMesh := LoadGrid(curvedConeMesh, steps, slices, StripWinding);
    }

    /**
     * LoadExtraTorusMesh1 and LoadExtraTorusMesh2 (the same but for the
     * tube thickness): a new VAO and vbos[0], the vertex count, no indices.
     */
    method LoadExtraTorus(mesh: GLMesh) returns (m: GLMesh)
      requires Valid()
      modifies this`nextName
      ensures Valid() && nextName == old(nextName) + 2 && m.layoutSet
      ensures m.vao == old(nextName) && m.vbo0 == old(nextName) + 1
      ensures Holds(m, ExtraTorusVertices(ExtraTorusSegments, ExtraTorusSegments), [])
      ensures m.vbo == mesh.vbo && m.ebo == mesh.ebo && m.numSlices == mesh.numSlices
    {
      var vertices := ExtraTorusBuffers();
      var vao := GenName();
      var vbo0 := GenName();
      m := mesh.(nVertices := |vertices|, nIndices := 0, vao := vao, vbo0 := vbo0,
                 vertexData := vertices, indexData := [], layoutSet := !memoryLayoutDone);
    }

    method LoadExtraTorusMesh1()
      requires Valid()
      modifies this`extraTorusMesh1, this`nextName
      ensures Valid() && old(nextName) <= extraTorusMesh1.vao < nextName && extraTorusMesh1.layoutSet
      ensures Holds(extraTorusMesh1, ExtraTorusVertices(ExtraTorusSegments, ExtraTorusSegments), [])
    {
      var m := LoadExtraTorus(extraTorusMesh1);
      extraTorusMesh1 := m;
    }

    method LoadExtraTorusMesh2()
      requires Valid()
      modifies this`extraTorusMesh2, this`nextName
      ensures Valid() && old(nextName) <= extraTorusMesh2.vao < nextName && extraTorusMesh2.layoutSet
      ensures Holds(extraTorusMesh2, ExtraTorusVertices(ExtraTorusSegments, ExtraTorusSegments), [])
    {
      extraTorusMesh2 := LoadExtraTorus(extraTorusMesh2);
    }

    // -------------------------------------------------------------------
    // Meshes whose geometry is built and uploaded at draw time.
    // -------------------------------------------------------------------

    /** LoadTaperedTorusMesh, LoadSpiralMesh, LoadSineConeMesh, LoadSuperellipsoidMesh: names only. */
    method GenNames(mesh: GLMesh) returns (m: GLMesh)
      requires Valid()
      modifies this`nextName
      ensures Valid() && nextName == old(nextName) + 3
      ensures m == mesh.(vao := old(nextName), vbo := old(nextName) + 1, ebo := old(nextName) + 2)
    {
      var vao := GenName();
      var vbo := GenName();
      var ebo := GenName();
      m := mesh.(vao := vao, vbo := vbo, ebo := ebo);
    }

    method LoadTaperedTorusMesh()
      requires Valid()
      modifies this`taperedTorusMesh, this`nextName
      ensures Valid() && nextName == old(nextName) + 3
      ensures taperedTorusMesh == old(taperedTorusMesh).(vao := old(nextName), vbo := old(nextName) + 1, ebo := old(nextName) + 2)
    {
      taperedTorusMesh := GenNames(taperedTorusMesh);
    }

    method LoadSpiralMesh()
      requires Valid()
      modifies this`spiralMesh, this`nextName
      ensures Valid() && nextName == old(nextName) + 3
      ensures spiralMesh == old(spiralMesh).(vao := old(nextName), vbo := old(nextName) + 1, ebo := old(nextName) + 2)
    {
      spiralMesh := GenNames(spiralMesh);
    }

    method LoadSineConeMesh()
      requires Valid()
      modifies this`sineConeMesh, this`nextName
      ensures Valid() && nextName == old(nextName) + 3
      ensures sineConeMesh == old(sineConeMesh).(vao := old(nextName), vbo := old(nextName) + 1, ebo := old(nextName) + 2)
    {
      sineConeMesh := GenNames(sineConeMesh);
    }

    method LoadSuperellipsoidMesh()
      requires Valid()
      modifies this`superellipsoidMesh, this`nextName
      ensures Valid() && nextName == old(nextName) + 3
      ensures superellipsoidMesh ==
        old(superellipsoidMesh).(vao := old(nextName), vbo := old(nextName) + 1, ebo := old(nextName) + 2)
    {
      superellipsoidMesh := GenNames(superellipsoidMesh);
    }

    /**
     * DrawTaperedTorusMesh: builds mainSegments x tubeSegments cells (no
     * clamps), uploads them into the mesh's buffers with their attribute
     * layout and draws every index; the stored counts stay as they were.
     */
    method DrawTaperedTorusMesh(mainSegments: int, tubeSegments: int) returns (calls: seq<DrawCall>)
      modifies this`taperedTorusMesh
      ensures taperedTorusMesh == old(taperedTorusMesh).(vertexData := GridShapeVertices(mainSegments, tubeSegments),
        indexData := GridShapeIndices(mainSegments, tubeSegments, StripWinding), layoutSet := true)
      ensures calls == DrawUploaded(taperedTorusMesh.indexData) && AllFit(taperedTorusMesh, calls)
      ensures SentAll(taperedTorusMesh, calls) == GridShapeIndices(mainSegments, tubeSegments, StripWinding)
      ensures InBounds(SentAll(taperedTorusMesh, calls), |taperedTorusMesh.vertexData|)
    {
      var vertices := GridSamples(mainSegments, tubeSegments);
      var indices := GridCells(mainSegments, tubeSegments, StripWinding);
      taperedTorusMesh := taperedTorusMesh.(vertexData := vertices, indexData := indices, layoutSet := true);
      calls := DrawUploaded(indices);
      UploadedDraw(taperedTorusMesh, indices);
      GridShapeStructure(mainSegments, tubeSegments, StripWinding);
    }

    /** DrawSineConeMesh: heightSegments rows of radialSegments cells, no clamps. */
    method DrawSineConeMesh(radialSegments: int, heightSegments: int) returns (calls: seq<DrawCall>)
      modifies this`sineConeMesh
      ensures sineConeMesh == old(sineConeMesh).(vertexData := GridShapeVertices(heightSegments, radialSegments),
        indexData := GridShapeIndices(heightSegments, radialSegments, StripWinding), layoutSet := true)
      ensures calls == DrawUploaded(sineConeMesh.indexData) && AllFit(sineConeMesh, calls)
      ensures SentAll(sineConeMesh, calls) == GridShapeIndices(heightSegments, radialSegments, StripWinding)
      ensures InBounds(SentAll(sineConeMesh, calls), |sineConeMesh.vertexData|)
    {
      var vertices := GridSamples(heightSegments, radialSegments);
      var indices := GridCells(heightSegments, radialSegments, StripWinding);
      sineConeMesh := sineConeMesh.(vertexData := vertices, indexData := indices, layoutSet := true);
      calls := DrawUploaded(indices);
      UploadedDraw(sineConeMesh, indices);
      GridShapeStructure(heightSegments, radialSegments, StripWinding);
    }

    /**
     * DrawSuperellipsoidMesh: clamps both segment counts to at least 3,
     * stores vSegments as numSlices and both counts, uploads and draws.
     */
    method DrawSuperellipsoidMesh(uSegments: int, vSegments: int) returns (calls: seq<DrawCall>)
      modifies this`superellipsoidMesh
      ensures superellipsoidMesh.numSlices == AtLeast(3, vSegments) && superellipsoidMesh.layoutSet
      ensures superellipsoidMesh.vertexData == GridShapeVertices(AtLeast(3, uSegments), AtLeast(3, vSegments))
      ensures superellipsoidMesh.indexData == GridShapeIndices(AtLeast(3, uSegments), AtLeast(3, vSegments), StripWinding)
      ensures superellipsoidMesh.nVertices == |superellipsoidMesh.vertexData|
      ensures superellipsoidMesh.nIndices == |superellipsoidMesh.indexData|
      ensures superellipsoidMesh.vao == old(superellipsoidMesh.vao) && superellipsoidMesh.ebo == old(superellipsoidMesh.ebo)
      ensures calls == DrawUploaded(superellipsoidMesh.indexData) && AllFit(superellipsoidMesh, calls)
      ensures SentAll(superellipsoidMesh, calls) == superellipsoidMesh.indexData
      ensures InBounds(SentAll(superellipsoidMesh, calls), |superellipsoidMesh.vertexData|)
    {
      var u, v := uSegments, vSegments;
      if u < 3 {
        u := 3;
      }
      if v < 3 {
        v := 3;
      }
      var vertices := GridSamples(u, v);
      var indices := GridCells(u, v, StripWinding);
      superellipsoidMesh := superellipsoidMesh.(numSlices := v, vertexData := vertices, indexData := indices,
        nVertices := (FloatsPerRow * |vertices|) / FloatsPerRow, nIndices := |indices|, layoutSet := true);
      calls := DrawUploaded(indices);
      UploadedDraw(superellipsoidMesh, indices);
      GridShapeStructure(u, v, StripWinding);
    }

    /**
     * DrawSpiralMesh for a sweep of `ringCount` tube rings: uploads the
     * spiral's rings, cap and join and draws every index.
     */
    method DrawSpiralMesh(ringCount: nat, tubeSegments: int) returns (calls: seq<DrawCall>)
      requires ringCount >= 2
      modifies this`spiralMesh
      ensures spiralMesh == old(spiralMesh).(vertexData := SpiralVertices(ringCount, Nat(tubeSegments)),
        indexData := SpiralIndices(ringCount, Nat(tubeSegments)), layoutSet := true)
      ensures calls == DrawUploaded(spiralMesh.indexData) && AllFit(spiralMesh, calls)
      ensures SentAll(spiralMesh, calls) == SpiralIndices(ringCount, Nat(tubeSegments))
      ensures InBounds(SentAll(spiralMesh, calls), |spiralMesh.vertexData|)
    {
      var vertices, indices := SpiralBuffers(ringCount, tubeSegments);
      spiralMesh := spiralMesh.(vertexData := vertices, indexData := indices, layoutSet := true);
      calls := DrawUploaded(indices);
      UploadedDraw(spiralMesh, indices);
      SpiralInBounds(ringCount, Nat(tubeSegments));
    }

    /**
     * DrawPartialConeMesh builds its geometry into temporary GL objects,
     * draws every index and deletes the objects again, so the names it
     * takes are free afterwards and nothing of the object changes.
     */
    method DrawPartialConeMesh(numSlices: int) returns (calls: seq<DrawCall>, temp: GLMesh)
      requires Valid()
      ensures temp.vao != 0 && temp.vertexData == PartialConeVertices(AtLeast(3, numSlices))
      ensures calls == DrawUploaded(temp.indexData) && AllFit(temp, calls)
      ensures SentAll(temp, calls) == PartialConeIndices(AtLeast(3, numSlices))
      ensures InBounds(SentAll(temp, calls), |temp.vertexData|)
    {
      var slices, vertices, indices := PartialConeBuffers(numSlices);
      temp := Unloaded.(vao := nextName, vbo := nextName + 1, ebo := nextName + 2,
                        vertexData := vertices, indexData := indices, layoutSet := true);
      calls := DrawUploaded(indices);
      UploadedDraw(temp, indices);
      PartialConeStructure(slices);
    }

    // -------------------------------------------------------------------
    // The deprecated line-drawing wrappers: warn once, then delegate.
    // -------------------------------------------------------------------

    method DrawBoxMeshLines() returns (warning: bool, calls: seq<DrawCall>)
      modifies this`boxWarned
      ensures warning == !old(boxWarned) && boxWarned && calls == DrawGuarded(boxMesh)
    {
      warning := !boxWarned;
      boxWarned := true;
      calls := DrawGuarded(boxMesh);
    }

    method DrawConeMeshLines() returns (warning: bool, calls: seq<DrawCall>)
      modifies this`coneWarned
      ensures warning == !old(coneWarned) && coneWarned && calls == DrawConeMesh(coneMesh, true)
    {
      warning := !coneWarned;
      coneWarned := true;
      calls := DrawConeMesh(coneMesh, true);
    }

    /** Passes `true` as bDrawTop, so the bottom and sides keep their defaults. */
    method DrawCylinderMeshLines() returns (warning: bool, calls: seq<DrawCall>)
      modifies this`cylinderWarned
      ensures warning == !old(cylinderWarned) && cylinderWarned && calls == DrawCappedMesh(cylinderMesh, true, true, true)
    {
      warning := !cylinderWarned;
      cylinderWarned := true;
      calls := DrawCappedMesh(cylinderMesh, true, true, true);
    }

    method DrawPlaneMeshLines() returns (warning: bool, calls: seq<DrawCall>)
      modifies this`planeWarned
      ensures warning == !old(planeWarned) && planeWarned && calls == DrawPlaneMesh(planeMesh)
    {
      warning := !planeWarned;
      planeWarned := true;
      calls := DrawPlaneMesh(planeMesh);
    }

    method DrawPrismMeshLines() returns (warning: bool, calls: seq<DrawCall>)
      modifies this`prismWarned
      ensures warning == !old(prismWarned) && prismWarned && calls == DrawPrismMesh(prismMesh)
    {
      warning := !prismWarned;
      prismWarned := true;
      calls := DrawPrismMesh(prismMesh);
    }

    method DrawPyramid3MeshLines() returns (warning: bool, calls: seq<DrawCall>)
      modifies this`pyramid3Warned
      ensures warning == !old(pyramid3Warned) && pyramid3Warned && calls == DrawPyramidMesh(pyramid3Mesh)
    {
      warning := !pyramid3Warned;
      pyramid3Warned := true;
      calls := DrawPyramidMesh(pyramid3Mesh);
    }

    method DrawPyramid4MeshLines() returns (warning: bool, calls: seq<DrawCall>)
      modifies this`pyramid4Warned
      ensures warning == !old(pyramid4Warned) && pyramid4Warned && calls == DrawPyramidMesh(pyramid4Mesh)
    {
      warning := !pyramid4Warned;
      pyramid4Warned := true;
      calls := DrawPyramidMesh(pyramid4Mesh);
    }

    method DrawSphereMeshLines() returns (warning: bool, calls: seq<DrawCall>)
      modifies this`sphereWarned
      ensures warning == !old(sphereWarned) && sphereWarned && calls == DrawIndexed(sphereMesh)
    {
      warning := !sphereWarned;
      sphereWarned := true;
      calls := DrawIndexed(sphereMesh);
    }

    /** Draws the hemisphere mesh, not the half of the sphere mesh. */
    method DrawHalfSphereMeshLines() returns (warning: bool, calls: seq<DrawCall>)
      modifies this`halfSphereWarned
      ensures warning == !old(halfSphereWarned) && halfSphereWarned && calls == DrawIndexed(hemisphereMesh)
    {
      warning := !halfSphereWarned;
      halfSphereWarned := true;
      calls := DrawIndexed(hemisphereMesh);
    }

    method DrawTaperedCylinderMeshLines() returns (warning: bool, calls: seq<DrawCall>)
      modifies this`taperedCylinderWarned
      ensures warning == !old(taperedCylinderWarned) && taperedCylinderWarned
      ensures calls == DrawCappedMesh(taperedCylinderMesh, true, true, true)
    {
      warning := !taperedCylinderWarned;
      taperedCylinderWarned := true;
      calls := DrawCappedMesh(taperedCylinderMesh, true, true, true);
    }

    method DrawTorusMeshLines() returns (warning: bool, calls: seq<DrawCall>)
      modifies this`torusWarned
      ensures warning == !old(torusWarned) && torusWarned && calls == DrawGuarded(torusMesh)
    {
      warning := !torusWarned;
      torusWarned := true;
      calls := DrawGuarded(torusMesh);
    }

    method DrawHalfTorusMeshLines() returns (warning: bool, calls: seq<DrawCall>)
      modifies this`halfTorusWarned
      ensures warning == !old(halfTorusWarned) && halfTorusWarned && calls == DrawHalf(torusMesh)
    {
      warning := !halfTorusWarned;
      halfTorusWarned := true;
      calls := DrawHalf(torusMesh);
    }
  }
}
