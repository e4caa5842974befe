/**
 * Buffer sizes of the shapes at the header's default arguments, at the
 * clamps, and at segment counts the loaders do not clamp.
 */
module MeshCounts {
  import opened MeshTopology
  import opened MeshManager

  /** The two buffer sizes of a grid shape with at least one row and one column of cells. */
  lemma GridCounts(rows: nat, cols: nat, w: Winding)
    ensures |GridShapeVertices(rows, cols)| == (rows + 1) * (cols + 1)
    ensures |GridShapeIndices(rows, cols, w)| == rows * cols * 6
  {
    GridShapeStructure(rows, cols, w);
  }

  /** LoadSphereMesh at its default 18 x 18 cells: 19 * 19 samples and 6 * 18 * 18 indices. */
  lemma DefaultSphereCounts(latitudeSegments: int, longitudeSegments: int)
    requires latitudeSegments == longitudeSegments == DefaultSphereSegments
    ensures |GridShapeVertices(latitudeSegments, longitudeSegments)| == 361
    ensures |GridShapeIndices(latitudeSegments, longitudeSegments, SphereWinding)| == 1944
  {
    SphereVertexCount(latitudeSegments, longitudeSegments);
    SphereIndexCount(latitudeSegments, longitudeSegments);
  }

  lemma SphereVertexCount(latitudeSegments: int, longitudeSegments: int)
    requires latitudeSegments == longitudeSegments == DefaultSphereSegments
    ensures |GridShapeVertices(latitudeSegments, longitudeSegments)| == 361
  {
    GridCounts(latitudeSegments, longitudeSegments, SphereWinding);
  }

  lemma SphereIndexCount(latitudeSegments: int, longitudeSegments: int)
    requires latitudeSegments == longitudeSegments == DefaultSphereSegments
    ensures |GridShapeIndices(latitudeSegments, longitudeSegments, SphereWinding)| == 1944
  {
    GridCounts(latitudeSegments, longitudeSegments, SphereWinding);
  }

  /** LoadHemisphereMesh keeps latitudeSegments / 2 rows: 9 for the default 18. */
  lemma DefaultHemisphereCounts(latitudeSegments: int, longitudeSegments: int)
    requires latitudeSegments == longitudeSegments == DefaultSphereSegments
    ensures TruncDiv(latitudeSegments, 2) == 9
    ensures |GridShapeVertices(TruncDiv(latitudeSegments, 2), longitudeSegments)| == 190
    ensures |GridShapeIndices(TruncDiv(latitudeSegments, 2), longitudeSegments, SphereWinding)| == 972
  {
    var h := TruncDiv(latitudeSegments, 2);
    GridCounts(h, longitudeSegments, SphereWinding);
  }

  /**
   * Below 2 latitude segments the hemisphere has no cells; from -1 to 1
   * one ring of samples remains, and from -2 down (whose truncated half is
   * -1 or less) none.
   */
  lemma SmallHemisphere(latitudeSegments: int, longitudeSegments: nat)
    requires latitudeSegments < 2
    ensures GridShapeIndices(TruncDiv(latitudeSegments, 2), longitudeSegments, SphereWinding) == []
    ensures latitudeSegments > -2 ==> |GridShapeVertices(TruncDiv(latitudeSegments, 2), longitudeSegments)| == longitudeSegments + 1
    ensures latitudeSegments <= -2 ==> GridShapeVertices(TruncDiv(latitudeSegments, 2), longitudeSegments) == []
  {
    var h := TruncDiv(latitudeSegments, 2);
    assert h <= 0 && (latitudeSegments > -2 ==> h == 0) && (latitudeSegments <= -2 ==> h <= -1);
    GridShapeStructure(h, longitudeSegments, SphereWinding);
  }

  /** A torus asked for fewer than 3 segments gets 3 x 3 cells: 16 samples, 54 indices. */
  lemma TorusClamp(mainSegments: int, tubeSegments: int)
    requires mainSegments <= 3 && tubeSegments <= 3
    ensures AtLeast(3, mainSegments) == 3 && AtLeast(3, tubeSegments) == 3
    ensures |GridShapeVertices(AtLeast(3, mainSegments), AtLeast(3, tubeSegments))| == 16
    ensures |GridShapeIndices(AtLeast(3, mainSegments), AtLeast(3, tubeSegments), StripWinding)| == 54
  {
    GridCounts(AtLeast(3, mainSegments), AtLeast(3, tubeSegments), StripWinding);
  }

  /** LoadSpringMesh at its defaults: 6 * 18 = 108 rows of 18 cells. */
  lemma DefaultSpringCounts(mainSegments: int, tubeSegments: int)
    requires mainSegments == DefaultSpringMainSegments && tubeSegments == DefaultSpringTubeSegments
    ensures AtLeast(1, mainSegments) * AtLeast(8, tubeSegments) == 108 && AtLeast(8, tubeSegments) == 18
    ensures |GridShapeVertices(AtLeast(1, mainSegments) * AtLeast(8, tubeSegments), AtLeast(8, tubeSegments))| == 109 * 19
    ensures |GridShapeIndices(AtLeast(1, mainSegments) * AtLeast(8, tubeSegments), AtLeast(8, tubeSegments), StripWinding)|
            == 108 * 18 * 6
  {
    SpringVertexCount(mainSegments, tubeSegments);
    SpringIndexCount(mainSegments, tubeSegments);
  }

  lemma SpringVertexCount(mainSegments: int, tubeSegments: int)
    requires mainSegments == DefaultSpringMainSegments && tubeSegments == DefaultSpringTubeSegments
    ensures |GridShapeVertices(AtLeast(1, mainSegments) * AtLeast(8, tubeSegments), AtLeast(8, tubeSegments))| == 109 * 19
  {
    var rows, cols := AtLeast(1, mainSegments) * AtLeast(8, tubeSegments), AtLeast(8, tubeSegments);
    assert rows == 108 && cols == 18;
    GridCounts(rows, cols, StripWinding);
  }

  lemma SpringIndexCount(mainSegments: int, tubeSegments: int)
    requires mainSegments == DefaultSpringMainSegments && tubeSegments == DefaultSpringTubeSegments
    ensures |GridShapeIndices(AtLeast(1, mainSegments) * AtLeast(8, tubeSegments), AtLeast(8, tubeSegments), StripWinding)|
            == 108 * 18 * 6
  {
    var rows, cols := AtLeast(1, mainSegments) * AtLeast(8, tubeSegments), AtLeast(8, tubeSegments);
    assert rows == 108 && cols == 18;
    GridCounts(rows, cols, StripWinding);
  }

  /**
   * The tapered torus and the sine cone do not clamp: a row or column count
   * of zero or less gives an empty index list, and one of -1 or less no
   * samples either.
   */
  lemma UnclampedGrids(rows: int, cols: int, w: Winding)
    ensures rows <= 0 || cols <= 0 ==> GridShapeIndices(rows, cols, w) == []
    ensures rows <= -1 || cols <= -1 ==> GridShapeVertices(rows, cols) == []
  {
    GridShapeStructure(rows, cols, w);
  }

  /** LoadConeMesh at its default 18 slices: 56 vertices and 108 indices. */
  lemma DefaultConeCounts(numSlices: int)
    requires numSlices == DefaultConeSlices
    ensures AtLeast(3, numSlices) == 18
    ensures |ConeVertices(AtLeast(3, numSlices))| == 56 && |ConeIndices(AtLeast(3, numSlices))| == 108
  {
    ConeStructure(AtLeast(3, numSlices));
  }

  /** A cone asked for fewer than 3 slices gets 3: 11 vertices and 18 indices. */
  lemma ConeClamp(numSlices: int)
    requires numSlices <= 3
    ensures AtLeast(3, numSlices) == 3
    ensures |ConeVertices(AtLeast(3, numSlices))| == 11 && |ConeIndices(AtLeast(3, numSlices))| == 18
  {
    ConeStructure(AtLeast(3, numSlices));
  }

  /** LoadCylinderMesh at its default 36 slices: 150 vertices and 432 indices. */
  lemma DefaultCylinderCounts(numSlices: int)
    requires numSlices == DefaultCylinderSlices
    ensures |CylinderVertices(AtLeast(3, numSlices))| == 150 && |CylinderIndices(AtLeast(3, numSlices))| == 432
  {
    CylinderStructure(AtLeast(3, numSlices));
  }

  /** LoadTaperedCylinderMesh at its default 18 slices: 74 vertices and 216 indices. */
  lemma DefaultTaperedCylinderCounts(numSlices: int)
    requires numSlices == DefaultTaperedCylinderSlices
    ensures |TaperedCylinderVertices(AtLeast(3, numSlices))| == 74
    ensures |TaperedCylinderIndices(AtLeast(3, numSlices))| == 216
  {
    TaperedCylinderStructure(AtLeast(3, numSlices));
  }

  /** LoadTubeMesh at its default 30 slices: 124 vertices and 720 indices. */
  lemma DefaultTubeCounts(numSlices: int)
    requires numSlices == DefaultTubeSlices
    ensures |TubeVertices(AtLeast(3, numSlices))| == 124 && |TubeIndices(AtLeast(3, numSlices))| == 720
  {
    TubeStructure(AtLeast(3, numSlices));
  }
}
