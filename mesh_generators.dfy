/**
 * The generator loops of ShapeMeshes: each method grows its vertex and index
 * buffers the way the C++ loops do (one push per iteration, caps and walls
 * in separate loops) and is proved to build exactly the buffers that
 * MeshTopology describes, whose counts, bounds and triangulation are proved
 * there.
 */
module MeshGenerators {
  import opened MeshTopology

  lemma RimRunLength(level: Level, count: nat)
    ensures |RimRun(level, count)| == count
  {
    ConcatLength((i: nat) => [Rim(level, i)], count, 1);
  }

  lemma WallColumnsLength(count: nat)
    ensures |WallColumns(count)| == 2 * count
  {
    ConcatLength((i: nat) => [Wall(Bottom, i), Wall(Top, i)], count, 2);
  }

  /** A cap loop: the centre, then one rim vertex (and, while i < n, one fan triangle) per step. */
  method CapLoop(level: Level, centre: nat, n: nat, runs: nat, nextFirst: bool)
    returns (vertices: seq<Vertex>, indices: seq<int>)
    requires n > 0 && (runs == n || runs == n + 1)
    ensures vertices == [Centre(level)] + RimRun(level, runs)
    ensures indices == Fan(centre, n, nextFirst)
  {
    vertices := [Centre(level)];
    indices := [];
    var i := 0;
    while i < runs
      invariant 0 <= i <= runs
      invariant vertices == [Centre(level)] + RimRun(level, i)
      invariant indices == Concat(FanGen(centre, n, nextFirst), if i < n then i else n)
    {
      vertices := vertices + [Rim(level, i)];
      if i < n {
        if nextFirst {
          indices := indices + [centre, centre + 1 + (i + 1) % n, centre + 1 + i];
        } else {
          indices := indices + [centre, centre + 1 + i, centre + 1 + (i + 1) % n];
        }
      }
      i := i + 1;
    }
  }

  /** LoadConeMesh: clamp, bottom fan loop, apex, one side triangle per slice. */
  method ConeBuffers(numSlices: int) returns (slices: nat, vertices: seq<Vertex>, indices: seq<int>)
    ensures slices == AtLeast(3, numSlices)
    ensures vertices == ConeVertices(slices) && indices == ConeIndices(slices)
  {
    var n := numSlices;
    if n < 3 {
      n := 3;
    }
    slices := n;
    vertices, indices := CapLoop(Bottom, 0, n, n, true);
    RimRunLength(Bottom, n);
    var apexIndex := |vertices|;
    vertices := vertices + [Apex];
    var walls, sides := ConeSideLoop(n, apexIndex);
    vertices := vertices + walls;
    indices := indices + sides;
  }

  /** The cone's side loop: two wall vertices and one triangle to the apex per slice. */
  method ConeSideLoop(n: nat, apexIndex: int) returns (walls: seq<Vertex>, sides: seq<int>)
    requires apexIndex == n + 1
    ensures walls == Concat(ConeWallGen(), n) && sides == ConeSides(n)
  {
    var sideStart := apexIndex + 1;
    walls, sides := [], [];
    var i := 0;
    while i < n
      invariant 0 <= i <= n
      invariant walls == Concat(ConeWallGen(), i)
      invariant sides == Concat(ConeSideGen(n), i)
    {
      walls := walls + [Wall(Bottom, i), Wall(Bottom, i + 1)];
      sides := sides + [apexIndex, sideStart + 2 * i, sideStart + 2 * i + 1];
      i := i + 1;
    }
  }

  /** LoadCylinderMesh: two cap loops over n+1 rim vertices, then n+1 wall columns. */
  method CylinderBuffers(numSlices: int) returns (slices: nat, vertices: seq<Vertex>, indices: seq<int>)
    ensures slices == AtLeast(3, numSlices)
    ensures vertices == CylinderVertices(slices) && indices == CylinderIndices(slices)
  {
    var n := numSlices;
    if n < 3 {
      n := 3;
    }
    slices := n;
    var bottomVs, bottomIs := CapLoop(Bottom, 0, n, n + 1, false);
    assert |bottomVs| == n + 2 by {
      RimRunLength(Bottom, n + 1);
    }
    var topVs, topIs := CapLoop(Top, n + 2, n, n + 1, false);
    assert |topVs| == n + 2 by {
      RimRunLength(Top, n + 1);
    }
    var walls, sides := CylinderSideLoop(n, |bottomVs| + |topVs|);
    vertices := bottomVs + topVs + walls;
    indices := bottomIs + topIs + sides;
    CylinderAssembly(n, bottomVs, topVs, walls, bottomIs, topIs, sides);
  }

  lemma CylinderAssembly(n: nat, bottomVs: seq<Vertex>, topVs: seq<Vertex>, walls: seq<Vertex>,
                         bottomIs: seq<int>, topIs: seq<int>, sides: seq<int>)
    requires n > 0
    requires bottomVs == [Centre(Bottom)] + RimRun(Bottom, n + 1) && topVs == [Centre(Top)] + RimRun(Top, n + 1)
    requires walls == WallColumns(n + 1)
    requires bottomIs == Fan(0, n, false) && topIs == Fan(n + 2, n, false) && sides == CylinderSides(n)
    ensures bottomVs + topVs + walls == CylinderVertices(n)
    ensures bottomIs + topIs + sides == CylinderIndices(n)
  {
  }

  /** The cylinder's side loop: n+1 wall columns and, for the first n, one quad each. */
  method CylinderSideLoop(n: nat, sideStart: int) returns (walls: seq<Vertex>, sides: seq<int>)
    requires sideStart == 2 * n + 4
    ensures walls == WallColumns(n + 1) && sides == CylinderSides(n)
  {
    walls, sides := [], [];
    var i := 0;
    while i <= n
      invariant 0 <= i <= n + 1
      invariant walls == WallColumns(i)
      invariant sides == Concat(CylinderSideGen(n), if i < n then i else n)
    {
      walls := walls + [Wall(Bottom, i), Wall(Top, i)];
      if i < n {
        sides := sides + [sideStart + i * 2, sideStart + i * 2 + 1, sideStart + (i + 1) * 2,
                          sideStart + i * 2 + 1, sideStart + (i + 1) * 2, sideStart + (i + 1) * 2 + 1];
      }
      i := i + 1;
    }
  }

  /** LoadTaperedCylinderMesh: two cap loops over n rim vertices, n wall columns, then the wrapping side quads. */
  method TaperedCylinderBuffers(numSlices: int) returns (slices: nat, vertices: seq<Vertex>, indices: seq<int>)
    ensures slices == AtLeast(3, numSlices)
    ensures vertices == TaperedCylinderVertices(slices) && indices == TaperedCylinderIndices(slices)
  {
    var n := numSlices;
    if n < 3 {
      n := 3;
    }
    slices := n;
    var bottomVs, bottomIs := CapLoop(Bottom, 0, n, n, false);
    RimRunLength(Bottom, n);
    var topVs, topIs := CapLoop(Top, n + 1, n, n, true);
    RimRunLength(Top, n);
    var walls := WallLoop(n);
    var sides := TaperedSideLoop(n, |bottomVs| + |topVs|);
    vertices := bottomVs + topVs + walls;
    indices := bottomIs + topIs + sides;
    TaperedCylinderAssembly(n, bottomVs, topVs, walls, bottomIs, topIs, sides);
  }

  lemma TaperedCylinderAssembly(n: nat, bottomVs: seq<Vertex>, topVs: seq<Vertex>, walls: seq<Vertex>,
                                bottomIs: seq<int>, topIs: seq<int>, sides: seq<int>)
    requires n > 0
    requires bottomVs == [Centre(Bottom)] + RimRun(Bottom, n) && topVs == [Centre(Top)] + RimRun(Top, n)
    requires walls == WallColumns(n)
    requires bottomIs == Fan(0, n, false) && topIs == Fan(n + 1, n, true) && sides == TaperedCylinderSides(n)
    ensures bottomVs + topVs + walls == TaperedCylinderVertices(n)
    ensures bottomIs + topIs + sides == TaperedCylinderIndices(n)
  {
  }

  /** A loop pushing a bottom and a top wall vertex per step. */
  method WallLoop(count: nat) returns (walls: seq<Vertex>)
    ensures walls == WallColumns(count)
  {
    walls := [];
    var i := 0;
    while i < count
      invariant 0 <= i <= count
      invariant walls == WallColumns(i)
    {
      walls := walls + [Wall(Bottom, i), Wall(Top, i)];
      i := i + 1;
    }
  }

  /** The tapered cylinder's side loop: quad i joins wall column i to column (i + 1) % n. */
  method TaperedSideLoop(n: nat, sideStart: int) returns (sides: seq<int>)
    requires n > 0 && sideStart == 2 * n + 2
    ensures sides == TaperedCylinderSides(n)
  {
    sides := [];
    var i := 0;
    while i < n
      invariant 0 <= i <= n
      invariant sides == Concat(TaperedSideGen(n), i)
    {
      var iNext := (i + 1) % n;
      var b := sideStart + 2 * i;
      var bn := sideStart + 2 * iNext;
      TaperedSideStep(n, i);
      sides := sides + [b, bn, b + 1, b + 1, bn, bn + 1];
      i := i + 1;
    }
  }

  /** DrawPartialConeMesh's generator: clamp, n+1 (bottom, apex) columns, then two triangles per slice. */
  method PartialConeBuffers(numSlices: int) returns (slices: nat, vertices: seq<Vertex>, indices: seq<int>)
    ensures slices == AtLeast(3, numSlices)
    ensures vertices == PartialConeVertices(slices) && indices == PartialConeIndices(slices)
  {
    var n := numSlices;
    if n < 3 {
      n := 3;
    }
    slices := n;
    vertices := [];
    var i := 0;
    while i <= n
      invariant 0 <= i <= n + 1
      invariant vertices == WallColumns(i)
    {
      vertices := vertices + [Wall(Bottom, i), Wall(Top, i)];
      i := i + 1;
    }
    indices := [];
    i := 0;
    while i < n
      invariant 0 <= i <= n
      invariant indices == Concat(PartialConeGen(), i)
    {
      var b0 := 2 * i;
      var a0 := b0 + 1;
      var b1 := 2 * (i + 1);
      var a1 := b1 + 1;
      indices := indices + [b0, a1, a0] + [b0, b1, a1];
      i := i + 1;
    }
  }

  /** LoadTubeMesh: n+1 steps of four ring vertices, then the wall loop, then the end-cap loop. */
  method TubeBuffers(numSlices: int) returns (slices: nat, vertices: seq<Vertex>, indices: seq<int>)
    ensures slices == AtLeast(3, numSlices)
    ensures vertices == TubeVertices(slices) && indices == TubeIndices(slices)
  {
    var n := numSlices;
    if n < 3 {
      n := 3;
    }
    slices := n;
    vertices := TubeVertexLoop(n);
    var walls := TubeWallLoop(n);
    var caps := TubeCapLoop(n);
    indices := walls + caps;
  }

  /** The vertex loop `for (i = 0; i <= numSlices; ++i)`: outer bottom, outer top, inner bottom, inner top. */
  method TubeVertexLoop(n: nat) returns (vertices: seq<Vertex>)
    ensures vertices == TubeVertices(n)
  {
    vertices := [];
    var i := 0;
    while i <= n
      invariant 0 <= i <= n + 1
      invariant vertices == Concat(TubeVertexGen(), i)
    {
      vertices := vertices + [TubeWall(true, Bottom, i), TubeWall(true, Top, i),
                              TubeWall(false, Bottom, i), TubeWall(false, Top, i)];
      i := i + 1;
    }
  }

  /** The wall loop: the outer quad, then the inner quad wound the other way. */
  method TubeWallLoop(n: nat) returns (walls: seq<int>)
    ensures walls == TubeWalls(n)
  {
    walls := [];
    var i := 0;
    while i < n
      invariant 0 <= i <= n
      invariant walls == Concat(TubeWallGen(), i)
    {
      var outerBottom1 := i * 4;
      var outerTop1 := outerBottom1 + 1;
      var outerBottom2 := outerBottom1 + 4;
      var outerTop2 := outerTop1 + 4;
      var innerBottom1 := outerBottom1 + 2;
      var innerTop1 := outerTop1 + 2;
      var innerBottom2 := innerBottom1 + 4;
      var innerTop2 := innerTop1 + 4;
      TubeWallStep(i);
      walls := walls + [outerBottom1, outerBottom2, outerTop1] + [outerTop1, outerBottom2, outerTop2]
                     + [innerBottom1, innerTop1, innerBottom2] + [innerTop1, innerTop2, innerBottom2];
      i := i + 1;
    }
  }

  /** The ring loop: the bottom ring quad, then the top ring quad. */
  method TubeCapLoop(n: nat) returns (caps: seq<int>)
    ensures caps == TubeCaps(n)
  {
    caps := [];
    var i := 0;
    while i < n
      invariant 0 <= i <= n
      invariant caps == Concat(TubeCapGen(), i)
    {
      var outerBottom1 := i * 4;
      var innerBottom1 := outerBottom1 + 2;
      var outerBottom2 := outerBottom1 + 4;
      var innerBottom2 := innerBottom1 + 4;
      var outerTop1 := outerBottom1 + 1;
      var innerTop1 := innerBottom1 + 1;
      var outerTop2 := outerBottom2 + 1;
      var innerTop2 := innerBottom2 + 1;
      TubeCapStep(i);
      caps := caps + [outerBottom1, outerBottom2, innerBottom1] + [innerBottom1, outerBottom2, innerBottom2]
                   + [innerTop1, outerTop1, innerTop2] + [innerTop2, outerTop1, outerTop2];
      i := i + 1;
    }
  }

  /**
   * The sample loops of the grid shapes (sphere, hemisphere, torus, spring,
   * curved cone, tapered torus, sine cone, superellipsoid):
   * `for (i = 0; i <= mainSegments; ++i) for (j = 0; j <= crossSegments; ++j)`.
   */
  method GridSamples(mainSegments: int, crossSegments: int) returns (vertices: seq<Vertex>)
    ensures vertices == GridShapeVertices(mainSegments, crossSegments)
  {
    var rows, cols := Nat(mainSegments + 1), Nat(crossSegments + 1);
    vertices := [];
    var i := 0;
    while i <= mainSegments
      invariant 0 <= i <= rows
      invariant vertices == Samples(i, cols, GridLabel())
    {
      var row: seq<Vertex> := [];
      var j := 0;
      while j <= crossSegments
        invariant 0 <= j <= cols
        invariant row == Concat(SampleColGen(i, GridLabel()), j)
      {
        row := row + [GridPoint(i, j)];
        j := j + 1;
      }
      SamplesStep(i, cols, GridLabel());
      vertices := vertices + row;
      i := i + 1;
    }
  }

  /**
   * The index loops of the grid shapes:
   * `for (i = 0; i < mainSegments; ++i) for (j = 0; j < crossSegments; ++j)`
   * with `first = i * (crossSegments + 1) + j` and `second = first + crossSegments + 1`.
   */
  method GridCells(mainSegments: int, crossSegments: int, w: Winding) returns (indices: seq<int>)
    ensures indices == GridShapeIndices(mainSegments, crossSegments, w)
  {
    var rows, cols := Nat(mainSegments), Nat(crossSegments);
    var stride := crossSegments + 1;
    indices := [];
    var i := 0;
    while i < mainSegments
      invariant 0 <= i <= rows
      invariant indices == Cells(i, cols, GridCellFn(stride, w))
    {
      var row: seq<int> := [];
      var j := 0;
      while j < crossSegments
        invariant 0 <= j <= cols
        invariant row == Concat(CellColGen(i, GridCellFn(stride, w)), j)
      {
        var first := i * stride + j;
        var second := first + crossSegments + 1;
        assert second == (i + 1) * stride + j;
        assert CellColGen(i, GridCellFn(stride, w))(j) == GridQuad(w, first, second);
        match w {
          case SphereWinding =>
            row := row + [first, second, first + 1] + [second, second + 1, first + 1];
          case StripWinding =>
            row := row + [first, second, first + 1] + [first + 1, second, second + 1];
        }
        j := j + 1;
      }
      GridSixPerCell(stride, w);
      CellsStep(i, cols, GridCellFn(stride, w));
      indices := indices + row;
      i := i + 1;
    }
  }

  /** The extra tori's cell loop over their fixed 30 x 30 table. */
  method ExtraTorusBuffers() returns (vertices: seq<Vertex>)
    ensures vertices == ExtraTorusVertices(ExtraTorusSegments, ExtraTorusSegments)
  {
    var m, t := ExtraTorusSegments, ExtraTorusSegments;
    vertices := [];
    var i := 0;
    while i < m
      invariant 0 <= i <= m
      invariant vertices == Concat(ExtraTorusRowGen(m, t), i)
    {
      var row: seq<Vertex> := [];
      var j := 0;
      while j < t
        invariant 0 <= j <= t
        invariant row == Concat((j: nat) => ExtraTorusCell(i, j, m, t), j)
      {
        row := row + ExtraTorusCell(i, j, m, t);
        j := j + 1;
      }
      vertices := vertices + row;
      i := i + 1;
    }
    ExtraTorusRowsAgree(m, t);
  }

  /**
   * DrawSpiralMesh's geometry for a sweep of ringCount tube rings (the count
   * its floating-point sweep yields; it reads centers[1], so at least two):
   * the ring samples, the 8 cap rings, the bands between tube rings and
   * between cap rings, and the join from the last cap ring back to ring 0.
   */
  method SpiralBuffers(ringCount: nat, tubeSegments: int) returns (vertices: seq<Vertex>, indices: seq<int>)
    requires ringCount >= 2
    ensures vertices == SpiralVertices(ringCount, Nat(tubeSegments))
    ensures indices == SpiralIndices(ringCount, Nat(tubeSegments))
  {
    var segs := Nat(tubeSegments);
    var tubeVs, ringStartIndices := SpiralTubeRings(ringCount, segs);
    SamplesLength(ringCount, segs, RowNames(SpiralRows(ringCount)));
    var baseIndex := |tubeVs|;
    assert baseIndex == ringCount * segs;
    vertices := SpiralCapRings(ringCount, segs, tubeVs);
    var tube := SpiralBandLoop(ringCount - 1, segs, 0);
    assert tube == SpiralTube(ringCount, segs);
    var cap := SpiralBandLoop(CapRings - 1, segs, baseIndex);
    assert cap == SpiralCap(ringCount, segs);
    var join := SpiralJoinLoop(segs, baseIndex + (CapRings - 1) * segs, ringStartIndices);
    assert join == SpiralJoin(ringCount, segs);
    indices := tube + cap + join;
  }

  /** The tube ring loop; ring 0 also records its sample indices in ringStartIndices. */
  method SpiralTubeRings(ringCount: nat, segs: nat) returns (vertices: seq<Vertex>, ringStartIndices: seq<int>)
    ensures vertices == Samples(ringCount, segs, RowNames(SpiralRows(ringCount)))
    ensures ringCount > 0 ==> |ringStartIndices| == segs && forall j :: 0 <= j < segs ==> ringStartIndices[j] == j
  {
    var name := RowNames(SpiralRows(ringCount));
    vertices := [];
    ringStartIndices := [];
    var i := 0;
    while i < ringCount
      invariant 0 <= i <= ringCount
      invariant vertices == Samples(i, segs, name)
      invariant i > 0 ==> |ringStartIndices| == segs && forall j :: 0 <= j < segs ==> ringStartIndices[j] == j
    {
      var row: seq<Vertex> := [];
      var j := 0;
      while j < segs
        invariant 0 <= j <= segs
        invariant row == Concat(SampleColGen(i, name), j)
      {
        row := row + [GridPoint(i, j)];
        j := j + 1;
      }
      SamplesStep(i, segs, name);
      vertices := vertices + row;
      if i == 0 {
        ringStartIndices := RingStart(segs);
      }
      i := i + 1;
    }
  }

  /** `for (j = 0; j < tubeSegments; ++j) ringStartIndices.push_back(j)`. */
  method RingStart(segs: nat) returns (starts: seq<int>)
    ensures |starts| == segs && forall j :: 0 <= j < segs ==> starts[j] == j
  {
    starts := [];
    var j := 0;
    while j < segs
      invariant 0 <= j <= segs
      invariant |starts| == j && forall k :: 0 <= k < j ==> starts[k] == k
    {
      starts := starts + [j];
      j := j + 1;
    }
  }

  /** The cap ring loop `for (i = 1; i <= capRings; ++i)`, appended after the tube rings. */
  method SpiralCapRings(ringCount: nat, segs: nat, tubeVs: seq<Vertex>) returns (vertices: seq<Vertex>)
    requires tubeVs == Samples(ringCount, segs, RowNames(SpiralRows(ringCount)))
    ensures vertices == SpiralVertices(ringCount, segs)
  {
    var name := RowNames(SpiralRows(ringCount));
    vertices := tubeVs;
    var i := 1;
    while i <= CapRings
      invariant 1 <= i <= CapRings + 1
      invariant vertices == Samples(ringCount + i - 1, segs, name)
    {
      var row: seq<Vertex> := [];
      var j := 0;
      while j < segs
        invariant 0 <= j <= segs
        invariant row == Concat(SampleColGen(ringCount + i - 1, name), j)
      {
        row := row + [CapRing(i, j)];
        j := j + 1;
      }
      SamplesStep(ringCount + i - 1, segs, name);
      vertices := vertices + row;
      i := i + 1;
    }
  }

  /**
   * A band loop between consecutive rings of segs samples starting at base,
   * wrapping with `(j + 1) % tubeSegments`; with no samples it pushes nothing.
   */
  method SpiralBandLoop(rings: nat, segs: nat, base: nat) returns (indices: seq<int>)
    ensures segs == 0 ==> indices == []
    ensures segs > 0 ==> indices == Cells(rings, segs, SpiralBandFn(base, segs))
  {
    indices := [];
    if segs == 0 {
      return;
    }
    var ringStride := segs;
    var i := 0;
    while i < rings
      invariant 0 <= i <= rings
      invariant indices == Cells(i, segs, SpiralBandFn(base, segs))
    {
      var row: seq<int> := [];
      var j := 0;
      while j < segs
        invariant 0 <= j <= segs
        invariant row == Concat(CellColGen(i, SpiralBandFn(base, segs)), j)
      {
        WrapIsMod(j, segs);
        var curr := base + i * ringStride + j;
        var next := base + (i + 1) * ringStride + j;
        var currNext := base + i * ringStride + (j + 1) % segs;
        var nextNext := base + (i + 1) * ringStride + (j + 1) % segs;
        assert CellColGen(i, SpiralBandFn(base, segs))(j) == [curr, next, currNext] + [currNext, next, nextNext];
        row := row + [curr, next, currNext] + [currNext, next, nextNext];
        j := j + 1;
      }
      SpiralBandSix(base, segs);
      CellsStep(i, segs, SpiralBandFn(base, segs));
      indices := indices + row;
      i := i + 1;
    }
  }

  /** The join loop from the last cap ring (starting at capLast) to the recorded ring-0 indices. */
  method SpiralJoinLoop(segs: nat, capLast: nat, ringStartIndices: seq<int>) returns (indices: seq<int>)
    requires |ringStartIndices| == segs && forall j :: 0 <= j < segs ==> ringStartIndices[j] == j
    ensures segs == 0 ==> indices == []
    ensures segs > 0 ==> indices == Concat(SpiralJoinGen(capLast, segs), segs)
  {
    indices := [];
    var j := 0;
    while j < segs
      invariant 0 <= j <= segs
      invariant segs == 0 ==> indices == []
      invariant segs > 0 ==> indices == Concat(SpiralJoinGen(capLast, segs), j)
    {
      WrapIsMod(j, segs);
      var capRing := capLast + j;
      var tubeRing := ringStartIndices[j];
      var capNext := capLast + (j + 1) % segs;
      var tubeNext := ringStartIndices[(j + 1) % segs];
      indices := indices + [capRing, tubeRing, capNext] + [capNext, tubeRing, tubeNext];
      j := j + 1;
    }
  }
}
