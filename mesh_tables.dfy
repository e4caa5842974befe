/**
 * The meshes ShapeMeshes loads from constant tables: the box, the plane, the
 * prism, the two pyramids and the fin.  Their vertices are named `Table(k)`;
 * for the box the table's positions and normals are kept too, with every
 * coordinate doubled so that the half-unit box has integer corners.
 */
module MeshTables {
  import opened MeshTopology

  /** The rows 0 .. n-1 of a constant vertex table. */
  function TableVertices(n: nat): (vs: seq<Vertex>)
    ensures |vs| == n && forall k :: 0 <= k < n ==> vs[k] == Table(k)
  {
    seq(n, (k: int) => Table(k))
  }

  /** A point or direction with integer coordinates. */
  datatype Point = Point(x: int, y: int, z: int)

  function Dot(a: Point, b: Point): int
  {
    a.x * b.x + a.y * b.y + a.z * b.z
  }

  /** The triple product (u x v) . n, written out on coordinates. */
  function Det(ux: int, uy: int, uz: int, vx: int, vy: int, vz: int, nx: int, ny: int, nz: int): int
  {
    (uy * vz - uz * vy) * nx + (uz * vx - ux * vz) * ny + (ux * vy - uy * vx) * nz
  }

  /** The rows of a table laid out block by block, one block after the other. */
  function Flatten<T>(blocks: seq<seq<T>>): (s: seq<T>)
  {
    if blocks == [] then [] else blocks[0] + Flatten(blocks[1..])
  }

  /** Blocks of w rows each: row j of block k is row k * w + j of the table. */
  lemma {:induction false} FlattenAt<T>(blocks: seq<seq<T>>, w: nat, k: nat, j: nat)
    requires forall b :: 0 <= b < |blocks| ==> |blocks[b]| == w
    requires k < |blocks| && j < w
    ensures |Flatten(blocks)| == |blocks| * w
    ensures k * w + j < |Flatten(blocks)| && Flatten(blocks)[k * w + j] == blocks[k][j]
  {
    RestWidth(blocks, w);
    FlattenLength(blocks, w);
    if k == 0 {
      FlattenHead(blocks, j);
    } else {
      FlattenAt(blocks[1..], w, k - 1, j);
      assert blocks[1..][k - 1] == blocks[k];
      FlattenAtStep(blocks, w, k, j);
    }
  }

  lemma FlattenAtStep<T>(blocks: seq<seq<T>>, w: nat, k: nat, j: nat)
    requires blocks != [] && |blocks[0]| == w && 0 < k && j < w
    requires (k - 1) * w + j < |Flatten(blocks[1..])|
    ensures k * w + j < |Flatten(blocks)|
    ensures Flatten(blocks)[k * w + j] == Flatten(blocks[1..])[(k - 1) * w + j]
  {
    assert k * w == (k - 1) * w + w;
    FlattenShift(blocks, (k - 1) * w + j);
  }

  lemma FlattenHead<T>(blocks: seq<seq<T>>, j: nat)
    requires blocks != [] && j < |blocks[0]|
    ensures j < |Flatten(blocks)| && Flatten(blocks)[j] == blocks[0][j]
  {
    assert Flatten(blocks) == blocks[0] + Flatten(blocks[1..]);
  }

  lemma FlattenShift<T>(blocks: seq<seq<T>>, i: nat)
    requires blocks != [] && i < |Flatten(blocks[1..])|
    ensures |blocks[0]| + i < |Flatten(blocks)|
    ensures Flatten(blocks)[|blocks[0]| + i] == Flatten(blocks[1..])[i]
  {
    assert Flatten(blocks) == blocks[0] + Flatten(blocks[1..]);
  }

  lemma RestWidth<T>(blocks: seq<seq<T>>, w: nat)
    requires blocks != [] && forall b :: 0 <= b < |blocks| ==> |blocks[b]| == w
    ensures |blocks[0]| == w && forall b :: 0 <= b < |blocks[1..]| ==> |blocks[1..][b]| == w
  {
    forall b | 0 <= b < |blocks[1..]|
      ensures |blocks[1..][b]| == w
    {
      assert blocks[1..][b] == blocks[b + 1];
    }
  }

  lemma {:induction false} FlattenLength<T>(blocks: seq<seq<T>>, w: nat)
    requires forall b :: 0 <= b < |blocks| ==> |blocks[b]| == w
    ensures |Flatten(blocks)| == |blocks| * w
  {
    if blocks != [] {
      RestWidth(blocks, w);
      FlattenLength(blocks[1..], w);
      assert |blocks| * w == w + |blocks[1..]| * w;
    }
  }

  // ---------------------------------------------------------------------
  // Box: six faces of four vertices each, in the order back, bottom, left,
  // right, top, front; each face is the two triangles (0,1,2) and (2,3,0)
  // over its four vertices.
  // ---------------------------------------------------------------------

  /** A row of the box table: its position (doubled) and its normal; the texture coordinate is not kept. */
  datatype BoxRow = BoxRow(position: Point, normal: Point)

  /** The box table, face by face. */
  const BoxTable: seq<seq<BoxRow>> := [
    [BoxRow(Point(1, 1, -1), Point(0, 0, -1)), BoxRow(Point(1, -1, -1), Point(0, 0, -1)),
     BoxRow(Point(-1, -1, -1), Point(0, 0, -1)), BoxRow(Point(-1, 1, -1), Point(0, 0, -1))],
    [BoxRow(Point(-1, -1, 1), Point(0, -1, 0)), BoxRow(Point(-1, -1, -1), Point(0, -1, 0)),
     BoxRow(Point(1, -1, -1), Point(0, -1, 0)), BoxRow(Point(1, -1, 1), Point(0, -1, 0))],
    [BoxRow(Point(-1, 1, -1), Point(-1, 0, 0)), BoxRow(Point(-1, -1, -1), Point(-1, 0, 0)),
     BoxRow(Point(-1, -1, 1), Point(-1, 0, 0)), BoxRow(Point(-1, 1, 1), Point(-1, 0, 0))],
    [BoxRow(Point(1, 1, 1), Point(1, 0, 0)), BoxRow(Point(1, -1, 1), Point(1, 0, 0)),
     BoxRow(Point(1, -1, -1), Point(1, 0, 0)), BoxRow(Point(1, 1, -1), Point(1, 0, 0))],
    [BoxRow(Point(-1, 1, -1), Point(0, 1, 0)), BoxRow(Point(-1, 1, 1), Point(0, 1, 0)),
     BoxRow(Point(1, 1, 1), Point(0, 1, 0)), BoxRow(Point(1, 1, -1), Point(0, 1, 0))],
    [BoxRow(Point(-1, 1, 1), Point(0, 0, 1)), BoxRow(Point(-1, -1, 1), Point(0, 0, 1)),
     BoxRow(Point(1, -1, 1), Point(0, 0, 1)), BoxRow(Point(1, 1, 1), Point(0, 0, 1))]
  ]

  /** The box's index list, face by face. */
  const BoxIndexBlocks: seq<seq<int>> := [
    [0, 1, 2, 2, 3, 0],
    [4, 5, 6, 6, 7, 4],
    [8, 9, 10, 10, 11, 8],
    [12, 13, 14, 14, 15, 12],
    [16, 17, 18, 18, 19, 16],
    [20, 21, 22, 22, 23, 20]
  ]

  function BoxIndices(): seq<int>
  {
    Flatten(BoxIndexBlocks)
  }

  const BoxVertexCount: nat := 24

  /** The six indices of face k: triangles (0,1,2) and (2,3,0) over its vertices 4k .. 4k+3. */
  function BoxFace(k: nat): seq<int>
  {
    [4 * k, 4 * k + 1, 4 * k + 2, 4 * k + 2, 4 * k + 3, 4 * k]
  }

  lemma BoxBlock(k: nat)
    requires k < 6
    ensures |BoxIndexBlocks| == 6 && BoxIndexBlocks[k] == BoxFace(k)
  {
    if k == 0 {
    } else if k == 1 {
    } else if k == 2 {
    } else if k == 3 {
    } else if k == 4 {
    } else {
    }
  }

  /** The box has 36 indices; face k's six are its own triangles, over the vertices 4k .. 4k+3. */
  lemma BoxFaceIndices(k: nat)
    requires k < 6
    ensures |BoxIndices()| == 36
    ensures forall i :: 6 * k <= i < 6 * k + 6 ==> BoxIndices()[i] == BoxFace(k)[i - 6 * k]
  {
    forall b | 0 <= b < |BoxIndexBlocks|
      ensures |BoxIndexBlocks[b]| == 6
    {
      BoxBlock(b);
    }
    BoxBlock(k);
    forall i | 6 * k <= i < 6 * k + 6
      ensures BoxIndices()[i] == BoxFace(k)[i - 6 * k]
    {
      FlattenAt(BoxIndexBlocks, 6, k, i - 6 * k);
      assert k * 6 + (i - 6 * k) == i;
    }
    FlattenLength(BoxIndexBlocks, 6);
  }

  lemma BoxInBounds()
    ensures InBounds(BoxIndices(), BoxVertexCount)
  {
    BoxFaceIndices(0);
    forall i | 0 <= i < |BoxIndices()|
      ensures 0 <= BoxIndices()[i] < BoxVertexCount
    {
      BoxFaceIndices(i / 6);
    }
  }

  /** Triangle (a, b, c) winds counter-clockwise seen from the side `normal` points to. */
  predicate FacesOutward(a: Point, b: Point, c: Point, normal: Point)
  {
    Det(b.x - a.x, b.y - a.y, b.z - a.z, c.x - a.x, c.y - a.y, c.z - a.z, normal.x, normal.y, normal.z) > 0
  }

  /** The sum of a face's four corners: four times its centroid. */
  function CornerSum(face: seq<BoxRow>): Point
    requires |face| == 4
  {
    Point(face[0].position.x + face[1].position.x + face[2].position.x + face[3].position.x,
          face[0].position.y + face[1].position.y + face[2].position.y + face[3].position.y,
          face[0].position.z + face[1].position.z + face[2].position.z + face[3].position.z)
  }

  /** An integer vector of length one: one coordinate is 1 or -1 and the others are 0 (UnitAxisShape). */
  predicate UnitAxis(n: Point)
  {
    Dot(n, n) == 1
  }

  /** A unit integer vector points along one of the three axes. */
  lemma UnitAxisShape(n: Point)
    ensures UnitAxis(n) <==>
      (n.x * n.x == 1 && n.y == 0 && n.z == 0) ||
      (n.x == 0 && n.y * n.y == 1 && n.z == 0) ||
      (n.x == 0 && n.y == 0 && n.z * n.z == 1)
  {
  }

  /** A face of four rows drawn as triangles (0,1,2) and (2,3,0). */
  predicate FaceSound(face: seq<BoxRow>)
    requires |face| == 4
  {
    // the shared normal is an axis-aligned unit vector
    UnitAxis(face[0].normal) &&
    // the four vertices carry one normal, and lie on the face plane one half-unit out along it
    (forall j :: 0 <= j < 4 ==> face[j].normal == face[0].normal && Dot(face[j].position, face[0].normal) == 1) &&
    // the normal points away from the box's centre, through the face's centroid
    Dot(CornerSum(face), face[0].normal) > 0 &&
    // both triangles wind counter-clockwise seen from outside
    FacesOutward(face[0].position, face[1].position, face[2].position, face[0].normal) &&
    FacesOutward(face[2].position, face[3].position, face[0].position, face[0].normal)
  }

  /**
   * Box face k, rows 4k .. 4k+3 of the table: its normal is constant and
   * an axis-aligned unit vector, points outward through the face's centroid, and both of its triangles
   * are wound counter-clockwise seen from outside.
   */
  lemma BoxGeometry(k: nat)
    requires k < 6
    ensures |BoxTable| == 6 && |BoxTable[k]| == 4 && FaceSound(BoxTable[k])
  {
    var face := BoxTable[k];
    forall j | 0 <= j < 4
      ensures face[j].normal == face[0].normal && Dot(face[j].position, face[0].normal) == 1
    {
      BoxCorner(k, j);
    }
    BoxNormal(k);
    BoxCentroid(k);
    BoxWinding(k);
  }

  lemma BoxNormal(k: nat)
    requires k < 6
    ensures |BoxTable| == 6 && |BoxTable[k]| == 4
    ensures UnitAxis(BoxTable[k][0].normal)
  {
    if k == 0 {} else if k == 1 {} else if k == 2 {} else if k == 3 {} else if k == 4 {} else {}
  }

  lemma BoxCentroid(k: nat)
    requires k < 6
    ensures |BoxTable| == 6 && |BoxTable[k]| == 4
    ensures Dot(CornerSum(BoxTable[k]), BoxTable[k][0].normal) > 0
  {
    if k == 0 {} else if k == 1 {} else if k == 2 {} else if k == 3 {} else if k == 4 {} else {}
  }

  lemma BoxWinding(k: nat)
    requires k < 6
    ensures |BoxTable| == 6 && |BoxTable[k]| == 4
    ensures FacesOutward(BoxTable[k][0].position, BoxTable[k][1].position, BoxTable[k][2].position, BoxTable[k][0].normal)
    ensures FacesOutward(BoxTable[k][2].position, BoxTable[k][3].position, BoxTable[k][0].position, BoxTable[k][0].normal)
  {
    if k == 0 {} else if k == 1 {} else if k == 2 {} else if k == 3 {} else if k == 4 {} else {}
  }

  lemma BoxCorner(k: nat, j: nat)
    requires k < 6 && j < 4
    ensures |BoxTable| == 6 && |BoxTable[k]| == 4
    ensures BoxTable[k][j].normal == BoxTable[k][0].normal && Dot(BoxTable[k][j].position, BoxTable[k][0].normal) == 1
  {
    if k == 0 {} else if k == 1 {} else if k == 2 {} else if k == 3 {} else if k == 4 {} else {}
  }

  // ---------------------------------------------------------------------
  // Plane, prism and pyramids.
  // ---------------------------------------------------------------------

  const PlaneVertexCount: nat := 4
  const PlaneIndices: seq<int> := [0, 1, 2, 0, 2, 3]

  const PrismVertexCount: nat := 32
  const PrismIndices: seq<int> := [0, 1, 2]

  /** Three side faces of three vertices each, then the three-vertex base. */
  const Pyramid3VertexCount: nat := 12

  /** The two base triangles, then four side faces of three vertices each. */
  const Pyramid4VertexCount: nat := 18

  /** The triangles of an index list read as GL_TRIANGLES: consecutive triples. */
  function ListTriangles(s: seq<int>): (ts: seq<seq<int>>)
    ensures |ts| == |s| / 3
    ensures forall t :: 0 <= t < |ts| ==> ts[t] == s[3 * t .. 3 * t + 3]
  {
    seq(|s| / 3, (t: int) requires 0 <= t < |s| / 3 => s[3 * t .. 3 * t + 3])
  }

  /** The triangles of an index list read as GL_TRIANGLE_STRIP: every window of three. */
  function StripTriangles(s: seq<int>): (ts: seq<seq<int>>)
    ensures |ts| == if |s| < 3 then 0 else |s| - 2
    ensures forall t :: 0 <= t < |ts| ==> t + 3 <= |s| && ts[t] == s[t .. t + 3]
  {
    if |s| < 3 then [] else seq(|s| - 2, (t: int) requires 0 <= t < |s| - 2 => s[t .. t + 3])
  }

  /**
   * The plane's six indices are two triangles as a list; read as a strip
   * they are four triangles: the first one twice, a degenerate one, and the
   * second.
   */
  lemma PlaneAsStrip()
    ensures InBounds(PlaneIndices, PlaneVertexCount)
    ensures ListTriangles(PlaneIndices) == [[0, 1, 2], [0, 2, 3]]
    ensures StripTriangles(PlaneIndices) == [[0, 1, 2], [1, 2, 0], [2, 0, 2], [0, 2, 3]]
  {
    var s := PlaneIndices;
    assert s[0 .. 3] == [0, 1, 2] && s[3 .. 6] == [0, 2, 3];
    assert s[1 .. 4] == [1, 2, 0] && s[2 .. 5] == [2, 0, 2];
  }

  // ---------------------------------------------------------------------
  // Fin: front (z-), back (z+), top, bottom, left and right faces of four
  // vertices each; each face is two triangles over its own four vertices.
  // ---------------------------------------------------------------------

  const FinVertexCount: nat := 24

  /** The fin's index list, face by face. */
  const FinIndexBlocks: seq<seq<int>> := [
    [0, 1, 2, 1, 3, 2],
    [4, 6, 5, 5, 6, 7],
    [8, 9, 10, 9, 11, 10],
    [12, 14, 13, 14, 15, 13],
    [16, 18, 17, 17, 18, 19],
    [20, 21, 22, 21, 23, 22]
  ]

  function FinIndices(): seq<int>
  {
    Flatten(FinIndexBlocks)
  }

  /** The face names of the fin's six blocks of six indices. */
  datatype FinFace = FinFront | FinBack | FinTop | FinBottom | FinLeft | FinRight

  const FinFaceOrder: seq<FinFace> := [FinFront, FinBack, FinTop, FinBottom, FinLeft, FinRight]

  lemma FinBlock(k: nat)
    requires k < 6
    ensures |FinIndexBlocks| == 6 && |FinIndexBlocks[k]| == 6
    ensures forall j :: 0 <= j < 6 ==> 4 * k <= FinIndexBlocks[k][j] < 4 * k + 4
  {
    if k == 0 {
    } else if k == 1 {
    } else if k == 2 {
    } else if k == 3 {
    } else if k == 4 {
    } else {
    }
  }

  /** The fin has 36 indices; block k of six uses only the four vertices 4k .. 4k+3 of face k. */
  lemma FinFaceIndices(k: nat)
    requires k < 6
    ensures |FinIndices()| == 36
    ensures forall i :: 6 * k <= i < 6 * k + 6 ==> 4 * k <= FinIndices()[i] < 4 * k + 4
  {
    forall b | 0 <= b < |FinIndexBlocks|
      ensures |FinIndexBlocks[b]| == 6
    {
      FinBlock(b);
    }
    FinBlock(k);
    forall i | 6 * k <= i < 6 * k + 6
      ensures 4 * k <= FinIndices()[i] < 4 * k + 4
    {
      FlattenAt(FinIndexBlocks, 6, k, i - 6 * k);
      assert k * 6 + (i - 6 * k) == i;
    }
    FlattenLength(FinIndexBlocks, 6);
  }

  lemma FinInBounds()
    ensures InBounds(FinIndices(), FinVertexCount)
  {
    FinFaceIndices(0);
    forall i | 0 <= i < |FinIndices()|
      ensures 0 <= FinIndices()[i] < FinVertexCount
    {
      FinFaceIndices(i / 6);
    }
  }
}
