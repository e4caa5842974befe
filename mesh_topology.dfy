/**
 * Integer structure of the meshes that ShapeMeshes builds: which vertices a
 * generator emits (named by the integer sample they are computed from) and
 * which index triples it emits over them.  The float payload of a vertex
 * (position, normal, texture coordinate) is not modelled.  A name fixes the
 * position, but not always the normal: on the cone's side each slice pushes
 * both of its rim points with its own averaged normal, so the two copies of
 * a shared rim point are both named Wall(Bottom, i + 1) yet carry the normals
 * of slices i and i + 1 (the side is flat-shaded per slice).
 */
module MeshTopology {

  /** The two ends of a capped shape. */
  datatype Level = Bottom | Top

  /**
   * A vertex, named by the integer parameters the generator evaluates its
   * floats from.  `Wall(level, step)` is a side-wall vertex at angle `step`;
   * `GridPoint(row, col)` a sample of a parametric (row, col) grid;
   * `CapRing(ring, step)` a sample of the spiral's end-cap rings;
   * `Table(k)` the k-th row of a constant vertex table.
   */
  datatype Vertex =
    | Centre(level: Level)
    | Rim(level: Level, step: int)
    | Apex
    | Wall(level: Level, step: int)
    | TubeWall(outer: bool, level: Level, step: int)
    | GridPoint(row: int, col: int)
    | CapRing(ring: int, step: int)
    | Table(k: int)

  /** Every index addresses one of the `n` vertices. */
  predicate InBounds(indices: seq<int>, n: int)
  {
    forall j :: 0 <= j < |indices| ==> 0 <= indices[j] < n
  }

  /** A loop `for (i = 0; i < n; ++i)` runs `Nat(n)` times. */
  function Nat(n: int): nat
  {
    if n < 0 then 0 else n
  }

  /** `std::max(lo, n)`, also what `if (n < lo) n = lo;` leaves in n. */
  function AtLeast(lo: int, n: int): (r: int)
    ensures r >= lo && r >= n && (r == lo || r == n)
  {
    if n < lo then lo else n
  }

  /** C++ integer division, which truncates toward zero. */
  function TruncDiv(a: int, b: int): (q: int)
    requires b > 0
    ensures a >= 0 ==> 0 <= q * b <= a < q * b + b
    ensures a < 0 ==> q * b - b < a <= q * b <= 0
  {
    if a >= 0 then
      FloorBounds(a, b);
      a / b
    else
      FloorBounds(-a, b);
      var p := (-a) / b;
      assert (-p) * b == -(p * b);
      -p
  }

  /** Euclidean division of a non-negative number rounds down. */
  lemma FloorBounds(n: int, b: int)
    requires n >= 0 && b > 0
    ensures 0 <= (n / b) * b <= n < (n / b) * b + b
  {
    var q := n / b;
    assert n == b * q + n % b;
    if q < 0 {
      assert b * q <= b * -1 by { MulLe(b, q, -1); }
    }
  }

  lemma MulLe(b: int, x: int, y: int)
    requires b > 0 && x <= y
    ensures b * x <= b * y
  {
    assert b * y - b * x == b * (y - x);
  }

  /** Block t of width w of a sequence: triangle t for w = 3, quad t for w = 6. */
  function Block<T>(s: seq<T>, w: nat, t: nat): seq<T>
    requires t * w + w <= |s|
  {
    s[t * w .. t * w + w]
  }

  /** Each index of `idx` is in range and addresses the vertex named by `labels` at that position. */
  predicate Addresses(vs: seq<Vertex>, idx: seq<int>, labels: seq<Vertex>)
  {
    |idx| == |labels| && forall j :: 0 <= j < |idx| ==> 0 <= idx[j] < |vs| && vs[idx[j]] == labels[j]
  }

  // ---------------------------------------------------------------------
  // Concatenation of k blocks: what a loop `for i < k` that appends f(i) builds.
  // ---------------------------------------------------------------------

  function Concat<T>(f: nat -> seq<T>, k: nat): seq<T>
  {
    if k == 0 then [] else Concat(f, k - 1) + f(k - 1)
  }

  lemma {:induction false} ConcatLength<T>(f: nat -> seq<T>, k: nat, w: nat)
    requires forall i: nat :: i < k ==> |f(i)| == w
    ensures |Concat(f, k)| == k * w
  {
    if k > 0 {
      ConcatLength(f, k - 1, w);
    }
  }

  lemma {:induction false} ConcatAt<T>(f: nat -> seq<T>, k: nat, w: nat, t: nat, j: nat)
    requires forall i: nat :: i < k ==> |f(i)| == w
    requires t < k && j < w
    ensures |Concat(f, k)| == k * w
    ensures t * w + j < k * w
    ensures Concat(f, k)[t * w + j] == f(t)[j]
  {
    ConcatLength(f, k, w);
    ConcatLength(f, k - 1, w);
    if t < k - 1 {
      ConcatAt(f, k - 1, w, t, j);
      MulMono(t + 1, k - 1, w);
    } else {
      assert t * w == (k - 1) * w;
    }
  }

  lemma ConcatBlock<T>(f: nat -> seq<T>, k: nat, w: nat, t: nat)
    requires forall i: nat :: i < k ==> |f(i)| == w
    requires t < k
    ensures |Concat(f, k)| == k * w
    ensures t * w + w <= k * w
    ensures Block(Concat(f, k), w, t) == f(t)
  {
    ConcatLength(f, k, w);
    MulMono(t + 1, k, w);
    assert (t + 1) * w == t * w + w;
    var c, b := Concat(f, k), t * w;
    assert |f(t)| == w;
    forall j | 0 <= j < w
      ensures c[b + j] == f(t)[j]
    {
      ConcatAt(f, k, w, t, j);
    }
    SliceOf(c, b, f(t));
  }

  /** A slice that agrees with s position by position is s. */
  lemma SliceOf<T>(c: seq<T>, b: nat, s: seq<T>)
    requires b + |s| <= |c|
    requires forall j :: 0 <= j < |s| ==> c[b + j] == s[j]
    ensures c[b..b + |s|] == s
  {
  }

  lemma {:induction false} ConcatInBounds(f: nat -> seq<int>, k: nat, n: int)
    requires forall i: nat :: i < k ==> InBounds(f(i), n)
    ensures InBounds(Concat(f, k), n)
  {
    if k > 0 {
      ConcatInBounds(f, k - 1, n);
      assert InBounds(f(k - 1), n);
    }
  }

  lemma {:induction false} ConcatPrefix<T>(f: nat -> seq<T>, k1: nat, k2: nat)
    requires k1 <= k2
    ensures Concat(f, k1) <= Concat(f, k2)
  {
    if k1 < k2 {
      ConcatPrefix(f, k1, k2 - 1);
    }
  }

  lemma MulMono(a: nat, b: nat, c: nat)
    requires a <= b
    ensures a * c <= b * c
  {
  }

  // ---------------------------------------------------------------------
  // Triangle fans (cone bottom, cylinder and tapered-cylinder caps).
  // ---------------------------------------------------------------------

  /**
   * Triangle i of a fan around vertex `centre`, whose n rim vertices follow
   * it; `nextFirst` lists the next rim vertex before the current one.
   */
  function FanTriangle(centre: int, n: int, i: nat, nextFirst: bool): seq<int>
    requires n > 0
  {
    if nextFirst then [centre, centre + 1 + (i + 1) % n, centre + 1 + i]
    else [centre, centre + 1 + i, centre + 1 + (i + 1) % n]
  }

  function Fan(centre: int, n: int, nextFirst: bool): seq<int>
    requires n > 0
  {
    Concat((i: nat) => FanTriangle(centre, n, i, nextFirst), n)
  }

  /** The rim vertices of one cap, at angles 0 .. count-1. */
  function RimRun(level: Level, count: nat): seq<Vertex>
  {
    Concat((i: nat) => [Rim(level, i)], count)
  }

  lemma RimRunAt(level: Level, count: nat, i: nat)
    requires i < count
    ensures |RimRun(level, count)| == count && RimRun(level, count)[i] == Rim(level, i)
  {
    ConcatAt((i: nat) => [Rim(level, i)], count, 1, i, 0);
  }

  /** Side-wall vertices pushed two per step: bottom then top, at angles 0 .. count-1. */
  function WallColumns(count: nat): seq<Vertex>
  {
    Concat((i: nat) => [Wall(Bottom, i), Wall(Top, i)], count)
  }

  lemma WallColumnsAt(count: nat, i: nat)
    requires i < count
    ensures |WallColumns(count)| == 2 * count
    ensures WallColumns(count)[2 * i] == Wall(Bottom, i)
    ensures WallColumns(count)[2 * i + 1] == Wall(Top, i)
  {
    var f := (i: nat) => [Wall(Bottom, i), Wall(Top, i)];
    ConcatAt(f, count, 2, i, 0);
    ConcatAt(f, count, 2, i, 1);
  }


  lemma AddressesTriangle(vs: seq<Vertex>, a: int, b: int, c: int, x: Vertex, y: Vertex, z: Vertex)
    requires 0 <= a < |vs| && 0 <= b < |vs| && 0 <= c < |vs|
    requires vs[a] == x && vs[b] == y && vs[c] == z
    ensures Addresses(vs, [a, b, c], [x, y, z])
  {
  }

  /** Two triangles' worth of indices, each naming the vertex at its label's position. */
  lemma AddressesSix(vs: seq<Vertex>, a0: int, a1: int, a2: int, a3: int, a4: int, a5: int,
                     x0: Vertex, x1: Vertex, x2: Vertex, x3: Vertex, x4: Vertex, x5: Vertex)
    requires 0 <= a0 < |vs| && 0 <= a1 < |vs| && 0 <= a2 < |vs|
    requires 0 <= a3 < |vs| && 0 <= a4 < |vs| && 0 <= a5 < |vs|
    requires vs[a0] == x0 && vs[a1] == x1 && vs[a2] == x2
    requires vs[a3] == x3 && vs[a4] == x4 && vs[a5] == x5
    ensures Addresses(vs, [a0, a1, a2, a3, a4, a5], [x0, x1, x2, x3, x4, x5])
  {
  }

  lemma AddressesAppend(vs: seq<Vertex>, i1: seq<int>, i2: seq<int>, l1: seq<Vertex>, l2: seq<Vertex>)
    requires Addresses(vs, i1, l1) && Addresses(vs, i2, l2)
    ensures Addresses(vs, i1 + i2, l1 + l2)
  {
    forall j | 0 <= j < |i1 + i2|
      ensures 0 <= (i1 + i2)[j] < |vs| && vs[(i1 + i2)[j]] == (l1 + l2)[j]
    {
      if j >= |i1| {
        assert (i1 + i2)[j] == i2[j - |i1|];
      }
    }
  }

  lemma InBoundsAppend(a: seq<int>, b: seq<int>, n: int)
    requires InBounds(a, n) && InBounds(b, n)
    ensures InBounds(a + b, n)
  {
    forall j | 0 <= j < |a + b|
      ensures 0 <= (a + b)[j] < n
    {
      if j >= |a| {
        assert (a + b)[j] == b[j - |a|];
      }
    }
  }

  lemma AddressesInBounds(vs: seq<Vertex>, idx: seq<int>, labels: seq<Vertex>)
    requires Addresses(vs, idx, labels)
    ensures InBounds(idx, |vs|)
  {
  }

  // ---------------------------------------------------------------------
  // Fan blocks.
  // ---------------------------------------------------------------------

  function FanGen(centre: int, n: int, nextFirst: bool): nat -> seq<int>
    requires n > 0
  {
    (i: nat) => FanTriangle(centre, n, i, nextFirst)
  }

  lemma FanBlock(centre: int, n: int, nextFirst: bool, i: nat)
    requires n > 0 && i < n
    ensures |Fan(centre, n, nextFirst)| == 3 * n
    ensures Block(Fan(centre, n, nextFirst), 3, i) == FanTriangle(centre, n, i, nextFirst)
  {
    ConcatBlock(FanGen(centre, n, nextFirst), n, 3, i);
  }

  /** The labels of fan triangle i over the rim run that starts right after `centre`. */
  lemma FanAddresses(vs: seq<Vertex>, centre: nat, n: int, nextFirst: bool, level: Level, i: nat)
    requires n > 0 && i < n && centre + n < |vs|
    requires vs[centre] == Centre(level)
    requires forall k :: 0 <= k < n ==> vs[centre + 1 + k] == Rim(level, k)
    ensures |Fan(centre, n, nextFirst)| == 3 * n
    ensures nextFirst ==> Addresses(vs, Block(Fan(centre, n, nextFirst), 3, i),
                                    [Centre(level), Rim(level, (i + 1) % n), Rim(level, i)])
    ensures !nextFirst ==> Addresses(vs, Block(Fan(centre, n, nextFirst), 3, i),
                                     [Centre(level), Rim(level, i), Rim(level, (i + 1) % n)])
  {
    FanBlock(centre, n, nextFirst, i);
    var nx := (i + 1) % n;
    assert vs[centre + 1 + i] == Rim(level, i);
    assert vs[centre + 1 + nx] == Rim(level, nx);
    if nextFirst {
      AddressesTriangle(vs, centre, centre + 1 + nx, centre + 1 + i, Centre(level), Rim(level, nx), Rim(level, i));
    } else {
      AddressesTriangle(vs, centre, centre + 1 + i, centre + 1 + nx, Centre(level), Rim(level, i), Rim(level, nx));
    }
  }

  /** Every fan triangle addresses its centre and two rim vertices, so the fan stays in bounds. */
  lemma FanInBounds(vs: seq<Vertex>, centre: nat, n: int, nextFirst: bool)
    requires n > 0 && centre + n < |vs|
    ensures InBounds(Fan(centre, n, nextFirst), |vs|)
  {
    forall i: nat | i < n
      ensures InBounds(FanGen(centre, n, nextFirst)(i), |vs|)
    {
    }
    ConcatInBounds(FanGen(centre, n, nextFirst), n, |vs|);
  }

  // ---------------------------------------------------------------------
  // Cone: bottom fan, apex, one triangle per slice.
  // ---------------------------------------------------------------------

  function ConeWallGen(): nat -> seq<Vertex>
  {
    (i: nat) => [Wall(Bottom, i), Wall(Bottom, i + 1)]
  }

  function ConeVertices(n: nat): seq<Vertex>
  {
    [Centre(Bottom)] + RimRun(Bottom, n) + [Apex] + Concat(ConeWallGen(), n)
  }

  function ConeBottom(n: nat): seq<int>
    requires n > 0
  {
    Fan(0, n, true)
  }

  function ConeSideGen(n: nat): nat -> seq<int>
  {
    (i: nat) => [n + 1, n + 2 + 2 * i, n + 3 + 2 * i]
  }

  function ConeSides(n: nat): seq<int>
  {
    Concat(ConeSideGen(n), n)
  }

  function ConeIndices(n: nat): seq<int>
    requires n > 0
  {
    ConeBottom(n) + ConeSides(n)
  }

  lemma ConeVertexLayout(n: nat)
    ensures |ConeVertices(n)| == 3 * n + 2
    ensures ConeVertices(n)[0] == Centre(Bottom) && ConeVertices(n)[n + 1] == Apex
    ensures forall k :: 0 <= k < n ==> ConeVertices(n)[1 + k] == Rim(Bottom, k)
    ensures forall k :: 0 <= k < n ==>
      ConeVertices(n)[n + 2 + 2 * k] == Wall(Bottom, k) && ConeVertices(n)[n + 3 + 2 * k] == Wall(Bottom, k + 1)
  {
    ConcatLength((i: nat) => [Rim(Bottom, i)], n, 1);
    ConcatLength(ConeWallGen(), n, 2);
    forall k | 0 <= k < n
      ensures ConeVertices(n)[1 + k] == Rim(Bottom, k)
      ensures ConeVertices(n)[n + 2 + 2 * k] == Wall(Bottom, k) && ConeVertices(n)[n + 3 + 2 * k] == Wall(Bottom, k + 1)
    {
      RimRunAt(Bottom, n, k);
      ConcatAt(ConeWallGen(), n, 2, k, 0);
      ConcatAt(ConeWallGen(), n, 2, k, 1);
    }
  }

  lemma ConeSideStep(n: nat, i: nat)
    ensures ConeSideGen(n)(i) == [n + 1, n + 2 + 2 * i, n + 3 + 2 * i]
  {
  }

  lemma ConeSideTriangle(n: nat, i: nat)
    requires i < n
    ensures |ConeSides(n)| == 3 * n
    ensures Addresses(ConeVertices(n), Block(ConeSides(n), 3, i), [Apex, Wall(Bottom, i), Wall(Bottom, i + 1)])
  {
    ConcatBlock(ConeSideGen(n), n, 3, i);
    ConeSideStep(n, i);
    ConeVertexLayout(n);
    AddressesTriangle(ConeVertices(n), n + 1, n + 2 + 2 * i, n + 3 + 2 * i, Apex, Wall(Bottom, i), Wall(Bottom, i + 1));
  }

  /**
   * The cone has 3n+2 vertices and 6n in-bounds indices: 3n for the bottom
   * fan, whose triangle i joins the centre to rim vertices (i+1) mod n and i,
   * then 3n for the sides, whose triangle i joins the apex to the side
   * vertices at angles i and i+1.
   */
  lemma ConeStructure(n: nat)
    requires n > 0
    ensures |ConeVertices(n)| == 3 * n + 2
    ensures |ConeBottom(n)| == 3 * n && |ConeSides(n)| == 3 * n
    ensures InBounds(ConeIndices(n), |ConeVertices(n)|)
    ensures forall i: nat :: i < n ==>
      Addresses(ConeVertices(n), Block(ConeBottom(n), 3, i), [Centre(Bottom), Rim(Bottom, (i + 1) % n), Rim(Bottom, i)])
    ensures forall i: nat :: i < n ==>
      Addresses(ConeVertices(n), Block(ConeSides(n), 3, i), [Apex, Wall(Bottom, i), Wall(Bottom, i + 1)])
  {
    ConeInBounds(n);
    ConeBottomAddresses(n);
    ConeSideAddresses(n);
  }

  lemma ConeVertexCount(n: nat)
    ensures |ConeVertices(n)| == 3 * n + 2
  {
    ConcatLength((i: nat) => [Rim(Bottom, i)], n, 1);
    ConcatLength(ConeWallGen(), n, 2);
  }

  lemma ConeInBounds(n: nat)
    requires n > 0
    ensures |ConeVertices(n)| == 3 * n + 2
    ensures |ConeBottom(n)| == 3 * n && |ConeSides(n)| == 3 * n
    ensures InBounds(ConeIndices(n), 3 * n + 2)
  {
    var m := 3 * n + 2;
    ConeVertexCount(n);
    FanBlock(0, n, true, 0);
    FanInBounds(ConeVertices(n), 0, n, true);
    forall i: nat | i < n
      ensures |ConeSideGen(n)(i)| == 3 && InBounds(ConeSideGen(n)(i), m)
    {
      ConeSideStep(n, i);
    }
    ConcatLength(ConeSideGen(n), n, 3);
    ConcatInBounds(ConeSideGen(n), n, m);
    InBoundsAppend(ConeBottom(n), ConeSides(n), m);
  }

  lemma ConeBottomAddresses(n: nat)
    requires n > 0
    ensures |ConeBottom(n)| == 3 * n
    ensures forall i: nat :: i < n ==>
      Addresses(ConeVertices(n), Block(ConeBottom(n), 3, i), [Centre(Bottom), Rim(Bottom, (i + 1) % n), Rim(Bottom, i)])
  {
    var vs := ConeVertices(n);
    ConeVertexLayout(n);
    FanBlock(0, n, true, 0);
    forall i: nat | i < n
      ensures Addresses(vs, Block(ConeBottom(n), 3, i), [Centre(Bottom), Rim(Bottom, (i + 1) % n), Rim(Bottom, i)])
    {
      FanAddresses(vs, 0, n, true, Bottom, i);
    }
  }

  lemma ConeSideAddresses(n: nat)
    ensures |ConeSides(n)| == 3 * n
    ensures forall i: nat :: i < n ==>
      Addresses(ConeVertices(n), Block(ConeSides(n), 3, i), [Apex, Wall(Bottom, i), Wall(Bottom, i + 1)])
  {
    ConcatLength(ConeSideGen(n), n, 3);
    forall i: nat | i < n
      ensures Addresses(ConeVertices(n), Block(ConeSides(n), 3, i), [Apex, Wall(Bottom, i), Wall(Bottom, i + 1)])
    {
      ConeSideTriangle(n, i);
    }
  }

  // ---------------------------------------------------------------------
  // Cylinder: fans over n+1 rim vertices each, side quads over n+1 columns.
  // ---------------------------------------------------------------------

  function CylinderVertices(n: nat): seq<Vertex>
  {
    [Centre(Bottom)] + RimRun(Bottom, n + 1) + [Centre(Top)] + RimRun(Top, n + 1) + WallColumns(n + 1)
  }

  function CylinderBottom(n: nat): seq<int>
    requires n > 0
  {
    Fan(0, n, false)
  }

  function CylinderTop(n: nat): seq<int>
    requires n > 0
  {
    Fan(n + 2, n, false)
  }

  function CylinderSideGen(n: nat): nat -> seq<int>
  {
    (i: nat) =>
      var b := 2 * n + 4 + 2 * i;
      [b, b + 1, b + 2, b + 1, b + 2, b + 3]
  }

  function CylinderSides(n: nat): seq<int>
  {
    Concat(CylinderSideGen(n), n)
  }

  function CylinderIndices(n: nat): seq<int>
    requires n > 0
  {
    CylinderBottom(n) + CylinderTop(n) + CylinderSides(n)
  }

  lemma CylinderWallAt(n: nat, k: nat)
    requires k <= n
    ensures |CylinderVertices(n)| == 4 * n + 6
    ensures CylinderVertices(n)[2 * n + 4 + 2 * k] == Wall(Bottom, k)
    ensures CylinderVertices(n)[2 * n + 5 + 2 * k] == Wall(Top, k)
  {
    RimRunAt(Bottom, n + 1, 0);
    RimRunAt(Top, n + 1, 0);
    WallColumnsAt(n + 1, k);
  }

  lemma CylinderSideQuad(n: nat, i: nat)
    requires i < n
    ensures |CylinderSides(n)| == 6 * n
    ensures Addresses(CylinderVertices(n), Block(CylinderSides(n), 6, i),
                      [Wall(Bottom, i), Wall(Top, i), Wall(Bottom, i + 1), Wall(Top, i), Wall(Bottom, i + 1), Wall(Top, i + 1)])
  {
    var vs := CylinderVertices(n);
    var b := 2 * n + 4 + 2 * i;
    CylinderSideBlock(n, i);
    CylinderWallAt(n, i);
    CylinderWallAt(n, i + 1);
    assert 2 * n + 4 + 2 * (i + 1) == b + 2;
    AddressesSix(vs, b, b + 1, b + 2, b + 1, b + 2, b + 3,
                 Wall(Bottom, i), Wall(Top, i), Wall(Bottom, i + 1), Wall(Top, i), Wall(Bottom, i + 1), Wall(Top, i + 1));
  }

  lemma CylinderSideBlock(n: nat, i: nat)
    requires i < n
    ensures |CylinderSides(n)| == 6 * n && 6 * i + 6 <= 6 * n
    ensures var b := 2 * n + 4 + 2 * i;
      Block(CylinderSides(n), 6, i) == [b, b + 1, b + 2, b + 1, b + 2, b + 3]
  {
    ConcatBlock(CylinderSideGen(n), n, 6, i);
    CylinderSideStep(n, i);
  }

  lemma CylinderSideStep(n: nat, i: nat)
    ensures var b := 2 * n + 4 + 2 * i;
      CylinderSideGen(n)(i) == [b, b + 1, b + 2, b + 1, b + 2, b + 3]
  {
  }

  /**
   * The cylinder has 4n+6 vertices and 12n in-bounds indices: bottom fan
   * [0, 3n), top fan [3n, 6n), sides [6n, 12n).  The caps wrap with
   * (i+1) mod n, so rim vertex n is never drawn; side quad i joins the wall
   * columns at angles i and i+1, using the duplicated column n.
   */
  lemma CylinderStructure(n: nat)
    requires n > 0
    ensures |CylinderVertices(n)| == 4 * n + 6
    ensures |CylinderBottom(n)| == 3 * n && |CylinderTop(n)| == 3 * n && |CylinderSides(n)| == 6 * n
    ensures InBounds(CylinderIndices(n), |CylinderVertices(n)|)
    ensures forall i: nat :: i < n ==>
      Addresses(CylinderVertices(n), Block(CylinderBottom(n), 3, i), [Centre(Bottom), Rim(Bottom, i), Rim(Bottom, (i + 1) % n)])
    ensures forall i: nat :: i < n ==>
      Addresses(CylinderVertices(n), Block(CylinderTop(n), 3, i), [Centre(Top), Rim(Top, i), Rim(Top, (i + 1) % n)])
    ensures forall i: nat :: i < n ==>
      Addresses(CylinderVertices(n), Block(CylinderSides(n), 6, i),
                [Wall(Bottom, i), Wall(Top, i), Wall(Bottom, i + 1), Wall(Top, i), Wall(Bottom, i + 1), Wall(Top, i + 1)])
  {
    CylinderInBounds(n);
    CylinderCapAddresses(n);
    CylinderSideAddresses(n);
  }

  lemma CylinderInBounds(n: nat)
    requires n > 0
    ensures |CylinderVertices(n)| == 4 * n + 6
    ensures InBounds(CylinderIndices(n), |CylinderVertices(n)|)
  {
    var m := |CylinderVertices(n)|;
    CylinderWallAt(n, 0);
    FanInBounds(CylinderVertices(n), 0, n, false);
    FanInBounds(CylinderVertices(n), n + 2, n, false);
    forall i: nat | i < n
      ensures InBounds(CylinderSideGen(n)(i), m)
    {
      assert 2 * n + 4 + 2 * i + 3 < m;
    }
    ConcatInBounds(CylinderSideGen(n), n, m);
    InBoundsAppend(CylinderBottom(n), CylinderTop(n), m);
    InBoundsAppend(CylinderBottom(n) + CylinderTop(n), CylinderSides(n), m);
  }

  lemma CylinderCapAddresses(n: nat)
    requires n > 0
    ensures |CylinderBottom(n)| == 3 * n && |CylinderTop(n)| == 3 * n
    ensures forall i: nat :: i < n ==>
      Addresses(CylinderVertices(n), Block(CylinderBottom(n), 3, i), [Centre(Bottom), Rim(Bottom, i), Rim(Bottom, (i + 1) % n)])
    ensures forall i: nat :: i < n ==>
      Addresses(CylinderVertices(n), Block(CylinderTop(n), 3, i), [Centre(Top), Rim(Top, i), Rim(Top, (i + 1) % n)])
  {
    CylinderCapTriangles(n, 0);
    forall i: nat | i < n
      ensures Addresses(CylinderVertices(n), Block(CylinderBottom(n), 3, i), [Centre(Bottom), Rim(Bottom, i), Rim(Bottom, (i + 1) % n)])
      ensures Addresses(CylinderVertices(n), Block(CylinderTop(n), 3, i), [Centre(Top), Rim(Top, i), Rim(Top, (i + 1) % n)])
    {
      CylinderCapTriangles(n, i);
    }
  }

  lemma CylinderCapTriangles(n: nat, i: nat)
    requires i < n
    ensures |CylinderBottom(n)| == 3 * n && |CylinderTop(n)| == 3 * n
    ensures Addresses(CylinderVertices(n), Block(CylinderBottom(n), 3, i), [Centre(Bottom), Rim(Bottom, i), Rim(Bottom, (i + 1) % n)])
    ensures Addresses(CylinderVertices(n), Block(CylinderTop(n), 3, i), [Centre(Top), Rim(Top, i), Rim(Top, (i + 1) % n)])
  {
    CylinderBottomTriangle(n, i);
    CylinderTopTriangle(n, i);
  }

  lemma CylinderBottomTriangle(n: nat, i: nat)
    requires i < n
    ensures |CylinderBottom(n)| == 3 * n
    ensures Addresses(CylinderVertices(n), Block(CylinderBottom(n), 3, i), [Centre(Bottom), Rim(Bottom, i), Rim(Bottom, (i + 1) % n)])
  {
    var vs := CylinderVertices(n);
    CylinderCapLayout(n);
    assert forall k :: 0 <= k < n ==> vs[0 + 1 + k] == Rim(Bottom, k);
    FanAddresses(vs, 0, n, false, Bottom, i);
  }

  lemma CylinderTopTriangle(n: nat, i: nat)
    requires i < n
    ensures |CylinderTop(n)| == 3 * n
    ensures Addresses(CylinderVertices(n), Block(CylinderTop(n), 3, i), [Centre(Top), Rim(Top, i), Rim(Top, (i + 1) % n)])
  {
    var vs := CylinderVertices(n);
    CylinderCapLayout(n);
    assert forall k :: 0 <= k < n ==> vs[n + 2 + 1 + k] == Rim(Top, k);
    FanAddresses(vs, n + 2, n, false, Top, i);
  }

  /** The two cap fans' centres and rim runs, in the form the fan lemma takes them. */
  lemma CylinderCapLayout(n: nat)
    ensures |CylinderVertices(n)| == 4 * n + 6
    ensures CylinderVertices(n)[0] == Centre(Bottom) && CylinderVertices(n)[n + 2] == Centre(Top)
    ensures forall k :: 0 <= k < n ==> CylinderVertices(n)[0 + 1 + k] == Rim(Bottom, k)
    ensures forall k :: 0 <= k < n ==> CylinderVertices(n)[n + 2 + 1 + k] == Rim(Top, k)
  {
    RimRunAt(Bottom, n + 1, 0);
    RimRunAt(Top, n + 1, 0);
    WallColumnsAt(n + 1, 0);
    CylinderBottomRun(n);
    CylinderTopRun(n);
  }

  lemma CylinderBottomRun(n: nat)
    ensures |CylinderVertices(n)| > n
    ensures forall k :: 0 <= k < n ==> CylinderVertices(n)[0 + 1 + k] == Rim(Bottom, k)
  {
    var run := RimRun(Bottom, n + 1);
    var rest := [Centre(Top)] + RimRun(Top, n + 1) + WallColumns(n + 1);
    RimRunAt(Bottom, n + 1, 0);
    assert CylinderVertices(n) == [Centre(Bottom)] + run + rest;
    forall k | 0 <= k < n
      ensures CylinderVertices(n)[0 + 1 + k] == Rim(Bottom, k)
    {
      RimRunAt(Bottom, n + 1, k);
    }
  }

  lemma CylinderTopRun(n: nat)
    ensures |CylinderVertices(n)| > 2 * n + 2
    ensures forall k :: 0 <= k < n ==> CylinderVertices(n)[n + 2 + 1 + k] == Rim(Top, k)
  {
    var head := [Centre(Bottom)] + RimRun(Bottom, n + 1) + [Centre(Top)];
    var run := RimRun(Top, n + 1);
    RimRunAt(Bottom, n + 1, 0);
    RimRunAt(Top, n + 1, 0);
    assert |head| == n + 3;
    assert CylinderVertices(n) == head + run + WallColumns(n + 1);
    forall k | 0 <= k < n
      ensures CylinderVertices(n)[n + 2 + 1 + k] == Rim(Top, k)
    {
      RimRunAt(Top, n + 1, k);
    }
  }

  lemma CylinderSideAddresses(n: nat)
    requires n > 0
    ensures |CylinderSides(n)| == 6 * n
    ensures forall i: nat :: i < n ==>
      Addresses(CylinderVertices(n), Block(CylinderSides(n), 6, i),
                [Wall(Bottom, i), Wall(Top, i), Wall(Bottom, i + 1), Wall(Top, i), Wall(Bottom, i + 1), Wall(Top, i + 1)])
  {
    ConcatLength(CylinderSideGen(n), n, 6);
    forall i: nat | i < n
      ensures Addresses(CylinderVertices(n), Block(CylinderSides(n), 6, i),
                [Wall(Bottom, i), Wall(Top, i), Wall(Bottom, i + 1), Wall(Top, i), Wall(Bottom, i + 1), Wall(Top, i + 1)])
    {
      CylinderSideQuad(n, i);
    }
  }

  // ---------------------------------------------------------------------
  // Tapered cylinder: fans over n rim vertices, side quads that wrap.
  // ---------------------------------------------------------------------

  function TaperedCylinderVertices(n: nat): seq<Vertex>
  {
    [Centre(Bottom)] + RimRun(Bottom, n) + [Centre(Top)] + RimRun(Top, n) + WallColumns(n)
  }

  function TaperedCylinderBottom(n: nat): seq<int>
    requires n > 0
  {
    Fan(0, n, false)
  }

  function TaperedCylinderTop(n: nat): seq<int>
    requires n > 0
  {
    Fan(n + 1, n, true)
  }

  function TaperedSideGen(n: nat): nat -> seq<int>
    requires n > 0
  {
    (i: nat) =>
      var b := 2 * n + 2 + 2 * i;
      var bn := 2 * n + 2 + 2 * ((i + 1) % n);
      [b, bn, b + 1, b + 1, bn, bn + 1]
  }

  function TaperedCylinderSides(n: nat): seq<int>
    requires n > 0
  {
    Concat(TaperedSideGen(n), n)
  }

  function TaperedCylinderIndices(n: nat): seq<int>
    requires n > 0
  {
    TaperedCylinderBottom(n) + TaperedCylinderTop(n) + TaperedCylinderSides(n)
  }

  lemma TaperedCylinderVertexLayout(n: nat)
    ensures |TaperedCylinderVertices(n)| == 4 * n + 2
    ensures TaperedCylinderVertices(n)[0] == Centre(Bottom) && TaperedCylinderVertices(n)[n + 1] == Centre(Top)
    ensures forall k :: 0 <= k < n ==>
      TaperedCylinderVertices(n)[1 + k] == Rim(Bottom, k) && TaperedCylinderVertices(n)[n + 2 + k] == Rim(Top, k)
    ensures forall k :: 0 <= k < n ==>
      TaperedCylinderVertices(n)[2 * n + 2 + 2 * k] == Wall(Bottom, k) && TaperedCylinderVertices(n)[2 * n + 3 + 2 * k] == Wall(Top, k)
  {
    ConcatLength((i: nat) => [Rim(Bottom, i)], n, 1);
    ConcatLength((i: nat) => [Rim(Top, i)], n, 1);
    ConcatLength((i: nat) => [Wall(Bottom, i), Wall(Top, i)], n, 2);
    forall k | 0 <= k < n
      ensures TaperedCylinderVertices(n)[1 + k] == Rim(Bottom, k) && TaperedCylinderVertices(n)[n + 2 + k] == Rim(Top, k)
      ensures TaperedCylinderVertices(n)[2 * n + 2 + 2 * k] == Wall(Bottom, k) && TaperedCylinderVertices(n)[2 * n + 3 + 2 * k] == Wall(Top, k)
    {
      RimRunAt(Bottom, n, k);
      RimRunAt(Top, n, k);
      WallColumnsAt(n, k);
    }
  }

  lemma TaperedCylinderWallAt(n: nat, k: nat)
    requires k < n
    ensures |TaperedCylinderVertices(n)| == 4 * n + 2
    ensures TaperedCylinderVertices(n)[2 * n + 2 + 2 * k] == Wall(Bottom, k)
    ensures TaperedCylinderVertices(n)[2 * n + 3 + 2 * k] == Wall(Top, k)
  {
    RimRunAt(Bottom, n, k);
    RimRunAt(Top, n, k);
    WallColumnsAt(n, k);
  }

  lemma TaperedSideBlock(n: nat, i: nat)
    requires i < n
    ensures |TaperedCylinderSides(n)| == 6 * n && 6 * i + 6 <= 6 * n
    ensures var b, bn := 2 * n + 2 + 2 * i, 2 * n + 2 + 2 * ((i + 1) % n);
      Block(TaperedCylinderSides(n), 6, i) == [b, bn, b + 1, b + 1, bn, bn + 1]
  {
    ConcatBlock(TaperedSideGen(n), n, 6, i);
    TaperedSideStep(n, i);
  }

  lemma TaperedSideStep(n: nat, i: nat)
    requires n > 0
    ensures var b, bn := 2 * n + 2 + 2 * i, 2 * n + 2 + 2 * ((i + 1) % n);
      TaperedSideGen(n)(i) == [b, bn, b + 1, b + 1, bn, bn + 1]
  {
  }

  lemma TaperedCylinderSideQuad(n: nat, i: nat)
    requires i < n
    ensures |TaperedCylinderSides(n)| == 6 * n
    ensures Addresses(TaperedCylinderVertices(n), Block(TaperedCylinderSides(n), 6, i),
                      [Wall(Bottom, i), Wall(Bottom, (i + 1) % n), Wall(Top, i),
                       Wall(Top, i), Wall(Bottom, (i + 1) % n), Wall(Top, (i + 1) % n)])
  {
    var vs := TaperedCylinderVertices(n);
    var nx := (i + 1) % n;
    var b := 2 * n + 2 + 2 * i;
    var bn := 2 * n + 2 + 2 * nx;
    TaperedSideBlock(n, i);
    TaperedCylinderWallAt(n, i);
    TaperedCylinderWallAt(n, nx);
    AddressesSix(vs, b, bn, b + 1, b + 1, bn, bn + 1,
                 Wall(Bottom, i), Wall(Bottom, nx), Wall(Top, i), Wall(Top, i), Wall(Bottom, nx), Wall(Top, nx));
  }

  lemma TaperedSidesInBounds(n: nat)
    requires n > 0
    ensures InBounds(TaperedCylinderSides(n), 4 * n + 2)
  {
    forall i: nat | i < n
      ensures InBounds(TaperedSideGen(n)(i), 4 * n + 2)
    {
      assert 0 <= (i + 1) % n < n;
    }
    ConcatInBounds(TaperedSideGen(n), n, 4 * n + 2);
  }

  lemma TaperedCylinderCounts(n: nat)
    requires n > 0
    ensures |TaperedCylinderBottom(n)| == 3 * n && |TaperedCylinderTop(n)| == 3 * n
    ensures |TaperedCylinderSides(n)| == 6 * n
    ensures InBounds(TaperedCylinderIndices(n), 4 * n + 2)
  {
    var vs := TaperedCylinderVertices(n);
    TaperedCylinderWallAt(n, 0);
    FanBlock(0, n, false, 0);
    FanBlock(n + 1, n, true, 0);
    ConcatLength(TaperedSideGen(n), n, 6);
    FanInBounds(vs, 0, n, false);
    FanInBounds(vs, n + 1, n, true);
    TaperedSidesInBounds(n);
    InBoundsAppend(TaperedCylinderBottom(n), TaperedCylinderTop(n), 4 * n + 2);
    InBoundsAppend(TaperedCylinderBottom(n) + TaperedCylinderTop(n), TaperedCylinderSides(n), 4 * n + 2);
  }


  /**
   * The tapered cylinder has 4n+2 vertices and 12n in-bounds indices: bottom
   * fan [0, 3n), top fan [3n, 6n) wound the other way, and side quads
   * [6n, 12n); side quad i joins the wall columns at angles i and (i+1) mod n.
   */
  lemma TaperedCylinderStructure(n: nat)
    requires n > 0
    ensures |TaperedCylinderVertices(n)| == 4 * n + 2
    ensures |TaperedCylinderBottom(n)| == 3 * n && |TaperedCylinderTop(n)| == 3 * n
    ensures |TaperedCylinderSides(n)| == 6 * n
    ensures InBounds(TaperedCylinderIndices(n), |TaperedCylinderVertices(n)|)
    ensures forall i: nat :: i < n ==>
      Addresses(TaperedCylinderVertices(n), Block(TaperedCylinderBottom(n), 3, i),
                [Centre(Bottom), Rim(Bottom, i), Rim(Bottom, (i + 1) % n)])
    ensures forall i: nat :: i < n ==>
      Addresses(TaperedCylinderVertices(n), Block(TaperedCylinderTop(n), 3, i),
                [Centre(Top), Rim(Top, (i + 1) % n), Rim(Top, i)])
    ensures forall i: nat :: i < n ==>
      Addresses(TaperedCylinderVertices(n), Block(TaperedCylinderSides(n), 6, i),
                [Wall(Bottom, i), Wall(Bottom, (i + 1) % n), Wall(Top, i),
                 Wall(Top, i), Wall(Bottom, (i + 1) % n), Wall(Top, (i + 1) % n)])
  {
    TaperedCylinderWallAt(n, 0);
    TaperedCylinderCounts(n);
    TaperedBottomAddresses(n);
    TaperedTopAddresses(n);
    TaperedSideAddresses(n);
  }

  lemma TaperedBottomAddresses(n: nat)
    requires n > 0
    ensures |TaperedCylinderBottom(n)| == 3 * n
    ensures forall i: nat :: i < n ==>
      Addresses(TaperedCylinderVertices(n), Block(TaperedCylinderBottom(n), 3, i),
                [Centre(Bottom), Rim(Bottom, i), Rim(Bottom, (i + 1) % n)])
  {
    TaperedCylinderVertexLayout(n);
    FanBlock(0, n, false, 0);
    forall i: nat | i < n
      ensures Addresses(TaperedCylinderVertices(n), Block(TaperedCylinderBottom(n), 3, i),
                        [Centre(Bottom), Rim(Bottom, i), Rim(Bottom, (i + 1) % n)])
    {
      FanAddresses(TaperedCylinderVertices(n), 0, n, false, Bottom, i);
    }
  }

  lemma TaperedTopAddresses(n: nat)
    requires n > 0
    ensures |TaperedCylinderTop(n)| == 3 * n
    ensures forall i: nat :: i < n ==>
      Addresses(TaperedCylinderVertices(n), Block(TaperedCylinderTop(n), 3, i),
                [Centre(Top), Rim(Top, (i + 1) % n), Rim(Top, i)])
  {
    TaperedCylinderVertexLayout(n);
    FanBlock(n + 1, n, true, 0);
    forall i: nat | i < n
      ensures Addresses(TaperedCylinderVertices(n), Block(TaperedCylinderTop(n), 3, i),
                        [Centre(Top), Rim(Top, (i + 1) % n), Rim(Top, i)])
    {
      FanAddresses(TaperedCylinderVertices(n), n + 1, n, true, Top, i);
    }
  }

  lemma TaperedSideAddresses(n: nat)
    requires n > 0
    ensures |TaperedCylinderSides(n)| == 6 * n
    ensures forall i: nat :: i < n ==>
      Addresses(TaperedCylinderVertices(n), Block(TaperedCylinderSides(n), 6, i),
                [Wall(Bottom, i), Wall(Bottom, (i + 1) % n), Wall(Top, i),
                 Wall(Top, i), Wall(Bottom, (i + 1) % n), Wall(Top, (i + 1) % n)])
  {
    TaperedSideBlock(n, 0);
    forall i: nat | i < n
      ensures Addresses(TaperedCylinderVertices(n), Block(TaperedCylinderSides(n), 6, i),
                        [Wall(Bottom, i), Wall(Bottom, (i + 1) % n), Wall(Top, i),
                         Wall(Top, i), Wall(Bottom, (i + 1) % n), Wall(Top, (i + 1) % n)])
    {
      TaperedCylinderSideQuad(n, i);
    }
  }

  // ---------------------------------------------------------------------
  // Partial cone: an open side surface over n+1 wall columns.
  // ---------------------------------------------------------------------

  function PartialConeVertices(n: nat): seq<Vertex>
  {
    WallColumns(n + 1)
  }

  function PartialConeGen(): nat -> seq<int>
  {
    (i: nat) => [2 * i, 2 * i + 3, 2 * i + 1, 2 * i, 2 * i + 2, 2 * i + 3]
  }

  function PartialConeIndices(n: nat): seq<int>
  {
    Concat(PartialConeGen(), n)
  }

  /** The quad between wall column i and column i+1 of a run of columns. */
  lemma WallQuadAddresses(vs: seq<Vertex>, i: nat)
    requires 2 * i + 3 < |vs|
    requires vs[2 * i] == Wall(Bottom, i) && vs[2 * i + 1] == Wall(Top, i)
    requires vs[2 * i + 2] == Wall(Bottom, i + 1) && vs[2 * i + 3] == Wall(Top, i + 1)
    ensures Addresses(vs, [2 * i, 2 * i + 3, 2 * i + 1, 2 * i, 2 * i + 2, 2 * i + 3],
                      [Wall(Bottom, i), Wall(Top, i + 1), Wall(Top, i), Wall(Bottom, i), Wall(Bottom, i + 1), Wall(Top, i + 1)])
  {
    AddressesTriangle(vs, 2 * i, 2 * i + 3, 2 * i + 1, Wall(Bottom, i), Wall(Top, i + 1), Wall(Top, i));
    AddressesTriangle(vs, 2 * i, 2 * i + 2, 2 * i + 3, Wall(Bottom, i), Wall(Bottom, i + 1), Wall(Top, i + 1));
    AddressesAppend(vs, [2 * i, 2 * i + 3, 2 * i + 1], [2 * i, 2 * i + 2, 2 * i + 3],
                    [Wall(Bottom, i), Wall(Top, i + 1), Wall(Top, i)], [Wall(Bottom, i), Wall(Bottom, i + 1), Wall(Top, i + 1)]);
  }

  lemma PartialConeQuad(n: nat, i: nat)
    requires i < n
    ensures |PartialConeIndices(n)| == 6 * n
    ensures Addresses(PartialConeVertices(n), Block(PartialConeIndices(n), 6, i),
                      [Wall(Bottom, i), Wall(Top, i + 1), Wall(Top, i), Wall(Bottom, i), Wall(Bottom, i + 1), Wall(Top, i + 1)])
  {
    ConcatLength(PartialConeGen(), n, 6);
    MulMono(i + 1, n, 6);
    assert Block(PartialConeIndices(n), 6, i) == [2 * i, 2 * i + 3, 2 * i + 1, 2 * i, 2 * i + 2, 2 * i + 3] by {
      ConcatBlock(PartialConeGen(), n, 6, i);
      PartialConeStep(i);
    }
    WallColumnsAt(n + 1, i);
    WallColumnsAt(n + 1, i + 1);
    WallQuadAddresses(PartialConeVertices(n), i);
  }

  lemma PartialConeStep(i: nat)
    ensures PartialConeGen()(i) == [2 * i, 2 * i + 3, 2 * i + 1, 2 * i, 2 * i + 2, 2 * i + 3]
  {
  }

  /**
   * The partial cone has 2n+2 vertices and 6n in-bounds indices; quad i only
   * joins the columns at angles i and i+1, so for n >= 2 no quad joins the
   * first column to the last and the surface stays open at the seam.
   */
  lemma PartialConeStructure(n: nat)
    ensures |PartialConeVertices(n)| == 2 * n + 2 && |PartialConeIndices(n)| == 6 * n
    ensures InBounds(PartialConeIndices(n), |PartialConeVertices(n)|)
    ensures forall i: nat :: i < n ==>
      Addresses(PartialConeVertices(n), Block(PartialConeIndices(n), 6, i),
                [Wall(Bottom, i), Wall(Top, i + 1), Wall(Top, i), Wall(Bottom, i), Wall(Bottom, i + 1), Wall(Top, i + 1)])
    ensures forall i: nat, j :: i < n && 0 <= j < 6 ==>
      2 * i <= Block(PartialConeIndices(n), 6, i)[j] < 2 * i + 4
  {
    WallColumnsAt(n + 1, 0);
    ConcatLength(PartialConeGen(), n, 6);
    forall i: nat | i < n
      ensures InBounds(PartialConeGen()(i), 2 * n + 2)
    {
    }
    ConcatInBounds(PartialConeGen(), n, 2 * n + 2);
    forall i: nat | i < n
      ensures Addresses(PartialConeVertices(n), Block(PartialConeIndices(n), 6, i),
                [Wall(Bottom, i), Wall(Top, i + 1), Wall(Top, i), Wall(Bottom, i), Wall(Bottom, i + 1), Wall(Top, i + 1)])
      ensures forall j :: 0 <= j < 6 ==> 2 * i <= Block(PartialConeIndices(n), 6, i)[j] < 2 * i + 4
    {
      PartialConeQuad(n, i);
      ConcatBlock(PartialConeGen(), n, 6, i);
    }
  }

  // ---------------------------------------------------------------------
  // Tube: four vertices per step (outer bottom/top, inner bottom/top).
  // ---------------------------------------------------------------------

  function TubeVertexGen(): nat -> seq<Vertex>
  {
    (i: nat) => [TubeWall(true, Bottom, i), TubeWall(true, Top, i), TubeWall(false, Bottom, i), TubeWall(false, Top, i)]
  }

  function TubeVertices(n: nat): seq<Vertex>
  {
    Concat(TubeVertexGen(), n + 1)
  }

  /** Outer wall quad then inner wall quad (wound the other way) of step i. */
  function TubeWallGen(): nat -> seq<int>
  {
    (i: nat) =>
      var b := 4 * i;
      [b, b + 4, b + 1] + [b + 1, b + 4, b + 5] + [b + 2, b + 3, b + 6] + [b + 3, b + 7, b + 6]
  }

  /** Bottom ring quad then top ring quad of step i. */
  function TubeCapGen(): nat -> seq<int>
  {
    (i: nat) =>
      var b := 4 * i;
      [b, b + 4, b + 2] + [b + 2, b + 4, b + 6] + [b + 3, b + 1, b + 7] + [b + 7, b + 1, b + 5]
  }

  function TubeWalls(n: nat): seq<int>
  {
    Concat(TubeWallGen(), n)
  }

  function TubeCaps(n: nat): seq<int>
  {
    Concat(TubeCapGen(), n)
  }

  function TubeIndices(n: nat): seq<int>
  {
    TubeWalls(n) + TubeCaps(n)
  }

  lemma TubeVertexAt(n: nat, i: nat)
    requires i <= n
    ensures |TubeVertices(n)| == 4 * n + 4
    ensures TubeVertices(n)[4 * i] == TubeWall(true, Bottom, i)
    ensures TubeVertices(n)[4 * i + 1] == TubeWall(true, Top, i)
    ensures TubeVertices(n)[4 * i + 2] == TubeWall(false, Bottom, i)
    ensures TubeVertices(n)[4 * i + 3] == TubeWall(false, Top, i)
  {
    ConcatAt(TubeVertexGen(), n + 1, 4, i, 0);
    ConcatAt(TubeVertexGen(), n + 1, 4, i, 1);
    ConcatAt(TubeVertexGen(), n + 1, 4, i, 2);
    ConcatAt(TubeVertexGen(), n + 1, 4, i, 3);
  }

  function TubeWallLabels(i: int): seq<Vertex>
  {
    [TubeWall(true, Bottom, i), TubeWall(true, Bottom, i + 1), TubeWall(true, Top, i)]
      + [TubeWall(true, Top, i), TubeWall(true, Bottom, i + 1), TubeWall(true, Top, i + 1)]
      + [TubeWall(false, Bottom, i), TubeWall(false, Top, i), TubeWall(false, Bottom, i + 1)]
      + [TubeWall(false, Top, i), TubeWall(false, Top, i + 1), TubeWall(false, Bottom, i + 1)]
  }

  function TubeCapLabels(i: int): seq<Vertex>
  {
    [TubeWall(true, Bottom, i), TubeWall(true, Bottom, i + 1), TubeWall(false, Bottom, i)]
      + [TubeWall(false, Bottom, i), TubeWall(true, Bottom, i + 1), TubeWall(false, Bottom, i + 1)]
      + [TubeWall(false, Top, i), TubeWall(true, Top, i), TubeWall(false, Top, i + 1)]
      + [TubeWall(false, Top, i + 1), TubeWall(true, Top, i), TubeWall(true, Top, i + 1)]
  }

  /** Four triangles that each address their labels address the labels together. */
  lemma AddressesFour(vs: seq<Vertex>, t1: seq<int>, t2: seq<int>, t3: seq<int>, t4: seq<int>,
                      l1: seq<Vertex>, l2: seq<Vertex>, l3: seq<Vertex>, l4: seq<Vertex>)
    requires Addresses(vs, t1, l1) && Addresses(vs, t2, l2) && Addresses(vs, t3, l3) && Addresses(vs, t4, l4)
    ensures Addresses(vs, t1 + t2 + t3 + t4, l1 + l2 + l3 + l4)
  {
    AddressesAppend(vs, t1, t2, l1, l2);
    AddressesAppend(vs, t1 + t2, t3, l1 + l2, l3);
    AddressesAppend(vs, t1 + t2 + t3, t4, l1 + l2 + l3, l4);
  }

  lemma TubeWallTriangles(n: nat, i: nat)
    requires i < n
    ensures Addresses(TubeVertices(n), [4 * i, 4 * i + 4, 4 * i + 1], [TubeWall(true, Bottom, i), TubeWall(true, Bottom, i + 1), TubeWall(true, Top, i)])
    ensures Addresses(TubeVertices(n), [4 * i + 1, 4 * i + 4, 4 * i + 5], [TubeWall(true, Top, i), TubeWall(true, Bottom, i + 1), TubeWall(true, Top, i + 1)])
    ensures Addresses(TubeVertices(n), [4 * i + 2, 4 * i + 3, 4 * i + 6], [TubeWall(false, Bottom, i), TubeWall(false, Top, i), TubeWall(false, Bottom, i + 1)])
    ensures Addresses(TubeVertices(n), [4 * i + 3, 4 * i + 7, 4 * i + 6], [TubeWall(false, Top, i), TubeWall(false, Top, i + 1), TubeWall(false, Bottom, i + 1)])
  {
    var vs := TubeVertices(n);
    var b := 4 * i;
    TubeVertexAt(n, i);
    TubeVertexAt(n, i + 1);
    AddressesTriangle(vs, b, b + 4, b + 1, TubeWall(true, Bottom, i), TubeWall(true, Bottom, i + 1), TubeWall(true, Top, i));
    AddressesTriangle(vs, b + 1, b + 4, b + 5, TubeWall(true, Top, i), TubeWall(true, Bottom, i + 1), TubeWall(true, Top, i + 1));
    AddressesTriangle(vs, b + 2, b + 3, b + 6, TubeWall(false, Bottom, i), TubeWall(false, Top, i), TubeWall(false, Bottom, i + 1));
    AddressesTriangle(vs, b + 3, b + 7, b + 6, TubeWall(false, Top, i), TubeWall(false, Top, i + 1), TubeWall(false, Bottom, i + 1));
  }

  lemma TubeWallBlock(n: nat, i: nat)
    requires i < n
    ensures |TubeWalls(n)| == 12 * n
    ensures Addresses(TubeVertices(n), Block(TubeWalls(n), 12, i), TubeWallLabels(i))
  {
    TubeWallIndices(n, i);
    TubeWallQuad(n, i);
  }

  /** Step i of the wall loop pushes these twelve indices. */
  lemma TubeWallIndices(n: nat, i: nat)
    requires i < n
    ensures |TubeWalls(n)| == 12 * n && 12 * i + 12 <= 12 * n
    ensures Block(TubeWalls(n), 12, i) == [4 * i, 4 * i + 4, 4 * i + 1] + [4 * i + 1, 4 * i + 4, 4 * i + 5] + [4 * i + 2, 4 * i + 3, 4 * i + 6]
            + [4 * i + 3, 4 * i + 7, 4 * i + 6]
  {
    ConcatBlock(TubeWallGen(), n, 12, i);
    TubeWallStep(i);
  }

  lemma TubeWallStep(i: nat)
    ensures TubeWallGen()(i) == [4 * i, 4 * i + 4, 4 * i + 1] + [4 * i + 1, 4 * i + 4, 4 * i + 5] + [4 * i + 2, 4 * i + 3, 4 * i + 6]
            + [4 * i + 3, 4 * i + 7, 4 * i + 6]
  {
  }

  lemma TubeWallQuad(n: nat, i: nat)
    requires i < n
    ensures Addresses(TubeVertices(n), [4 * i, 4 * i + 4, 4 * i + 1] + [4 * i + 1, 4 * i + 4, 4 * i + 5] + [4 * i + 2, 4 * i + 3, 4 * i + 6]
            + [4 * i + 3, 4 * i + 7, 4 * i + 6],
                      TubeWallLabels(i))
  {
    var b := 4 * i;
    TubeWallTriangles(n, i);
    AddressesFour(TubeVertices(n), [b, b + 4, b + 1], [b + 1, b + 4, b + 5], [b + 2, b + 3, b + 6], [b + 3, b + 7, b + 6],
      [TubeWall(true, Bottom, i), TubeWall(true, Bottom, i + 1), TubeWall(true, Top, i)],
      [TubeWall(true, Top, i), TubeWall(true, Bottom, i + 1), TubeWall(true, Top, i + 1)],
      [TubeWall(false, Bottom, i), TubeWall(false, Top, i), TubeWall(false, Bottom, i + 1)],
      [TubeWall(false, Top, i), TubeWall(false, Top, i + 1), TubeWall(false, Bottom, i + 1)]);
  }


  lemma TubeCapTriangles(n: nat, i: nat)
    requires i < n
    ensures Addresses(TubeVertices(n), [4 * i, 4 * i + 4, 4 * i + 2], [TubeWall(true, Bottom, i), TubeWall(true, Bottom, i + 1), TubeWall(false, Bottom, i)])
    ensures Addresses(TubeVertices(n), [4 * i + 2, 4 * i + 4, 4 * i + 6], [TubeWall(false, Bottom, i), TubeWall(true, Bottom, i + 1), TubeWall(false, Bottom, i + 1)])
    ensures Addresses(TubeVertices(n), [4 * i + 3, 4 * i + 1, 4 * i + 7], [TubeWall(false, Top, i), TubeWall(true, Top, i), TubeWall(false, Top, i + 1)])
    ensures Addresses(TubeVertices(n), [4 * i + 7, 4 * i + 1, 4 * i + 5], [TubeWall(false, Top, i + 1), TubeWall(true, Top, i), TubeWall(true, Top, i + 1)])
  {
    var vs := TubeVertices(n);
    var b := 4 * i;
    TubeVertexAt(n, i);
    TubeVertexAt(n, i + 1);
    AddressesTriangle(vs, b, b + 4, b + 2, TubeWall(true, Bottom, i), TubeWall(true, Bottom, i + 1), TubeWall(false, Bottom, i));
    AddressesTriangle(vs, b + 2, b + 4, b + 6, TubeWall(false, Bottom, i), TubeWall(true, Bottom, i + 1), TubeWall(false, Bottom, i + 1));
    AddressesTriangle(vs, b + 3, b + 1, b + 7, TubeWall(false, Top, i), TubeWall(true, Top, i), TubeWall(false, Top, i + 1));
    AddressesTriangle(vs, b + 7, b + 1, b + 5, TubeWall(false, Top, i + 1), TubeWall(true, Top, i), TubeWall(true, Top, i + 1));
  }

  lemma TubeCapBlock(n: nat, i: nat)
    requires i < n
    ensures |TubeCaps(n)| == 12 * n
    ensures Addresses(TubeVertices(n), Block(TubeCaps(n), 12, i), TubeCapLabels(i))
  {
    TubeCapIndices(n, i);
    TubeCapQuad(n, i);
  }

  /** Step i of the cap loop pushes these twelve indices. */
  lemma TubeCapIndices(n: nat, i: nat)
    requires i < n
    ensures |TubeCaps(n)| == 12 * n && 12 * i + 12 <= 12 * n
    ensures Block(TubeCaps(n), 12, i) == [4 * i, 4 * i + 4, 4 * i + 2] + [4 * i + 2, 4 * i + 4, 4 * i + 6] + [4 * i + 3, 4 * i + 1, 4 * i + 7]
            + [4 * i + 7, 4 * i + 1, 4 * i + 5]
  {
    ConcatBlock(TubeCapGen(), n, 12, i);
    TubeCapStep(i);
  }

  lemma TubeCapStep(i: nat)
    ensures TubeCapGen()(i) == [4 * i, 4 * i + 4, 4 * i + 2] + [4 * i + 2, 4 * i + 4, 4 * i + 6] + [4 * i + 3, 4 * i + 1, 4 * i + 7]
            + [4 * i + 7, 4 * i + 1, 4 * i + 5]
  {
  }

  lemma TubeCapQuad(n: nat, i: nat)
    requires i < n
    ensures Addresses(TubeVertices(n), [4 * i, 4 * i + 4, 4 * i + 2] + [4 * i + 2, 4 * i + 4, 4 * i + 6] + [4 * i + 3, 4 * i + 1, 4 * i + 7]
            + [4 * i + 7, 4 * i + 1, 4 * i + 5],
                      TubeCapLabels(i))
  {
    var b := 4 * i;
    TubeCapTriangles(n, i);
    AddressesFour(TubeVertices(n), [b, b + 4, b + 2], [b + 2, b + 4, b + 6], [b + 3, b + 1, b + 7], [b + 7, b + 1, b + 5],
      [TubeWall(true, Bottom, i), TubeWall(true, Bottom, i + 1), TubeWall(false, Bottom, i)],
      [TubeWall(false, Bottom, i), TubeWall(true, Bottom, i + 1), TubeWall(false, Bottom, i + 1)],
      [TubeWall(false, Top, i), TubeWall(true, Top, i), TubeWall(false, Top, i + 1)],
      [TubeWall(false, Top, i + 1), TubeWall(true, Top, i), TubeWall(true, Top, i + 1)]);
  }


  /**
   * The tube has 4n+4 vertices and 24n in-bounds indices: 12n for the outer
   * and inner walls, then 12n for the bottom and top rings; every quad joins
   * the steps i and i+1.
   */
  lemma TubeStructure(n: nat)
    ensures |TubeVertices(n)| == 4 * n + 4
    ensures |TubeWalls(n)| == 12 * n && |TubeCaps(n)| == 12 * n
    ensures InBounds(TubeIndices(n), |TubeVertices(n)|)
    ensures forall i: nat :: i < n ==> Addresses(TubeVertices(n), Block(TubeWalls(n), 12, i), TubeWallLabels(i))
    ensures forall i: nat :: i < n ==> Addresses(TubeVertices(n), Block(TubeCaps(n), 12, i), TubeCapLabels(i))
  {
    TubeVertexAt(n, 0);
    ConcatLength(TubeWallGen(), n, 12);
    ConcatLength(TubeCapGen(), n, 12);
    forall i: nat | i < n
      ensures InBounds(TubeWallGen()(i), 4 * n + 4) && InBounds(TubeCapGen()(i), 4 * n + 4)
    {
    }
    ConcatInBounds(TubeWallGen(), n, 4 * n + 4);
    ConcatInBounds(TubeCapGen(), n, 4 * n + 4);
    forall i: nat | i < n
      ensures Addresses(TubeVertices(n), Block(TubeWalls(n), 12, i), TubeWallLabels(i))
      ensures Addresses(TubeVertices(n), Block(TubeCaps(n), 12, i), TubeCapLabels(i))
    {
      TubeWallBlock(n, i);
      TubeCapBlock(n, i);
    }
  }

  // ---------------------------------------------------------------------
  // Parametric grids: (rows+1) x (cols+1) samples, two triangles per cell.
  // ---------------------------------------------------------------------

  /**
   * The two triangle orders of a grid cell with corners a (this row), b (next
   * row), a+1 and b+1: the sphere and hemisphere emit (a, b, a+1)(b, b+1, a+1),
   * every other grid emits (a, b, a+1)(a+1, b, b+1).
   */
  datatype Winding = SphereWinding | StripWinding

  function GridQuad(w: Winding, a: int, b: int): (q: seq<int>)
    ensures |q| == 6
  {
    match w
    case SphereWinding => [a, b, a + 1] + [b, b + 1, a + 1]
    case StripWinding => [a, b, a + 1] + [a + 1, b, b + 1]
  }

  lemma GridQuadInBounds(w: Winding, a: int, b: int, n: int)
    requires 0 <= a && a + 1 <= b && b + 1 < n
    ensures InBounds(GridQuad(w, a, b), n)
  {
  }

  /** The grid samples cell (r, c) joins, in the order its winding lists them. */
  function GridQuadLabels(w: Winding, r: int, c: int): seq<Vertex>
  {
    match w
    case SphereWinding =>
      [GridPoint(r, c), GridPoint(r + 1, c), GridPoint(r, c + 1)]
        + [GridPoint(r + 1, c), GridPoint(r + 1, c + 1), GridPoint(r, c + 1)]
    case StripWinding =>
      [GridPoint(r, c), GridPoint(r + 1, c), GridPoint(r, c + 1)]
        + [GridPoint(r, c + 1), GridPoint(r + 1, c), GridPoint(r + 1, c + 1)]
  }

  // Row-major sample grids and cell lists, shared by the grid shapes and the spiral.

  /** Position p of a row-major table with `cols` columns is row p / cols, column p % cols. */
  lemma RowMajor(p: nat, rows: nat, cols: nat)
    requires p < rows * cols
    ensures cols > 0 && 0 <= p / cols < rows && 0 <= p % cols < cols
    ensures p == (p / cols) * cols + p % cols
  {
    assert cols > 0;
    var q, r := p / cols, p % cols;
    assert p == q * cols + r;
    if q < 0 {
      MulLe(cols, q, -1);
    } else if q >= rows {
      MulMono(rows, q, cols);
    }
  }

  /** The samples one pass of the inner loop pushes for row r. */
  function SampleColGen(r: nat, name: (nat, nat) -> Vertex): nat -> seq<Vertex>
  {
    (c: nat) => [name(r, c)]
  }

  function SampleAt(rows: nat, cols: nat, name: (nat, nat) -> Vertex, p: nat): Vertex
    requires p < rows * cols
  {
    RowMajor(p, rows, cols);
    name(p / cols, p % cols)
  }

  /** `rows` x `cols` vertices pushed row by row; sample (r, c) is named `name(r, c)`. */
  function Samples(rows: nat, cols: nat, name: (nat, nat) -> Vertex): seq<Vertex>
  {
    seq(rows * cols, (p: int) requires 0 <= p < rows * cols => SampleAt(rows, cols, name, p))
  }

  lemma SamplesLength(rows: nat, cols: nat, name: (nat, nat) -> Vertex)
    ensures |Samples(rows, cols, name)| == rows * cols
  {
  }

  lemma SamplesAt(rows: nat, cols: nat, name: (nat, nat) -> Vertex, r: nat, c: nat)
    requires r < rows && c < cols
    ensures |Samples(rows, cols, name)| == rows * cols
    ensures r * cols + c < rows * cols
    ensures Samples(rows, cols, name)[r * cols + c] == name(r, c)
  {
    MulMono(r + 1, rows, cols);
    assert (r + 1) * cols == r * cols + cols;
    DivModUnique(r * cols + c, cols, r, c);
  }

  /** One more pass of the outer loop appends row `rows` to the samples. */
  lemma SamplesStep(rows: nat, cols: nat, name: (nat, nat) -> Vertex)
    ensures Samples(rows + 1, cols, name) == Samples(rows, cols, name) + Concat(SampleColGen(rows, name), cols)
  {
    var a, b := Samples(rows, cols, name), Concat(SampleColGen(rows, name), cols);
    ConcatLength(SampleColGen(rows, name), cols, 1);
    assert (rows + 1) * cols == rows * cols + cols;
    forall p | 0 <= p < (rows + 1) * cols
      ensures Samples(rows + 1, cols, name)[p] == (a + b)[p]
    {
      if p >= rows * cols {
        var c := p - rows * cols;
        ConcatAt(SampleColGen(rows, name), cols, 1, c, 0);
        SamplesAt(rows + 1, cols, name, rows, c);
      }
    }
  }

  /** The index lists one pass of the inner loop pushes for row r. */
  function CellColGen(r: nat, cell: (nat, nat) -> seq<int>): nat -> seq<int>
  {
    (c: nat) => cell(r, c)
  }

  lemma CellSlot6(p: nat, rows: nat, cols: nat)
    requires p < rows * (cols * 6)
    ensures p / 6 < rows * cols && p == 6 * (p / 6) + p % 6 && 0 <= p % 6 < 6
  {
    assert rows * (cols * 6) == 6 * (rows * cols);
  }

  function CellEntry(rows: nat, cols: nat, cell: (nat, nat) -> seq<int>, p: nat): int
    requires p < rows * (cols * 6)
  {
    CellSlot6(p, rows, cols);
    RowMajor(p / 6, rows, cols);
    var b := cell(p / 6 / cols, p / 6 % cols);
    if p % 6 < |b| then b[p % 6] else 0
  }

  /** The index lists `cell(r, c)` of `rows` x `cols` six-index cells, pushed row by row. */
  function Cells(rows: nat, cols: nat, cell: (nat, nat) -> seq<int>): seq<int>
  {
    seq(rows * (cols * 6), (p: int) requires 0 <= p < rows * (cols * 6) => CellEntry(rows, cols, cell, p))
  }

  /** The six indices of cell (r, c) of a cell list with `cols` cells per row. */
  function Cell(s: seq<int>, cols: nat, r: nat, c: nat): seq<int>
  {
    if (r * cols + c) * 6 + 6 <= |s| then Block(s, 6, r * cols + c) else []
  }

  /** Every cell pushes six indices. */
  ghost predicate SixPerCell(cell: (nat, nat) -> seq<int>)
  {
    forall r: nat, c: nat :: |cell(r, c)| == 6
  }

  lemma CellsLength(rows: nat, cols: nat, cell: (nat, nat) -> seq<int>)
    ensures |Cells(rows, cols, cell)| == rows * (cols * 6)
  {
  }

  lemma CellOffset(rows: nat, cols: nat, r: nat, c: nat, j: nat)
    requires r < rows && c < cols && j < 6
    ensures c * 6 + j < cols * 6
    ensures (r * cols + c) * 6 + j == r * (cols * 6) + (c * 6 + j)
    ensures (r * cols + c) * 6 + j < rows * (cols * 6)
  {
    MulMono(r + 1, rows, cols * 6);
  }

  lemma CellsIndexAt(rows: nat, cols: nat, cell: (nat, nat) -> seq<int>, r: nat, c: nat, j: nat)
    requires SixPerCell(cell)
    requires r < rows && c < cols && j < 6
    ensures |Cells(rows, cols, cell)| == rows * (cols * 6)
    ensures (r * cols + c) * 6 + j < rows * (cols * 6)
    ensures Cells(rows, cols, cell)[(r * cols + c) * 6 + j] == cell(r, c)[j]
  {
    CellOffset(rows, cols, r, c, j);
    var p := (r * cols + c) * 6 + j;
    CellSlot6(p, rows, cols);
    DivModUnique(p, 6, r * cols + c, j);
    DivModUnique(r * cols + c, cols, r, c);
    assert |cell(r, c)| == 6;
  }

  /** Cell (r, c) of the list is exactly what the generator pushed for (r, c). */
  lemma CellsAt(rows: nat, cols: nat, cell: (nat, nat) -> seq<int>, r: nat, c: nat)
    requires SixPerCell(cell)
    requires r < rows && c < cols
    ensures |Cells(rows, cols, cell)| == rows * (cols * 6)
    ensures (r * cols + c) * 6 + 6 <= rows * (cols * 6)
    ensures Cell(Cells(rows, cols, cell), cols, r, c) == cell(r, c)
  {
    CellsIndexAt(rows, cols, cell, r, c, 5);
    forall j | 0 <= j < 6
      ensures Cell(Cells(rows, cols, cell), cols, r, c)[j] == cell(r, c)[j]
    {
      CellsIndexAt(rows, cols, cell, r, c, j);
    }
  }

  /** One more pass of the outer loop appends row `rows` of cells. */
  lemma CellsStep(rows: nat, cols: nat, cell: (nat, nat) -> seq<int>)
    requires SixPerCell(cell)
    ensures Cells(rows + 1, cols, cell) == Cells(rows, cols, cell) + Concat(CellColGen(rows, cell), cols)
  {
    var a, b := Cells(rows, cols, cell), Concat(CellColGen(rows, cell), cols);
    ConcatLength(CellColGen(rows, cell), cols, 6);
    assert (rows + 1) * (cols * 6) == rows * (cols * 6) + cols * 6;
    forall p | 0 <= p < (rows + 1) * (cols * 6)
      ensures Cells(rows + 1, cols, cell)[p] == (a + b)[p]
    {
      if p >= rows * (cols * 6) {
        var e := p - rows * (cols * 6);
        var c, j := e / 6, e % 6;
        ConcatAt(CellColGen(rows, cell), cols, 6, c, j);
        CellsIndexAt(rows + 1, cols, cell, rows, c, j);
        CellOffset(rows + 1, cols, rows, c, j);
      }
    }
  }

  lemma CellsInBounds(rows: nat, cols: nat, cell: (nat, nat) -> seq<int>, n: int)
    requires SixPerCell(cell)
    requires forall r: nat, c: nat :: r < rows && c < cols ==> InBounds(cell(r, c), n)
    ensures InBounds(Cells(rows, cols, cell), n)
  {
    var s := Cells(rows, cols, cell);
    forall p | 0 <= p < |s|
      ensures 0 <= s[p] < n
    {
      CellSlot6(p, rows, cols);
      RowMajor(p / 6, rows, cols);
      var r, c := p / 6 / cols, p / 6 % cols;
      assert InBounds(cell(r, c), n) && |cell(r, c)| == 6;
    }
  }

  lemma CellsPrefix(k: nat, rows: nat, cols: nat, cell: (nat, nat) -> seq<int>)
    requires k <= rows
    ensures Cells(k, cols, cell) <= Cells(rows, cols, cell)
  {
    var a, b := Cells(k, cols, cell), Cells(rows, cols, cell);
    MulMono(k, rows, cols * 6);
    assert a == b[..|a|];
  }

  // Grid shapes proper.

  function GridLabel(): (nat, nat) -> Vertex
  {
    (r: nat, c: nat) => GridPoint(r, c)
  }

  function GridVertices(rows: nat, cols: nat): seq<Vertex>
  {
    Samples(rows, cols, GridLabel())
  }

  function GridCellFn(stride: int, w: Winding): (nat, nat) -> seq<int>
  {
    (r: nat, c: nat) => GridQuad(w, r * stride + c, (r + 1) * stride + c)
  }

  /** Six indices per cell, cells in row-major order, row r starting at sample r * stride. */
  function GridIndices(rows: nat, cols: nat, stride: int, w: Winding): seq<int>
  {
    Cells(rows, cols, GridCellFn(stride, w))
  }

  lemma GridSixPerCell(stride: int, w: Winding)
    ensures SixPerCell(GridCellFn(stride, w))
  {
    forall r: nat, c: nat
      ensures |GridCellFn(stride, w)(r, c)| == 6
    {
      assert GridCellFn(stride, w)(r, c) == GridQuad(w, r * stride + c, (r + 1) * stride + c);
    }
  }

  lemma GridIndicesLength(rows: nat, cols: nat, stride: int, w: Winding)
    ensures |GridIndices(rows, cols, stride, w)| == rows * (cols * 6)
  {
    GridSixPerCell(stride, w);
    CellsLength(rows, cols, GridCellFn(stride, w));
  }

  lemma GridCorners(rows: nat, cols: nat, r: nat, c: nat)
    requires r < rows && c < cols
    ensures |GridVertices(rows + 1, cols + 1)| == (rows + 1) * (cols + 1)
    ensures r * (cols + 1) + c + cols + 2 < (rows + 1) * (cols + 1)
    ensures GridVertices(rows + 1, cols + 1)[r * (cols + 1) + c] == GridPoint(r, c)
    ensures GridVertices(rows + 1, cols + 1)[r * (cols + 1) + c + 1] == GridPoint(r, c + 1)
    ensures GridVertices(rows + 1, cols + 1)[r * (cols + 1) + c + cols + 1] == GridPoint(r + 1, c)
    ensures GridVertices(rows + 1, cols + 1)[r * (cols + 1) + c + cols + 2] == GridPoint(r + 1, c + 1)
  {
    SamplesAt(rows + 1, cols + 1, GridLabel(), r, c);
    SamplesAt(rows + 1, cols + 1, GridLabel(), r, c + 1);
    SamplesAt(rows + 1, cols + 1, GridLabel(), r + 1, c);
    SamplesAt(rows + 1, cols + 1, GridLabel(), r + 1, c + 1);
    assert (r + 1) * (cols + 1) == r * (cols + 1) + cols + 1;
  }

  /** A grid quad whose four corners are the samples at (r, c) .. (r + 1, c + 1). */
  lemma GridQuadAddresses(vs: seq<Vertex>, w: Winding, a: nat, b: nat, r: nat, c: nat)
    requires b + 1 < |vs| && a + 1 < |vs|
    requires vs[a] == GridPoint(r, c) && vs[a + 1] == GridPoint(r, c + 1)
    requires vs[b] == GridPoint(r + 1, c) && vs[b + 1] == GridPoint(r + 1, c + 1)
    ensures Addresses(vs, GridQuad(w, a, b), GridQuadLabels(w, r, c))
  {
    var p00, p10, p01, p11 := GridPoint(r, c), GridPoint(r + 1, c), GridPoint(r, c + 1), GridPoint(r + 1, c + 1);
    AddressesTriangle(vs, a, b, a + 1, p00, p10, p01);
    match w
    case SphereWinding =>
      AddressesTriangle(vs, b, b + 1, a + 1, p10, p11, p01);
      AddressesAppend(vs, [a, b, a + 1], [b, b + 1, a + 1], [p00, p10, p01], [p10, p11, p01]);
    case StripWinding =>
      AddressesTriangle(vs, a + 1, b, b + 1, p01, p10, p11);
      AddressesAppend(vs, [a, b, a + 1], [a + 1, b, b + 1], [p00, p10, p01], [p01, p10, p11]);
  }

  lemma GridCellAddresses(rows: nat, cols: nat, w: Winding, r: nat, c: nat)
    requires r < rows && c < cols
    ensures Addresses(GridVertices(rows + 1, cols + 1), Cell(GridIndices(rows, cols, cols + 1, w), cols, r, c),
                      GridQuadLabels(w, r, c))
  {
    MulMono(0, r, cols + 1);
    GridCellQuad(rows, cols, w, r, c);
    GridCornerAddresses(rows, cols, w, r, c);
  }

  lemma GridCellQuad(rows: nat, cols: nat, w: Winding, r: nat, c: nat)
    requires r < rows && c < cols
    ensures Cell(GridIndices(rows, cols, cols + 1, w), cols, r, c)
            == GridQuad(w, r * (cols + 1) + c, r * (cols + 1) + c + cols + 1)
  {
    GridSixPerCell(cols + 1, w);
    CellsAt(rows, cols, GridCellFn(cols + 1, w), r, c);
    assert (r + 1) * (cols + 1) + c == r * (cols + 1) + c + cols + 1;
  }

  lemma GridCornerAddresses(rows: nat, cols: nat, w: Winding, r: nat, c: nat)
    requires r < rows && c < cols
    ensures Addresses(GridVertices(rows + 1, cols + 1),
                      GridQuad(w, r * (cols + 1) + c, r * (cols + 1) + c + cols + 1), GridQuadLabels(w, r, c))
  {
    MulMono(0, r, cols + 1);
    var a: nat := r * (cols + 1) + c;
    GridCorners(rows, cols, r, c);
    GridQuadAddresses(GridVertices(rows + 1, cols + 1), w, a, a + cols + 1, r, c);
  }

  lemma GridInBounds(rows: nat, cols: nat, w: Winding)
    ensures InBounds(GridIndices(rows, cols, cols + 1, w), (rows + 1) * (cols + 1))
  {
    var n := (rows + 1) * (cols + 1);
    var stride := cols + 1;
    forall r: nat, c: nat | r < rows && c < cols
      ensures InBounds(GridCellFn(stride, w)(r, c), n)
    {
      MulMono(r + 2, rows + 1, stride);
      assert (r + 1) * stride + c + 1 < (r + 2) * stride;
      assert r * stride + c + 1 <= (r + 1) * stride + c;
      assert GridCellFn(stride, w)(r, c) == GridQuad(w, r * stride + c, (r + 1) * stride + c);
      GridQuadInBounds(w, r * stride + c, (r + 1) * stride + c, n);
    }
    GridSixPerCell(stride, w);
    CellsInBounds(rows, cols, GridCellFn(stride, w), n);
  }

  /** The first k rows of a grid's index list are the index list of a k-row grid. */
  lemma GridRowsPrefix(k: nat, rows: nat, cols: nat, stride: int, w: Winding)
    requires k <= rows
    ensures GridIndices(k, cols, stride, w) <= GridIndices(rows, cols, stride, w)
  {
    CellsPrefix(k, rows, cols, GridCellFn(stride, w));
  }

  /** A grid shape whose generator loops run `mainSegments` by `crossSegments` cells. */
  function GridShapeVertices(mainSegments: int, crossSegments: int): seq<Vertex>
  {
    GridVertices(Nat(mainSegments + 1), Nat(crossSegments + 1))
  }

  function GridShapeIndices(mainSegments: int, crossSegments: int, w: Winding): seq<int>
  {
    GridIndices(Nat(mainSegments), Nat(crossSegments), crossSegments + 1, w)
  }

  /**
   * A grid shape over m x c cells has (m+1)(c+1) vertices (none when a loop
   * bound is negative) and 6mc in-bounds indices; cell (r, j) holds the two
   * triangles over samples (r, j), (r+1, j), (r, j+1) and (r+1, j+1).
   */
  lemma GridShapeStructure(mainSegments: int, crossSegments: int, w: Winding)
    ensures |GridShapeVertices(mainSegments, crossSegments)| == Nat(mainSegments + 1) * Nat(crossSegments + 1)
    ensures |GridShapeIndices(mainSegments, crossSegments, w)| == Nat(mainSegments) * (Nat(crossSegments) * 6)
    ensures InBounds(GridShapeIndices(mainSegments, crossSegments, w), |GridShapeVertices(mainSegments, crossSegments)|)
    ensures forall r: nat, c: nat :: r < Nat(mainSegments) && c < Nat(crossSegments) ==>
      Addresses(GridShapeVertices(mainSegments, crossSegments),
                Cell(GridShapeIndices(mainSegments, crossSegments, w), Nat(crossSegments), r, c),
                GridQuadLabels(w, r, c))
  {
    var rows := Nat(mainSegments);
    var cols := Nat(crossSegments);
    SamplesLength(Nat(mainSegments + 1), Nat(crossSegments + 1), GridLabel());
    GridIndicesLength(rows, cols, crossSegments + 1, w);
    if rows > 0 && cols > 0 {
      GridInBounds(rows, cols, w);
      forall r: nat, c: nat | r < rows && c < cols
        ensures Addresses(GridShapeVertices(mainSegments, crossSegments),
                          Cell(GridShapeIndices(mainSegments, crossSegments, w), cols, r, c),
                          GridQuadLabels(w, r, c))
      {
        GridCellAddresses(rows, cols, w, r, c);
      }
    }
  }

  // ---------------------------------------------------------------------
  // Spiral: rings of tubeSegments samples (no duplicated seam column), an
  // end cap of 8 rings, bands between consecutive rings that wrap with
  // (j+1) mod tubeSegments, and a join from the last cap ring to tube ring 0.
  // ---------------------------------------------------------------------

  /** The sample after j on a closed ring of n samples: (j + 1) mod n, written without the division. */
  function Wrap(j: nat, n: nat): nat
  {
    if j + 1 < n then j + 1 else 0
  }

  lemma WrapIsMod(j: nat, n: nat)
    requires j < n
    ensures Wrap(j, n) == (j + 1) % n && Wrap(j, n) < n
  {
  }

  /** The number of rings of the spiral's end cap. */
  const CapRings: nat := 8

  /**
   * The spiral pushes ringCount tube rings and then the cap rings 1..8, each
   * of tubeSegments samples, so its vertices form one row-major grid whose
   * row i is tube ring i below ringCount and cap ring i - ringCount + 1 above.
   * `Rows` says how a run of rings is named.
   */
  datatype Rows = TubeRows | CapRows | SpiralRows(ringCount: nat)

  function RowName(rows: Rows, i: nat, j: nat): Vertex
  {
    match rows
    case TubeRows => GridPoint(i, j)
    case CapRows => CapRing(i + 1, j)
    case SpiralRows(ringCount) => if i < ringCount then GridPoint(i, j) else CapRing(i - ringCount + 1, j)
  }

  function RowNames(rows: Rows): (nat, nat) -> Vertex
  {
    (i: nat, j: nat) => RowName(rows, i, j)
  }

  function SpiralVertices(ringCount: nat, segs: nat): seq<Vertex>
  {
    Samples(ringCount + CapRings, segs, RowNames(SpiralRows(ringCount)))
  }

  /** The band quad between ring i and ring i+1 at sample j, rings starting at `base`. */
  function SpiralBandFn(base: int, segs: nat): (nat, nat) -> seq<int>
    requires segs > 0
  {
    (i: nat, j: nat) =>
      var jn := Wrap(j, segs);
      [base + i * segs + j, base + (i + 1) * segs + j, base + i * segs + jn]
        + [base + i * segs + jn, base + (i + 1) * segs + j, base + (i + 1) * segs + jn]
  }

  function SpiralJoinGen(capLast: int, segs: nat): nat -> seq<int>
    requires segs > 0
  {
    (j: nat) =>
      var jn := Wrap(j, segs);
      [capLast + j, j, capLast + jn] + [capLast + jn, j, jn]
  }

  function SpiralTube(ringCount: nat, segs: nat): seq<int>
    requires ringCount >= 1
  {
    if segs == 0 then [] else Cells(ringCount - 1, segs, SpiralBandFn(0, segs))
  }

  function SpiralCap(ringCount: nat, segs: nat): seq<int>
  {
    if segs == 0 then [] else Cells(CapRings - 1, segs, SpiralBandFn(ringCount * segs, segs))
  }

  function SpiralJoin(ringCount: nat, segs: nat): seq<int>
  {
    if segs == 0 then [] else Concat(SpiralJoinGen(ringCount * segs + (CapRings - 1) * segs, segs), segs)
  }

  function SpiralIndices(ringCount: nat, segs: nat): seq<int>
    requires ringCount >= 1
  {
    SpiralTube(ringCount, segs) + SpiralCap(ringCount, segs) + SpiralJoin(ringCount, segs)
  }

  /** The samples a band quad between ring i and ring i+1 joins, named by `name`. */
  function BandNames(rows: Rows, i: nat, j: nat, segs: nat): seq<Vertex>
    requires segs > 0
  {
    var jn := Wrap(j, segs);
    [RowName(rows, i, j), RowName(rows, i + 1, j), RowName(rows, i, jn)] +
    [RowName(rows, i, jn), RowName(rows, i + 1, j), RowName(rows, i + 1, jn)]
  }

  /** Sample j of ring i (of `rings` rings of `segs` samples from `base`) is `RowName(rows, i, j)`. */
  predicate RingsNamed(vs: seq<Vertex>, base: nat, rings: nat, segs: nat, rows: Rows)
  {
    forall i: nat, j: nat :: i < rings && j < segs ==>
      Slot(base, i, segs, j) < |vs| && vs[Slot(base, i, segs, j)] == RowName(rows, i, j)
  }

  /** Position of sample j of ring i in rings of `segs` samples from `base`. */
  function Slot(base: nat, i: nat, segs: nat, j: nat): nat
  {
    base + i * segs + j
  }

  lemma RingAt(vs: seq<Vertex>, base: nat, rings: nat, segs: nat, rows: Rows, i: nat, j: nat)
    requires RingsNamed(vs, base, rings, segs, rows)
    requires i < rings && j < segs
    ensures base + i * segs + j < |vs| && vs[base + i * segs + j] == RowName(rows, i, j)
  {
  }

  lemma SpiralBandSix(base: int, segs: nat)
    requires segs > 0
    ensures SixPerCell(SpiralBandFn(base, segs))
  {
  }

  lemma BandAddresses(vs: seq<Vertex>, base: nat, total: nat, rings: nat, segs: nat, rows: Rows, i: nat, j: nat)
    requires segs > 0 && i < rings < total && j < segs
    requires RingsNamed(vs, base, total, segs, rows)
    ensures |Cells(rings, segs, SpiralBandFn(base, segs))| == rings * (segs * 6)
    ensures Addresses(vs, Cell(Cells(rings, segs, SpiralBandFn(base, segs)), segs, i, j), BandNames(rows, i, j, segs))
  {
    var jn := Wrap(j, segs);
    var a, an := base + i * segs + j, base + i * segs + jn;
    var b, bn := base + (i + 1) * segs + j, base + (i + 1) * segs + jn;
    SpiralBandSix(base, segs);
    CellsAt(rings, segs, SpiralBandFn(base, segs), i, j);
    assert Cell(Cells(rings, segs, SpiralBandFn(base, segs)), segs, i, j) == [a, b, an] + [an, b, bn];
    RingAt(vs, base, total, segs, rows, i, j);
    RingAt(vs, base, total, segs, rows, i, jn);
    RingAt(vs, base, total, segs, rows, i + 1, j);
    RingAt(vs, base, total, segs, rows, i + 1, jn);
    AddressesTriangle(vs, a, b, an, RowName(rows, i, j), RowName(rows, i + 1, j), RowName(rows, i, jn));
    AddressesTriangle(vs, an, b, bn, RowName(rows, i, jn), RowName(rows, i + 1, j), RowName(rows, i + 1, jn));
    AddressesAppend(vs, [a, b, an], [an, b, bn],
                    [RowName(rows, i, j), RowName(rows, i + 1, j), RowName(rows, i, jn)],
                    [RowName(rows, i, jn), RowName(rows, i + 1, j), RowName(rows, i + 1, jn)]);
  }

  lemma BandsInBounds(vs: seq<Vertex>, base: nat, total: nat, rings: nat, segs: nat, rows: Rows)
    requires segs > 0 && rings < total
    requires RingsNamed(vs, base, total, segs, rows)
    ensures InBounds(Cells(rings, segs, SpiralBandFn(base, segs)), |vs|)
  {
    SpiralBandSix(base, segs);
    forall i: nat, j: nat | i < rings && j < segs
      ensures InBounds(SpiralBandFn(base, segs)(i, j), |vs|)
    {
      BandAddresses(vs, base, total, rings, segs, rows, i, j);
      CellsAt(rings, segs, SpiralBandFn(base, segs), i, j);
    }
    CellsInBounds(rings, segs, SpiralBandFn(base, segs), |vs|);
  }

  lemma SpiralVerticesLength(ringCount: nat, segs: nat)
    ensures |SpiralVertices(ringCount, segs)| == (ringCount + 8) * segs
  {
    SamplesLength(ringCount + CapRings, segs, RowNames(SpiralRows(ringCount)));
  }

  lemma SpiralTubeAt(ringCount: nat, segs: nat, i: nat, j: nat)
    requires i < ringCount && j < segs
    ensures i * segs + j < |SpiralVertices(ringCount, segs)|
    ensures SpiralVertices(ringCount, segs)[i * segs + j] == GridPoint(i, j)
  {
    SamplesAt(ringCount + CapRings, segs, RowNames(SpiralRows(ringCount)), i, j);
  }

  lemma SpiralCapAt(ringCount: nat, segs: nat, k: nat, j: nat)
    requires k < CapRings && j < segs
    ensures ringCount * segs + k * segs + j < |SpiralVertices(ringCount, segs)|
    ensures SpiralVertices(ringCount, segs)[ringCount * segs + k * segs + j] == CapRing(k + 1, j)
  {
    SamplesAt(ringCount + CapRings, segs, RowNames(SpiralRows(ringCount)), ringCount + k, j);
    assert (ringCount + k) * segs == ringCount * segs + k * segs;
  }

  lemma SamplesNamed(count: nat, cols: nat, rows: Rows)
    ensures RingsNamed(Samples(count, cols, RowNames(rows)), 0, count, cols, rows)
  {
    var vs := Samples(count, cols, RowNames(rows));
    forall i: nat, j: nat | i < count && j < cols
      ensures Slot(0, i, cols, j) < |vs| && vs[Slot(0, i, cols, j)] == RowName(rows, i, j)
    {
      SamplesAt(count, cols, RowNames(rows), i, j);
    }
  }

  lemma SpiralGridNamed(ringCount: nat, segs: nat)
    ensures RingsNamed(SpiralVertices(ringCount, segs), 0, ringCount + CapRings, segs, SpiralRows(ringCount))
  {
    SamplesNamed(ringCount + CapRings, segs, SpiralRows(ringCount));
  }

  /** Below ring ringCount the spiral's rows are the tube's rings. */
  lemma TubeBandNames(ringCount: nat, segs: nat, i: nat, j: nat)
    requires segs > 0 && i + 1 < ringCount && j < segs
    ensures BandNames(SpiralRows(ringCount), i, j, segs) == BandNames(TubeRows, i, j, segs)
  {
  }

  lemma ShiftIndex(base: nat, from: nat, k: nat, segs: nat, j: nat)
    ensures base + from * segs + k * segs + j == base + (from + k) * segs + j
  {
    assert (from + k) * segs == from * segs + k * segs;
  }

  lemma CapRowAt(vs: seq<Vertex>, ringCount: nat, segs: nat, k: nat, j: nat)
    requires RingsNamed(vs, 0, ringCount + CapRings, segs, SpiralRows(ringCount))
    requires k < CapRings && j < segs
    ensures ringCount * segs + k * segs + j < |vs| && vs[ringCount * segs + k * segs + j] == RowName(CapRows, k, j)
  {
    RingAt(vs, 0, ringCount + CapRings, segs, SpiralRows(ringCount), ringCount + k, j);
    ShiftIndex(0, ringCount, k, segs, j);
  }

  lemma CapRowsNamed(vs: seq<Vertex>, ringCount: nat, segs: nat)
    requires RingsNamed(vs, 0, ringCount + CapRings, segs, SpiralRows(ringCount))
    ensures RingsNamed(vs, ringCount * segs, CapRings, segs, CapRows)
  {
    forall k: nat, j: nat | k < CapRings && j < segs
      ensures Slot(ringCount * segs, k, segs, j) < |vs| && vs[Slot(ringCount * segs, k, segs, j)] == RowName(CapRows, k, j)
    {
      CapRowAt(vs, ringCount, segs, k, j);
    }
  }

  /** From ring ringCount on, the spiral's rows are the cap's rings. */
  lemma SpiralCapNamed(ringCount: nat, segs: nat)
    ensures RingsNamed(SpiralVertices(ringCount, segs), ringCount * segs, CapRings, segs, CapRows)
  {
    SpiralGridNamed(ringCount, segs);
    CapRowsNamed(SpiralVertices(ringCount, segs), ringCount, segs);
  }

  function JoinNames(segs: nat, j: nat): seq<Vertex>
    requires segs > 0
  {
    var jn := Wrap(j, segs);
    [CapRing(CapRings, j), GridPoint(0, j), CapRing(CapRings, jn)] + [CapRing(CapRings, jn), GridPoint(0, j), GridPoint(0, jn)]
  }

  lemma SpiralJoinCorners(ringCount: nat, segs: nat, j: nat)
    requires ringCount >= 1 && segs > 0 && j < segs
    ensures var last := ringCount * segs + (CapRings - 1) * segs;
      var jn := Wrap(j, segs);
      var vs := SpiralVertices(ringCount, segs);
      last + j < |vs| && last + jn < |vs| && jn < |vs| &&
      vs[last + j] == CapRing(CapRings, j) && vs[last + jn] == CapRing(CapRings, jn) &&
      vs[j] == GridPoint(0, j) && vs[jn] == GridPoint(0, jn)
  {
    var jn := Wrap(j, segs);
    SpiralCapAt(ringCount, segs, CapRings - 1, j);
    SpiralCapAt(ringCount, segs, CapRings - 1, jn);
    SpiralTubeAt(ringCount, segs, 0, j);
    SpiralTubeAt(ringCount, segs, 0, jn);
  }

  lemma JoinAddresses(vs: seq<Vertex>, last: nat, segs: nat, j: nat)
    requires segs > 0 && j < segs
    requires last + j < |vs| && last + Wrap(j, segs) < |vs| && Wrap(j, segs) < |vs|
    requires vs[last + j] == CapRing(CapRings, j) && vs[last + Wrap(j, segs)] == CapRing(CapRings, Wrap(j, segs))
    requires vs[j] == GridPoint(0, j) && vs[Wrap(j, segs)] == GridPoint(0, Wrap(j, segs))
    ensures Addresses(vs, [last + j, j, last + Wrap(j, segs)] + [last + Wrap(j, segs), j, Wrap(j, segs)], JoinNames(segs, j))
  {
    var jn := Wrap(j, segs);
    AddressesTriangle(vs, last + j, j, last + jn, CapRing(CapRings, j), GridPoint(0, j), CapRing(CapRings, jn));
    AddressesTriangle(vs, last + jn, j, jn, CapRing(CapRings, jn), GridPoint(0, j), GridPoint(0, jn));
    AddressesAppend(vs, [last + j, j, last + jn], [last + jn, j, jn],
                    [CapRing(CapRings, j), GridPoint(0, j), CapRing(CapRings, jn)],
                    [CapRing(CapRings, jn), GridPoint(0, j), GridPoint(0, jn)]);
  }

  lemma SpiralJoinBlock(ringCount: nat, segs: nat, j: nat)
    requires ringCount >= 1 && segs > 0 && j < segs
    ensures |SpiralJoin(ringCount, segs)| == 6 * segs
    ensures Addresses(SpiralVertices(ringCount, segs), Block(SpiralJoin(ringCount, segs), 6, j), JoinNames(segs, j))
  {
    var vs := SpiralVertices(ringCount, segs);
    var jn := Wrap(j, segs);
    var last := ringCount * segs + (CapRings - 1) * segs;
    ConcatLength(SpiralJoinGen(last, segs), segs, 6);
    assert Block(SpiralJoin(ringCount, segs), 6, j) == [last + j, j, last + jn] + [last + jn, j, jn] by {
      ConcatBlock(SpiralJoinGen(last, segs), segs, 6, j);
      SpiralJoinStep(last, segs, j);
    }
    SpiralJoinCorners(ringCount, segs, j);
    JoinAddresses(vs, last, segs, j);
  }

  lemma SpiralJoinStep(last: int, segs: nat, j: nat)
    requires segs > 0
    ensures SpiralJoinGen(last, segs)(j) == [last + j, j, last + Wrap(j, segs)] + [last + Wrap(j, segs), j, Wrap(j, segs)]
  {
  }

  lemma SpiralJoinInBounds(ringCount: nat, segs: nat)
    requires ringCount >= 1
    ensures InBounds(SpiralJoin(ringCount, segs), |SpiralVertices(ringCount, segs)|)
  {
    if segs > 0 {
      var last := ringCount * segs + (CapRings - 1) * segs;
      var n := |SpiralVertices(ringCount, segs)|;
      forall j: nat | j < segs
        ensures InBounds(SpiralJoinGen(last, segs)(j), n)
      {
        SpiralJoinBlock(ringCount, segs, j);
        ConcatBlock(SpiralJoinGen(last, segs), segs, 6, j);
      }
      ConcatInBounds(SpiralJoinGen(last, segs), segs, n);
    }
  }

  /**
   * With tubeSegments = s > 0 the spiral has (ringCount+8)s vertices and
   * 6s(ringCount+7) in-bounds indices: bands between consecutive tube rings,
   * then bands between consecutive cap rings, then the join of cap ring 8
   * (the widest) to tube ring 0; each band and the join wrap around the ring
   * with (j+1) mod s, so every ring is closed.
   */
  lemma SpiralCounts(ringCount: nat, segs: nat)
    requires ringCount >= 1
    ensures |SpiralVertices(ringCount, segs)| == (ringCount + 8) * segs
    ensures |SpiralIndices(ringCount, segs)| == 6 * segs * (ringCount + 7)
  {
    SpiralVerticesLength(ringCount, segs);
    if segs > 0 {
      SpiralBandSix(0, segs);
      SpiralBandSix(ringCount * segs, segs);
      CellsLength(ringCount - 1, segs, SpiralBandFn(0, segs));
      CellsLength(CapRings - 1, segs, SpiralBandFn(ringCount * segs, segs));
      ConcatLength(SpiralJoinGen(ringCount * segs + (CapRings - 1) * segs, segs), segs, 6);
      assert (ringCount - 1) * (segs * 6) + (CapRings - 1) * (segs * 6) + 6 * segs == 6 * segs * (ringCount + 7);
    }
  }

  lemma SpiralInBounds(ringCount: nat, segs: nat)
    requires ringCount >= 1
    ensures InBounds(SpiralIndices(ringCount, segs), |SpiralVertices(ringCount, segs)|)
  {
    var vs := SpiralVertices(ringCount, segs);
    SpiralJoinInBounds(ringCount, segs);
    if segs > 0 {
      SpiralGridNamed(ringCount, segs);
      SpiralCapNamed(ringCount, segs);
      BandsInBounds(vs, 0, ringCount + CapRings, ringCount - 1, segs, SpiralRows(ringCount));
      BandsInBounds(vs, ringCount * segs, CapRings, CapRings - 1, segs, CapRows);
    }
    InBoundsAppend(SpiralTube(ringCount, segs), SpiralCap(ringCount, segs), |vs|);
    InBoundsAppend(SpiralTube(ringCount, segs) + SpiralCap(ringCount, segs), SpiralJoin(ringCount, segs), |vs|);
  }

  lemma TubeBandAt(vs: seq<Vertex>, ringCount: nat, segs: nat, i: nat, j: nat)
    requires segs > 0 && i + 1 < ringCount && j < segs
    requires RingsNamed(vs, 0, ringCount + CapRings, segs, SpiralRows(ringCount))
    ensures Addresses(vs, Cell(SpiralTube(ringCount, segs), segs, i, j), BandNames(TubeRows, i, j, segs))
  {
    BandAddresses(vs, 0, ringCount + CapRings, ringCount - 1, segs, SpiralRows(ringCount), i, j);
    TubeBandNames(ringCount, segs, i, j);
  }

  lemma SpiralTubeBands(ringCount: nat, segs: nat)
    requires ringCount >= 1 && segs > 0
    ensures forall i: nat, j: nat :: i < ringCount - 1 && j < segs ==>
      Addresses(SpiralVertices(ringCount, segs), Cell(SpiralTube(ringCount, segs), segs, i, j),
                BandNames(TubeRows, i, j, segs))
  {
    var vs := SpiralVertices(ringCount, segs);
    SpiralGridNamed(ringCount, segs);
    forall i: nat, j: nat | i < ringCount - 1 && j < segs
      ensures Addresses(vs, Cell(SpiralTube(ringCount, segs), segs, i, j), BandNames(TubeRows, i, j, segs))
    {
      TubeBandAt(vs, ringCount, segs, i, j);
    }
  }

  lemma SpiralCapBands(ringCount: nat, segs: nat)
    requires ringCount >= 1 && segs > 0
    ensures forall i: nat, j: nat :: i < CapRings - 1 && j < segs ==>
      Addresses(SpiralVertices(ringCount, segs), Cell(SpiralCap(ringCount, segs), segs, i, j),
                BandNames(CapRows, i, j, segs))
  {
    var vs := SpiralVertices(ringCount, segs);
    SpiralCapNamed(ringCount, segs);
    forall i: nat, j: nat | i < CapRings - 1 && j < segs
      ensures Addresses(vs, Cell(SpiralCap(ringCount, segs), segs, i, j), BandNames(CapRows, i, j, segs))
    {
      BandAddresses(vs, ringCount * segs, CapRings, CapRings - 1, segs, CapRows, i, j);
    }
  }

  /**
   * The spiral: ringCount tube rings and 8 cap rings of tubeSegments samples;
   * bands between consecutive tube rings and consecutive cap rings, each
   * closing around the ring, and a band joining the last cap ring to the
   * first tube ring.
   */
  lemma SpiralStructure(ringCount: nat, segs: nat)
    requires ringCount >= 1
    ensures |SpiralVertices(ringCount, segs)| == (ringCount + 8) * segs
    ensures |SpiralIndices(ringCount, segs)| == 6 * segs * (ringCount + 7)
    ensures InBounds(SpiralIndices(ringCount, segs), |SpiralVertices(ringCount, segs)|)
    ensures segs > 0 ==> forall i: nat, j: nat :: i < ringCount - 1 && j < segs ==>
      Addresses(SpiralVertices(ringCount, segs), Cell(SpiralTube(ringCount, segs), segs, i, j),
                BandNames(TubeRows, i, j, segs))
    ensures segs > 0 ==> forall i: nat, j: nat :: i < CapRings - 1 && j < segs ==>
      Addresses(SpiralVertices(ringCount, segs), Cell(SpiralCap(ringCount, segs), segs, i, j),
                BandNames(CapRows, i, j, segs))
  {
    SpiralCounts(ringCount, segs);
    SpiralInBounds(ringCount, segs);
    if segs > 0 {
      SpiralTubeBands(ringCount, segs);
      SpiralCapBands(ringCount, segs);
    }
  }

  // ---------------------------------------------------------------------
  // Extra tori: no index buffer; seven vertices pushed per (main, tube)
  // cell of an m x t table of samples, drawn as a plain triangle list.
  // ---------------------------------------------------------------------

  /** `_mainSegments` and `_tubeSegments` of both extra tori. */
  const ExtraTorusSegments: nat := 30

  /** The seven samples the extra-torus loop pushes for cell (i, j), by its four branches. */
  function ExtraTorusCell(i: nat, j: nat, m: nat, t: nat): seq<Vertex>
  {
    var p := (a: nat, b: nat) => GridPoint(a, b);
    if i + 1 < m && j + 1 < t then
      [p(i, j), p(i, j + 1), p(i + 1, j + 1), p(i, j), p(i + 1, j), p(i + 1, j + 1), p(i, j)]
    else if i + 1 == m && j + 1 == t then
      [p(i, j), p(i, 0), p(0, 0), p(i, j), p(0, j), p(0, 0), p(i, j)]
    else if i + 1 == m then
      [p(i, j), p(i, j + 1), p(0, j + 1), p(i, j), p(0, j), p(0, j + 1), p(i, j)]
    else if j + 1 == t then
      [p(i, j), p(i, 0), p(i + 1, 0), p(i, j), p(i + 1, j), p(i + 1, 0), p(i, j)]
    else
      []
  }

  /**
   * Inside the table the four branches are one rule: the cell joins samples
   * (i, j), (i, j'), (i', j') and (i', j), where ' is the next sample on a
   * closed ring, and ends by repeating (i, j).
   */
  lemma ExtraTorusCellWraps(i: nat, j: nat, m: nat, t: nat)
    requires i < m && j < t
    ensures ExtraTorusCell(i, j, m, t) ==
      [GridPoint(i, j), GridPoint(i, Wrap(j, t)), GridPoint(Wrap(i, m), Wrap(j, t)), GridPoint(i, j),
       GridPoint(Wrap(i, m), j), GridPoint(Wrap(i, m), Wrap(j, t)), GridPoint(i, j)]
  {
  }

  function ExtraTorusRowGen(m: nat, t: nat): nat -> seq<Vertex>
  {
    (i: nat) => Concat((j: nat) => ExtraTorusCell(i, j, m, t), t)
  }

  /** What the nested loop appends: row i is the run of cells (i, 0) .. (i, t-1). */
  function ExtraTorusRows(m: nat, t: nat): seq<Vertex>
  {
    Concat(ExtraTorusRowGen(m, t), m)
  }

  /**
   * The extra-torus vertex list by position: vertex x is slot x mod 7 of
   * cell x div 7, cells in row-major order.
   */
  function ExtraTorusVertices(m: nat, t: nat): seq<Vertex>
  {
    seq(7 * m * t, (x: int) requires 0 <= x < 7 * m * t => ExtraTorusSlot(m, t, x))
  }

  function ExtraTorusSlot(m: nat, t: nat, x: nat): Vertex
    requires x < 7 * m * t
  {
    SlotBounds(x, m, t);
    ExtraTorusCellWraps(x / 7 / t, x / 7 % t, m, t);
    ExtraTorusCell(x / 7 / t, x / 7 % t, m, t)[x % 7]
  }

  lemma SlotBounds(x: nat, m: nat, t: nat)
    requires x < 7 * m * t
    ensures t > 0 && 0 <= x / 7 / t < m && 0 <= x / 7 % t < t
    ensures x / 7 == (x / 7 / t) * t + x / 7 % t && x == 7 * (x / 7) + x % 7 && 0 <= x % 7 < 7
  {
    assert 7 * m * t == 7 * (m * t);
    var c := x / 7;
    assert c < m * t;
    assert t > 0;
    var q, r := c / t, c % t;
    assert c == q * t + r;
    if q < 0 {
      MulLe(t, q, -1);
    } else if q >= m {
      MulMono(m, q, t);
    }
  }

  /** Quotient and remainder are the only pair that rebuilds c. */
  lemma DivModUnique(c: int, t: int, q: int, r: int)
    requires t > 0 && 0 <= r < t && c == q * t + r
    ensures c / t == q && c % t == r
  {
    var q2, r2 := c / t, c % t;
    assert c == q2 * t + r2;
    if q2 < q {
      assert (q - q2) * t == r2 - r;
      MulMono(1, q - q2, t);
    } else if q2 > q {
      assert (q2 - q) * t == r - r2;
      MulMono(1, q2 - q, t);
    }
  }

  lemma ExtraTorusRowLengths(m: nat, t: nat)
    ensures forall i: nat :: i < m ==> |ExtraTorusRowGen(m, t)(i)| == 7 * t
  {
    forall i: nat | i < m
      ensures |ExtraTorusRowGen(m, t)(i)| == 7 * t
    {
      ExtraTorusCellLengths(i, m, t);
      ConcatLength((j: nat) => ExtraTorusCell(i, j, m, t), t, 7);
    }
  }

  /** Every cell of row i has seven samples. */
  lemma ExtraTorusCellLengths(i: nat, m: nat, t: nat)
    requires i < m
    ensures forall j: nat :: j < t ==> |ExtraTorusCell(i, j, m, t)| == 7
  {
    forall j: nat | j < t
      ensures |ExtraTorusCell(i, j, m, t)| == 7
    {
      ExtraTorusCellWraps(i, j, m, t);
    }
  }

  lemma ExtraTorusSlotArith(m: nat, t: nat, i: nat, j: nat, k: nat)
    requires i < m && j < t && k < 7
    ensures m * (7 * t) == 7 * m * t
    ensures i * (7 * t) + (7 * j + k) == 7 * (i * t + j) + k < 7 * m * t
  {
    MulMono(i + 1, m, t);
  }

  /** In the loop's list, vertex k of cell (i, j) sits at 7 (i t + j) + k. */
  lemma ExtraTorusRowsAt(m: nat, t: nat, i: nat, j: nat, k: nat)
    requires i < m && j < t && k < 7
    ensures |ExtraTorusRows(m, t)| == 7 * m * t
    ensures 7 * (i * t + j) + k < 7 * m * t
    ensures ExtraTorusRows(m, t)[7 * (i * t + j) + k] == ExtraTorusCell(i, j, m, t)[k]
  {
    ExtraTorusRowLengths(m, t);
    ExtraTorusSlotArith(m, t, i, j, k);
    ConcatAt(ExtraTorusRowGen(m, t), m, 7 * t, i, 7 * j + k);
    ExtraTorusCellLengths(i, m, t);
    ConcatAt((j: nat) => ExtraTorusCell(i, j, m, t), t, 7, j, k);
  }

  /** Vertex k of cell (i, j) sits at 7 (i t + j) + k. */
  lemma ExtraTorusAt(m: nat, t: nat, i: nat, j: nat, k: nat)
    requires i < m && j < t && k < 7
    ensures |ExtraTorusVertices(m, t)| == 7 * m * t
    ensures 7 * (i * t + j) + k < 7 * m * t
    ensures ExtraTorusVertices(m, t)[7 * (i * t + j) + k] == ExtraTorusCell(i, j, m, t)[k]
  {
    var x := 7 * (i * t + j) + k;
    ExtraTorusSlotArith(m, t, i, j, k);
    assert x / 7 == i * t + j && x % 7 == k;
    DivModUnique(i * t + j, t, i, j);
  }

  /** Position x of a run of m x t cells of seven vertices each, as (cell row, cell column, vertex). */
  lemma CellSlot(x: nat, m: nat, t: nat) returns (i: nat, j: nat, k: nat)
    requires x < 7 * m * t
    ensures i < m && j < t && k < 7 && x == 7 * (i * t + j) + k
  {
    SlotBounds(x, m, t);
    i, j, k := x / 7 / t, x / 7 % t, x % 7;
  }

  /** The nested loop's list is the list by position. */
  lemma ExtraTorusRowsAgree(m: nat, t: nat)
    ensures ExtraTorusRows(m, t) == ExtraTorusVertices(m, t)
  {
    ExtraTorusRowLengths(m, t);
    ConcatLength(ExtraTorusRowGen(m, t), m, 7 * t);
    assert m * (7 * t) == 7 * m * t;
    forall x | 0 <= x < 7 * m * t
      ensures ExtraTorusRows(m, t)[x] == ExtraTorusVertices(m, t)[x]
    {
      ExtraTorusRowsAgreeAt(m, t, x);
    }
  }

  lemma ExtraTorusRowsAgreeAt(m: nat, t: nat, x: nat)
    requires x < 7 * m * t
    ensures |ExtraTorusRows(m, t)| == |ExtraTorusVertices(m, t)| == 7 * m * t
    ensures ExtraTorusRows(m, t)[x] == ExtraTorusVertices(m, t)[x]
  {
    var i, j, k := CellSlot(x, m, t);
    ExtraTorusRowsAt(m, t, i, j, k);
    ExtraTorusAt(m, t, i, j, k);
  }

  /** The extra tori push 7 m t vertices, each one a sample of the m x t table. */
  lemma ExtraTorusStructure(m: nat, t: nat)
    ensures |ExtraTorusVertices(m, t)| == 7 * m * t
    ensures forall v :: v in ExtraTorusVertices(m, t) ==> v.GridPoint? && 0 <= v.row < m && 0 <= v.col < t
  {
    forall v | v in ExtraTorusVertices(m, t)
      ensures v.GridPoint? && 0 <= v.row < m && 0 <= v.col < t
    {
      var x :| 0 <= x < |ExtraTorusVertices(m, t)| && ExtraTorusVertices(m, t)[x] == v;
      var i, j, k := CellSlot(x, m, t);
      ExtraTorusAt(m, t, i, j, k);
      ExtraTorusCellSamples(i, j, m, t);
    }
  }

  /** Every vertex of a cell inside the table is a sample of the table. */
  lemma ExtraTorusCellSamples(i: nat, j: nat, m: nat, t: nat)
    requires i < m && j < t
    ensures |ExtraTorusCell(i, j, m, t)| == 7
    ensures forall k :: 0 <= k < 7 ==>
      var v := ExtraTorusCell(i, j, m, t)[k]; v.GridPoint? && 0 <= v.row < m && 0 <= v.col < t
  {
    ExtraTorusCellWraps(i, j, m, t);
  }
}
