/**
 * Height map to triangle mesh: one vertex per sample, laid out row-major, and
 * two triangles for every cell that has a right and a lower neighbour. The two
 * application variants build the same grid and differ only in which axis
 * carries the height (see `Layout`).
 */
module Mesh {
  import opened HeightField

  /** `DirectX::XMFLOAT3`, over exact reals. */
  datatype Vec3 = Vec3(x: real, y: real, z: real)

  /** `DirectX::XMFLOAT2`, over exact reals. */
  datatype Vec2 = Vec2(x: real, y: real)

  /** `VertexPositionUv`: a position and a texture coordinate. */
  datatype Vertex = Vertex(position: Vec3, texCoord: Vec2)

  /**
   * Where the normalised height goes. Application.cpp stores it in y and the
   * flipped row in z; Application2.cpp stores the flipped row in y and the
   * height in z.
   */
  datatype Layout = HeightOnY | HeightOnZ

  /** The normalised height a vertex carries under `layout`. */
  function HeightOf(layout: Layout, v: Vertex): real
  {
    match layout
    case HeightOnY => v.position.y
    case HeightOnZ => v.position.z
  }

  /** The vertex projected onto the ground plane: its column and flipped-row coordinates. */
  function Footprint(layout: Layout, v: Vertex): Vec2
  {
    match layout
    case HeightOnY => Vec2(v.position.x, v.position.z)
    case HeightOnZ => Vec2(v.position.x, v.position.y)
  }

  /** Twice the signed area of triangle (p, q, r); its sign is the triangle's winding. */
  function SignedArea(p: Vec2, q: Vec2, r: Vec2): real
  {
    (q.x - p.x) * (r.y - p.y) - (q.y - p.y) * (r.x - p.x)
  }

  /** Twice the signed ground-plane area of triangle `t` (indices `3t`, `3t + 1`, `3t + 2`) of an indexed mesh. */
  function TriangleArea(layout: Layout, vs: seq<Vertex>, ix: seq<nat>, t: nat): real
    requires 3 * t + 2 < |ix|
    requires forall i | 0 <= i < |ix| :: ix[i] < |vs|
  {
    SignedArea(Footprint(layout, vs[ix[3 * t]]), Footprint(layout, vs[ix[3 * t + 1]]), Footprint(layout, vs[ix[3 * t + 2]]))
  }

  lemma RatioInUnitRange(n: real, d: real)
    requires 0.0 <= n <= d && 0.0 < d
    ensures 0.0 <= n / d <= 1.0
    ensures n / d * d == n
    ensures n / d == 1.0 <==> n == d
    ensures n < d ==> n / d < 1.0
  {
  }

  /**
   * Where column `x`, row `y` of a `width` by `height` map lands on the ground
   * plane: the column scaled into [0, 1), the row scaled and flipped into
   * (0, 1], so that image row 0 is the far edge.
   */
  function GridPoint(width: nat, height: nat, x: nat, y: nat): (p: Vec2)
    requires x < width && y < height
    ensures 0.0 <= p.x < 1.0 && 0.0 < p.y <= 1.0
  {
    RatioInUnitRange(x as real, width as real);
    RatioInUnitRange(y as real, height as real);
    Vec2(x as real / width as real, 1.0 - y as real / height as real)
  }

  /**
   * The vertex built for sample `sample` at column `x`, row `y` of a
   * `width` by `height` map whose largest sample is `max`.
   */
  function GridVertex(layout: Layout, width: nat, height: nat, max: Byte, x: nat, y: nat, sample: Byte): (v: Vertex)
    requires x < width && y < height
    requires 0 < max && sample <= max
    ensures Footprint(layout, v) == GridPoint(width, height, x, y)
    ensures v.texCoord == Footprint(layout, v)
    ensures 0.0 <= HeightOf(layout, v) <= 1.0
    ensures HeightOf(layout, v) == 1.0 <==> sample == max
  {
    var p := GridPoint(width, height, x, y);
    var depthValue := sample as real / max as real;
    RatioInUnitRange(sample as real, max as real);
    match layout
    case HeightOnY => Vertex(Vec3(p.x, depthValue, p.y), Vec2(p.x, p.y))
    case HeightOnZ => Vertex(Vec3(p.x, p.y, depthValue), Vec2(p.x, p.y))
  }

  /** A dense `width * height` sample buffer with at least one non-zero sample. */
  predicate IsHeightField(samples: seq<Byte>, width: nat, height: nat)
  {
    0 < width && 0 < height && |samples| == width * height && MaxSample(samples) > 0
  }

  /**
   * `vs` is the vertex list the mesh build produces: one vertex per sample,
   * vertex `y * width + x` built from sample (x, y).
   */
  ghost predicate IsGridMesh(vs: seq<Vertex>, layout: Layout, samples: seq<Byte>, width: nat, height: nat)
    requires IsHeightField(samples, width, height)
  {
    |vs| == width * height &&
    forall x: nat, y: nat | x < width && y < height ::
      Slot(width, x, y) < |vs| &&
      vs[Slot(width, x, y)] == GridVertex(layout, width, height, MaxSample(samples), x, y, samples[Slot(width, x, y)])
  }

  /** The vertex list is determined by the samples alone: rebuilding gives the same list. */
  lemma GridMeshUnique(v1: seq<Vertex>, v2: seq<Vertex>, layout: Layout, samples: seq<Byte>, width: nat, height: nat)
    requires IsHeightField(samples, width, height)
    requires IsGridMesh(v1, layout, samples, width, height)
    requires IsGridMesh(v2, layout, samples, width, height)
    ensures v1 == v2
  {
    forall k | 0 <= k < |v1|
      ensures v1[k] == v2[k]
    {
      SlotOf(width, height, k);
    }
  }

  /** Every height lies in [0, 1] and is exactly 1 where the sample is the largest. */
  lemma GridMeshHeights(vs: seq<Vertex>, layout: Layout, samples: seq<Byte>, width: nat, height: nat)
    requires IsHeightField(samples, width, height)
    requires IsGridMesh(vs, layout, samples, width, height)
    ensures |vs| == |samples|
    ensures forall k | 0 <= k < |vs| ::
      0.0 <= HeightOf(layout, vs[k]) <= 1.0 &&
      (HeightOf(layout, vs[k]) == 1.0 <==> samples[k] == MaxSample(samples))
  {
    forall k | 0 <= k < |vs|
      ensures 0.0 <= HeightOf(layout, vs[k]) <= 1.0
      ensures HeightOf(layout, vs[k]) == 1.0 <==> samples[k] == MaxSample(samples)
    {
      SlotOf(width, height, k);
    }
  }

  /** A uniform, non-zero height map gives a level mesh at height 1. */
  lemma UniformFieldIsLevel(vs: seq<Vertex>, layout: Layout, samples: seq<Byte>, width: nat, height: nat)
    requires IsHeightField(samples, width, height)
    requires forall i | 0 <= i < |samples| :: samples[i] == samples[0]
    requires IsGridMesh(vs, layout, samples, width, height)
    ensures forall k | 0 <= k < |vs| :: HeightOf(layout, vs[k]) == 1.0
  {
    var m := MaxSample(samples);
    assert forall i | 0 <= i < |samples| :: samples[i] == m;
    GridMeshHeights(vs, layout, samples, width, height);
  }

  /** The six indices of cell (x, y): triangles (A, B, C) and (C, B, D) of its corners. */
  function CellIndices(width: nat, x: nat, y: nat): seq<nat>
  {
    var a := Slot(width, x, y);
    [a, a + 1, a + width, a + width, a + 1, a + width + 1]
  }

  /** The indices appended for the first `cells` cells of row `y`. */
  function RowIndices(width: nat, y: nat, cells: nat): seq<nat>
  {
    if cells == 0 then [] else RowIndices(width, y, cells - 1) + CellIndices(width, cells - 1, y)
  }

  /** The indices appended for the first `rows` rows of a `width`-wide grid. */
  function GridIndices(width: nat, rows: nat): seq<nat>
    requires 0 < width
  {
    if rows == 0 then [] else GridIndices(width, rows - 1) + RowIndices(width, rows - 1, width - 1)
  }

  /** The whole index list of a `width` by `height` mesh: the last row and column start no cell. */
  function MeshIndices(width: nat, height: nat): seq<nat>
    requires 0 < width && 0 < height
  {
    GridIndices(width, height - 1)
  }

  lemma {:induction false} RowIndicesLength(width: nat, y: nat, cells: nat)
    ensures |RowIndices(width, y, cells)| == 6 * cells
  {
    if cells > 0 {
      RowIndicesLength(width, y, cells - 1);
    }
  }

  lemma {:induction false} GridIndicesLength(width: nat, rows: nat)
    requires 0 < width
    ensures |GridIndices(width, rows)| == 6 * (width - 1) * rows
  {
    if rows > 0 {
      GridIndicesLength(width, rows - 1);
      RowIndicesLength(width, rows - 1, width - 1);
    }
  }

  /** Row `y`'s cells are laid out in column order, six indices each. */
  lemma {:induction false} RowIndicesAt(width: nat, y: nat, cells: nat, x: nat, j: nat)
    requires x < cells && j < 6
    ensures 6 * x + j < |RowIndices(width, y, cells)|
    ensures RowIndices(width, y, cells)[6 * x + j] == CellIndices(width, x, y)[j]
  {
    RowIndicesLength(width, y, cells - 1);
    if x < cells - 1 {
      RowIndicesAt(width, y, cells - 1, x, j);
    }
  }

  lemma CellStartSplit(columns: nat, x: nat, y: nat, j: nat)
    ensures 6 * (y * columns + x) + j == 6 * columns * y + (6 * x + j)
  {
  }

  /** Cell (x, y) owns indices `6 * (y * (width - 1) + x)` to `+ 5`: cells are in row-major order. */
  lemma {:induction false} GridIndicesAt(width: nat, rows: nat, x: nat, y: nat, j: nat)
    requires 0 < width && x < width - 1 && y < rows && j < 6
    ensures 6 * (y * (width - 1) + x) + j < |GridIndices(width, rows)|
    ensures GridIndices(width, rows)[6 * (y * (width - 1) + x) + j] == CellIndices(width, x, y)[j]
  {
    var prefix := GridIndices(width, rows - 1);
    var row := RowIndices(width, rows - 1, width - 1);
    assert GridIndices(width, rows) == prefix + row;
    var i := 6 * (y * (width - 1) + x) + j;
    if y < rows - 1 {
      GridIndicesAt(width, rows - 1, x, y, j);
      assert i < |prefix|;
    } else {
      GridIndicesLength(width, rows - 1);
      RowIndicesAt(width, y, width - 1, x, j);
      CellStartSplit(width - 1, x, y, j);
      assert i == |prefix| + (6 * x + j);
    }
  }

  lemma {:induction false} RowIndicesBelow(width: nat, y: nat, cells: nat)
    requires cells < width
    ensures forall i | 0 <= i < |RowIndices(width, y, cells)| :: RowIndices(width, y, cells)[i] < (y + 2) * width
  {
    if cells > 0 {
      RowIndicesBelow(width, y, cells - 1);
    }
  }

  lemma {:induction false} GridIndicesBelow(width: nat, rows: nat)
    requires 0 < width
    ensures forall i | 0 <= i < |GridIndices(width, rows)| :: GridIndices(width, rows)[i] < (rows + 1) * width
  {
    if rows > 0 {
      GridIndicesBelow(width, rows - 1);
      RowIndicesBelow(width, rows - 1, width - 1);
    }
  }

  /**
   * The index list has six entries per interior cell, `6 * (W - 1) * (H - 1)`
   * in all, and every entry names one of the `W * H` vertices.
   */
  lemma MeshIndicesShape(width: nat, height: nat)
    requires 0 < width && 0 < height
    ensures |MeshIndices(width, height)| == 6 * (width - 1) * (height - 1)
    ensures forall i | 0 <= i < |MeshIndices(width, height)| :: MeshIndices(width, height)[i] < width * height
  {
    GridIndicesLength(width, height - 1);
    GridIndicesBelow(width, height - 1);
  }

  /** With a 4-wide map the list starts with cell (0, 0): triangles (0, 1, 4) and (4, 1, 5). */
  lemma FirstCellOfFourWide(height: nat)
    requires 2 <= height
    ensures |MeshIndices(4, height)| >= 6
    ensures MeshIndices(4, height)[..6] == [0, 1, 4, 4, 1, 5]
  {
    var ix := MeshIndices(4, height);
    assert CellIndices(4, 0, 0) == [0, 1, 4, 4, 1, 5];
    forall j | 0 <= j < 6
      ensures j < |ix| && ix[j] == CellIndices(4, 0, 0)[j]
    {
      GridIndicesAt(4, height - 1, 0, 0, j);
    }
    assert ix[..6] == [0, 1, 4, 4, 1, 5];
  }

  lemma InverseProduct(p: real, q: real, w: real, h: real)
    requires 0.0 < w && 0.0 < h && p * w == 1.0 && q * h == -1.0
    ensures p * q == -1.0 / (w * h)
  {
    assert p * q * (w * h) == (p * w) * (q * h);
  }

  /** On the ground plane both triangles of grid cell (x, y) have twice-signed area `-1 / (W * H)`. */
  lemma GridCellAreas(width: nat, height: nat, x: nat, y: nat)
    requires x + 1 < width && y + 1 < height
    ensures SignedArea(GridPoint(width, height, x, y), GridPoint(width, height, x + 1, y), GridPoint(width, height, x, y + 1))
      == -1.0 / (width as real * height as real)
    ensures SignedArea(GridPoint(width, height, x, y + 1), GridPoint(width, height, x + 1, y), GridPoint(width, height, x + 1, y + 1))
      == -1.0 / (width as real * height as real)
  {
    var w, h := width as real, height as real;
    var a, b := GridPoint(width, height, x, y), GridPoint(width, height, x + 1, y);
    var c, d := GridPoint(width, height, x, y + 1), GridPoint(width, height, x + 1, y + 1);
    assert a.x == c.x && b.x == d.x && a.y == b.y && c.y == d.y;
    RatioInUnitRange(x as real, w);
    RatioInUnitRange(x as real + 1.0, w);
    RatioInUnitRange(y as real, h);
    RatioInUnitRange(y as real + 1.0, h);
    assert (b.x - a.x) * w == 1.0;
    assert (c.y - a.y) * h == -1.0;
    InverseProduct(b.x - a.x, c.y - a.y, w, h);
  }

  /** The corners a cell's indices name: A = (x, y), B = (x + 1, y), C = (x, y + 1), D = (x + 1, y + 1). */
  lemma CellCorners(width: nat, x: nat, y: nat)
    ensures CellIndices(width, x, y) ==
      [Slot(width, x, y), Slot(width, x + 1, y), Slot(width, x, y + 1),
       Slot(width, x, y + 1), Slot(width, x + 1, y), Slot(width, x + 1, y + 1)]
  {
  }

  /** Both triangles of interior cell (x, y) have twice-signed ground-plane area `-1 / (W * H)`. */
  lemma CellWinding(vs: seq<Vertex>, layout: Layout, samples: seq<Byte>, width: nat, height: nat, x: nat, y: nat)
    requires IsHeightField(samples, width, height)
    requires IsGridMesh(vs, layout, samples, width, height)
    requires x + 1 < width && y + 1 < height
    ensures forall j | 0 <= j < 6 :: CellIndices(width, x, y)[j] < |vs|
    ensures var c := CellIndices(width, x, y);
      SignedArea(Footprint(layout, vs[c[0]]), Footprint(layout, vs[c[1]]), Footprint(layout, vs[c[2]]))
        == -1.0 / (width as real * height as real)
    ensures var c := CellIndices(width, x, y);
      SignedArea(Footprint(layout, vs[c[3]]), Footprint(layout, vs[c[4]]), Footprint(layout, vs[c[5]]))
        == -1.0 / (width as real * height as real)
  {
    var m := MaxSample(samples);
    var sa, sb := Slot(width, x, y), Slot(width, x + 1, y);
    var sc, sd := Slot(width, x, y + 1), Slot(width, x + 1, y + 1);
    CellCorners(width, x, y);
    assert Footprint(layout, vs[sa]) == GridPoint(width, height, x, y) by {
      assert vs[sa] == GridVertex(layout, width, height, m, x, y, samples[sa]);
    }
    assert Footprint(layout, vs[sb]) == GridPoint(width, height, x + 1, y) by {
      assert vs[sb] == GridVertex(layout, width, height, m, x + 1, y, samples[sb]);
    }
    assert Footprint(layout, vs[sc]) == GridPoint(width, height, x, y + 1) by {
      assert vs[sc] == GridVertex(layout, width, height, m, x, y + 1, samples[sc]);
    }
    assert Footprint(layout, vs[sd]) == GridPoint(width, height, x + 1, y + 1) by {
      assert vs[sd] == GridVertex(layout, width, height, m, x + 1, y + 1, samples[sd]);
    }
    GridCellAreas(width, height, x, y);
  }

  /** A triangle index below `2 * cells` belongs to one of the cells, so there is at least one column. */
  lemma CellOfTriangle(columns: nat, rows: nat, t: nat)
    requires 3 * t + 2 < 6 * (columns * rows)
    ensures 0 < columns && t / 2 < columns * rows
  {
  }

  /** Triangle `t` starts at index `3 * t`: six per cell, then three more for the cell's second triangle. */
  lemma TriangleStart(t: nat, cell: nat)
    requires t / 2 == cell
    ensures 3 * t == 6 * cell + 3 * (t % 2)
  {
  }

  /** The cell of triangle `t` in a grid of `columns` by `rows` cells, and where its indices start. */
  lemma CellOf(columns: nat, rows: nat, t: nat) returns (x: nat, y: nat)
    requires 3 * t + 2 < 6 * columns * rows
    ensures x < columns && y < rows
    ensures 3 * t == 6 * (y * columns + x) + 3 * (t % 2)
  {
    assert 6 * columns * rows == 6 * (columns * rows);
    CellOfTriangle(columns, rows, t);
    SlotOf(columns, rows, t / 2);
    x, y := (t / 2) % columns, (t / 2) / columns;
    TriangleStart(t, y * columns + x);
  }

  /** `GridIndicesAt` for the whole mesh, with the position `i` given by the caller. */
  lemma MeshIndexAt(width: nat, height: nat, x: nat, y: nat, j: nat, i: nat)
    requires 0 < width && 0 < height && x + 1 < width && y + 1 < height && j < 6
    requires i == 6 * (y * (width - 1) + x) + j
    ensures i < |MeshIndices(width, height)| && MeshIndices(width, height)[i] == CellIndices(width, x, y)[j]
  {
    GridIndicesAt(width, height - 1, x, y, j);
  }

  /** Triangle `t` of the index list is triangle `t % 2` of cell `t / 2`, cells counted row by row. */
  lemma TriangleCell(width: nat, height: nat, t: nat) returns (x: nat, y: nat)
    requires 0 < width && 0 < height && 3 * t + 2 < |MeshIndices(width, height)|
    ensures x + 1 < width && y + 1 < height
    ensures MeshIndices(width, height)[3 * t] == CellIndices(width, x, y)[3 * (t % 2)]
    ensures MeshIndices(width, height)[3 * t + 1] == CellIndices(width, x, y)[3 * (t % 2) + 1]
    ensures MeshIndices(width, height)[3 * t + 2] == CellIndices(width, x, y)[3 * (t % 2) + 2]
  {
    GridIndicesLength(width, height - 1);
    x, y := CellOf(width - 1, height - 1, t);
    var j := 3 * (t % 2);
    MeshIndexAt(width, height, x, y, j, 3 * t);
    MeshIndexAt(width, height, x, y, j + 1, 3 * t + 1);
    MeshIndexAt(width, height, x, y, j + 2, 3 * t + 2);
  }

  /**
   * Every triangle of the index list has the same winding on the ground plane
   * (twice-signed area `-1 / (W * H)`), so the mesh presents one consistent face.
   */
  lemma MeshWinding(vs: seq<Vertex>, layout: Layout, samples: seq<Byte>, width: nat, height: nat)
    requires IsHeightField(samples, width, height)
    requires IsGridMesh(vs, layout, samples, width, height)
    ensures forall i | 0 <= i < |MeshIndices(width, height)| :: MeshIndices(width, height)[i] < |vs|
    ensures forall t | 0 <= t < |MeshIndices(width, height)| / 3 ::
      TriangleArea(layout, vs, MeshIndices(width, height), t) == -1.0 / (width as real * height as real)
  {
    var ix := MeshIndices(width, height);
    MeshIndicesShape(width, height);
    forall t | 0 <= t < |ix| / 3
      ensures TriangleArea(layout, vs, ix, t) == -1.0 / (width as real * height as real)
    {
      var x, y := TriangleCell(width, height, t);
      CellWinding(vs, layout, samples, width, height, x, y);
    }
  }

  /** The decorative base plate of Application.cpp: four corners of the unit square at height 0. */
  const BasePlateVertices: seq<Vertex> :=
    [ Vertex(Vec3(0.0, 0.0, 0.0), Vec2(1.0, 1.0)),
      Vertex(Vec3(1.0, 0.0, 0.0), Vec2(1.0, 1.0)),
      Vertex(Vec3(1.0, 0.0, 1.0), Vec2(1.0, 1.0)),
      Vertex(Vec3(0.0, 0.0, 1.0), Vec2(1.0, 1.0)) ]

  /** The base plate's two triangles, (0, 1, 2) and (2, 3, 0). */
  const BasePlateIndices: seq<nat> := [0, 1, 2, 2, 3, 0]

  /**
   * The base plate is a well-formed flat mesh: 4 vertices at height 0, 6
   * indices that all name one of them, and two triangles covering the unit
   * square with the same winding, the opposite of the height mesh's (culling
   * is disabled, so both faces show).
   */
  lemma BasePlateShape()
    ensures |BasePlateVertices| == 4 && |BasePlateIndices| == 6
    ensures forall i | 0 <= i < |BasePlateIndices| :: BasePlateIndices[i] < |BasePlateVertices|
    ensures forall k | 0 <= k < |BasePlateVertices| :: HeightOf(HeightOnY, BasePlateVertices[k]) == 0.0
    ensures TriangleArea(HeightOnY, BasePlateVertices, BasePlateIndices, 0) == 1.0
    ensures TriangleArea(HeightOnY, BasePlateVertices, BasePlateIndices, 1) == 1.0
  {
    var vs, ix := BasePlateVertices, BasePlateIndices;
    var a, b := Footprint(HeightOnY, vs[0]), Footprint(HeightOnY, vs[1]);
    var c, d := Footprint(HeightOnY, vs[2]), Footprint(HeightOnY, vs[3]);
    assert a == Vec2(0.0, 0.0) && b == Vec2(1.0, 0.0) && c == Vec2(1.0, 1.0) && d == Vec2(0.0, 1.0);
    assert TriangleArea(HeightOnY, vs, ix, 0) == SignedArea(a, b, c);
    assert TriangleArea(HeightOnY, vs, ix, 1) == SignedArea(c, d, a);
  }
}
