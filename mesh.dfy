/**
 * The tessellation of one HEALPix cell (`add_vertices_grid`): an n x n grid of
 * quads, n = 2^s, appended to the vertex list and to the u16 index list.
 *
 * A vertex stands for the 12 floats the source pushes (lon, lat, x, y, z, the
 * start and end UVs, the blend start time). Those floats are computed from the
 * cell, its grid point (i, j), the segment count, the two tiles and the blend
 * start, so the model keeps exactly that data.
 */
module Mesh {
  import opened Healpix

  /** Indices are `u16`: every index the source stores is reduced modulo 2^16. */
  const U16Modulus: nat := 65536

  /** Each vertex is 12 floats in the vertex buffer. */
  const FloatsPerVertex: nat := 12

  function WrapU16(x: nat): (r: nat)
    ensures r < U16Modulus
    ensures x < U16Modulus ==> r == x
  {
    x % U16Modulus
  }

  /** `1_u16 << s`: the number of segments along each side of the cell. */
  function Pow2(s: nat): (r: nat)
    ensures r >= 1
  {
    if s == 0 then 1 else 2 * Pow2(s - 1)
  }

  /** The data one cell's grid is computed from. */
  datatype Grid = Grid(cell: Cell, nSegments: nat, startTile: Cell, endTile: Cell, alpha: real)

  /** Grid point (i, j): row i, column j, both in [0, nSegments]. */
  datatype Vertex = Vertex(grid: Grid, i: nat, j: nat)

  /** The first j vertices of row i, in the source's push order. */
  function RowVertices(g: Grid, i: nat, j: nat): seq<Vertex> {
    if j == 0 then [] else RowVertices(g, i, j - 1) + [Vertex(g, i, j - 1)]
  }

  /** The first `rows` rows of the (n+1) x (n+1) vertex grid, row after row. */
  function GridVertices(g: Grid, rows: nat): seq<Vertex> {
    if rows == 0 then [] else GridVertices(g, rows - 1) + RowVertices(g, rows - 1, g.nSegments + 1)
  }

  /** The product of two vertex counts, kept behind a name so that index arithmetic stays linear. */
  function Mul(a: nat, b: nat): nat {
    a * b
  }

  /** The two triangles of quad (i, j), vertex numbers offset by `off` with u16 wrap-around. */
  function QuadIndices(off: nat, nv: nat, i: nat, j: nat): seq<nat> {
    var idx0 := j + Mul(i, nv);
    var idx1 := j + 1 + Mul(i, nv);
    var idx2 := j + Mul(i + 1, nv);
    var idx3 := j + 1 + Mul(i + 1, nv);
    [WrapU16(off + idx0), WrapU16(off + idx1), WrapU16(off + idx2),
     WrapU16(off + idx1), WrapU16(off + idx3), WrapU16(off + idx2)]
  }

  /** The indices of the first j quads of row i of an n x n grid. */
  function RowIndices(off: nat, n: nat, i: nat, j: nat): seq<nat> {
    if j == 0 then [] else RowIndices(off, n, i, j - 1) + QuadIndices(off, n + 1, i, j - 1)
  }

  /** The indices of the first `rows` rows of quads of an n x n grid. */
  function GridIndices(off: nat, n: nat, rows: nat): seq<nat> {
    if rows == 0 then [] else GridIndices(off, n, rows - 1) + RowIndices(off, n, rows - 1, n)
  }

  /**
   * Every index names one of the first `base + count` vertices, and when those
   * fit in the u16 range, one of the `count` vertices after `base`.
   */
  ghost predicate IndicesWithin(s: seq<nat>, base: nat, count: nat) {
    forall x :: x in s ==> x < base + count && (base + count <= U16Modulus ==> base <= x)
  }

  /**
   * What appending an n x n grid does: (n + 1)^2 more vertices, 6 n^2 more
   * indices, and every new index names one of the vertices present after it,
   * one of the new ones whenever they all fit in the u16 range.
   */
  ghost predicate GridAppended(vertices: seq<Vertex>, vertices': seq<Vertex>, idxPositions: seq<nat>,
                               idxPositions': seq<nat>, n: nat)
  {
    && |vertices'| == |vertices| + (n + 1) * (n + 1)
    && |idxPositions'| == |idxPositions| + 6 * (n * n)
    && IndicesWithin(idxPositions'[|idxPositions|..], |vertices|, |vertices'| - |vertices|)
  }

  /**
   * `add_vertices_grid`: appends the (n+1)^2 vertices of the cell's grid, row by
   * row, then the 6 n^2 indices of its 2 n^2 triangles, offset by the number of
   * vertices already present (truncated to u16).
   */
  method AddVerticesGrid(vertices: seq<Vertex>, idxPositions: seq<nat>, cell: Cell, numSubdivision: nat,
                         startTile: Cell, endTile: Cell, alpha: real)
    returns (vertices': seq<Vertex>, idxPositions': seq<nat>)
    requires numSubdivision <= 7
    ensures vertices' == vertices + GridVertices(Grid(cell, Pow2(numSubdivision), startTile, endTile, alpha), Pow2(numSubdivision) + 1)
    ensures idxPositions' == idxPositions + GridIndices(WrapU16(|vertices|), Pow2(numSubdivision), Pow2(numSubdivision))
    ensures GridAppended(vertices, vertices', idxPositions, idxPositions', Pow2(numSubdivision))
  {
    var nSegmentsBySide := Pow2(numSubdivision);
    var g := Grid(cell, nSegmentsBySide, startTile, endTile, alpha);
    vertices' := AppendGridVertices(vertices, g);
    idxPositions' := AppendGridIndices(idxPositions, WrapU16(|vertices|), nSegmentsBySide);
    AppendedGridFacts(vertices, vertices', idxPositions, idxPositions', g);
  }

  /** The vertex loops of `add_vertices_grid`: rows i, then columns j, of the (n+1) x (n+1) grid. */
  method AppendGridVertices(vertices: seq<Vertex>, g: Grid) returns (vertices': seq<Vertex>)
    ensures vertices' == vertices + GridVertices(g, g.nSegments + 1)
  {
    var nVerticesPerSegment := g.nSegments + 1;
    vertices' := vertices;
    var i := 0;
    while i < nVerticesPerSegment
      invariant 0 <= i <= nVerticesPerSegment
      invariant vertices' == vertices + GridVertices(g, i)
    {
      var j := 0;
      while j < nVerticesPerSegment
        invariant 0 <= j <= nVerticesPerSegment
        invariant vertices' == vertices + GridVertices(g, i) + RowVertices(g, i, j)
      {
        vertices' := vertices' + [Vertex(g, i, j)];
        j := j + 1;
      }
      i := i + 1;
    }
  }

  /**
   * The index loops of `add_vertices_grid`: for each quad (i, j) of the n x n
   * grid, the six indices of its two triangles, offset by `offIdxVertices`.
   */
  method AppendGridIndices(idxPositions: seq<nat>, offIdxVertices: nat, nSegmentsBySide: nat)
    returns (idxPositions': seq<nat>)
    ensures idxPositions' == idxPositions + GridIndices(offIdxVertices, nSegmentsBySide, nSegmentsBySide)
  {
    idxPositions' := idxPositions;
    var i := 0;
    while i < nSegmentsBySide
      invariant 0 <= i <= nSegmentsBySide
      invariant idxPositions' == idxPositions + GridIndices(offIdxVertices, nSegmentsBySide, i)
    {
      idxPositions' := AppendRowIndices(idxPositions', offIdxVertices, nSegmentsBySide, i);
      AppendAssoc(idxPositions, GridIndices(offIdxVertices, nSegmentsBySide, i),
                  RowIndices(offIdxVertices, nSegmentsBySide, i, nSegmentsBySide));
      i := i + 1;
    }
  }

  /** The inner index loop of `add_vertices_grid`: the n quads of row i. */
  method AppendRowIndices(idxPositions: seq<nat>, offIdxVertices: nat, nSegmentsBySide: nat, i: nat)
    returns (idxPositions': seq<nat>)
    ensures idxPositions' == idxPositions + RowIndices(offIdxVertices, nSegmentsBySide, i, nSegmentsBySide)
  {
    var nVerticesPerSegment := nSegmentsBySide + 1;
    idxPositions' := idxPositions;
    var j := 0;
    while j < nSegmentsBySide
      invariant 0 <= j <= nSegmentsBySide
      invariant idxPositions' == idxPositions + RowIndices(offIdxVertices, nSegmentsBySide, i, j)
    {
      var idx0 := j + Mul(i, nVerticesPerSegment);
      var idx1 := j + 1 + Mul(i, nVerticesPerSegment);
      var idx2 := j + Mul(i + 1, nVerticesPerSegment);
      var idx3 := j + 1 + Mul(i + 1, nVerticesPerSegment);
      ghost var before := idxPositions';
      // the six pushes: triangles (0, 1, 2) and (1, 3, 2) of the quad
      idxPositions' := idxPositions' + [WrapU16(offIdxVertices + idx0), WrapU16(offIdxVertices + idx1),
                                        WrapU16(offIdxVertices + idx2), WrapU16(offIdxVertices + idx1),
                                        WrapU16(offIdxVertices + idx3), WrapU16(offIdxVertices + idx2)];
      assert idxPositions' == before + QuadIndices(offIdxVertices, nVerticesPerSegment, i, j);
      AppendAssoc(idxPositions, RowIndices(offIdxVertices, nSegmentsBySide, i, j),
                  QuadIndices(offIdxVertices, nVerticesPerSegment, i, j));
      j := j + 1;
    }
  }

  lemma AppendAssoc(a: seq<nat>, b: seq<nat>, c: seq<nat>)
    ensures a + b + c == a + (b + c)
  {
  }

  /** What appending one whole grid does to the lengths and the index range. */
  lemma AppendedGridFacts(vertices: seq<Vertex>, vertices': seq<Vertex>, idxPositions: seq<nat>,
                          idxPositions': seq<nat>, g: Grid)
    requires vertices' == vertices + GridVertices(g, g.nSegments + 1)
    requires idxPositions' == idxPositions + GridIndices(WrapU16(|vertices|), g.nSegments, g.nSegments)
    ensures GridAppended(vertices, vertices', idxPositions, idxPositions', g.nSegments)
  {
    var n := g.nSegments;
    GridVerticesLength(g, n + 1);
    GridIndicesLength(WrapU16(|vertices|), n, n);
    GridIndicesWithin(|vertices|, n, n);
    assert idxPositions'[|idxPositions|..] == GridIndices(WrapU16(|vertices|), n, n);
  }

  lemma {:induction false} RowVerticesLength(g: Grid, i: nat, j: nat)
    ensures |RowVertices(g, i, j)| == j
  {
    if j > 0 {
      RowVerticesLength(g, i, j - 1);
    }
  }

  /** A grid of `rows` rows holds rows * (n + 1) vertices. */
  lemma {:induction false} GridVerticesLength(g: Grid, rows: nat)
    ensures |GridVertices(g, rows)| == rows * (g.nSegments + 1)
  {
    if rows > 0 {
      GridVerticesLength(g, rows - 1);
      RowVerticesLength(g, rows - 1, g.nSegments + 1);
    }
  }

  lemma {:induction false} RowVertexAt(g: Grid, i: nat, j: nat, k: nat)
    requires k < j
    ensures |RowVertices(g, i, j)| == j && RowVertices(g, i, j)[k] == Vertex(g, i, k)
  {
    RowVerticesLength(g, i, j);
    if k < j - 1 {
      RowVertexAt(g, i, j - 1, k);
    }
  }

  /**
   * Vertex (i, j) of the grid sits at position j + i * (n + 1) of the appended
   * vertices, which is the `id_vertex_0` the source reads the cell's
   * coordinates from.
   */
  lemma {:induction false} GridVertexAt(g: Grid, rows: nat, i: nat, j: nat)
    requires i < rows && j < g.nSegments + 1
    ensures j + i * (g.nSegments + 1) < |GridVertices(g, rows)|
    ensures GridVertices(g, rows)[j + i * (g.nSegments + 1)] == Vertex(g, i, j)
  {
    var nv := g.nSegments + 1;
    GridVerticesLength(g, rows - 1);
    GridVerticesLength(g, rows);
    RowVerticesLength(g, rows - 1, nv);
    if i == rows - 1 {
      RowVertexAt(g, i, nv, j);
    } else {
      assert (i + 1) * nv <= (rows - 1) * nv by { MulLeq(i + 1, rows - 1, nv); }
      GridVertexAt(g, rows - 1, i, j);
    }
  }

  lemma MulSucc(a: nat, b: nat)
    ensures a * (b + 1) == a * b + a
  {
  }

  lemma MulLeq(a: nat, b: nat, c: nat)
    requires a <= b
    ensures a * c <= b * c
  {
  }

  lemma {:induction false} RowIndicesLength(off: nat, n: nat, i: nat, j: nat)
    ensures |RowIndices(off, n, i, j)| == 6 * j
  {
    if j > 0 {
      RowIndicesLength(off, n, i, j - 1);
    }
  }

  /** Six indices per quad: `rows` rows of n quads give 6 * (n * rows) indices. */
  lemma {:induction false} GridIndicesLength(off: nat, n: nat, rows: nat)
    ensures |GridIndices(off, n, rows)| == 6 * (n * rows)
  {
    if rows > 0 {
      GridIndicesLength(off, n, rows - 1);
      RowIndicesLength(off, n, rows - 1, n);
      MulSucc(n, rows - 1);
    }
  }

  /**
   * A local vertex number l < count, added to the truncated offset with u16
   * wrap-around, names one of the first base + count vertices; without
   * wrap-around it is exactly base + l.
   */
  lemma WrappedIndex(base: nat, l: nat, count: nat)
    requires l < count
    ensures WrapU16(WrapU16(base) + l) < base + count
    ensures base + count <= U16Modulus ==> WrapU16(WrapU16(base) + l) == base + l
  {
  }

  /** The largest local vertex number of quad (i, j) is below (n + 1)^2. */
  lemma QuadLocalBound(n: nat, i: nat, j: nat)
    requires i < n && j < n
    ensures j + 1 + (i + 1) * (n + 1) < (n + 1) * (n + 1)
  {
    MulLeq(i + 1, n, n + 1);
    assert (n + 1) * (n + 1) == n * (n + 1) + n + 1;
  }

  lemma {:induction false} RowIndicesWithin(base: nat, n: nat, i: nat, j: nat)
    requires i < n && j <= n
    ensures IndicesWithin(RowIndices(WrapU16(base), n, i, j), base, (n + 1) * (n + 1))
  {
    if j > 0 {
      RowIndicesWithin(base, n, i, j - 1);
      QuadIndicesWithin(base, n, i, j - 1);
    }
  }

  lemma QuadIndicesWithin(base: nat, n: nat, i: nat, j: nat)
    requires i < n && j < n
    ensures IndicesWithin(QuadIndices(WrapU16(base), n + 1, i, j), base, (n + 1) * (n + 1))
  {
    var nv := n + 1;
    var count := nv * nv;
    var top := j + 1 + (i + 1) * nv;
    QuadLocalBound(n, i, j);
    MulLeq(i, i + 1, nv);
    assert j + i * nv < j + 1 + i * nv <= top;
    assert j + (i + 1) * nv < top;
    WrappedIndex(base, j + i * nv, count);
    WrappedIndex(base, j + 1 + i * nv, count);
    WrappedIndex(base, j + (i + 1) * nv, count);
    WrappedIndex(base, top, count);
  }

  /** Every index of the grid names one of its own (n + 1)^2 vertices, or wraps below them. */
  lemma {:induction false} GridIndicesWithin(base: nat, n: nat, rows: nat)
    requires rows <= n
    ensures IndicesWithin(GridIndices(WrapU16(base), n, rows), base, (n + 1) * (n + 1))
  {
    if rows > 0 {
      GridIndicesWithin(base, n, rows - 1);
      RowIndicesWithin(base, n, rows - 1, n);
    }
  }

  /** Every appended vertex belongs to the given grid. */
  lemma {:induction false} GridVerticesOfGrid(g: Grid, rows: nat)
    ensures forall v :: v in GridVertices(g, rows) ==> v.grid == g
  {
    if rows > 0 {
      GridVerticesOfGrid(g, rows - 1);
      RowVerticesOfGrid(g, rows - 1, g.nSegments + 1);
    }
  }

  lemma {:induction false} RowVerticesOfGrid(g: Grid, i: nat, j: nat)
    ensures forall v :: v in RowVertices(g, i, j) ==> v.grid == g
  {
    if j > 0 {
      RowVerticesOfGrid(g, i, j - 1);
    }
  }
  /** The vertices of a sequence of grids, appended one grid after the other. */
  function MeshVertices(grids: seq<Grid>): seq<Vertex> {
    if grids == [] then []
    else
      var g := grids[|grids| - 1];
      MeshVertices(grids[..|grids| - 1]) + GridVertices(g, g.nSegments + 1)
  }

  /** The indices of a sequence of grids, each offset by the vertices before it (as u16). */
  function MeshIndices(grids: seq<Grid>): seq<nat> {
    if grids == [] then []
    else
      var prefix := grids[..|grids| - 1];
      var g := grids[|grids| - 1];
      MeshIndices(prefix) + GridIndices(WrapU16(|MeshVertices(prefix)|), g.nSegments, g.nSegments)
  }

  /** Appending a grid appends its vertices and its offset indices. */
  lemma MeshSnoc(grids: seq<Grid>, g: Grid)
    ensures MeshVertices(grids + [g]) == MeshVertices(grids) + GridVertices(g, g.nSegments + 1)
    ensures MeshIndices(grids + [g])
         == MeshIndices(grids) + GridIndices(WrapU16(|MeshVertices(grids)|), g.nSegments, g.nSegments)
  {
    assert (grids + [g])[..|grids|] == grids;
  }

  /** Lists holding the mesh of `grids`, extended by the vertices and indices of `g`, hold the mesh of `grids + [g]`. */
  lemma MeshExtended(grids: seq<Grid>, g: Grid, vertices: seq<Vertex>, idxPositions: seq<nat>,
                     vertices': seq<Vertex>, idxPositions': seq<nat>)
    requires vertices == MeshVertices(grids) && idxPositions == MeshIndices(grids)
    requires vertices' == vertices + GridVertices(g, g.nSegments + 1)
    requires idxPositions' == idxPositions + GridIndices(WrapU16(|vertices|), g.nSegments, g.nSegments)
    ensures vertices' == MeshVertices(grids + [g]) && idxPositions' == MeshIndices(grids + [g])
  {
    MeshSnoc(grids, g);
  }

  /** (n + 1)^2 vertices per grid. */
  function VertexCount(grids: seq<Grid>): nat {
    if grids == [] then 0
    else
      var n := grids[|grids| - 1].nSegments;
      VertexCount(grids[..|grids| - 1]) + Mul(n + 1, n + 1)
  }

  /** 6 n^2 indices per grid. */
  function IndexCount(grids: seq<Grid>): nat {
    if grids == [] then 0
    else
      var n := grids[|grids| - 1].nSegments;
      IndexCount(grids[..|grids| - 1]) + 6 * Mul(n, n)
  }

  /** Each grid adds its (n + 1)^2 vertices to the mesh. */
  lemma {:induction false} MeshVerticesLength(grids: seq<Grid>)
    ensures |MeshVertices(grids)| == VertexCount(grids)
  {
    if grids != [] {
      var g := grids[|grids| - 1];
      MeshVerticesLength(grids[..|grids| - 1]);
      assert |GridVertices(g, g.nSegments + 1)| == Mul(g.nSegments + 1, g.nSegments + 1) by {
        GridVerticesLength(g, g.nSegments + 1);
      }
    }
  }

  /** Each grid adds its 6 n^2 indices to the mesh. */
  lemma {:induction false} MeshIndicesLength(grids: seq<Grid>)
    ensures |MeshIndices(grids)| == IndexCount(grids)
  {
    if grids != [] {
      var prefix := grids[..|grids| - 1];
      var n := grids[|grids| - 1].nSegments;
      var off := WrapU16(|MeshVertices(prefix)|);
      MeshIndicesLength(prefix);
      assert |GridIndices(off, n, n)| == 6 * Mul(n, n) by {
        GridIndicesLength(off, n, n);
      }
    }
  }

  /** Every index names one of `count` vertices and fits in a u16. */
  ghost predicate IndicesBelow(idx: seq<nat>, count: nat) {
    forall x :: x in idx ==> x < count && x < U16Modulus
  }

  /**
   * Every index of the mesh names one of its vertices and fits in a u16: the
   * rasterizer never reads past the vertices uploaded with it.
   */
  lemma {:induction false} MeshIndicesInRange(grids: seq<Grid>)
    ensures forall x :: x in MeshIndices(grids) ==> x < |MeshVertices(grids)| && x < U16Modulus
  {
    if grids != [] {
      var prefix := grids[..|grids| - 1];
      var g := grids[|grids| - 1];
      MeshIndicesInRange(prefix);
      GridIndicesBelowMesh(|MeshVertices(prefix)|, g);
    }
  }

  /** The indices of a grid appended after `base` vertices name vertices below its end, and fit in a u16. */
  lemma GridIndicesBelowMesh(base: nat, g: Grid)
    ensures forall x :: x in GridIndices(WrapU16(base), g.nSegments, g.nSegments) ==>
              x < base + |GridVertices(g, g.nSegments + 1)| && x < U16Modulus
  {
    GridVerticesLength(g, g.nSegments + 1);
    GridIndicesWithin(base, g.nSegments, g.nSegments);
    GridIndicesBelowU16(WrapU16(base), g.nSegments, g.nSegments);
  }

  /** The mesh of the first k grids is the start of the mesh of all of them. */
  lemma {:induction false} MeshPrefix(grids: seq<Grid>, k: nat)
    requires k <= |grids|
    ensures MeshVertices(grids[..k]) <= MeshVertices(grids)
    ensures MeshIndices(grids[..k]) <= MeshIndices(grids)
    decreases |grids|
  {
    if k < |grids| {
      var init := grids[..|grids| - 1];
      assert init[..k] == grids[..k];
      MeshPrefix(init, k);
    } else {
      assert grids[..k] == grids;
    }
  }

  /** The indices the last grid adds sit after those of the grids before it. */
  lemma MeshIndicesOfLast(before: seq<Grid>, g: Grid)
    ensures MeshIndices(before) <= MeshIndices(before + [g])
    ensures MeshIndices(before + [g])[|MeshIndices(before)|..]
         == GridIndices(WrapU16(|MeshVertices(before)|), g.nSegments, g.nSegments)
  {
    MeshSnoc(before, g);
  }

  /**
   * A grid appended at `base` whose vertices end within the u16 range: each
   * of its indices names one of its own vertices.
   */
  lemma GridIndicesOwnVertices(before: seq<Vertex>, g: Grid)
    requires |before| + |GridVertices(g, g.nSegments + 1)| <= U16Modulus
    ensures forall x :: x in GridIndices(WrapU16(|before|), g.nSegments, g.nSegments) ==>
              |before| <= x < |before + GridVertices(g, g.nSegments + 1)|
              && (before + GridVertices(g, g.nSegments + 1))[x].grid == g
  {
    var own := GridVertices(g, g.nSegments + 1);
    GridVerticesLength(g, g.nSegments + 1);
    GridIndicesWithin(|before|, g.nSegments, g.nSegments);
    GridVerticesOfGrid(g, g.nSegments + 1);
    forall x | x in GridIndices(WrapU16(|before|), g.nSegments, g.nSegments)
      ensures |before| <= x < |before + own| && (before + own)[x].grid == g
    {
      assert (before + own)[x] == own[x - |before|];
    }
  }

  /**
   * While the whole mesh has at most 2^16 vertices, no offset wraps: the
   * indices grid k adds name grid k's own vertices, so every triangle lies
   * inside one cell. Past 2^16 vertices the truncated offset sends the
   * indices of later cells back to the vertices of earlier ones.
   */
  lemma MeshGridIndicesOwnVertices(grids: seq<Grid>, k: nat)
    requires k < |grids| && |MeshVertices(grids)| <= U16Modulus
    ensures MeshIndices(grids[..k]) <= MeshIndices(grids[..k + 1])
    ensures MeshVertices(grids[..k + 1]) <= MeshVertices(grids)
    ensures forall x :: x in MeshIndices(grids[..k + 1])[|MeshIndices(grids[..k])|..] ==>
              && |MeshVertices(grids[..k])| <= x < |MeshVertices(grids[..k + 1])|
              && MeshVertices(grids)[x].grid == grids[k]
  {
    var g := grids[k];
    var before := MeshVertices(grids[..k]);
    var own := GridIndices(WrapU16(|before|), g.nSegments, g.nSegments);
    MeshUpToGrid(grids, k);
    var vUpTo := MeshVertices(grids[..k + 1]);
    assert vUpTo <= MeshVertices(grids) by {
      MeshPrefix(grids, k + 1);
    }
    assert forall x :: x in own ==> |before| <= x < |vUpTo| && vUpTo[x].grid == g by {
      GridIndicesOwnVertices(before, g);
    }
    SliceNamesVertices(MeshIndices(grids[..k + 1]), MeshIndices(grids[..k]), own, vUpTo, MeshVertices(grids), g,
                       |before|);
  }

  /** The mesh of the first k + 1 grids is that of the first k, with grid k appended. */
  lemma MeshUpToGrid(grids: seq<Grid>, k: nat)
    requires k < |grids|
    ensures MeshVertices(grids[..k + 1]) == MeshVertices(grids[..k]) + GridVertices(grids[k], grids[k].nSegments + 1)
    ensures MeshIndices(grids[..k]) <= MeshIndices(grids[..k + 1])
    ensures MeshIndices(grids[..k + 1])[|MeshIndices(grids[..k])|..]
         == GridIndices(WrapU16(|MeshVertices(grids[..k])|), grids[k].nSegments, grids[k].nSegments)
  {
    assert grids[..k + 1] == grids[..k] + [grids[k]];
    MeshSnoc(grids[..k], grids[k]);
    MeshIndicesOfLast(grids[..k], grids[k]);
  }

  /**
   * Indices that name vertices of grid `g` from position `lo` on in a prefix
   * name the same vertices in the whole.
   */
  lemma SliceNamesVertices(idxUpTo: seq<nat>, idxBefore: seq<nat>, own: seq<nat>,
                           vUpTo: seq<Vertex>, vs: seq<Vertex>, g: Grid, lo: nat)
    requires idxBefore <= idxUpTo && idxUpTo[|idxBefore|..] == own
    requires vUpTo <= vs
    requires forall x :: x in own ==> lo <= x < |vUpTo| && vUpTo[x].grid == g
    ensures forall x :: x in idxUpTo[|idxBefore|..] ==> lo <= x < |vUpTo| && vs[x].grid == g
  {
    forall x | x in own
      ensures x < |vs| && vs[x].grid == g
    {
      assert vs[x] == vUpTo[x];
    }
  }

  /** `(j + i * (n + 1)) as u16` and the other u16 indices stay below 2^16. */
  lemma {:induction false} GridIndicesBelowU16(off: nat, n: nat, rows: nat)
    ensures forall x :: x in GridIndices(off, n, rows) ==> x < U16Modulus
  {
    if rows > 0 {
      GridIndicesBelowU16(off, n, rows - 1);
      RowIndicesBelowU16(off, n, rows - 1, n);
    }
  }

  lemma {:induction false} RowIndicesBelowU16(off: nat, n: nat, i: nat, j: nat)
    ensures forall x :: x in RowIndices(off, n, i, j) ==> x < U16Modulus
  {
    if j > 0 {
      RowIndicesBelowU16(off, n, i, j - 1);
    }
  }
}
