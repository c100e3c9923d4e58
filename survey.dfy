/**
 * One HiPS image survey (`ImageSurvey`): its tile residency, the cells of its
 * view, and the mesh it last uploaded for the rasterizer, with the sizes of
 * the two GPU buffers that hold that mesh.
 */
module Survey {
  import opened Healpix
  import opened SurveyTextures
  import opened Transition
  import opened Mesh

  /** At most 768 tiles are meant to be drawn at once. */
  const MaxNumCellsToDraw: nat := 768
  /** Each cell has 4 vertices. */
  const MaxNumVerticesToDraw: nat := MaxNumCellsToDraw * 4
  /** 12 floats per vertex. */
  const MaxNumFloatsToDraw: nat := MaxNumVerticesToDraw * FloatsPerVertex
  /** 6 indices per cell. */
  const MaxNumIndicesToDraw: nat := MaxNumCellsToDraw * 6

  /** The last gesture the camera saw. */
  datatype UserAction = Unzooming | Zooming | Moving | Starting

  /** A survey shown on its own, or one component of a composite survey. */
  datatype ImageSurveyType = Simple | Component

  /** Shader parameters of a grayscale survey; their values only reach the GPU. */
  datatype GrayscaleParameter = GrayscaleParameter(transfer: nat, minValue: real, maxValue: real,
                                                   scale: real, offset: real, blank: real)

  /** How the survey's tiles are coloured. */
  datatype Color =
    | Colored
    | Grayscale2Colormap(colormap: nat, param: GrayscaleParameter)
    | Grayscale2Color(red: real, green: real, blue: real, k: real, param: GrayscaleParameter)

  /** What the renderer reads from the camera in `draw`. */
  datatype Camera = Camera(lastUserAction: UserAction, apertureDeg: real, moved: bool, query: CameraQuery)

  /** Above this aperture, in degrees, the survey is raytraced instead of rasterized. */
  const LimitApertureDeg: real := 150.0

  /** `set_vertices`: the transition policy used for the last gesture. */
  function PolicyFor(action: UserAction): (p: Policy)
    ensures p == UnZoom <==> action == Unzooming
    ensures p == Zoom <==> action == Zooming
    ensures p == Move <==> action == Moving || action == Starting
  {
    match action
    case Unzooming => UnZoom
    case Zooming => Zoom
    case Moving => Move
    case Starting => Move
  }

  /** What one call of `draw` does. */
  datatype DrawKind = Skip | Raytrace | Rasterize(recompute: bool)

  /**
   * The gating of `draw`: nothing until the 12 base tiles are resident, the
   * raytracer above the aperture limit, otherwise the rasterizer, rebuilding
   * the mesh first when new cells entered the view, new tiles became
   * available or the camera moved.
   */
  function DrawDecision(ready: bool, apertureDeg: real, newCellsAdded: bool, availableTiles: bool, moved: bool)
    : (k: DrawKind)
    ensures k == Skip <==> !ready
    ensures k == Raytrace <==> ready && apertureDeg > LimitApertureDeg
    ensures k.Rasterize? <==> ready && apertureDeg <= LimitApertureDeg
    ensures k.Rasterize? ==> (k.recompute <==> newCellsAdded || availableTiles || moved)
  {
    if !ready then Skip
    else if apertureDeg > LimitApertureDeg then Raytrace
    else Rasterize(newCellsAdded || availableTiles || moved)
  }

  /**
   * The grid `add_vertices_grid` builds for a cell drawn with the pair of
   * textures `t`: the policy's subdivision of the cell, the two tiles, and the
   * arrival time of the ending tile as the blend start.
   */
  function DrawGrid(policy: Policy, sphereSub: Cell -> nat, c: Cell, t: TextureToDraw): Grid {
    Grid(c, Pow2(NumSubdivision(policy, sphereSub(c))), t.starting.cell, t.ending.cell, t.ending.startTime)
  }

  /** The grid of a cell, with the pair of tiles the policy selects for it. */
  function CellGrid(policy: Policy, tex: ImageSurveyTextures, sphereSub: Cell -> nat, c: Cell): Grid
    requires Resolvable(tex, PairCells(policy, tex, c))
  {
    var pair := PairCells(policy, tex, c);
    DrawGrid(policy, sphereSub, c, TextureToDraw(tex.Get(pair.start), tex.Get(pair.end)))
  }

  /** The grids `update_vertices` appends for the cells of `order`, in that order. */
  function GridsOf(policy: Policy, tex: ImageSurveyTextures, sphereSub: Cell -> nat, order: seq<Cell>)
    : (grids: seq<Grid>)
    requires AllResolvable(policy, tex, order)
    ensures |grids| == |order|
  {
    if order == [] then []
    else GridsOf(policy, tex, sphereSub, order[..|order| - 1]) + [CellGrid(policy, tex, sphereSub, order[|order| - 1])]
  }

  /**
   * Grid k of cell k: the grid of a cell is the grid of its pair of tiles,
   * subdivided 2^s times along each side for the policy's level s.
   */
  lemma {:induction false} GridsOfAt(policy: Policy, tex: ImageSurveyTextures, sphereSub: Cell -> nat,
                                     order: seq<Cell>, k: nat)
    requires AllResolvable(policy, tex, order) && k < |order|
    ensures GridsOf(policy, tex, sphereSub, order)[k] == CellGrid(policy, tex, sphereSub, order[k])
    ensures GridsOf(policy, tex, sphereSub, order)[k].cell == order[k]
    ensures GridsOf(policy, tex, sphereSub, order)[k].startTile == PairCells(policy, tex, order[k]).start
    ensures GridsOf(policy, tex, sphereSub, order)[k].endTile == PairCells(policy, tex, order[k]).end
    ensures GridsOf(policy, tex, sphereSub, order)[k].nSegments == Pow2(NumSubdivision(policy, sphereSub(order[k])))
  {
    if k < |order| - 1 {
      GridsOfAt(policy, tex, sphereSub, order[..|order| - 1], k);
    }
  }

  /** A sequence of grids that agrees with the grid of each cell of `order` is `GridsOf(order)`. */
  lemma {:induction false} GridsOfPointwise(policy: Policy, tex: ImageSurveyTextures, sphereSub: Cell -> nat,
                                            order: seq<Cell>, grids: seq<Grid>)
    requires AllResolvable(policy, tex, order)
    requires |grids| == |order|
    requires forall i :: 0 <= i < |order| ==> grids[i] == CellGrid(policy, tex, sphereSub, order[i])
    ensures grids == GridsOf(policy, tex, sphereSub, order)
  {
    if order != [] {
      GridsOfPointwise(policy, tex, sphereSub, order[..|order| - 1], grids[..|grids| - 1]);
    }
  }

  /**
   * The buffer sizes allocated up front hold 768 cells drawn without
   * subdivision (one quad each): such a mesh never makes `update_vertices`
   * grow a buffer.
   */
  lemma {:induction false} UnsubdividedMeshFits(grids: seq<Grid>)
    requires |grids| <= MaxNumCellsToDraw
    requires forall g :: g in grids ==> g.nSegments == 1
    ensures VertexCount(grids) == 4 * |grids|
    ensures IndexCount(grids) == 6 * |grids|
    ensures FloatsPerVertex * VertexCount(grids) <= MaxNumFloatsToDraw
    ensures IndexCount(grids) <= MaxNumIndicesToDraw
  {
    if grids != [] {
      assert grids[|grids| - 1] in grids;
      UnsubdividedMeshFits(grids[..|grids| - 1]);
    }
  }

  /** `order` lists every cell of `cells` exactly once. */
  ghost predicate Enumerates(order: seq<Cell>, cells: set<Cell>) {
    (set c | c in order) == cells && |order| == |cells|
  }

  /**
   * The iteration order of a `HashMap` over `keys`: every key once, in an
   * order the model leaves unspecified.
   */
  method HashMapOrder(keys: set<Cell>) returns (order: seq<Cell>)
    ensures Enumerates(order, keys)
  {
    order := [];
    var remaining := keys;
    while remaining != {}
      invariant remaining !! (set c | c in order)
      invariant remaining + (set c | c in order) == keys
      invariant |order| + |remaining| == |keys|
      decreases remaining
    {
      var cell :| cell in remaining;
      assert (set c | c in order + [cell]) == (set c | c in order) + {cell};
      order := order + [cell];
      remaining := remaining - {cell};
    }
  }

  /** The grids of the cells of `order`, each drawn with the pair of textures `toDraw` holds for it. */
  function GridsToDraw(policy: Policy, sphereSub: Cell -> nat, toDraw: map<Cell, TextureToDraw>, order: seq<Cell>)
    : (grids: seq<Grid>)
    requires forall c :: c in order ==> c in toDraw
    ensures |grids| == |order|
  {
    if order == [] then []
    else GridsToDraw(policy, sphereSub, toDraw, order[..|order| - 1])
         + [DrawGrid(policy, sphereSub, order[|order| - 1], toDraw[order[|order| - 1]])]
  }

  /** A sequence of grids that agrees with `toDraw` on each cell of `order` is `GridsToDraw(order)`. */
  lemma {:induction false} GridsToDrawPointwise(policy: Policy, sphereSub: Cell -> nat,
                                                toDraw: map<Cell, TextureToDraw>, order: seq<Cell>, grids: seq<Grid>)
    requires forall c :: c in order ==> c in toDraw
    requires |grids| == |order|
    requires forall i :: 0 <= i < |order| ==> grids[i] == DrawGrid(policy, sphereSub, order[i], toDraw[order[i]])
    ensures grids == GridsToDraw(policy, sphereSub, toDraw, order)
  {
    if order != [] {
      GridsToDrawPointwise(policy, sphereSub, toDraw, order[..|order| - 1], grids[..|grids| - 1]);
    }
  }

  /**
   * When `toDraw` holds, for each cell, the pair of tiles the policy selects,
   * the grids drawn from it are the grids of the cells.
   */
  lemma {:induction false} GridsToDrawOfPairs(policy: Policy, tex: ImageSurveyTextures, sphereSub: Cell -> nat,
                                              toDraw: map<Cell, TextureToDraw>, order: seq<Cell>)
    requires forall c :: c in toDraw ==>
               Resolvable(tex, PairCells(policy, tex, c)) &&
               toDraw[c] == TextureToDraw(tex.Get(PairCells(policy, tex, c).start), tex.Get(PairCells(policy, tex, c).end))
    requires forall c :: c in order ==> c in toDraw
    ensures AllResolvable(policy, tex, order)
    ensures GridsToDraw(policy, sphereSub, toDraw, order) == GridsOf(policy, tex, sphereSub, order)
  {
    if order != [] {
      GridsToDrawOfPairs(policy, tex, sphereSub, toDraw, order[..|order| - 1]);
    }
  }

  /** One turn of the loop of `update_vertices`: the grid of `cell` extends the mesh of `grids`. */
  method AppendCellGrid(policy: Policy, sphereSub: Cell -> nat, cell: Cell, state: TextureToDraw,
                        ghost grids: seq<Grid>, vertices: seq<Vertex>, idxVertices: seq<nat>)
    returns (vertices': seq<Vertex>, idxVertices': seq<nat>)
    requires NumSubdivision(policy, sphereSub(cell)) <= 7
    requires vertices == MeshVertices(grids) && idxVertices == MeshIndices(grids)
    ensures vertices' == MeshVertices(grids + [DrawGrid(policy, sphereSub, cell, state)])
    ensures idxVertices' == MeshIndices(grids + [DrawGrid(policy, sphereSub, cell, state)])
  {
    var numSubdivision := NumSubdivision(policy, sphereSub(cell));
    ghost var g := Grid(cell, Pow2(numSubdivision), state.starting.cell, state.ending.cell, state.ending.startTime);
    assert g == DrawGrid(policy, sphereSub, cell, state);
    vertices', idxVertices' := AddVerticesGrid(vertices, idxVertices, cell, numSubdivision,
                                               state.starting.cell, state.ending.cell,
                                               state.ending.startTime);
    MeshExtended(grids, g, vertices, idxVertices, vertices', idxVertices');
  }

  /**
   * The loop of `update_vertices`: appends the grid of each cell of `toDraw`,
   * in the order `order` visits them, to fresh vertex and index lists.
   */
  method AppendCellGrids(policy: Policy, sphereSub: Cell -> nat, toDraw: map<Cell, TextureToDraw>, order: seq<Cell>)
    returns (vertices: seq<Vertex>, idxVertices: seq<nat>)
    requires forall c :: c in order ==> c in toDraw
    requires forall c :: NumSubdivision(policy, sphereSub(c)) <= 7
    ensures vertices == MeshVertices(GridsToDraw(policy, sphereSub, toDraw, order))
    ensures idxVertices == MeshIndices(GridsToDraw(policy, sphereSub, toDraw, order))
  {
    vertices := [];
    idxVertices := [];
    ghost var grids: seq<Grid> := [];
    var k := 0;
    while k < |order|
      invariant k <= |order|
      invariant |grids| == k
      invariant forall i :: 0 <= i < k ==> grids[i] == DrawGrid(policy, sphereSub, order[i], toDraw[order[i]])
      invariant vertices == MeshVertices(grids)
      invariant idxVertices == MeshIndices(grids)
    {
      var cell := order[k];
      vertices, idxVertices := AppendCellGrid(policy, sphereSub, cell, toDraw[cell], grids, vertices, idxVertices);
      grids := grids + [DrawGrid(policy, sphereSub, cell, toDraw[cell])];
      k := k + 1;
    }
    GridsToDrawPointwise(policy, sphereSub, toDraw, order, grids);
  }

  /**
   * `vertices` and `idxVertices` are the mesh of the cells to draw, taken in
   * `order`, each once, each with the pair of tiles the policy selects.
   */
  ghost predicate MeshOf(policy: Policy, view: CellsInView, maxDepth: nat, cam: CameraQuery,
                         tex: ImageSurveyTextures, sphereSub: Cell -> nat,
                         order: seq<Cell>, vertices: seq<Vertex>, idxVertices: seq<nat>)
  {
    && Enumerates(order, set c | c in CellsToDraw(policy, view, maxDepth, cam))
    && AllResolvable(policy, tex, order)
    && vertices == MeshVertices(GridsOf(policy, tex, sphereSub, order))
    && idxVertices == MeshIndices(GridsOf(policy, tex, sphereSub, order))
  }

  /**
   * The mesh `update_vertices` computes before uploading it: the grid of each
   * cell to draw, each cell once, every index naming one of the new vertices.
   */
  method BuildMesh(policy: Policy, view: CellsInView, maxDepth: nat, cam: CameraQuery,
                   tex: ImageSurveyTextures, sphereSub: Cell -> nat)
    returns (vertices: seq<Vertex>, idxVertices: seq<nat>, ghost order: seq<Cell>)
    requires tex.IsReady()
    requires forall c :: c in view.cells ==> ValidCell(c)
    requires forall c :: c in cam.cellsOneDepthFiner ==> ValidCell(c)
    requires forall c :: NumSubdivision(policy, sphereSub(c)) <= 7
    ensures MeshOf(policy, view, maxDepth, cam, tex, sphereSub, order, vertices, idxVertices)
    ensures IndicesBelow(idxVertices, |vertices|)
  {
    CellsToDrawResolvable(policy, view, maxDepth, cam, tex);
    var toDraw := GetTexturesFromSurvey(policy, view, cam, maxDepth, tex);
    var keys := HashMapOrder(toDraw.Keys);
    vertices, idxVertices := AppendCellGrids(policy, sphereSub, toDraw, keys);
    order := keys;
    GridsToDrawOfPairs(policy, tex, sphereSub, toDraw, order);
    MeshIndicesInRange(GridsOf(policy, tex, sphereSub, order));
  }

  function Max(a: nat, b: nat): nat {
    if a < b then b else a
  }

  /**
   * A survey: `id` is its root URL, `maxDepth` the deepest tile level of its
   * configuration. `vertices` and `idxVertices` are what was last written to
   * the vertex and index buffers, whose allocated sizes (in floats and in
   * indices) are `sizeVerticesBuf` and `sizeIdxVerticesBuf`.
   */
  class ImageSurvey {
    const id: string
    const kind: ImageSurveyType
    const maxDepth: nat
    var color: Color
    var textures: ImageSurveyTextures
    var view: CellsInView
    var numIdx: nat
    var sizeVerticesBuf: nat
    var sizeIdxVerticesBuf: nat
    var vertices: seq<Vertex>
    var idxVertices: seq<nat>
    /** The order the last `update_vertices` visited the cells in (hash-map order). */
    ghost var drawOrder: seq<Cell>

    /**
     * The rasterizer draws `numIdx` indices: they are all in the index buffer,
     * the mesh fits the vertex buffer, and every index names an uploaded vertex.
     */
    ghost predicate Valid()
      reads this
    {
      && numIdx == |idxVertices| <= sizeIdxVerticesBuf
      && FloatsPerVertex * |vertices| <= sizeVerticesBuf
      && IndicesBelow(idxVertices, |vertices|)
      && (forall c :: c in view.cells ==> ValidCell(c))
    }

    /** `ImageSurvey::new`: both buffers allocated at their maximum size, nothing to draw yet. */
    constructor (id: string, kind: ImageSurveyType, color: Color, textures: ImageSurveyTextures,
                 view: CellsInView, maxDepth: nat)
      requires forall c :: c in view.cells ==> ValidCell(c)
      ensures Valid()
      ensures this.id == id && this.kind == kind && this.color == color && this.maxDepth == maxDepth
      ensures this.textures == textures && this.view == view
      ensures numIdx == 0 && vertices == [] && idxVertices == []
      ensures sizeVerticesBuf == MaxNumFloatsToDraw && sizeIdxVerticesBuf == MaxNumIndicesToDraw
    {
      this.id := id;
      this.kind := kind;
      this.color := color;
      this.textures := textures;
      this.view := view;
      this.maxDepth := maxDepth;
      numIdx := 0;
      sizeVerticesBuf := MaxNumFloatsToDraw;
      sizeIdxVerticesBuf := MaxNumIndicesToDraw;
      vertices := [];
      idxVertices := [];
      drawOrder := [];
    }

    /** `set_color`: only the colour changes. */
    method SetColor(color: Color)
      modifies this
      ensures this.color == color
      ensures textures == old(textures) && view == old(view) && numIdx == old(numIdx)
      ensures sizeVerticesBuf == old(sizeVerticesBuf) && sizeIdxVerticesBuf == old(sizeIdxVerticesBuf)
      ensures vertices == old(vertices) && idxVertices == old(idxVertices) && drawOrder == old(drawOrder)
    {
      this.color := color;
    }

    /**
     * The state `update_vertices` leaves behind for `policy`: the uploaded mesh
     * holds one grid per cell to draw, each cell once, in `drawOrder`; each
     * buffer grew to the new data if it did not fit, and kept its size otherwise.
     */
    ghost predicate MeshUpdated(policy: Policy, cam: CameraQuery, sphereSub: Cell -> nat,
                                oldSizeVerticesBuf: nat, oldSizeIdxVerticesBuf: nat)
      reads this
    {
      && MeshOf(policy, view, maxDepth, cam, textures, sphereSub, drawOrder, vertices, idxVertices)
      && numIdx == |idxVertices|
      && sizeVerticesBuf == Max(oldSizeVerticesBuf, FloatsPerVertex * |vertices|)
      && sizeIdxVerticesBuf == Max(oldSizeIdxVerticesBuf, |idxVertices|)
    }

    /**
     * `update_vertices`: asks the policy for the pair of tiles of every cell to
     * draw, appends each cell's grid in hash-map order, then uploads the mesh,
     * growing a buffer only when the new data exceed it.
     */
    method UpdateVertices(policy: Policy, cam: CameraQuery, sphereSub: Cell -> nat)
      requires Valid()
      requires textures.IsReady()
      requires forall c :: c in cam.cellsOneDepthFiner ==> ValidCell(c)
      requires forall c :: NumSubdivision(policy, sphereSub(c)) <= 7
      modifies this
      ensures Valid()
      ensures MeshUpdated(policy, cam, sphereSub, old(sizeVerticesBuf), old(sizeIdxVerticesBuf))
      ensures color == old(color) && textures == old(textures) && view == old(view)
    {
      var newVertices, newIdxVertices, order := BuildMesh(policy, view, maxDepth, cam, textures, sphereSub);
      Upload(newVertices, newIdxVertices, order);
    }

    /**
     * The second half of `update_vertices`: writes the new mesh to the vertex
     * and index buffers, reallocating a buffer to the new data only when they
     * exceed it.
     */
    method Upload(newVertices: seq<Vertex>, newIdxVertices: seq<nat>, ghost order: seq<Cell>)
      requires forall c :: c in view.cells ==> ValidCell(c)
      requires IndicesBelow(newIdxVertices, |newVertices|)
      modifies this
      ensures Valid()
      ensures vertices == newVertices && idxVertices == newIdxVertices && drawOrder == order
      ensures numIdx == |newIdxVertices|
      ensures sizeVerticesBuf == Max(old(sizeVerticesBuf), FloatsPerVertex * |newVertices|)
      ensures sizeIdxVerticesBuf == Max(old(sizeIdxVerticesBuf), |newIdxVertices|)
      ensures color == old(color) && textures == old(textures) && view == old(view)
    {
      if FloatsPerVertex * |newVertices| > sizeVerticesBuf {
        sizeVerticesBuf := FloatsPerVertex * |newVertices|;
      }
      vertices := newVertices;
      numIdx := |newIdxVertices|;
      if |newIdxVertices| > sizeIdxVerticesBuf {
        sizeIdxVerticesBuf := |newIdxVertices|;
      }
      idxVertices := newIdxVertices;
      drawOrder := order;
    }

    /** `set_vertices`: `update_vertices` with the policy of the last gesture. */
    method SetVertices(action: UserAction, cam: CameraQuery, sphereSub: Cell -> nat)
      requires Valid()
      requires textures.IsReady()
      requires forall c :: c in cam.cellsOneDepthFiner ==> ValidCell(c)
      requires forall c :: NumSubdivision(PolicyFor(action), sphereSub(c)) <= 7
      modifies this
      ensures Valid()
      ensures MeshUpdated(PolicyFor(action), cam, sphereSub, old(sizeVerticesBuf), old(sizeIdxVerticesBuf))
      ensures color == old(color) && textures == old(textures) && view == old(view)
    {
      match action {
        case Unzooming => UpdateVertices(UnZoom, cam, sphereSub);
        case Zooming => UpdateVertices(Zoom, cam, sphereSub);
        case Moving => UpdateVertices(Move, cam, sphereSub);
        case Starting => UpdateVertices(Move, cam, sphereSub);
      }
    }

    /**
     * `draw`: returns what was drawn. The mesh is rebuilt exactly when the
     * rasterizer is used and something changed; it is left alone otherwise.
     * `newCellsAdded` and `availableTiles` are what the view and the tile
     * store report for this frame.
     */
    method Draw(camera: Camera, newCellsAdded: bool, availableTiles: bool, sphereSub: Cell -> nat)
      returns (drawn: DrawKind)
      requires Valid()
      requires forall c :: c in camera.query.cellsOneDepthFiner ==> ValidCell(c)
      requires forall c :: NumSubdivision(PolicyFor(camera.lastUserAction), sphereSub(c)) <= 7
      modifies this
      ensures Valid()
      ensures drawn == DrawDecision(old(textures.IsReady()), camera.apertureDeg, newCellsAdded, availableTiles, camera.moved)
      ensures drawn == Rasterize(true) ==>
                MeshUpdated(PolicyFor(camera.lastUserAction), camera.query, sphereSub,
                            old(sizeVerticesBuf), old(sizeIdxVerticesBuf))
      ensures drawn != Rasterize(true) ==>
                vertices == old(vertices) && idxVertices == old(idxVertices) && numIdx == old(numIdx) &&
                sizeVerticesBuf == old(sizeVerticesBuf) && sizeIdxVerticesBuf == old(sizeIdxVerticesBuf)
      ensures color == old(color) && textures == old(textures) && view == old(view)
    {
      if !textures.IsReady() {
        return Skip;
      }
      if camera.apertureDeg > LimitApertureDeg {
        return Raytrace;
      }
      var recomputeVertices := newCellsAdded || availableTiles || camera.moved;
      if recomputeVertices {
        SetVertices(camera.lastUserAction, camera.query, sphereSub);
      }
      drawn := Rasterize(recomputeVertices);
    }
  }
}
