/**
 * The three stateless transition policies (`Move`, `Zoom`, `UnZoom`): for each
 * cell to draw, which two resident tiles to cross-fade, and how finely to
 * tessellate the cell.
 */
module Transition {
  import opened Healpix
  import opened SurveyTextures

  datatype Policy = Move | Zoom | UnZoom

  /** The cells of the tiles a cell blends from (`start`) and towards (`end`). */
  datatype TilePair = TilePair(start: Cell, end: Cell)

  /** The two texture references drawn for one cell. */
  datatype TextureToDraw = TextureToDraw(starting: Texture, ending: Texture)

  /** The cells the view reports at its current depth (`HEALPixCellsInView`). */
  datatype CellsInView = CellsInView(depth: nat, cells: seq<Cell>)

  /**
   * What `UnZoom` asks of the camera: whether the view depth decreased while
   * unzooming, and the cells covering the camera one depth finer than the view.
   */
  datatype CameraQuery = CameraQuery(depthDecreasedWhileUnzooming: bool, cellsOneDepthFiner: seq<Cell>)

  /**
   * `Move` and `Zoom`: a resident cell blends from its nearest resident parent
   * to itself; a missing cell blends from the nearest parent of its nearest
   * parent to its nearest parent.
   */
  function RefiningPair(tex: ImageSurveyTextures, c: Cell): TilePair {
    if tex.Contains(c) then
      TilePair(tex.NearestParent(c), c)
    else
      TilePair(tex.NearestParent(tex.NearestParent(c)), tex.NearestParent(c))
  }

  /**
   * `UnZoom`: the start tile is the cell if resident, else the nearest parent of
   * its parent; the end tile is the parent when resident, else the start tile.
   */
  function UnZoomPair(tex: ImageSurveyTextures, c: Cell): TilePair {
    var parent := Parent(c);
    var start := if tex.Contains(c) then c else tex.NearestParent(parent);
    if tex.Contains(parent) then TilePair(start, parent) else TilePair(start, start)
  }

  function PairCells(policy: Policy, tex: ImageSurveyTextures, c: Cell): TilePair {
    match policy
    case Move => RefiningPair(tex, c)
    case Zoom => RefiningPair(tex, c)
    case UnZoom => UnZoomPair(tex, c)
  }

  /** Both tiles of the pair are resident, so that `get(..).unwrap()` succeeds. */
  predicate Resolvable(tex: ImageSurveyTextures, p: TilePair) {
    tex.Contains(p.start) && tex.Contains(p.end)
  }

  /** The `unwrap()`s succeed for every cell of `cells`. */
  predicate AllResolvable(policy: Policy, tex: ImageSurveyTextures, cells: seq<Cell>) {
    forall c :: c in cells ==> Resolvable(tex, PairCells(policy, tex, c))
  }

  /**
   * The cells a policy draws. `Move` and `Zoom` draw the view's cells; `UnZoom`
   * keeps drawing one depth finer while the view depth is below the survey's
   * maximum depth and the view reports that its depth decreased while unzooming.
   */
  function CellsToDraw(policy: Policy, view: CellsInView, maxDepth: nat, cam: CameraQuery): (cells: seq<Cell>)
    ensures policy != UnZoom ==> cells == view.cells
    ensures policy == UnZoom && view.depth < maxDepth && cam.depthDecreasedWhileUnzooming ==>
              cells == cam.cellsOneDepthFiner
    ensures policy == UnZoom && !(view.depth < maxDepth && cam.depthDecreasedWhileUnzooming) ==>
              cells == view.cells
  {
    if policy == UnZoom && view.depth < maxDepth && cam.depthDecreasedWhileUnzooming then
      cam.cellsOneDepthFiner
    else
      view.cells
  }

  /**
   * `get_textures_from_survey`: one entry per cell to draw, holding the two
   * textures of the pair the policy selects for it.
   */
  method GetTexturesFromSurvey(policy: Policy, view: CellsInView, cam: CameraQuery, maxDepth: nat,
                               tex: ImageSurveyTextures)
    returns (textures: map<Cell, TextureToDraw>)
    requires AllResolvable(policy, tex, CellsToDraw(policy, view, maxDepth, cam))
    ensures textures.Keys == set c | c in CellsToDraw(policy, view, maxDepth, cam)
    ensures forall c :: c in CellsToDraw(policy, view, maxDepth, cam) ==>
              textures[c] == TextureToDraw(tex.Get(PairCells(policy, tex, c).start), tex.Get(PairCells(policy, tex, c).end))
  {
    var cells: seq<Cell>;
    if policy == UnZoom && view.depth < maxDepth && cam.depthDecreasedWhileUnzooming {
      cells := cam.cellsOneDepthFiner;
    } else {
      cells := view.cells;
    }
    textures := map[];
    var k := 0;
    while k < |cells|
      invariant 0 <= k <= |cells|
      invariant textures.Keys == set i | 0 <= i < k :: cells[i]
      invariant forall c :: c in textures ==>
                  c in cells && textures[c] == TextureToDraw(tex.Get(PairCells(policy, tex, c).start), tex.Get(PairCells(policy, tex, c).end))
    {
      var cell := cells[k];
      assert Resolvable(tex, PairCells(policy, tex, cell));
      var t: TextureToDraw;
      if policy == UnZoom {
        var parentCell := Parent(cell);
        var startingCell := if tex.Contains(cell) then cell else tex.NearestParent(parentCell);
        if tex.Contains(parentCell) {
          t := TextureToDraw(tex.Get(startingCell), tex.Get(parentCell));
        } else {
          var endingCell := startingCell;
          t := TextureToDraw(tex.Get(startingCell), tex.Get(endingCell));
        }
      } else if tex.Contains(cell) {
        var parentCell := tex.NearestParent(cell);
        t := TextureToDraw(tex.Get(parentCell), tex.Get(cell));
      } else {
        var parentCell := tex.NearestParent(cell);
        var grandParentCell := tex.NearestParent(parentCell);
        t := TextureToDraw(tex.Get(grandParentCell), tex.Get(parentCell));
      }
      textures := textures[cell := t];
      k := k + 1;
    }
    assert (set i | 0 <= i < |cells| :: cells[i]) == set c | c in cells by {
      forall c | c in cells ensures c in set i | 0 <= i < |cells| :: cells[i] {
        var i :| 0 <= i < |cells| && cells[i] == c;
      }
    }
  }

  /**
   * `num_subdivision`: `Move` and `Zoom` use the sphere subdivision level of the
   * cell; `UnZoom` uses one level less, saturating at 0.
   */
  function NumSubdivision(policy: Policy, sphereSub: nat): (s: nat)
    ensures policy != UnZoom ==> s == sphereSub
    ensures policy == UnZoom ==> s == (if sphereSub <= 1 then 0 else sphereSub - 1)
  {
    match policy
    case Move => sphereSub
    case Zoom => sphereSub
    case UnZoom => if sphereSub <= 1 then 0 else sphereSub - 1
  }

  /** `UnZoom` never tessellates finer than `Move`/`Zoom`, and is one level coarser above level 1. */
  lemma UnZoomCoarser(sphereSub: nat)
    ensures NumSubdivision(UnZoom, sphereSub) <= NumSubdivision(Move, sphereSub)
    ensures NumSubdivision(Move, sphereSub) == NumSubdivision(Zoom, sphereSub)
    ensures sphereSub >= 1 ==> NumSubdivision(UnZoom, sphereSub) == sphereSub - 1
  {
  }

  /** `Move` and `Zoom` draw the same cells and pick the same pair for each. */
  lemma MoveAndZoomAgree(view: CellsInView, maxDepth: nat, cam: CameraQuery, tex: ImageSurveyTextures, c: Cell)
    ensures CellsToDraw(Move, view, maxDepth, cam) == CellsToDraw(Zoom, view, maxDepth, cam) == view.cells
    ensures PairCells(Move, tex, c) == PairCells(Zoom, tex, c)
  {
  }

  /**
   * Both tiles selected for a cell are the cell itself or one of its ancestors:
   * they cover it. A base cell, its own parent, is drawn from its own tile alone.
   */
  lemma PairCoversCell(policy: Policy, tex: ImageSurveyTextures, c: Cell)
    ensures AncestorOrSelf(PairCells(policy, tex, c).start, c)
    ensures AncestorOrSelf(PairCells(policy, tex, c).end, c)
    ensures c.depth == 0 ==> PairCells(policy, tex, c) == TilePair(c, c)
  {
    tex.NearestParentIsAncestor(c);
    var parent := Parent(c);
    assert AncestorOrSelf(parent, c) by {
      assert c.depth > 0 ==> AncestorOrSelf(parent, parent);
    }
    match policy {
      case UnZoom =>
        tex.NearestParentIsAncestor(parent);
        AncestorTransitive(tex.NearestParent(parent), parent, c);
      case _ =>
        var np := tex.NearestParent(c);
        tex.NearestParentIsAncestor(np);
        AncestorTransitive(tex.NearestParent(np), np, c);
    }
  }

  /**
   * `Move`/`Zoom` always blend from a tile no finer than the one they blend to:
   * the start tile is an ancestor (or the same tile) of the end tile, and for a
   * resident cell below the base level it is strictly coarser.
   */
  lemma RefiningBlendsCoarseToFine(tex: ImageSurveyTextures, c: Cell)
    ensures AncestorOrSelf(RefiningPair(tex, c).start, RefiningPair(tex, c).end)
    ensures tex.Contains(c) ==> RefiningPair(tex, c).end == c
    ensures tex.Contains(c) && c.depth > 0 ==> RefiningPair(tex, c).start.depth < c.depth
  {
    tex.NearestParentIsAncestor(c);
    tex.NearestParentIsAncestor(tex.NearestParent(c));
  }

  /**
   * Once the 12 base tiles are resident, every tile any policy selects for a
   * valid cell is resident: the `unwrap()`s of the source cannot fail.
   */
  lemma ReadyMakesPairResolvable(policy: Policy, tex: ImageSurveyTextures, c: Cell)
    requires tex.IsReady() && ValidCell(c)
    ensures Resolvable(tex, PairCells(policy, tex, c))
  {
    tex.NearestParentResident(c);
    var np := tex.NearestParent(c);
    tex.NearestParentIsAncestor(c);
    ParentValid(c);
    tex.NearestParentResident(Parent(c));
    if !tex.Contains(c) && policy != UnZoom {
      NearestParentValid(tex, c);
      tex.NearestParentResident(np);
    }
  }

  /**
   * Once the 12 base tiles are resident and the view and the camera report
   * valid cells, every cell a policy draws resolves both of its tiles.
   */
  lemma CellsToDrawResolvable(policy: Policy, view: CellsInView, maxDepth: nat, cam: CameraQuery,
                              tex: ImageSurveyTextures)
    requires tex.IsReady()
    requires forall c :: c in view.cells ==> ValidCell(c)
    requires forall c :: c in cam.cellsOneDepthFiner ==> ValidCell(c)
    ensures AllResolvable(policy, tex, CellsToDraw(policy, view, maxDepth, cam))
  {
    forall c | c in CellsToDraw(policy, view, maxDepth, cam)
      ensures Resolvable(tex, PairCells(policy, tex, c))
    {
      ReadyMakesPairResolvable(policy, tex, c);
    }
  }

  /** The nearest parent of a valid cell is a valid cell. */
  lemma {:induction false} NearestParentValid(tex: ImageSurveyTextures, c: Cell)
    requires ValidCell(c)
    ensures ValidCell(tex.NearestParent(c))
    decreases c.depth
  {
    ParentValid(c);
    var parent := Parent(c);
    if !(tex.Contains(parent) || parent.depth == 0) {
      NearestParentValid(tex, parent);
    }
  }
}
