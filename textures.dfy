/**
 * The residency view of a survey's tile store (`ImageSurveyTextures`): which
 * cells have a tile in GPU texture storage, and when each tile arrived. Only
 * the queries the renderer makes are modelled: `contains`, `get`,
 * `get_nearest_parent` and `is_ready`.
 */
module SurveyTextures {
  import opened Healpix

  /** A reference to the resident tile of `cell`; `startTime` starts its blend animation. */
  datatype Texture = Texture(cell: Cell, startTime: real)

  datatype ImageSurveyTextures = ImageSurveyTextures(startTimes: map<Cell, real>) {

    predicate Contains(c: Cell) {
      c in startTimes
    }

    /** `get(cell).unwrap()`: only defined on a resident cell. */
    function Get(c: Cell): (t: Texture)
      requires Contains(c)
      ensures t.cell == c
    {
      Texture(c, startTimes[c])
    }

    /**
     * Climbs `parent()` from the parent of `c` until a resident cell or a
     * base cell is met; a base cell is its own nearest parent.
     */
    function NearestParent(c: Cell): Cell
      decreases c.depth
    {
      var parent := Parent(c);
      if Contains(parent) || parent.depth == 0 then parent else NearestParent(parent)
    }

    /** The 12 base cells are resident: every climb ends on a resident tile. */
    predicate IsReady() {
      forall i: nat :: i < 12 ==> Contains(Cell(0, i))
    }

    /** The nearest parent is an ancestor, strictly coarser unless `c` is a base cell. */
    lemma {:induction false} NearestParentIsAncestor(c: Cell)
      ensures AncestorOrSelf(NearestParent(c), c)
      ensures c.depth > 0 ==> NearestParent(c).depth < c.depth
      ensures c.depth == 0 ==> NearestParent(c) == c
      decreases c.depth
    {
      var parent := Parent(c);
      if !(Contains(parent) || parent.depth == 0) {
        NearestParentIsAncestor(parent);
        AncestorTransitive(NearestParent(parent), parent, c);
      }
    }

    /** Once ready, the nearest parent of any valid cell is resident. */
    lemma {:induction false} NearestParentResident(c: Cell)
      requires IsReady() && ValidCell(c)
      ensures Contains(NearestParent(c))
      decreases c.depth
    {
      var parent := Parent(c);
      ParentValid(c);
      if !Contains(parent) && parent.depth != 0 {
        NearestParentResident(parent);
      }
    }
  }
}
