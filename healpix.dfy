/**
 * Cells of the NESTED HEALPix quad-tree: 12 base cells at depth 0, each cell
 * of depth d split into 4 children at depth d + 1. A cell is a value.
 */
module Healpix {

  datatype Cell = Cell(depth: nat, idx: nat)

  function Pow4(d: nat): (r: nat)
    ensures r >= 1
  {
    if d == 0 then 1 else 4 * Pow4(d - 1)
  }

  /** A depth has 12 * 4^depth cells, numbered from 0. */
  predicate ValidCell(c: Cell) {
    c.idx < 12 * Pow4(c.depth)
  }

  /** One level coarser in the nested numbering; a base cell is its own parent. */
  function Parent(c: Cell): Cell {
    if c.depth == 0 then c else Cell(c.depth - 1, c.idx / 4)
  }

  /** `a` is `c` itself or is reached from `c` by repeated `Parent` steps. */
  predicate AncestorOrSelf(a: Cell, c: Cell)
    decreases c.depth
  {
    a == c || (c.depth > 0 && AncestorOrSelf(a, Parent(c)))
  }

  /** The parent of a valid cell is a valid cell. */
  lemma ParentValid(c: Cell)
    requires ValidCell(c)
    ensures ValidCell(Parent(c))
  {
    if c.depth > 0 {
      var q := 12 * Pow4(c.depth - 1);
      assert 12 * Pow4(c.depth) == 4 * q;
      assert c.idx / 4 < q;
    }
  }

  /** An ancestor is never finer than its descendant. */
  lemma {:induction false} AncestorDepth(a: Cell, c: Cell)
    requires AncestorOrSelf(a, c)
    ensures a.depth <= c.depth
    decreases c.depth
  {
    if a != c {
      AncestorDepth(a, Parent(c));
    }
  }

  lemma {:induction false} AncestorTransitive(a: Cell, b: Cell, c: Cell)
    requires AncestorOrSelf(a, b) && AncestorOrSelf(b, c)
    ensures AncestorOrSelf(a, c)
    decreases c.depth
  {
    if b != c {
      AncestorTransitive(a, b, Parent(c));
    }
  }
}
