/** The top-view projection: each craft's x and y are scaled onto a fixed
    20 by 20 character grid, clamped to its edges, and the craft's glyph is
    written into its cell, later crafts overwriting earlier ones. */
module Projection {
  import opened Kinematics

  /** Rows and columns of the grid. */
  const GridDim: nat := 20
  /** Half the grid: the cell that coordinate 0 falls into. */
  const GridHalf: real := 10.0
  /** Fill of a cell that no craft has written. */
  const EmptyCell: char := '.'
  /** Glyph of a craft whose identifier is empty. */
  const Unnamed: char := '?'

  /** Conversion of a real to an integer by dropping the fraction, rounding
      toward zero (not toward minus infinity) for negative values. */
  function Truncate(v: real): (n: int)
    ensures v >= 0.0 ==> n >= 0 && n as real <= v < n as real + 1.0
    ensures v < 0.0 ==> n <= 0 && n as real - 1.0 < v <= n as real
  {
    if v >= 0.0 then v.Floor else -((-v).Floor)
  }

  /** `max(0, min(GridDim - 1, n))`. */
  function Clamp(n: int): (r: nat)
    ensures r < GridDim
    ensures 0 <= n < GridDim ==> r == n
    ensures n < 0 ==> r == 0
    ensures n >= GridDim ==> r == GridDim - 1
  {
    var upper := if n < GridDim - 1 then n else GridDim - 1;
    if upper > 0 then upper else 0
  }

  /** The grid index a coordinate falls into when `span` units are drawn on
      each side of the centre. */
  function GridIndex(coord: real, span: real): (k: nat)
    requires span != 0.0
    ensures k < GridDim
  {
    Clamp(Truncate((coord / span) * GridHalf + GridHalf))
  }

  /** The character a craft is drawn with: the first character of its
      identifier, or `Unnamed` for an empty identifier. */
  function Glyph(id: string): char
  {
    if |id| > 0 then id[0] else Unnamed
  }

  /** Craft `s` is drawn at row `row` (from y) and column `col` (from x). */
  predicate Hits(s: CraftState, span: real, row: nat, col: nat)
    requires span != 0.0
  {
    GridIndex(s.pos.y, span) == row && GridIndex(s.pos.x, span) == col
  }

  /** The content of cell (`row`, `col`) after drawing the crafts of `s` in
      order. */
  function CellAt(s: seq<CraftState>, span: real, row: nat, col: nat): char
    requires span != 0.0
  {
    if s == [] then EmptyCell
    else
      var last := s[|s| - 1];
      if Hits(last, span, row, col) then Glyph(last.id) else CellAt(s[..|s| - 1], span, row, col)
  }

  /** Drawing craft `i` after the crafts before it changes exactly the cell
      it hits. */
  lemma CellAtStep(s: seq<CraftState>, i: nat, span: real, row: nat, col: nat)
    requires span != 0.0 && i < |s|
    ensures CellAt(s[..i + 1], span, row, col) ==
              if Hits(s[i], span, row, col) then Glyph(s[i].id) else CellAt(s[..i], span, row, col)
  {
    assert s[..i + 1][..i] == s[..i];
  }

  /** A cell no craft falls into keeps its fill. */
  lemma {:induction false} CellAtUntouched(s: seq<CraftState>, span: real, row: nat, col: nat)
    requires span != 0.0
    requires forall k :: 0 <= k < |s| ==> !Hits(s[k], span, row, col)
    ensures CellAt(s, span, row, col) == EmptyCell
  {
    if s != [] {
      var init := s[..|s| - 1];
      assert forall k :: 0 <= k < |init| ==> init[k] == s[k];
      CellAtUntouched(init, span, row, col);
    }
  }

  /** A cell shows the glyph of the last craft that falls into it. */
  lemma {:induction false} CellAtLastWriter(s: seq<CraftState>, span: real, row: nat, col: nat, k: nat)
    requires span != 0.0
    requires k < |s| && Hits(s[k], span, row, col)
    requires forall m :: k < m < |s| ==> !Hits(s[m], span, row, col)
    ensures CellAt(s, span, row, col) == Glyph(s[k].id)
  {
    if k < |s| - 1 {
      var init := s[..|s| - 1];
      assert forall m :: 0 <= m < |init| ==> init[m] == s[m];
      CellAtLastWriter(init, span, row, col, k);
    }
  }

  /** Python's `int()` is not the floor: on negative values they differ. */
  lemma TruncateIsNotFloor()
    ensures Truncate(-0.5) == 0 && (-0.5).Floor == -1
  {
  }

  /** Clamping hides that difference: on the grid, truncation and the floor
      always pick the same index. */
  lemma TruncClampIsFloorClamp(v: real)
    ensures Clamp(Truncate(v)) == Clamp(v.Floor)
  {
  }
}
