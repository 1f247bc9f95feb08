/**
 * The rounded outer border of the table: which corners of a cell's or a
 * merge's background are cut by the border arc, and how setOutStrokeCorner
 * bounds the radius.
 */
module Corners {
  import opened Records
  import opened Layout

  /** Which of the four corners receive the concave cut of the table's rounded border. */
  datatype Cuts = Cuts(leftTop: bool, leftBottom: bool, rightBottom: bool, rightTop: bool)

  const NO_CUTS := Cuts(false, false, false, false)

  /** drawCellsInfoBg: the cut tests on the cell's own indices. */
  function CellCuts(r: int, l: int, rows: int, lines: int): Cuts {
    Cuts(r == 0 && l == 0, r == rows - 1 && l == 0, r == rows - 1 && l == lines - 1, r == 0 && l == lines - 1)
  }

  /** drawMergedCells: the same tests on the merge's outer bounds. */
  function MergeCuts(m: MergeInfo, rows: int, lines: int): Cuts {
    Cuts(m.startRow == 0 && m.startLine == 0, m.endRow == rows - 1 && m.startLine == 0,
         m.endRow == rows - 1 && m.endLine == lines - 1, m.startRow == 0 && m.endLine == lines - 1)
  }

  /** A cell is cut somewhere exactly when it sits in a corner of the table. */
  lemma CutOnlyInTableCorners(r: int, l: int, rows: int, lines: int)
    requires 0 <= r < rows && 0 <= l < lines
    ensures CellCuts(r, l, rows, lines) != NO_CUTS <==> (r == 0 || r == rows - 1) && (l == 0 || l == lines - 1)
  {
  }

  /** Each corner of the table is cut on exactly one cell of the grid. */
  lemma EachTableCornerCutOnce(rows: int, lines: int)
    requires rows >= 1 && lines >= 1
    ensures forall r, l :: 0 <= r < rows && 0 <= l < lines ==>
              && (CellCuts(r, l, rows, lines).leftTop <==> (r, l) == (0, 0))
              && (CellCuts(r, l, rows, lines).leftBottom <==> (r, l) == (rows - 1, 0))
              && (CellCuts(r, l, rows, lines).rightBottom <==> (r, l) == (rows - 1, lines - 1))
              && (CellCuts(r, l, rows, lines).rightTop <==> (r, l) == (0, lines - 1))
  {
  }

  /**
   * A single-row table evaluates the top and bottom tests independently, so
   * its first cell takes both left cuts and its last cell both right cuts;
   * a 1x1 table cuts all four corners of its only cell.
   */
  lemma SingleRowTakesTwoCuts(lines: int)
    requires lines >= 1
    ensures CellCuts(0, 0, 1, lines).leftTop && CellCuts(0, 0, 1, lines).leftBottom
    ensures CellCuts(0, lines - 1, 1, lines).rightTop && CellCuts(0, lines - 1, 1, lines).rightBottom
    ensures lines == 1 ==> CellCuts(0, 0, 1, 1) == Cuts(true, true, true, true)
  {
  }

  /**
   * A merge inside the grid is cut at a corner exactly when it covers the
   * table's corner cell there, and a single-cell merge is cut like its cell.
   */
  lemma MergeCutsFollowCoveredCorners(m: MergeInfo, rows: int, lines: int)
    requires MergeInGrid(m, rows, lines)
    ensures MergeCuts(m, rows, lines).leftTop <==> Covers(m, 0, 0)
    ensures MergeCuts(m, rows, lines).leftBottom <==> Covers(m, rows - 1, 0)
    ensures MergeCuts(m, rows, lines).rightBottom <==> Covers(m, rows - 1, lines - 1)
    ensures MergeCuts(m, rows, lines).rightTop <==> Covers(m, 0, lines - 1)
    ensures m.startRow == m.endRow && m.startLine == m.endLine ==>
              MergeCuts(m, rows, lines) == CellCuts(m.startRow, m.startLine, rows, lines)
  {
  }

  /** The merge covers cell (r, l). */
  predicate Covers(m: MergeInfo, r: int, l: int) {
    m.startRow <= r <= m.endRow && m.startLine <= l <= m.endLine
  }

  // ---------------------------------------------------------------------------
  // setOutStrokeCorner

  /** One step of the running minimum `if (min > v) min = v`. */
  function Lower(m: real, v: real): (r: real)
    ensures r <= m && r <= v && (r == m || r == v)
  {
    if m > v then v else m
  }

  /** The smallest width or height of the four corner cells, compared in the source's order. */
  function CornerLimit(g: seq<seq<CellInfo>>, rows: nat, lines: nat): (m: real)
    requires 1 <= rows <= |g| && 1 <= lines && forall r :: 0 <= r < |g| ==> lines <= |g[r]|
  {
    var m := Lower(g[0][0].width, g[0][0].height);
    var m := Lower(Lower(m, g[0][lines - 1].width), g[0][lines - 1].height);
    var m := Lower(Lower(m, g[rows - 1][0].width), g[rows - 1][0].height);
    Lower(Lower(m, g[rows - 1][lines - 1].width), g[rows - 1][lines - 1].height)
  }

  /** A requested radius is kept when it lies in [0, limit]; anything else becomes the limit. */
  function ClampCorner(c: real, limit: real): (r: real)
    ensures 0.0 <= c <= limit ==> r == c
    ensures c < 0.0 || c > limit ==> r == limit
  {
    if c < 0.0 || c > limit then limit else c
  }

  /**
   * The stored radius never exceeds the width or height of any corner cell,
   * is one of the requested radius and those sizes, is never negative when
   * those sizes are not, and setting the stored radius again keeps it.
   */
  lemma CornerFitsCornerCells(g: seq<seq<CellInfo>>, rows: nat, lines: nat, c: real)
    requires 1 <= rows <= |g| && 1 <= lines && forall r :: 0 <= r < |g| ==> lines <= |g[r]|
    ensures var k := ClampCorner(c, CornerLimit(g, rows, lines));
            && k <= g[0][0].width && k <= g[0][0].height
            && k <= g[0][lines - 1].width && k <= g[0][lines - 1].height
            && k <= g[rows - 1][0].width && k <= g[rows - 1][0].height
            && k <= g[rows - 1][lines - 1].width && k <= g[rows - 1][lines - 1].height
            && (k == c || k in [g[0][0].width, g[0][0].height, g[0][lines - 1].width, g[0][lines - 1].height,
                                g[rows - 1][0].width, g[rows - 1][0].height,
                                g[rows - 1][lines - 1].width, g[rows - 1][lines - 1].height])
            && ((g[0][0].width >= 0.0 && g[0][0].height >= 0.0 &&
                 g[0][lines - 1].width >= 0.0 && g[0][lines - 1].height >= 0.0 &&
                 g[rows - 1][0].width >= 0.0 && g[rows - 1][0].height >= 0.0 &&
                 g[rows - 1][lines - 1].width >= 0.0 && g[rows - 1][lines - 1].height >= 0.0) ==> k >= 0.0)
            && ClampCorner(k, CornerLimit(g, rows, lines)) == k
  {
  }
}
