/**
 * What initData computes: every cell's origin is the table origin plus the
 * prefix sums of the column widths and row heights, and every merge spans
 * the sum of the sizes it covers.
 */
module Layout {
  import opened Records
  import opened GridOps

  /** The cell at (r, l) after the layout pass: its indices, origin and size are overwritten. */
  function LaidOutCell(c: CellInfo, r: nat, l: nat, widths: seq<real>, heights: seq<real>,
                       left: real, top: real): (d: CellInfo)
    requires r < |heights| && l < |widths|
    ensures d.(row := c.row, line := c.line, startX := c.startX, startY := c.startY,
               width := c.width, height := c.height) == c
    ensures d.row == r && d.line == l
    ensures d.startX + d.width == left + SumTo(widths, l + 1)
    ensures d.startY + d.height == top + SumTo(heights, r + 1)
  {
    c.(row := r, line := l,
       startX := left + SumTo(widths, l), startY := top + SumTo(heights, r),
       width := widths[l], height := heights[r])
  }

  /** A merge whose bounds lie inside the grid. */
  predicate MergeInGrid(m: MergeInfo, rows: int, lines: int) {
    0 <= m.startRow <= m.endRow < rows && 0 <= m.startLine <= m.endLine < lines
  }

  /** The merge after the layout pass: origin of its start cell, size summed over its span. */
  function LaidOutMerge(m: MergeInfo, widths: seq<real>, heights: seq<real>,
                        left: real, top: real): (d: MergeInfo)
    requires MergeInGrid(m, |heights|, |widths|)
    ensures d.(startX := m.startX, startY := m.startY, width := m.width, height := m.height) == m
    ensures d.startX == left + SumTo(widths, m.startLine)
    ensures d.startY == top + SumTo(heights, m.startRow)
    ensures d.startX + d.width == left + SumTo(widths, m.endLine + 1)
    ensures d.startY + d.height == top + SumTo(heights, m.endRow + 1)
  {
    m.(startX := left + SumTo(widths, m.startLine), startY := top + SumTo(heights, m.startRow),
       width := SumRange(widths, m.startLine, m.endLine + 1),
       height := SumRange(heights, m.startRow, m.endRow + 1))
  }

  /** MODE_FIX_WIDTH / MODE_FIX_HEIGHT: the available extent shared evenly, never below the corner radius. */
  function FixedSize(available: real, count: int, corner: real): (s: real)
    requires count >= 1
    ensures s >= corner && s >= available / (count as real)
    ensures s == corner || s == available / (count as real)
  {
    var even := available / (count as real);
    if even >= corner then even else corner
  }

  /** The cell sits at (r, l) where the layout pass puts it. */
  ghost predicate CellLaidOut(c: CellInfo, r: nat, l: nat, widths: seq<real>, heights: seq<real>,
                              left: real, top: real)
    requires r < |heights| && l < |widths|
  {
    && c.row == r && c.line == l
    && c.startX == left + SumTo(widths, l) && c.startY == top + SumTo(heights, r)
    && c.width == widths[l] && c.height == heights[r]
  }

  /** Every cell of the grid sits where the layout pass puts it. */
  ghost predicate IsLaidOut(g: seq<seq<CellInfo>>, widths: seq<real>, heights: seq<real>,
                            left: real, top: real)
  {
    && |g| == |heights| && Rectangular(g, |widths|)
    && forall r, l :: 0 <= r < |g| && 0 <= l < |widths| ==>
         CellLaidOut(g[r][l], r, l, widths, heights, left, top)
  }

  /**
   * Coordinate-sum invariant: in every row the first cell starts at the table's
   * left edge, each cell starts where its left neighbour ends, and the last cell
   * ends at left + the sum of all widths; the same holds down every column.
   */
  lemma {:induction false} LaidOutRowsTile(g: seq<seq<CellInfo>>, widths: seq<real>, heights: seq<real>,
                                           left: real, top: real, r: nat, l: nat)
    requires IsLaidOut(g, widths, heights, left, top)
    requires r < |g| && l < |widths|
    ensures g[r][0].startX == left && g[0][l].startY == top
    ensures l + 1 < |widths| ==> g[r][l + 1].startX == g[r][l].startX + g[r][l].width
    ensures r + 1 < |g| ==> g[r + 1][l].startY == g[r][l].startY + g[r][l].height
    ensures g[r][|widths| - 1].startX + g[r][|widths| - 1].width == left + SumTo(widths, |widths|)
    ensures g[|g| - 1][l].startY + g[|g| - 1][l].height == top + SumTo(heights, |heights|)
  {
    var n, m := |widths|, |g|;
    assert CellLaidOut(g[r][0], r, 0, widths, heights, left, top);
    assert CellLaidOut(g[0][l], 0, l, widths, heights, left, top);
    assert CellLaidOut(g[r][n - 1], r, n - 1, widths, heights, left, top);
    assert CellLaidOut(g[m - 1][l], m - 1, l, widths, heights, left, top);
    assert CellLaidOut(g[r][l], r, l, widths, heights, left, top);
    if l + 1 < n {
      assert CellLaidOut(g[r][l + 1], r, l + 1, widths, heights, left, top);
    }
    if r + 1 < m {
      assert CellLaidOut(g[r + 1][l], r + 1, l, widths, heights, left, top);
    }
  }

  /**
   * A laid-out merge is exactly the rectangle of the cells it covers: it starts
   * at its start cell's origin and ends at its end cell's far corner.
   */
  lemma MergeSpansItsCells(g: seq<seq<CellInfo>>, widths: seq<real>, heights: seq<real>,
                           left: real, top: real, m: MergeInfo)
    requires IsLaidOut(g, widths, heights, left, top)
    requires MergeInGrid(m, |heights|, |widths|)
    ensures var d := LaidOutMerge(m, widths, heights, left, top);
            && d.startX == g[m.startRow][m.startLine].startX
            && d.startY == g[m.startRow][m.startLine].startY
            && d.startX + d.width == g[m.endRow][m.endLine].startX + g[m.endRow][m.endLine].width
            && d.startY + d.height == g[m.endRow][m.endLine].startY + g[m.endRow][m.endLine].height
  {
    assert CellLaidOut(g[m.startRow][m.startLine], m.startRow, m.startLine, widths, heights, left, top);
    assert CellLaidOut(g[m.endRow][m.endLine], m.endRow, m.endLine, widths, heights, left, top);
  }

  /** Given widths [10,15,20] and heights [10,15,20] at origin (0,0), merging (0,0)-(1,1) gives the rectangle (0,0)-(25,25). */
  lemma MergeGeometryExample(m: MergeInfo)
    requires m.startRow == 0 && m.startLine == 0 && m.endRow == 1 && m.endLine == 1
    ensures var d := LaidOutMerge(m, [10.0, 15.0, 20.0], [10.0, 15.0, 20.0], 0.0, 0.0);
            d.startX == 0.0 && d.startY == 0.0 && d.width == 25.0 && d.height == 25.0
  {
    var s := [10.0, 15.0, 20.0];
    assert SumTo(s, 1) == 10.0;
    assert SumTo(s, 2) == 25.0;
  }
}
