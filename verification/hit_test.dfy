/**
 * getCellByXY and the tap gesture of onTouchEvent: which cell or merge a
 * point falls in, and when a press followed by a release counts as a click.
 */
module HitTest {
  import opened Records
  import opened GridOps
  import opened Layout

  /** What a point resolves to: a merge, a cell, or nothing (Java null). */
  datatype Target = NoTarget | CellTarget(cell: CellInfo) | MergeTarget(merge: MergeInfo)

  /** The closed rectangle of a cell contains the point (edges included). */
  predicate CellContains(c: CellInfo, x: real, y: real) {
    c.startX <= x <= c.startX + c.width && c.startY <= y <= c.startY + c.height
  }

  predicate MergeContains(m: MergeInfo, x: real, y: real) {
    m.startX <= x <= m.startX + m.width && m.startY <= y <= m.startY + m.height
  }

  /** Index of the first merge at or after i that contains the point, or |ms| when there is none. */
  function FirstMergeFrom(ms: seq<MergeInfo>, i: nat, x: real, y: real): (k: nat)
    requires i <= |ms|
    ensures i <= k <= |ms|
    ensures forall j :: i <= j < k ==> !MergeContains(ms[j], x, y)
    ensures k < |ms| ==> MergeContains(ms[k], x, y)
    decreases |ms| - i
  {
    if i == |ms| || MergeContains(ms[i], x, y) then i else FirstMergeFrom(ms, i + 1, x, y)
  }

  /** Column of the first cell at or after column l of a row that contains the point, or |row|. */
  function FirstInRowFrom(row: seq<CellInfo>, l: nat, x: real, y: real): (k: nat)
    requires l <= |row|
    ensures l <= k <= |row|
    ensures forall j :: l <= j < k ==> !CellContains(row[j], x, y)
    ensures k < |row| ==> CellContains(row[k], x, y)
    decreases |row| - l
  {
    if l == |row| || CellContains(row[l], x, y) then l else FirstInRowFrom(row, l + 1, x, y)
  }

  /** The first cell in row-major order, from row r on, that contains the point. */
  function FirstCellFrom(g: seq<seq<CellInfo>>, r: nat, x: real, y: real): (p: Option<(nat, nat)>)
    requires r <= |g|
    ensures p.Some? ==> r <= p.value.0 < |g| && p.value.1 < |g[p.value.0]|
    ensures p.Some? ==> CellContains(g[p.value.0][p.value.1], x, y)
    ensures p.Some? ==> forall l :: 0 <= l < p.value.1 ==> !CellContains(g[p.value.0][l], x, y)
    ensures p.Some? ==> forall i, l :: r <= i < p.value.0 && 0 <= l < |g[i]| ==> !CellContains(g[i][l], x, y)
    ensures p.None? ==> forall i, l :: r <= i < |g| && 0 <= l < |g[i]| ==> !CellContains(g[i][l], x, y)
    decreases |g| - r
  {
    if r == |g| then None
    else
      var k := FirstInRowFrom(g[r], 0, x, y);
      if k < |g[r]| then Some((r, k)) else FirstCellFrom(g, r + 1, x, y)
  }

  /** getCellByXY: merges first, in list order, then cells in row-major order. */
  function Resolve(ms: seq<MergeInfo>, g: seq<seq<CellInfo>>, x: real, y: real): Target {
    var k := FirstMergeFrom(ms, 0, x, y);
    if k < |ms| then MergeTarget(ms[k])
    else match FirstCellFrom(g, 0, x, y)
      case Some(p) => CellTarget(g[p.0][p.1])
      case None => NoTarget
  }

  /** A merge containing the point shadows every cell: the point resolves to the first such merge. */
  lemma MergeShadowsCells(ms: seq<MergeInfo>, g: seq<seq<CellInfo>>, x: real, y: real, i: nat)
    requires i < |ms| && MergeContains(ms[i], x, y)
    ensures var t := Resolve(ms, g, x, y);
            t.MergeTarget? && MergeContains(t.merge, x, y) &&
            exists k :: 0 <= k <= i && ms[k] == t.merge && forall j :: 0 <= j < k ==> !MergeContains(ms[j], x, y)
  {
    var k := FirstMergeFrom(ms, 0, x, y);
    assert k <= i;
  }

  /** Without merges at the point, the result is a cell containing it, and no earlier cell does. */
  lemma ResolvesToFirstCell(ms: seq<MergeInfo>, g: seq<seq<CellInfo>>, x: real, y: real, r: nat, l: nat)
    requires forall j :: 0 <= j < |ms| ==> !MergeContains(ms[j], x, y)
    requires r < |g| && l < |g[r]| && CellContains(g[r][l], x, y)
    requires forall i, j :: 0 <= i < r && 0 <= j < |g[i]| ==> !CellContains(g[i][j], x, y)
    requires forall j :: 0 <= j < l ==> !CellContains(g[r][j], x, y)
    ensures Resolve(ms, g, x, y) == CellTarget(g[r][l])
  {
  }

  /** In a laid-out grid, a cell's column range is [left + Σ widths[0..l), left + Σ widths[0..l]]. */
  lemma {:induction false} CellSpan(g: seq<seq<CellInfo>>, widths: seq<real>, heights: seq<real>,
                                    left: real, top: real, r: nat, l: nat)
    requires IsLaidOut(g, widths, heights, left, top) && r < |heights| && l < |widths|
    ensures g[r][l].startX == left + SumTo(widths, l) && g[r][l].startX + g[r][l].width == left + SumTo(widths, l + 1)
    ensures g[r][l].startY == top + SumTo(heights, r) && g[r][l].startY + g[r][l].height == top + SumTo(heights, r + 1)
  {
    assert CellLaidOut(g[r][l], r, l, widths, heights, left, top);
  }

  /**
   * A point strictly inside cell (r, l) of a laid-out grid with positive sizes,
   * and under no merge, resolves to that cell.
   */
  lemma InteriorPointHitsItsCell(ms: seq<MergeInfo>, g: seq<seq<CellInfo>>, widths: seq<real>, heights: seq<real>,
                                 left: real, top: real, r: nat, l: nat, x: real, y: real)
    requires IsLaidOut(g, widths, heights, left, top) && AllPositive(widths) && AllPositive(heights)
    requires r < |heights| && l < |widths|
    requires left + SumTo(widths, l) < x < left + SumTo(widths, l + 1)
    requires top + SumTo(heights, r) < y < top + SumTo(heights, r + 1)
    requires forall j :: 0 <= j < |ms| ==> !MergeContains(ms[j], x, y)
    ensures Resolve(ms, g, x, y) == CellTarget(g[r][l])
  {
    CellSpan(g, widths, heights, left, top, r, l);
    forall i, j | 0 <= i < r && 0 <= j < |g[i]| ensures !CellContains(g[i][j], x, y) {
      CellSpan(g, widths, heights, left, top, i, j);
      SumToMonotone(heights, i + 1, r);
    }
    forall j | 0 <= j < l ensures !CellContains(g[r][j], x, y) {
      CellSpan(g, widths, heights, left, top, r, j);
      SumToMonotone(widths, j + 1, l);
    }
    ResolvesToFirstCell(ms, g, x, y, r, l);
  }

  /**
   * Shared edges resolve to the earlier cell: a point on the border between
   * columns l and l+1 (strictly inside row r) resolves to cell (r, l).
   */
  lemma SharedEdgeGoesToEarlierCell(ms: seq<MergeInfo>, g: seq<seq<CellInfo>>, widths: seq<real>, heights: seq<real>,
                                    left: real, top: real, r: nat, l: nat, y: real)
    requires IsLaidOut(g, widths, heights, left, top) && AllPositive(widths) && AllPositive(heights)
    requires r < |heights| && l + 1 < |widths|
    requires top + SumTo(heights, r) < y < top + SumTo(heights, r + 1)
    requires forall j :: 0 <= j < |ms| ==> !MergeContains(ms[j], left + SumTo(widths, l + 1), y)
    ensures Resolve(ms, g, left + SumTo(widths, l + 1), y) == CellTarget(g[r][l])
    ensures CellContains(g[r][l + 1], left + SumTo(widths, l + 1), y)
  {
    var x := left + SumTo(widths, l + 1);
    CellSpan(g, widths, heights, left, top, r, l);
    CellSpan(g, widths, heights, left, top, r, l + 1);
    SumToMonotone(widths, l, l + 1);
    forall i, j | 0 <= i < r && 0 <= j < |g[i]| ensures !CellContains(g[i][j], x, y) {
      CellSpan(g, widths, heights, left, top, i, j);
      SumToMonotone(heights, i + 1, r);
    }
    forall j | 0 <= j < l ensures !CellContains(g[r][j], x, y) {
      CellSpan(g, widths, heights, left, top, r, j);
      SumToMonotone(widths, j + 1, l);
    }
    ResolvesToFirstCell(ms, g, x, y, r, l);
  }

  /** A point left of, right of, above or below a laid-out grid with non-negative sizes hits no cell. */
  lemma OutsideGridHitsNoCell(ms: seq<MergeInfo>, g: seq<seq<CellInfo>>, widths: seq<real>, heights: seq<real>,
                              left: real, top: real, x: real, y: real)
    requires IsLaidOut(g, widths, heights, left, top) && AllNonNegative(widths) && AllNonNegative(heights)
    requires x < left || x > left + SumTo(widths, |widths|) || y < top || y > top + SumTo(heights, |heights|)
    requires forall j :: 0 <= j < |ms| ==> !MergeContains(ms[j], x, y)
    ensures Resolve(ms, g, x, y) == NoTarget
  {
    forall i, j | 0 <= i < |g| && 0 <= j < |g[i]| ensures !CellContains(g[i][j], x, y) {
      OutsideGridMissesCell(g, widths, heights, left, top, x, y, i, j);
    }
  }

  lemma OutsideGridMissesCell(g: seq<seq<CellInfo>>, widths: seq<real>, heights: seq<real>,
                              left: real, top: real, x: real, y: real, r: nat, l: nat)
    requires IsLaidOut(g, widths, heights, left, top) && AllNonNegative(widths) && AllNonNegative(heights)
    requires x < left || x > left + SumTo(widths, |widths|) || y < top || y > top + SumTo(heights, |heights|)
    requires r < |heights| && l < |widths|
    ensures !CellContains(g[r][l], x, y)
  {
    CellSpan(g, widths, heights, left, top, r, l);
    SumToMonotone(widths, 0, l);
    SumToMonotone(widths, l + 1, |widths|);
    SumToMonotone(heights, 0, r);
    SumToMonotone(heights, r + 1, |heights|);
  }

  // ---------------------------------------------------------------------------
  // The tap gesture

  const ACTION_DOWN := 0
  const ACTION_UP := 1
  const ACTION_MOVE := 2

  /** curTouchCell, downX and downY. */
  datatype Gesture = Gesture(cur: Target, downX: real, downY: real)

  /** Which listener callback, if any, an event fires. */
  datatype Click = NoClick | CellClick(cell: CellInfo) | MergeClick(merge: MergeInfo)

  /** The event's boolean result: true, false, or whatever the base view returns. */
  datatype Handled = Consumed | Declined | PassedOn

  datatype Step = Step(gesture: Gesture, click: Click, handled: Handled)

  function Abs(v: real): (a: real)
    ensures a >= 0.0 && (a == v || a == -v)
  {
    if v < 0.0 then -v else v
  }

  /** The release target is the same cell (by row and line) or the same merge (by its four bounds) as the press target. */
  predicate SameTarget(hit: Target, cur: Target) {
    || (hit.CellTarget? && cur.CellTarget? && hit.cell.row == cur.cell.row && hit.cell.line == cur.cell.line)
    || (hit.MergeTarget? && cur.MergeTarget? &&
        hit.merge.startRow == cur.merge.startRow && hit.merge.endRow == cur.merge.endRow &&
        hit.merge.startLine == cur.merge.startLine && hit.merge.endLine == cur.merge.endLine)
  }

  /**
   * One MotionEvent. `hit` is what getCellByXY returns for (x, y); only a press
   * and a release look at it. Without a listener every event goes to the base view.
   */
  function TouchStep(st: Gesture, hasListener: bool, action: int, x: real, y: real,
                     hit: Target, slop: real): (s: Step)
    ensures !hasListener ==> s == Step(st, NoClick, PassedOn)
    ensures hasListener && action == ACTION_DOWN ==> s == Step(Gesture(hit, x, y), NoClick, Consumed)
    ensures hasListener && action == ACTION_MOVE ==>
              s.click == NoClick &&
              if Abs(x - st.downX) > slop && Abs(y - st.downY) > slop
              then s.gesture == st.(cur := NoTarget) && s.handled == Declined
              else s.gesture == st && s.handled == PassedOn
    ensures hasListener && action == ACTION_UP ==>
              s.gesture == st && s.handled == PassedOn &&
              (s.click != NoClick <==> SameTarget(hit, st.cur)) &&
              (s.click.CellClick? ==> hit == CellTarget(s.click.cell)) &&
              (s.click.MergeClick? ==> hit == MergeTarget(s.click.merge))
    ensures action !in {ACTION_DOWN, ACTION_MOVE, ACTION_UP} ==> s == Step(st, NoClick, PassedOn)
  {
    if !hasListener then Step(st, NoClick, PassedOn)
    else if action == ACTION_DOWN then Step(Gesture(hit, x, y), NoClick, Consumed)
    else if action == ACTION_MOVE then
      if Abs(x - st.downX) > slop && Abs(y - st.downY) > slop
      then Step(st.(cur := NoTarget), NoClick, Declined)
      else Step(st, NoClick, PassedOn)
    else if action == ACTION_UP then
      var click :=
        if hit.CellTarget? && st.cur.CellTarget? && hit.cell.row == st.cur.cell.row && hit.cell.line == st.cur.cell.line
        then CellClick(hit.cell)
        else if SameTarget(hit, st.cur) then MergeClick(hit.merge)
        else NoClick;
      Step(st, click, PassedOn)
    else Step(st, NoClick, PassedOn)
  }

  /** A move beyond the slop on both axes from the press point. */
  predicate Beyond(st: Gesture, x: real, y: real, slop: real) {
    Abs(x - st.downX) > slop && Abs(y - st.downY) > slop
  }

  /** The gesture after a run of move events (with a listener set). */
  function AfterMoves(st: Gesture, moves: seq<(real, real)>, slop: real): Gesture
    decreases |moves|
  {
    if |moves| == 0 then st
    else AfterMoves(TouchStep(st, true, ACTION_MOVE, moves[0].0, moves[0].1, NoTarget, slop).gesture,
                    moves[1..], slop)
  }

  /**
   * Moves never change the press point, and they forget the press target
   * exactly when one of them leaves the slop on both axes.
   */
  lemma {:induction false} MovesForgetOnlyOnDrag(st: Gesture, moves: seq<(real, real)>, slop: real)
    decreases |moves|
    ensures var g := AfterMoves(st, moves, slop);
            && g.downX == st.downX && g.downY == st.downY
            && g.cur == (if exists i :: 0 <= i < |moves| && Beyond(st, moves[i].0, moves[i].1, slop)
                         then NoTarget else st.cur)
  {
    if |moves| > 0 {
      var next := TouchStep(st, true, ACTION_MOVE, moves[0].0, moves[0].1, NoTarget, slop).gesture;
      MovesForgetOnlyOnDrag(next, moves[1..], slop);
      assert next.downX == st.downX && next.downY == st.downY;
      if Beyond(st, moves[0].0, moves[0].1, slop) {
        assert next.cur == NoTarget;
      } else {
        assert next == st;
        forall i | 0 < i < |moves| ensures moves[i] == moves[1..][i - 1] { }
        if exists i :: 0 <= i < |moves| && Beyond(st, moves[i].0, moves[i].1, slop) {
          var i :| 0 <= i < |moves| && Beyond(st, moves[i].0, moves[i].1, slop);
          assert moves[1..][i - 1] == moves[i];
        }
      }
    }
  }

  /**
   * Press on a cell, move around without ever leaving the slop on both axes,
   * release on the same row and line: onCellClick fires with the released-on cell.
   */
  lemma SteadyTapClicksCell(st: Gesture, a: CellInfo, b: CellInfo, x0: real, y0: real,
                            moves: seq<(real, real)>, x1: real, y1: real, slop: real)
    requires a.row == b.row && a.line == b.line
    requires forall i :: 0 <= i < |moves| ==> !(Abs(moves[i].0 - x0) > slop && Abs(moves[i].1 - y0) > slop)
    ensures var pressed := TouchStep(st, true, ACTION_DOWN, x0, y0, CellTarget(a), slop).gesture;
            TouchStep(AfterMoves(pressed, moves, slop), true, ACTION_UP, x1, y1, CellTarget(b), slop).click
              == CellClick(b)
  {
    var pressed := TouchStep(st, true, ACTION_DOWN, x0, y0, CellTarget(a), slop).gesture;
    MovesForgetOnlyOnDrag(pressed, moves, slop);
  }

  /**
   * Press, drag beyond the slop on both axes at some point, release anywhere:
   * no click fires, even back on the pressed cell or merge.
   */
  lemma DragCancelsTap(st: Gesture, a: Target, x0: real, y0: real,
                       moves: seq<(real, real)>, k: nat, x1: real, y1: real, hit: Target, slop: real)
    requires k < |moves| && Abs(moves[k].0 - x0) > slop && Abs(moves[k].1 - y0) > slop
    ensures var pressed := TouchStep(st, true, ACTION_DOWN, x0, y0, a, slop).gesture;
            TouchStep(AfterMoves(pressed, moves, slop), true, ACTION_UP, x1, y1, hit, slop).click == NoClick
  {
    var pressed := TouchStep(st, true, ACTION_DOWN, x0, y0, a, slop).gesture;
    MovesForgetOnlyOnDrag(pressed, moves, slop);
    assert Beyond(pressed, moves[k].0, moves[k].1, slop);
  }

  /**
   * The source cancels only when both axes leave the slop: a purely horizontal
   * drag far past the slop, released back on the pressed cell, still clicks.
   */
  lemma HorizontalDragStillClicks(st: Gesture, a: CellInfo, slop: real)
    requires slop >= 0.0
    ensures var pressed := TouchStep(st, true, ACTION_DOWN, 0.0, 0.0, CellTarget(a), slop).gesture;
            var dragged := AfterMoves(pressed, [(slop + 100.0, 0.0)], slop);
            TouchStep(dragged, true, ACTION_UP, 0.0, 0.0, CellTarget(a), slop).click == CellClick(a)
  {
    var pressed := TouchStep(st, true, ACTION_DOWN, 0.0, 0.0, CellTarget(a), slop).gesture;
    MovesForgetOnlyOnDrag(pressed, [(slop + 100.0, 0.0)], slop);
  }
}
