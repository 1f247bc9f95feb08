/**
 * CalendarCheckDecoration: draws a check mark in the cell last tapped, and
 * refuses to re-check a cell at the position that is already checked.
 */
module CalendarCheck {
  import opened Records

  /** android.graphics.Color.GREEN as a signed 32-bit ARGB value (0xFF00FF00). */
  const GREEN: int := -16711936

  datatype Point = Point(x: real, y: real)

  /** The three vertices of the check mark drawn in cell c, in drawing order. */
  function CheckMark(c: CellInfo): (p: seq<Point>)
    ensures |p| == 3
  {
    [Point(c.startX + c.width / 4.0, c.startY + 2.0 * c.height / 3.0),
     Point(c.startX + c.width / 2.0, c.startY + 4.0 * c.height / 5.0),
     Point(c.startX + 3.0 * c.width / 4.0, c.startY + c.height / 5.0)]
  }

  /** isCellEqualed: both cells present and at the same row and line (not the same object). */
  predicate SameCell(cur: Option<CellInfo>, c: Option<CellInfo>) {
    cur.Some? && c.Some? && cur.value.row == c.value.row && cur.value.line == c.value.line
  }

  /** The checked cell and the path after setCheckedCell(c), from the checked cell before it. */
  function Tap(cur: Option<CellInfo>, c: Option<CellInfo>): (Option<CellInfo>, seq<Point>) {
    if c.None? || SameCell(cur, c) then (cur, []) else (c, CheckMark(c.value))
  }

  /** The mark lies inside the cell's rectangle, and is a "V": it goes down-right, then up-right above its start. */
  lemma CheckMarkInsideCell(c: CellInfo)
    requires c.width > 0.0 && c.height > 0.0
    ensures forall i :: 0 <= i < 3 ==>
              c.startX < CheckMark(c)[i].x < c.startX + c.width &&
              c.startY < CheckMark(c)[i].y < c.startY + c.height
    ensures CheckMark(c)[0].x < CheckMark(c)[1].x < CheckMark(c)[2].x
    ensures CheckMark(c)[2].y < CheckMark(c)[0].y < CheckMark(c)[1].y
  {
    var p := CheckMark(c);
    assert c.width / 4.0 < c.width / 2.0 < 3.0 * c.width / 4.0 < c.width;
    assert c.height / 5.0 < 2.0 * c.height / 3.0 < 4.0 * c.height / 5.0 < c.height;
  }

  /** A tap draws a mark exactly when it names a cell at another position than the checked one. */
  lemma TapDrawsIffNewPosition(cur: Option<CellInfo>, c: Option<CellInfo>)
    ensures |Tap(cur, c).1| > 0 <==> c.Some? && !SameCell(cur, c)
    ensures |Tap(cur, c).1| > 0 ==> Tap(cur, c).0 == c && Tap(cur, c).1 == CheckMark(c.value)
    ensures |Tap(cur, c).1| == 0 ==> Tap(cur, c).0 == cur
  {
  }

  /** Tapping the same cell again never re-checks it: the second tap draws nothing and keeps the state. */
  lemma RepeatedTapNeverRechecks(cur: Option<CellInfo>, c: Option<CellInfo>)
    ensures Tap(Tap(cur, c).0, c).1 == []
    ensures Tap(Tap(cur, c).0, c).0 == Tap(cur, c).0
  {
  }

  /** Alternating taps on cells at two different positions check each of them in turn. */
  lemma AlternatingTapsRecheck(a: CellInfo, b: CellInfo)
    requires a.row != b.row || a.line != b.line
    ensures Tap(Tap(Some(a), Some(b)).0, Some(a)) == (Some(a), CheckMark(a))
  {
  }

  class CalendarCheckDecoration {
    var strokeWidth: real
    var color: int
    /** The cell last checked; None until the first accepted tap. */
    var curCheckedCell: Option<CellInfo>
    /** The check-mark path: empty, or the vertices moved to and lined to. */
    var path: seq<Point>

    /** CalendarCheckDecoration(strokeWidth, color): nothing checked, empty path. */
    constructor (strokeWidth: real, color: int)
      ensures this.strokeWidth == strokeWidth && this.color == color
      ensures curCheckedCell.None? && path == []
    {
      this.strokeWidth := strokeWidth;
      this.color := color;
      curCheckedCell := None;
      path := [];
    }

    /** CalendarCheckDecoration(): a green mark 10 pixels wide. */
    constructor Default()
      ensures strokeWidth == 10.0 && color == GREEN
      ensures curCheckedCell.None? && path == []
    {
      strokeWidth := 10.0;
      color := GREEN;
      curCheckedCell := None;
      path := [];
    }

    /**
     * setCheckedCell: the path is always cleared first; a null cell or one at
     * the checked position leaves it empty, any other cell becomes the checked
     * one with its mark as the path.
     */
    method SetCheckedCell(checkedCell: Option<CellInfo>)
      modifies this`curCheckedCell, this`path
      ensures (curCheckedCell, path) == Tap(old(curCheckedCell), checkedCell)
    {
      path := [];
      if checkedCell.None? {
        return;
      }
      if SameCell(curCheckedCell, checkedCell) {
        return;
      }
      curCheckedCell := checkedCell;
      var c := checkedCell.value;
      path := path + [Point(c.startX + c.width / 4.0, c.startY + 2.0 * c.height / 3.0)];
      path := path + [Point(c.startX + c.width / 2.0, c.startY + 4.0 * c.height / 5.0)];
      path := path + [Point(c.startX + 3.0 * c.width / 4.0, c.startY + c.height / 5.0)];
      assert path == CheckMark(c);
    }

    /** draw: the path is painted only when it is not empty. */
    method Draw() returns (drawn: Option<seq<Point>>)
      ensures drawn.Some? <==> |path| > 0
      ensures drawn.Some? ==> drawn.value == path
    {
      if |path| > 0 {
        drawn := Some(path);
      } else {
        drawn := None;
      }
    }
  }
}
