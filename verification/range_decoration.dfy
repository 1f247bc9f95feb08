/**
 * RangeDecoration: highlights a half-open run [start, end) of a list of cells
 * with a pill shape (a circle for one cell, otherwise a start cap, bands and an
 * end cap), and can recolour the text of exactly those cells.
 */
module Ranges {
  import opened Records
  import opened Sizing
  import opened Table

  /** isIllegal(): the range is usable only when it is a non-empty window inside the list. */
  predicate Illegal(start: int, end: int, cells: Option<seq<CellInfo>>) {
    start < 0 || end < 0 || start >= end || cells.None? || end > |cells.value|
  }

  predicate IsIndex(cells: seq<CellInfo>, i: int) {
    0 <= i < |cells|
  }

  /** A legal range is exactly a non-empty run of valid indices of a present list. */
  lemma LegalIffIndexWindow(start: int, end: int, cells: Option<seq<CellInfo>>)
    ensures !Illegal(start, end, cells) <==>
              cells.Some? && start < end && forall i :: start <= i < end ==> IsIndex(cells.value, i)
  {
    if cells.Some? && start < end && forall i :: start <= i < end ==> IsIndex(cells.value, i) {
      assert IsIndex(cells.value, start);
      assert IsIndex(cells.value, end - 1);
    }
  }

  /** A cell whose scalar textColor is set to `color`, every other field kept. */
  function WithTextColor(c: CellInfo, color: int): (r: CellInfo)
    ensures r.text.textColor == color
    ensures r.(text := c.text) == c && r.text.(textColor := c.text.textColor) == c.text
  {
    c.(text := c.text.(textColor := color))
  }

  /** The list after the recolouring loop has visited indices from..to-1. */
  function RecolorRange(cells: seq<CellInfo>, from: int, to: int, color: int): seq<CellInfo> {
    seq(|cells|, i requires 0 <= i < |cells| => if from <= i < to then WithTextColor(cells[i], color) else cells[i])
  }

  /** Recolouring touches exactly the cells of the range, and only their scalar text colour. */
  lemma RecolorRangeExact(cells: seq<CellInfo>, from: int, to: int, color: int)
    ensures |RecolorRange(cells, from, to, color)| == |cells|
    ensures forall i :: 0 <= i < |cells| && from <= i < to ==>
              RecolorRange(cells, from, to, color)[i].text.textColor == color &&
              RecolorRange(cells, from, to, color)[i].(text := cells[i].text) == cells[i]
    ensures forall i :: 0 <= i < |cells| && !(from <= i < to) ==> RecolorRange(cells, from, to, color)[i] == cells[i]
  {
  }

  /** Recolouring twice with the same colour is recolouring once. */
  lemma RecolorIdempotent(cells: seq<CellInfo>, from: int, to: int, color: int)
    ensures RecolorRange(RecolorRange(cells, from, to, color), from, to, color) == RecolorRange(cells, from, to, color)
  {
  }

  /** Recolouring keeps every cell's position, so the list stays fit for updateData. */
  lemma RecolorKeepsIndexSafe(cells: seq<CellInfo>, from: int, to: int, color: int, rows: int, lines: int)
    requires IndexSafe(cells, rows, lines)
    ensures IndexSafe(RecolorRange(cells, from, to, color), rows, lines)
  {
    var r := RecolorRange(cells, from, to, color);
    forall i | 0 <= i < |r| && InTable(r[i], rows, lines)
      ensures r[i].row >= 0 && r[i].line >= 0
    {
      assert r[i].row == cells[i].row && r[i].line == cells[i].line;
    }
  }

  /** What draw() paints for one index: circle, left cap, band or right cap (sizes in pixels). */
  datatype Shape =
    | Circle(cx: real, cy: real, radius: real)
    /** Left semicircle around the centre, closed by the cell's right edge. */
    | StartCap(cx: real, cy: real, radius: real, right: real)
    /** Right semicircle around the centre, closed by the cell's left edge. */
    | EndCap(left: real, cx: real, cy: real, radius: real)
    | Band(left: real, top: real, right: real, bottom: real)
  {
    function Left(): real {
      match this
      case Circle(cx, _, r) => cx - r
      case StartCap(cx, _, r, _) => cx - r
      case EndCap(left, _, _, _) => left
      case Band(left, _, _, _) => left
    }
    function Right(): real {
      match this
      case Circle(cx, _, r) => cx + r
      case StartCap(_, _, _, right) => right
      case EndCap(_, cx, _, r) => cx + r
      case Band(_, _, right, _) => right
    }
    function Top(): real {
      match this
      case Circle(_, cy, r) => cy - r
      case StartCap(_, cy, r, _) => cy - r
      case EndCap(_, _, cy, r) => cy - r
      case Band(_, top, _, _) => top
    }
    function Bottom(): real {
      match this
      case Circle(_, cy, r) => cy + r
      case StartCap(_, cy, r, _) => cy + r
      case EndCap(_, _, cy, r) => cy + r
      case Band(_, _, _, bottom) => bottom
    }
  }

  function CenterX(c: CellInfo): real { c.startX + c.width / 2.0 }
  function CenterY(c: CellInfo): real { c.startY + c.height / 2.0 }

  /** The shape draw() paints for index i of the legal range [start, end). */
  function ShapeAt(cells: seq<CellInfo>, start: int, end: int, i: int, radius: real): Shape
    requires 0 <= start <= i < end <= |cells|
  {
    var c := cells[i];
    if start == end - 1 then Circle(CenterX(c), CenterY(c), radius)
    else if i == start then StartCap(CenterX(c), CenterY(c), radius, c.startX + c.width)
    else if i == end - 1 then EndCap(c.startX, CenterX(c), CenterY(c), radius)
    else Band(c.startX, CenterY(c) - radius, c.startX + c.width, CenterY(c) + radius)
  }

  /** One circle for a one-cell range; otherwise a start cap first, an end cap last and bands between. */
  lemma ShapeKinds(cells: seq<CellInfo>, start: int, end: int, i: int, radius: real)
    requires 0 <= start <= i < end <= |cells|
    ensures ShapeAt(cells, start, end, i, radius).Circle? <==> end - start == 1
    ensures ShapeAt(cells, start, end, i, radius).StartCap? <==> end - start > 1 && i == start
    ensures ShapeAt(cells, start, end, i, radius).EndCap? <==> end - start > 1 && i == end - 1
    ensures ShapeAt(cells, start, end, i, radius).Band? <==> start < i < end - 1
  {
  }

  /** Every shape is 2*radius tall and centred vertically on its own cell. */
  lemma ShapeHeight(cells: seq<CellInfo>, start: int, end: int, i: int, radius: real)
    requires 0 <= start <= i < end <= |cells|
    ensures ShapeAt(cells, start, end, i, radius).Top() == CenterY(cells[i]) - radius
    ensures ShapeAt(cells, start, end, i, radius).Bottom() == CenterY(cells[i]) + radius
  {
  }

  /** Cells i..j-1 lie side by side in one row: same top and height, each starting where the previous ends. */
  predicate SideBySide(cells: seq<CellInfo>, i: int, j: int)
    requires 0 <= i <= j <= |cells|
  {
    forall k :: i <= k < j - 1 ==>
      cells[k + 1].startX == cells[k].startX + cells[k].width &&
      cells[k + 1].startY == cells[k].startY && cells[k + 1].height == cells[k].height
  }

  /**
   * Over cells laid side by side, the shapes of a multi-cell range join into one
   * strip: each shape ends where the next begins, all share top and bottom, and the
   * strip runs from radius left of the first centre to radius right of the last.
   */
  lemma {:induction false} ShapesFormStrip(cells: seq<CellInfo>, start: int, end: int, radius: real)
    requires 0 <= start && start + 1 < end <= |cells| && SideBySide(cells, start, end)
    ensures forall i :: start <= i < end - 1 ==>
              ShapeAt(cells, start, end, i, radius).Right() == ShapeAt(cells, start, end, i + 1, radius).Left()
    ensures forall i :: start <= i < end ==>
              ShapeAt(cells, start, end, i, radius).Top() == ShapeAt(cells, start, end, start, radius).Top() &&
              ShapeAt(cells, start, end, i, radius).Bottom() == ShapeAt(cells, start, end, start, radius).Bottom()
    ensures ShapeAt(cells, start, end, start, radius).Left() == CenterX(cells[start]) - radius
    ensures ShapeAt(cells, start, end, end - 1, radius).Right() == CenterX(cells[end - 1]) + radius
  {
    SameRowFrom(cells, start, end, end - 1);
    forall i | start <= i < end
      ensures ShapeAt(cells, start, end, i, radius).Top() == ShapeAt(cells, start, end, start, radius).Top()
      ensures ShapeAt(cells, start, end, i, radius).Bottom() == ShapeAt(cells, start, end, start, radius).Bottom()
    {
      ShapeHeight(cells, start, end, i, radius);
      ShapeHeight(cells, start, end, start, radius);
    }
  }

  /** Side-by-side cells from `start` up to i share the first one's vertical centre. */
  lemma {:induction false} SameRowFrom(cells: seq<CellInfo>, start: int, end: int, i: int)
    requires 0 <= start <= i < end <= |cells| && SideBySide(cells, start, end)
    ensures forall k :: start <= k <= i ==> CenterY(cells[k]) == CenterY(cells[start])
  {
    if i > start {
      SameRowFrom(cells, start, end, i - 1);
      assert cells[i].startY == cells[i - 1].startY && cells[i].height == cells[i - 1].height;
    }
  }

  class RangeDecoration {
    var start: int
    var end: int
    var radius: real
    var bgColor: int
    /** The decorated list of cells; None stands for a null list. */
    var cellInfos: Option<seq<CellInfo>>

    /** RangeDecoration(start, end, radius, bgColor, cellInfos): stores its arguments unchecked. */
    constructor (start: int, end: int, radius: real, bgColor: int, cellInfos: Option<seq<CellInfo>>)
      ensures this.start == start && this.end == end && this.radius == radius
      ensures this.bgColor == bgColor && this.cellInfos == cellInfos
    {
      this.start := start;
      this.end := end;
      this.radius := radius;
      this.bgColor := bgColor;
      this.cellInfos := cellInfos;
    }

    /** RangeDecoration(radius, bgColor, cellInfos): no range yet, which is an illegal one. */
    constructor Unranged(radius: real, bgColor: int, cellInfos: Option<seq<CellInfo>>)
      ensures start == -1 && end == -1 && this.radius == radius
      ensures this.bgColor == bgColor && this.cellInfos == cellInfos
      ensures Illegal(start, end, this.cellInfos)
    {
      start := -1;
      end := -1;
      this.radius := radius;
      this.bgColor := bgColor;
      this.cellInfos := cellInfos;
    }

    method SetRadius(radius: real)
      modifies this`radius
      ensures this.radius == radius
    {
      this.radius := radius;
    }

    /** setRange stores the bounds as given; an illegal pair simply disables the decoration. */
    method SetRange(start: int, end: int)
      modifies this`start, this`end
      ensures this.start == start && this.end == end
    {
      this.start := start;
      this.end := end;
    }

    /**
     * setRangeTextColor: on a legal range with a table, set textColor on cells
     * start..end-1 and hand the whole list to the table's updateData; otherwise
     * do nothing.
     */
    method SetRangeTextColor(table: EasyTableView?, textColor: int)
      requires table != null && !Illegal(start, end, cellInfos) ==>
                 table.Valid() && IndexSafe(cellInfos.value, table.rows, table.lines)
      modifies this`cellInfos
      modifies if table == null then {} else {table}
      modifies if table == null then {} else {table.cellArr}
      modifies if table == null then {} else {table.widthArr, table.heightArr}
      ensures old(Illegal(start, end, cellInfos)) || table == null ==> cellInfos == old(cellInfos)
      // an illegal range returns before touching the table
      ensures old(Illegal(start, end, cellInfos)) && table != null ==>
                unchanged(table) && unchanged(table.cellArr) && unchanged(table.widthArr) && unchanged(table.heightArr)
      ensures !old(Illegal(start, end, cellInfos)) && table != null ==>
                cellInfos == Some(RecolorRange(old(cellInfos.value), start, end, textColor))
      ensures !old(Illegal(start, end, cellInfos)) && table != null ==>
                && table.Valid() && table.rows == old(table.rows) && table.lines == old(table.lines)
                && table.Config() == old(table.Config()) && table.mergeInfoList == old(table.mergeInfoList)
                && table.gesture == old(table.gesture)
                && table.cellArr == old(table.cellArr) && table.layoutRequested
                && (forall r, l :: 0 <= r < table.rows && 0 <= l < table.lines ==>
                      table.cellArr[r, l] == UpdatedCell(cellInfos.value, r, l, old(table.cellArr[r, l]),
                                                         old(table.defaultTextSize)))
                && table.widthArr == old(table.widthArr)
                && (forall l :: 0 <= l < table.lines ==>
                      table.widthArr[l] == UpdatedWidth(cellInfos.value, table.rows, table.lines, l,
                                                        old(table.widthArr[l]), old(table.outStrokeCorner)))
                && table.heightArr == old(table.heightArr)
                && (forall r :: 0 <= r < table.rows ==>
                      table.heightArr[r] == UpdatedHeight(cellInfos.value, table.rows, table.lines, r,
                                                          old(table.heightArr[r]), old(table.outStrokeCorner)))
    {
      if Illegal(start, end, cellInfos) || table == null {
        return;
      }
      ghost var cells := cellInfos.value;
      assert RecolorRange(cells, start, start, textColor) == cells;
      for i := start to end
        modifies this`cellInfos
        invariant cellInfos == Some(RecolorRange(cells, start, i, textColor))
      {
        cellInfos := Some(cellInfos.value[i := WithTextColor(cellInfos.value[i], textColor)]);
        assert cellInfos.value == RecolorRange(cells, start, i + 1, textColor);
      }
      RecolorKeepsIndexSafe(cells, start, end, textColor, table.rows, table.lines);
      table.UpdateData(cellInfos.value);
    }

    /** draw: nothing on an illegal range, else one shape per index of [start, end), in order. */
    method Draw() returns (shapes: seq<Shape>)
      ensures Illegal(start, end, cellInfos) ==> shapes == []
      ensures !Illegal(start, end, cellInfos) ==>
                |shapes| == end - start &&
                forall k :: 0 <= k < |shapes| ==> shapes[k] == ShapeAt(cellInfos.value, start, end, start + k, radius)
    {
      if Illegal(start, end, cellInfos) {
        return [];
      }
      var cells := cellInfos.value;
      if start == end - 1 {
        var c := cells[start];
        return [Circle(c.startX + c.width / 2.0, c.startY + c.height / 2.0, radius)];
      }
      shapes := [];
      for i := start to end
        invariant |shapes| == i - start
        invariant forall k :: 0 <= k < |shapes| ==> shapes[k] == ShapeAt(cells, start, end, start + k, radius)
      {
        var c := cells[i];
        var cy := c.startY + c.height / 2.0;
        if i == start {
          shapes := shapes + [StartCap(c.startX + c.width / 2.0, cy, radius, c.startX + c.width)];
        } else if i == end - 1 {
          shapes := shapes + [EndCap(c.startX, c.startX + c.width / 2.0, cy, radius)];
        } else {
          shapes := shapes + [Band(c.startX, cy - radius, c.startX + c.width, cy + radius)];
        }
      }
    }
  }
}
