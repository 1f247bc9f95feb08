/**
 * The table widget's state and its operations: a rows x lines grid of cell
 * records, the per-column widths and per-row heights, the list of merged
 * regions, and the press target of the tap gesture.
 */
module Table {
  import opened Records
  import opened GridOps
  import opened Layout
  import opened Sizing
  import opened HitTest
  import opened Corners
  import opened Mutations

  const MODE_NORMAL := 0
  const MODE_FIX_WIDTH := 1
  const MODE_FIX_HEIGHT := 2
  const MODE_FIX_WIDTH_HEIGHT := 3

  predicate FixesWidth(mode: int) { mode == MODE_FIX_WIDTH || mode == MODE_FIX_WIDTH_HEIGHT }
  predicate FixesHeight(mode: int) { mode == MODE_FIX_HEIGHT || mode == MODE_FIX_WIDTH_HEIGHT }

  /** The scalar configuration of a table, which only its setters change. */
  datatype Settings = Settings(bgColor: int, outStrokeCorner: real, mode: int, touchSlop: real,
                               defaultTextSize: int, bgLeft: real, bgTop: real, bgRight: real, bgBottom: real,
                               hasListener: bool)

  /**
   * Every cell that setData will measure has a text size for each of its
   * lines (otherwise the source fails with an index error while measuring).
   */
  ghost predicate LoadMeasurable(list: seq<CellInfo>, rows: int, lines: int, mode: int, defaultSize: int)
    requires defaultSize != UNSET_TEXT_SIZE
  {
    forall r, l :: 0 <= r < rows && 0 <= l < lines ==>
      && (!FixesWidth(mode) ==> WidthMeasurable(LoadedCell(list, r, l, defaultSize)))
      && (!FixesHeight(mode) ==> HeightMeasurable(LoadedCell(list, r, l, defaultSize)))
  }

  /** Arrays.copyOf(a[src], lines) stored as row `dst` of t. */
  method CopyRow(a: array2<CellInfo>, src: int, t: array2<CellInfo>, dst: int)
    requires a != t && 0 <= src < a.Length0 && 0 <= dst < t.Length0 && a.Length1 == t.Length1
    modifies t
    ensures forall l :: 0 <= l < t.Length1 ==> t[dst, l] == a[src, l]
    ensures forall i, l :: 0 <= i < t.Length0 && i != dst && 0 <= l < t.Length1 ==> t[i, l] == old(t[i, l])
  {
    for l := 0 to t.Length1
      invariant forall j :: 0 <= j < l ==> t[dst, j] == a[src, j]
      invariant forall i, j :: 0 <= i < t.Length0 && i != dst && 0 <= j < t.Length1 ==> t[i, j] == old(t[i, j])
    {
      t[dst, l] := a[src, l];
    }
  }

  /** Row `dst` of t filled with x (a row of `new CellInfo()`). */
  method FillRow(t: array2<CellInfo>, dst: int, x: CellInfo)
    requires 0 <= dst < t.Length0
    modifies t
    ensures forall l :: 0 <= l < t.Length1 ==> t[dst, l] == x
    ensures forall i, l :: 0 <= i < t.Length0 && i != dst && 0 <= l < t.Length1 ==> t[i, l] == old(t[i, l])
  {
    for l := 0 to t.Length1
      invariant forall j :: 0 <= j < l ==> t[dst, j] == x
      invariant forall i, j :: 0 <= i < t.Length0 && i != dst && 0 <= j < t.Length1 ==> t[i, j] == old(t[i, j])
    {
      t[dst, l] := x;
    }
  }

  /** The three copy loops of addNewRows: rows up to `at`, k fresh rows, then the rest shifted down. */
  method CopyInsertingRows(a: array2<CellInfo>, at: int, k: nat) returns (t: array2<CellInfo>)
    requires -1 <= at < a.Length0
    ensures fresh(t) && t.Length0 == a.Length0 + k && t.Length1 == a.Length1
    ensures GridOf(t) == InsertAt(GridOf(a), at, k, Repeat(NewCell(), a.Length1))
  {
    var n, m := a.Length0, a.Length1;
    ghost var G := InsertAt(GridOf(a), at, k, Repeat(NewCell(), m));
    assert Rectangular(G, m) by {
      forall i | 0 <= i < |G| ensures |G[i]| == m {
        if i <= at { assert G[i] == GridOf(a)[i]; } else if i > at + k { assert G[i] == GridOf(a)[i - k]; }
      }
    }
    t := new CellInfo[n + k, m];
    for r := 0 to at + 1
      invariant forall i, l :: 0 <= i < r && 0 <= l < m ==> t[i, l] == G[i][l]
    {
      CopyRow(a, r, t, r);
    }
    for r := at + 1 to at + k + 1
      invariant forall i, l :: 0 <= i < r && 0 <= l < m ==> t[i, l] == G[i][l]
    {
      FillRow(t, r, NewCell());
    }
    for r := at + k + 1 to n + k
      invariant forall i, l :: 0 <= i < r && 0 <= l < m ==> t[i, l] == G[i][l]
    {
      CopyRow(a, r - k, t, r);
    }
    GridExt(GridOf(t), G, m);
  }

  /** A new rows x lines cell array holding a fresh cell everywhere. */
  method FreshGrid(n: nat, m: nat) returns (a: array2<CellInfo>)
    ensures fresh(a) && a.Length0 == n && a.Length1 == m
    ensures forall r, l :: 0 <= r < n && 0 <= l < m ==> a[r, l] == NewCell()
  {
    a := new CellInfo[n, m];
    for r := 0 to n
      invariant forall i, l :: 0 <= i < r && 0 <= l < m ==> a[i, l] == NewCell()
    {
      FillRow(a, r, NewCell());
    }
  }

  /** A new size array of n zeros (Java's default float value). */
  method ZeroSizes(n: nat) returns (s: array<real>)
    ensures fresh(s) && s[..] == Repeat(0.0, n)
  {
    s := new real[n](_ => 0.0);
  }

  /** The size half of addNewRows / addNewLines: sizes up to `at`, k copies of x, then the rest. */
  method CopyInserting(s: array<real>, at: int, k: nat, x: real) returns (t: array<real>)
    requires -1 <= at < s.Length
    ensures fresh(t) && t[..] == InsertAt(s[..], at, k, x)
  {
    t := new real[s.Length + k];
    for i := 0 to at + 1
      invariant forall j :: 0 <= j < i ==> t[j] == s[j]
    {
      t[i] := s[i];
    }
    for i := at + 1 to at + k + 1
      invariant forall j :: 0 <= j <= at ==> t[j] == s[j]
      invariant forall j :: at < j < i ==> t[j] == x
    {
      t[i] := x;
    }
    for i := at + k + 1 to s.Length + k
      invariant forall j :: 0 <= j <= at ==> t[j] == s[j]
      invariant forall j :: at < j <= at + k ==> t[j] == x
      invariant forall j :: at + k < j < i ==> t[j] == s[j - k]
    {
      t[i] := s[i - k];
    }
  }

  /** The two copy loops of removeRows: rows before `start`, then rows after `end` shifted up. */
  method CopyRemovingRows(a: array2<CellInfo>, start: int, end: int) returns (t: array2<CellInfo>)
    requires 0 <= start <= end < a.Length0
    ensures fresh(t) && t.Length0 == a.Length0 - (end - start + 1) && t.Length1 == a.Length1
    ensures GridOf(t) == RemoveSpan(GridOf(a), start, end)
  {
    var n, m, d := a.Length0, a.Length1, end - start + 1;
    ghost var G := RemoveSpan(GridOf(a), start, end);
    assert Rectangular(G, m) by {
      forall i | 0 <= i < |G| ensures |G[i]| == m {
        if i < start { assert G[i] == GridOf(a)[i]; } else { assert G[i] == GridOf(a)[i + d]; }
      }
    }
    t := new CellInfo[n - d, m];
    for r := 0 to start
      invariant forall i, l :: 0 <= i < r && 0 <= l < m ==> t[i, l] == G[i][l]
    {
      CopyRow(a, r, t, r);
    }
    for r := start to n - d
      invariant forall i, l :: 0 <= i < r && 0 <= l < m ==> t[i, l] == G[i][l]
    {
      CopyRow(a, r + d, t, r);
    }
    GridExt(GridOf(t), G, m);
  }

  /** The size half of removeRows / removeLines, before the sole-survivor floor. */
  method CopyRemoving(s: array<real>, start: int, end: int) returns (t: array<real>)
    requires 0 <= start <= end < s.Length
    ensures fresh(t) && t[..] == RemoveSpan(s[..], start, end)
  {
    var d := end - start + 1;
    t := new real[s.Length - d];
    for i := 0 to start
      invariant forall j :: 0 <= j < i ==> t[j] == s[j]
    {
      t[i] := s[i];
    }
    for i := end + 1 to s.Length
      invariant forall j :: 0 <= j < start ==> t[j] == s[j]
      invariant forall j :: start <= j < i - d ==> t[j] == s[j + d]
    {
      t[i - d] := s[i];
    }
  }

  /** The sizes of removeRows / removeLines: the copy without the run, then the sole survivor's floor. */
  method CopyRemovingSizes(s: array<real>, start: int, end: int, corner: real) returns (t: array<real>)
    requires RemovalAccepted(start, end, s.Length)
    ensures fresh(t) && t[..] == SizesAfterRemoval(s[..], start, end, corner)
  {
    t := CopyRemoving(s, start, end);
    if t.Length == 1 && t[0] < 2.0 * corner {
      t[0] := 2.0 * corner;
      assert t[..] == [2.0 * corner];
    }
  }

  /** The per-row copy of addNewLines: columns up to `at`, k fresh cells, then the rest shifted right. */
  method CopyInsertingColumns(a: array2<CellInfo>, at: int, k: nat) returns (t: array2<CellInfo>)
    requires -1 <= at < a.Length1
    ensures fresh(t) && t.Length0 == a.Length0 && t.Length1 == a.Length1 + k
    ensures GridOf(t) == InsertColumns(GridOf(a), a.Length1, at, k, NewCell())
  {
    var n, m := a.Length0, a.Length1;
    ghost var G := InsertColumns(GridOf(a), m, at, k, NewCell());
    t := new CellInfo[n, m + k];
    for r := 0 to n
      invariant forall i, l :: 0 <= i < r && 0 <= l < m + k ==> t[i, l] == G[i][l]
    {
      InsertColumnsInRow(a, r, t, at, k);
    }
    GridExt(GridOf(t), G, m + k);
  }

  /** Row r of an insertion of k columns after column `at`. */
  method InsertColumnsInRow(a: array2<CellInfo>, r: int, t: array2<CellInfo>, at: int, k: nat)
    requires a != t && 0 <= r < a.Length0 && a.Length0 == t.Length0
    requires -1 <= at < a.Length1 && t.Length1 == a.Length1 + k
    modifies t
    ensures forall l :: 0 <= l < t.Length1 ==> t[r, l] == InsertAt(GridOf(a)[r], at, k, NewCell())[l]
    ensures forall i, l :: 0 <= i < t.Length0 && i != r && 0 <= l < t.Length1 ==> t[i, l] == old(t[i, l])
  {
    ghost var row := InsertAt(GridOf(a)[r], at, k, NewCell());
    for l := 0 to t.Length1
      invariant forall j :: 0 <= j < l ==> t[r, j] == row[j]
      invariant forall i, j :: 0 <= i < t.Length0 && i != r && 0 <= j < t.Length1 ==> t[i, j] == old(t[i, j])
    {
      t[r, l] := if l <= at then a[r, l] else if l <= at + k then NewCell() else a[r, l - k];
    }
  }

  /** The per-row copy of removeLines: columns before `start`, then columns after `end` shifted left. */
  method CopyRemovingColumns(a: array2<CellInfo>, start: int, end: int) returns (t: array2<CellInfo>)
    requires 0 <= start <= end < a.Length1
    ensures fresh(t) && t.Length0 == a.Length0 && t.Length1 == a.Length1 - (end - start + 1)
    ensures GridOf(t) == RemoveColumns(GridOf(a), a.Length1, start, end)
  {
    var n, m, d := a.Length0, a.Length1, end - start + 1;
    ghost var G := RemoveColumns(GridOf(a), m, start, end);
    t := new CellInfo[n, m - d];
    for r := 0 to n
      invariant forall i, l :: 0 <= i < r && 0 <= l < m - d ==> t[i, l] == G[i][l]
    {
      RemoveColumnsInRow(a, r, t, start, end);
    }
    GridExt(GridOf(t), G, m - d);
  }

  /** Row r of a removal of the columns [start..end]. */
  method RemoveColumnsInRow(a: array2<CellInfo>, r: int, t: array2<CellInfo>, start: int, end: int)
    requires a != t && 0 <= r < a.Length0 && a.Length0 == t.Length0
    requires 0 <= start <= end < a.Length1 && t.Length1 == a.Length1 - (end - start + 1)
    modifies t
    ensures forall l :: 0 <= l < t.Length1 ==> t[r, l] == RemoveSpan(GridOf(a)[r], start, end)[l]
    ensures forall i, l :: 0 <= i < t.Length0 && i != r && 0 <= l < t.Length1 ==> t[i, l] == old(t[i, l])
  {
    var d := end - start + 1;
    ghost var row := RemoveSpan(GridOf(a)[r], start, end);
    for l := 0 to t.Length1
      invariant forall j :: 0 <= j < l ==> t[r, j] == row[j]
      invariant forall i, j :: 0 <= i < t.Length0 && i != r && 0 <= j < t.Length1 ==> t[i, j] == old(t[i, j])
    {
      t[r, l] := if l < start then a[r, l] else a[r, l + d];
    }
  }

  /** The loop of mergeCells: the accepted entries, registered, and whether there was any. */
  method AcceptedMerges(list: seq<MergeInfo>, a: array2<CellInfo>, tableBg: int, defaultSize: int)
    returns (added: seq<MergeInfo>, merged: bool)
    requires defaultSize != UNSET_TEXT_SIZE
    ensures added == AcceptMerges(list, GridOf(a), a.Length1, tableBg, defaultSize)
    ensures merged <==> added != []
    ensures forall j :: 0 <= j < |added| ==> MergeInGrid(added[j], a.Length0, a.Length1)
  {
    ghost var g := GridOf(a);
    added, merged := [], false;
    for i := 0 to |list|
      invariant added == AcceptMerges(list[..i], g, a.Length1, tableBg, defaultSize)
      invariant merged <==> added != []
    {
      var m := list[i];
      assert list[..i + 1][..i] == list[..i];
      if m.startRow > m.endRow || m.startLine > m.endLine || m.startRow < 0 || m.startLine < 0 ||
         m.endRow >= a.Length0 || m.endLine >= a.Length1 {
        continue;
      }
      added := added + [Registered(m, a[m.startRow, m.startLine].bgColor, tableBg, defaultSize)];
      merged := true;
    }
    assert list[..|list|] == list;
  }

  /** The comparisons of setOutStrokeCorner: the least width or height of the four corner cells. */
  method CornerMin(a: array2<CellInfo>) returns (min: real)
    requires a.Length0 >= 1 && a.Length1 >= 1
    ensures min == CornerLimit(GridOf(a), a.Length0, a.Length1)
  {
    min := a[0, 0].width;
    if min > a[0, 0].height {
      min := a[0, 0].height;
    }
    if min > a[0, a.Length1 - 1].width {
      min := a[0, a.Length1 - 1].width;
    }
    if min > a[0, a.Length1 - 1].height {
      min := a[0, a.Length1 - 1].height;
    }
    if min > a[a.Length0 - 1, 0].width {
      min := a[a.Length0 - 1, 0].width;
    }
    if min > a[a.Length0 - 1, 0].height {
      min := a[a.Length0 - 1, 0].height;
    }
    if min > a[a.Length0 - 1, a.Length1 - 1].width {
      min := a[a.Length0 - 1, a.Length1 - 1].width;
    }
    if min > a[a.Length0 - 1, a.Length1 - 1].height {
      min := a[a.Length0 - 1, a.Length1 - 1].height;
    }
  }

  class EasyTableView {
    var rows: int
    var lines: int
    var cellArr: array2<CellInfo>
    var widthArr: array<real>
    var heightArr: array<real>
    var mergeInfoList: seq<MergeInfo>
    var bgColor: int
    var outStrokeCorner: real
    var mode: int
    var touchSlop: real
    /** spToPx(14): the text size filled in when neither textSize nor textSizes is set. */
    var defaultTextSize: int
    /** bgRectF, which onMeasure computes from the view's size and padding. */
    var bgLeft: real
    var bgTop: real
    var bgRight: real
    var bgBottom: real
    /** Whether an OnCellClickListener is set. */
    var hasListener: bool
    /** curTouchCell, downX and downY. */
    var gesture: Gesture
    /** requestLayout()/invalidate() was called. */
    var layoutRequested: bool

    ghost predicate Valid()
      reads this
    {
      && rows >= 1 && lines >= 1
      && cellArr.Length0 == rows && cellArr.Length1 == lines
      && widthArr.Length == lines && heightArr.Length == rows
      && widthArr != heightArr
      && defaultTextSize != UNSET_TEXT_SIZE
    }

    /** The cells as a grid of values. */
    ghost function Grid(): (g: seq<seq<CellInfo>>)
      reads this`cellArr, cellArr
      ensures |g| == cellArr.Length0 && Rectangular(g, cellArr.Length1)
    {
      GridOf(cellArr)
    }

    ghost function Config(): Settings
      reads this
    {
      Settings(bgColor, outStrokeCorner, mode, touchSlop, defaultTextSize, bgLeft, bgTop, bgRight, bgBottom, hasListener)
    }

    /** Every merge lies inside the grid, as initData needs to index its cells. */
    ghost predicate MergesInGrid()
      reads this`mergeInfoList, this`rows, this`lines
    {
      forall i :: 0 <= i < |mergeInfoList| ==> MergeInGrid(mergeInfoList[i], rows, lines)
    }

    /** The attribute-reading constructor followed by resetTableData. */
    constructor (rows0: int, lines0: int, bgColor0: int, corner: real, mode0: int, slop: real, textSize: int)
      requires rows0 >= 1 && lines0 >= 1 && textSize != UNSET_TEXT_SIZE
      ensures Valid() && fresh(cellArr) && fresh(widthArr) && fresh(heightArr)
      ensures rows == rows0 && lines == lines0 && bgColor == bgColor0 && outStrokeCorner == corner
      ensures mode == mode0 && touchSlop == slop && defaultTextSize == textSize
      ensures forall r, l :: 0 <= r < rows && 0 <= l < lines ==> cellArr[r, l] == NewCell()
      ensures widthArr[..] == Repeat(0.0, lines) && heightArr[..] == Repeat(0.0, rows)
      ensures mergeInfoList == [] && !hasListener && gesture == Gesture(NoTarget, 0.0, 0.0)
    {
      rows, lines, bgColor, outStrokeCorner := rows0, lines0, bgColor0, corner;
      mode, touchSlop, defaultTextSize := mode0, slop, textSize;
      bgLeft, bgTop, bgRight, bgBottom := 0.0, 0.0, 0.0, 0.0;
      hasListener, gesture, layoutRequested := false, Gesture(NoTarget, 0.0, 0.0), false;
      cellArr := new CellInfo[0, 0];
      widthArr := new real[0];
      heightArr := new real[0];
      new;
      ResetTableData();
    }

    /** resetTableData: fresh arrays of the current dimensions, every cell fresh, no merges. */
    method ResetTableData()
      requires rows >= 1 && lines >= 1
      modifies this`mergeInfoList, this`widthArr, this`heightArr, this`cellArr
      ensures fresh(cellArr) && fresh(widthArr) && fresh(heightArr) && widthArr != heightArr
      ensures cellArr.Length0 == rows && cellArr.Length1 == lines
      ensures forall r, l :: 0 <= r < rows && 0 <= l < lines ==> cellArr[r, l] == NewCell()
      ensures widthArr[..] == Repeat(0.0, lines) && heightArr[..] == Repeat(0.0, rows)
      ensures mergeInfoList == []
      ensures rows == old(rows) && lines == old(lines) && bgColor == old(bgColor)
      ensures outStrokeCorner == old(outStrokeCorner) && mode == old(mode) && touchSlop == old(touchSlop)
      ensures defaultTextSize == old(defaultTextSize) && hasListener == old(hasListener)
      ensures gesture == old(gesture) && layoutRequested == old(layoutRequested)
      ensures bgLeft == old(bgLeft) && bgTop == old(bgTop) && bgRight == old(bgRight) && bgBottom == old(bgBottom)
    {
      mergeInfoList := [];
      widthArr := ZeroSizes(lines);
      heightArr := ZeroSizes(rows);
      cellArr := FreshGrid(rows, lines);
    }

    /**
     * initData: in the fixed modes every width (height) is first set to the
     * available extent shared evenly, floored to the corner radius; then every
     * cell is placed at the prefix sums of the sizes before it, and every merge
     * at its start cell with the summed extent of its span.
     */
    method InitData()
      requires Valid() && MergesInGrid()
      modifies this, cellArr, widthArr, heightArr
      ensures Valid() && MergesInGrid() && Config() == old(Config())
      ensures rows == old(rows) && lines == old(lines) && cellArr == old(cellArr)
      ensures widthArr == old(widthArr) && heightArr == old(heightArr)
      ensures gesture == old(gesture) && layoutRequested == old(layoutRequested)
      ensures widthArr[..] == if FixesWidth(mode) then Repeat(FixedSize(bgRight - bgLeft, lines, outStrokeCorner), lines)
                              else old(widthArr[..])
      ensures heightArr[..] == if FixesHeight(mode) then Repeat(FixedSize(bgBottom - bgTop, rows, outStrokeCorner), rows)
                               else old(heightArr[..])
      ensures forall r, l :: 0 <= r < rows && 0 <= l < lines ==>
                cellArr[r, l] == LaidOutCell(old(cellArr[r, l]), r, l, widthArr[..], heightArr[..], bgLeft, bgTop)
      ensures |mergeInfoList| == |old(mergeInfoList)|
      ensures forall i :: 0 <= i < |mergeInfoList| ==>
                mergeInfoList[i] == LaidOutMerge(old(mergeInfoList[i]), widthArr[..], heightArr[..], bgLeft, bgTop)
      ensures IsLaidOut(Grid(), widthArr[..], heightArr[..], bgLeft, bgTop)
    {
      ApplyFixedMode();
      PlaceCells();
      PlaceMerges();
      GridOfLaidOut();
    }

    /** The fixed-mode part of initData. */
    method ApplyFixedMode()
      requires Valid()
      modifies widthArr, heightArr
      ensures widthArr[..] == if FixesWidth(mode) then Repeat(FixedSize(bgRight - bgLeft, lines, outStrokeCorner), lines)
                              else old(widthArr[..])
      ensures heightArr[..] == if FixesHeight(mode) then Repeat(FixedSize(bgBottom - bgTop, rows, outStrokeCorner), rows)
                               else old(heightArr[..])
    {
      if FixesWidth(mode) {
        var fixWidth := 1.0 * (bgRight - bgLeft) / (lines as real);
        fixWidth := if fixWidth >= outStrokeCorner then fixWidth else outStrokeCorner;
        for l := 0 to lines
          modifies widthArr
          invariant forall j :: 0 <= j < l ==> widthArr[j] == fixWidth
        {
          widthArr[l] := fixWidth;
        }
      }
      if FixesHeight(mode) {
        var fixHeight := 1.0 * (bgBottom - bgTop) / (rows as real);
        fixHeight := if fixHeight >= outStrokeCorner then fixHeight else outStrokeCorner;
        for r := 0 to rows
          modifies heightArr
          invariant forall j :: 0 <= j < r ==> heightArr[j] == fixHeight
        {
          heightArr[r] := fixHeight;
        }
      }
    }

    /** The cell loop of initData: running origins, row/line indices and sizes written into every cell. */
    method PlaceCells()
      requires Valid()
      modifies cellArr
      ensures forall r, l :: 0 <= r < rows && 0 <= l < lines ==>
                cellArr[r, l] == LaidOutCell(old(cellArr[r, l]), r, l, widthArr[..], heightArr[..], bgLeft, bgTop)
    {
      var startY := bgTop;
      for r := 0 to rows
        invariant startY == bgTop + SumTo(heightArr[..], r)
        invariant forall i, l :: 0 <= i < r && 0 <= l < lines ==>
                    cellArr[i, l] == LaidOutCell(old(cellArr[i, l]), i, l, widthArr[..], heightArr[..], bgLeft, bgTop)
        invariant forall i, l :: r <= i < rows && 0 <= l < lines ==> cellArr[i, l] == old(cellArr[i, l])
      {
        var startX := bgLeft;
        for l := 0 to lines
          invariant startX == bgLeft + SumTo(widthArr[..], l)
          invariant forall i, j :: 0 <= i < r && 0 <= j < lines ==>
                      cellArr[i, j] == LaidOutCell(old(cellArr[i, j]), i, j, widthArr[..], heightArr[..], bgLeft, bgTop)
          invariant forall j :: 0 <= j < l ==>
                      cellArr[r, j] == LaidOutCell(old(cellArr[r, j]), r, j, widthArr[..], heightArr[..], bgLeft, bgTop)
          invariant forall i, j :: r <= i < rows && 0 <= j < lines && (i > r || j >= l) ==> cellArr[i, j] == old(cellArr[i, j])
        {
          cellArr[r, l] := cellArr[r, l].(row := r, line := l, startX := startX, startY := startY,
                                          width := widthArr[l], height := heightArr[r]);
          startX := startX + widthArr[l];
        }
        startY := startY + heightArr[r];
      }
    }

    /** The merge loop of initData; it reads the cells the cell loop has just placed. */
    method PlaceMerges()
      requires Valid() && MergesInGrid()
      requires forall r, l :: 0 <= r < rows && 0 <= l < lines ==>
                 CellLaidOut(cellArr[r, l], r, l, widthArr[..], heightArr[..], bgLeft, bgTop)
      modifies this
      ensures Valid() && MergesInGrid() && Config() == old(Config())
      ensures rows == old(rows) && lines == old(lines) && cellArr == old(cellArr)
      ensures widthArr == old(widthArr) && heightArr == old(heightArr)
      ensures gesture == old(gesture) && layoutRequested == old(layoutRequested)
      ensures |mergeInfoList| == |old(mergeInfoList)|
      ensures forall i :: 0 <= i < |mergeInfoList| ==>
                mergeInfoList[i] == LaidOutMerge(old(mergeInfoList[i]), widthArr[..], heightArr[..], bgLeft, bgTop)
    {
      var laid: seq<MergeInfo> := [];
      for i := 0 to |mergeInfoList|
        modifies {}
        invariant |laid| == i
        invariant forall j :: 0 <= j < i ==> laid[j] == LaidOutMerge(mergeInfoList[j], widthArr[..], heightArr[..], bgLeft, bgTop)
      {
        var m := mergeInfoList[i];
        assert MergeInGrid(m, rows, lines);
        assert CellLaidOut(cellArr[m.startRow, m.startLine], m.startRow, m.startLine, widthArr[..], heightArr[..], bgLeft, bgTop);
        var width, height := MergeExtent(m);
        laid := laid + [m.(startX := cellArr[m.startRow, m.startLine].startX,
                           startY := cellArr[m.startRow, m.startLine].startY,
                           width := width, height := height)];
      }
      mergeInfoList := laid;
    }

    /**
     * The summing loops for one merge: the width restarts on every row and
     * sums that row's cell widths over the span; the height sums the column-0
     * cell heights of the spanned rows.
     */
    method MergeExtent(m: MergeInfo) returns (width: real, height: real)
      requires Valid() && MergeInGrid(m, rows, lines)
      requires forall r, l :: 0 <= r < rows && 0 <= l < lines ==>
                 CellLaidOut(cellArr[r, l], r, l, widthArr[..], heightArr[..], bgLeft, bgTop)
      ensures width == SumRange(widthArr[..], m.startLine, m.endLine + 1)
      ensures height == SumRange(heightArr[..], m.startRow, m.endRow + 1)
    {
      width, height := 0.0, 0.0;
      var r := m.startRow;
      while r <= m.endRow
        invariant m.startRow <= r <= m.endRow + 1
        invariant height == SumRange(heightArr[..], m.startRow, r)
        invariant r > m.startRow ==> width == SumRange(widthArr[..], m.startLine, m.endLine + 1)
      {
        width := 0.0;
        var l := m.startLine;
        while l <= m.endLine
          invariant m.startLine <= l <= m.endLine + 1
          invariant width == SumRange(widthArr[..], m.startLine, l)
        {
          assert CellLaidOut(cellArr[r, l], r, l, widthArr[..], heightArr[..], bgLeft, bgTop);
          width := width + cellArr[r, l].width;
          l := l + 1;
        }
        assert CellLaidOut(cellArr[r, 0], r, 0, widthArr[..], heightArr[..], bgLeft, bgTop);
        height := height + cellArr[r, 0].height;
        r := r + 1;
      }
    }

    /** The pointwise layout of the cells, stated on the grid value. */
    lemma GridOfLaidOut()
      requires Valid()
      requires forall r, l :: 0 <= r < rows && 0 <= l < lines ==>
                 CellLaidOut(cellArr[r, l], r, l, widthArr[..], heightArr[..], bgLeft, bgTop)
      ensures IsLaidOut(Grid(), widthArr[..], heightArr[..], bgLeft, bgTop)
    {
    }

    /** getCellByXY: the first merge in list order containing the point, else the first cell in row-major order, else none. */
    method GetCellByXY(x: real, y: real) returns (t: Target)
      requires Valid()
      ensures t == Resolve(mergeInfoList, Grid(), x, y)
    {
      for i := 0 to |mergeInfoList|
        invariant forall j :: 0 <= j < i ==> !MergeContains(mergeInfoList[j], x, y)
      {
        if MergeContains(mergeInfoList[i], x, y) {
          return MergeTarget(mergeInfoList[i]);
        }
      }
      for r := 0 to rows
        invariant forall a, b :: 0 <= a < r && 0 <= b < lines ==> !CellContains(cellArr[a, b], x, y)
      {
        for l := 0 to lines
          invariant forall a, b :: 0 <= a < r && 0 <= b < lines ==> !CellContains(cellArr[a, b], x, y)
          invariant forall b :: 0 <= b < l ==> !CellContains(cellArr[r, b], x, y)
        {
          if CellContains(cellArr[r, l], x, y) {
            ResolvesToFirstCell(mergeInfoList, Grid(), x, y, r, l);
            return CellTarget(cellArr[r, l]);
          }
        }
      }
      return NoTarget;
    }

    /**
     * onTouchEvent's gesture logic: a press remembers the target under it, a
     * move beyond the slop on both axes forgets it, and a release on the same
     * cell or merge fires the listener (returned as `click`).
     */
    method OnTouchEvent(action: int, x: real, y: real) returns (handled: Handled, click: Click)
      requires Valid()
      modifies this
      ensures var s := TouchStep(old(gesture), hasListener, action, x, y, Resolve(mergeInfoList, Grid(), x, y), touchSlop);
              gesture == s.gesture && click == s.click && handled == s.handled
      ensures Valid() && Config() == old(Config()) && rows == old(rows) && lines == old(lines)
      ensures cellArr == old(cellArr) && widthArr == old(widthArr) && heightArr == old(heightArr)
      ensures mergeInfoList == old(mergeInfoList) && layoutRequested == old(layoutRequested)
    {
      var hit := NoTarget;
      if hasListener && (action == ACTION_DOWN || action == ACTION_UP) {
        hit := GetCellByXY(x, y);
      }
      var s := TouchStep(gesture, hasListener, action, x, y, hit, touchSlop);
      gesture := s.gesture;
      click := s.click;
      handled := s.handled;
    }

    /** setOnCellClickListener, with the listener reduced to whether one is set. */
    method SetOnCellClickListener(present: bool)
      modifies this
      ensures hasListener == present
      ensures Config() == old(Config()).(hasListener := present)
      ensures rows == old(rows) && lines == old(lines) && cellArr == old(cellArr)
      ensures widthArr == old(widthArr) && heightArr == old(heightArr) && mergeInfoList == old(mergeInfoList)
      ensures gesture == old(gesture) && layoutRequested == old(layoutRequested)
    {
      hasListener := present;
    }

    /**
     * setData(list): a no-op for an empty list; otherwise every cell becomes
     * the filled last entry addressed to it (or a fresh cell), the merges are
     * cleared, and every non-fixed column width and row height is recomputed.
     */
    method SetData(list: seq<CellInfo>, measure: (string, int) -> real, lineHeight: int -> real)
      requires Valid() && IndexSafe(list, rows, lines)
      requires LoadMeasurable(list, rows, lines, mode, defaultTextSize)
      modifies this, cellArr, widthArr, heightArr
      ensures Valid() && Config() == old(Config()) && rows == old(rows) && lines == old(lines)
      ensures cellArr == old(cellArr) && widthArr == old(widthArr) && heightArr == old(heightArr)
      ensures gesture == old(gesture)
      ensures |list| == 0 ==> Grid() == old(Grid()) && widthArr[..] == old(widthArr[..]) &&
                              heightArr[..] == old(heightArr[..]) && mergeInfoList == old(mergeInfoList) &&
                              layoutRequested == old(layoutRequested)
      ensures |list| > 0 ==> mergeInfoList == [] && layoutRequested
      ensures |list| > 0 ==> forall r, l :: 0 <= r < rows && 0 <= l < lines ==>
                cellArr[r, l] == LoadedCell(list, r, l, defaultTextSize)
      ensures |list| > 0 ==> forall l :: 0 <= l < lines ==>
                widthArr[l] == if FixesWidth(mode) then old(widthArr[l])
                               else ColumnWidth(Grid(), l, lines, outStrokeCorner, measure)
      ensures |list| > 0 ==> forall r :: 0 <= r < rows ==>
                heightArr[r] == if FixesHeight(mode) then old(heightArr[r])
                                else RowHeight(Grid(), r, rows, outStrokeCorner, lineHeight)
    {
      if |list| == 0 {
        return;
      }
      LoadCells(list);
      mergeInfoList := [];
      if !FixesWidth(mode) {
        ComputeWidths(measure);
      }
      if !FixesHeight(mode) {
        ComputeHeights(lineHeight);
      }
      layoutRequested := true;
    }

    /** The column loop of setData. */
    method ComputeWidths(measure: (string, int) -> real)
      requires Valid() && forall r, l :: 0 <= r < rows && 0 <= l < lines ==> WidthMeasurable(cellArr[r, l])
      modifies widthArr
      ensures forall l :: 0 <= l < lines ==> widthArr[l] == ColumnWidth(Grid(), l, lines, outStrokeCorner, measure)
    {
      for l := 0 to lines
        invariant forall j :: 0 <= j < l ==> widthArr[j] == ColumnWidth(Grid(), j, lines, outStrokeCorner, measure)
      {
        var w := MeasureColumn(l, measure);
        widthArr[l] := w;
      }
    }

    /** The row loop of setData. */
    method ComputeHeights(lineHeight: int -> real)
      requires Valid() && forall r, l :: 0 <= r < rows && 0 <= l < lines ==> HeightMeasurable(cellArr[r, l])
      modifies heightArr
      ensures forall r :: 0 <= r < rows ==> heightArr[r] == RowHeight(Grid(), r, rows, outStrokeCorner, lineHeight)
    {
      for r := 0 to rows
        invariant forall j :: 0 <= j < r ==> heightArr[j] == RowHeight(Grid(), j, rows, outStrokeCorner, lineHeight)
      {
        var h := MeasureRow(r, lineHeight);
        heightArr[r] := h;
      }
    }

    /** The clearing and loading loops of setData. */
    method LoadCells(list: seq<CellInfo>)
      requires Valid() && IndexSafe(list, rows, lines)
      modifies cellArr
      ensures forall r, l :: 0 <= r < rows && 0 <= l < lines ==> cellArr[r, l] == LoadedCell(list, r, l, defaultTextSize)
    {
      for r := 0 to rows
        invariant forall i, l :: 0 <= i < r && 0 <= l < lines ==> cellArr[i, l] == NewCell()
      {
        for l := 0 to lines
          invariant forall i, j :: 0 <= i < r && 0 <= j < lines ==> cellArr[i, j] == NewCell()
          invariant forall j :: 0 <= j < l ==> cellArr[r, j] == NewCell()
        {
          cellArr[r, l] := NewCell();
        }
      }
      for i := 0 to |list|
        invariant forall r, l :: 0 <= r < rows && 0 <= l < lines ==>
                    cellArr[r, l] == LoadedCell(list[..i], r, l, defaultTextSize)
      {
        assert list[..i + 1][..i] == list[..i];
        var c := list[i];
        if c.row < rows && c.line < lines {
          cellArr[c.row, c.line] := FillCellTextAttrs(c, defaultTextSize);
        }
      }
      assert list[..|list|] == list;
    }

    /** The width scan of one column in setData. */
    method MeasureColumn(l: int, measure: (string, int) -> real) returns (w: real)
      requires Valid() && 0 <= l < lines
      requires forall r :: 0 <= r < rows ==> WidthMeasurable(cellArr[r, l])
      ensures w == ColumnWidth(Grid(), l, lines, outStrokeCorner, measure)
    {
      ghost var g := Grid();
      var maxWidth := 0.0;
      var fixMaxWidth := -1.0;
      for r := 0 to rows
        invariant Scan(maxWidth, fixMaxWidth) == ColumnScan(g, l, r, measure)
      {
        var c := cellArr[r, l];
        assert c == g[r][l];
        if c.text.texts.Some? {
          if c.width < 0.0 {
            maxWidth := WidestLine(c, maxWidth, measure);
          } else if fixMaxWidth < c.width {
            fixMaxWidth := c.width;
          }
        } else if fixMaxWidth < c.width {
          fixMaxWidth := c.width;
        }
      }
      if fixMaxWidth != -1.0 {
        maxWidth := fixMaxWidth;
      }
      if l == 0 || l == lines - 1 {
        maxWidth := if maxWidth >= outStrokeCorner then maxWidth else outStrokeCorner;
      }
      w := maxWidth;
    }

    /** The text-line loop of the width scan. */
    static method WidestLine(c: CellInfo, acc: real, measure: (string, int) -> real) returns (m: real)
      requires c.text.texts.Some? && SizesCoverTexts(c.text)
      ensures m == if |c.text.texts.value| == 0 then acc
                   else LineWidthMax(acc, c.text.texts.value, c.text.textSizes.value, measure, |c.text.texts.value|)
    {
      m := acc;
      var texts := c.text.texts.value;
      for t := 0 to |texts|
        invariant t == 0 ==> m == acc
        invariant t > 0 ==> m == LineWidthMax(acc, texts, c.text.textSizes.value, measure, t)
      {
        var txtWidth := measure(texts[t], c.text.textSizes.value[t]);
        if m < txtWidth {
          m := txtWidth;
        }
      }
    }

    /** The height scan of one row in setData. */
    method MeasureRow(r: int, lineHeight: int -> real) returns (h: real)
      requires Valid() && 0 <= r < rows
      requires forall l :: 0 <= l < lines ==> HeightMeasurable(cellArr[r, l])
      ensures h == RowHeight(Grid(), r, rows, outStrokeCorner, lineHeight)
    {
      var maxHeight := 0.0;
      var fixMaxHeight := -1.0;
      for l := 0 to lines
        invariant Scan(maxHeight, fixMaxHeight) == RowScan(Grid(), r, l, lineHeight)
      {
        var c := cellArr[r, l];
        if c.text.texts.Some? {
          if c.height < 0.0 {
            var tempHeight := 0.0;
            var texts := c.text.texts.value;
            for t := 0 to |texts|
              invariant t > 0 ==> tempHeight == TextHeight(c.text.textSizes.value, lineHeight, t)
              invariant t == 0 ==> tempHeight == 0.0
            {
              tempHeight := tempHeight + lineHeight(c.text.textSizes.value[t]);
            }
            if maxHeight < tempHeight {
              maxHeight := tempHeight;
            }
          } else if fixMaxHeight < c.height {
            fixMaxHeight := c.height;
          }
        } else if fixMaxHeight < c.height {
          fixMaxHeight := c.height;
        }
      }
      if fixMaxHeight != -1.0 {
        maxHeight := fixMaxHeight;
      }
      if r == 0 || r == rows - 1 {
        maxHeight := if maxHeight >= outStrokeCorner then maxHeight else outStrokeCorner;
      }
      h := maxHeight;
    }

    /** setData(rows, lines, list): new dimensions, resetTableData, then setData(list). */
    method SetDimensions(rows0: int, lines0: int, list: seq<CellInfo>,
                         measure: (string, int) -> real, lineHeight: int -> real)
      requires Valid() && rows0 >= 1 && lines0 >= 1 && IndexSafe(list, rows0, lines0)
      requires LoadMeasurable(list, rows0, lines0, mode, defaultTextSize)
      modifies this
      ensures Valid() && Config() == old(Config()) && gesture == old(gesture)
      ensures rows == rows0 && lines == lines0 && fresh(cellArr) && fresh(widthArr) && fresh(heightArr)
      ensures |list| == 0 ==> mergeInfoList == [] && layoutRequested == old(layoutRequested) &&
                              widthArr[..] == Repeat(0.0, lines) && heightArr[..] == Repeat(0.0, rows) &&
                              forall r, l :: 0 <= r < rows && 0 <= l < lines ==> cellArr[r, l] == NewCell()
      ensures |list| > 0 ==> mergeInfoList == [] && layoutRequested
      ensures |list| > 0 ==> forall r, l :: 0 <= r < rows && 0 <= l < lines ==>
                cellArr[r, l] == LoadedCell(list, r, l, defaultTextSize)
      ensures |list| > 0 ==> forall l :: 0 <= l < lines ==>
                widthArr[l] == if FixesWidth(mode) then 0.0 else ColumnWidth(Grid(), l, lines, outStrokeCorner, measure)
      ensures |list| > 0 ==> forall r :: 0 <= r < rows ==>
                heightArr[r] == if FixesHeight(mode) then 0.0 else RowHeight(Grid(), r, rows, outStrokeCorner, lineHeight)
    {
      rows := rows0;
      lines := lines0;
      ResetTableData();
      SetData(list, measure, lineHeight);
    }

    /**
     * updateData: each in-table entry, in order, replaces its cell (filled),
     * and its width and height are stored, floored, for its column and row;
     * a later entry in the same column (row) wins.
     */
    method UpdateData(list: seq<CellInfo>)
      requires Valid() && IndexSafe(list, rows, lines)
      modifies this, cellArr, widthArr, heightArr
      ensures Valid() && Config() == old(Config()) && rows == old(rows) && lines == old(lines)
      ensures cellArr == old(cellArr) && widthArr == old(widthArr) && heightArr == old(heightArr)
      ensures mergeInfoList == old(mergeInfoList) && gesture == old(gesture) && layoutRequested
      ensures forall r, l :: 0 <= r < rows && 0 <= l < lines ==>
                cellArr[r, l] == UpdatedCell(list, r, l, old(cellArr[r, l]), defaultTextSize)
      ensures forall l :: 0 <= l < lines ==>
                widthArr[l] == UpdatedWidth(list, rows, lines, l, old(widthArr[l]), outStrokeCorner)
      ensures forall r :: 0 <= r < rows ==>
                heightArr[r] == UpdatedHeight(list, rows, lines, r, old(heightArr[r]), outStrokeCorner)
    {
      for i := 0 to |list|
        modifies cellArr, widthArr, heightArr
        invariant forall r, l :: 0 <= r < rows && 0 <= l < lines ==>
                    cellArr[r, l] == UpdatedCell(list[..i], r, l, old(cellArr[r, l]), defaultTextSize)
        invariant forall l :: 0 <= l < lines ==>
                    widthArr[l] == UpdatedWidth(list[..i], rows, lines, l, old(widthArr[l]), outStrokeCorner)
        invariant forall r :: 0 <= r < rows ==>
                    heightArr[r] == UpdatedHeight(list[..i], rows, lines, r, old(heightArr[r]), outStrokeCorner)
      {
        assert list[..i + 1][..i] == list[..i];
        UpdateOne(list[i]);
      }
      assert list[..|list|] == list;
      layoutRequested := true;
    }

    /** One iteration of updateData's loop. */
    method UpdateOne(c: CellInfo)
      requires Valid() && (InTable(c, rows, lines) ==> c.row >= 0 && c.line >= 0)
      modifies cellArr, widthArr, heightArr
      ensures forall r, l :: 0 <= r < rows && 0 <= l < lines ==>
                cellArr[r, l] == if (r, l) == (c.row, c.line) then FillCellTextAttrs(c, defaultTextSize) else old(cellArr[r, l])
      ensures forall l :: 0 <= l < lines ==>
                widthArr[l] == if l == c.line && InTable(c, rows, lines) then FloorSize(c.width, l, lines, outStrokeCorner)
                               else old(widthArr[l])
      ensures forall r :: 0 <= r < rows ==>
                heightArr[r] == if r == c.row && InTable(c, rows, lines) then FloorSize(c.height, r, rows, outStrokeCorner)
                                else old(heightArr[r])
    {
      if c.row < rows && c.line < lines {
        cellArr[c.row, c.line] := c;
        var w := c.width;
        if cellArr.Length1 == 1 && c.width < 2.0 * outStrokeCorner {
          w := 2.0 * outStrokeCorner;
        } else if (c.line == 0 || c.line == lines - 1) && c.width < outStrokeCorner {
          w := outStrokeCorner;
        }
        var h := c.height;
        if cellArr.Length0 == 1 && c.height < 2.0 * outStrokeCorner {
          h := 2.0 * outStrokeCorner;
        } else if (c.row == 0 || c.row == rows - 1) && c.height < outStrokeCorner {
          h := outStrokeCorner;
        }
        widthArr[c.line] := w;
        heightArr[c.row] := h;
        cellArr[c.row, c.line] := FillCellTextAttrs(c, defaultTextSize);
      }
    }

    /**
     * addNewRows: `newRows` fresh rows of the given height (20.0 when negative)
     * inserted after the clamped anchor row (before it for ADD_ROWS_TOP).
     * Widths, columns and merges are untouched.
     */
    method AddNewRows(curRow: int, newRows: int, height: real, direction: int) returns (ok: bool)
      requires Valid()
      modifies this
      ensures Valid() && Config() == old(Config()) && gesture == old(gesture) && lines == old(lines)
      ensures widthArr == old(widthArr) && mergeInfoList == old(mergeInfoList)
      ensures ok <==> newRows > 0
      ensures !ok ==> rows == old(rows) && cellArr == old(cellArr) && heightArr == old(heightArr) &&
                      layoutRequested == old(layoutRequested)
      ensures ok ==> rows == old(rows) + newRows && fresh(cellArr) && fresh(heightArr) && layoutRequested
      ensures ok ==> Grid() == InsertAt(old(Grid()), Anchor(curRow, old(rows), direction == ADD_ROWS_TOP),
                                        newRows, Repeat(NewCell(), lines))
      ensures ok ==> heightArr[..] == InsertAt(old(heightArr[..]), Anchor(curRow, old(rows), direction == ADD_ROWS_TOP),
                                               newRows, InsertedSize(height, ADD_ROWS_DEFAULT_HEIGHT))
    {
      if newRows <= 0 {
        return false;
      }
      var cur := curRow;
      if cur < 0 {
        cur := 0;
      }
      if cur >= rows {
        cur := rows - 1;
      }
      if direction == ADD_ROWS_TOP {
        cur := cur - 1;
      }
      var h := height;
      if h < 0.0 {
        h := ADD_ROWS_DEFAULT_HEIGHT;
      }
      assert cur == Anchor(curRow, rows, direction == ADD_ROWS_TOP);
      GrowRows(cur, newRows, h);
      ok := true;
    }

    /** The copy and swap of addNewRows, once the anchor and height are settled. */
    method GrowRows(at: int, k: nat, h: real)
      requires Valid() && -1 <= at < rows
      modifies this
      ensures Valid() && Config() == old(Config()) && gesture == old(gesture) && lines == old(lines)
      ensures widthArr == old(widthArr) && mergeInfoList == old(mergeInfoList)
      ensures rows == old(rows) + k && fresh(cellArr) && fresh(heightArr) && layoutRequested
      ensures Grid() == InsertAt(old(Grid()), at, k, Repeat(NewCell(), lines))
      ensures heightArr[..] == InsertAt(old(heightArr[..]), at, k, h)
    {
      var tCellArr := CopyInsertingRows(cellArr, at, k);
      var tHeightArr := CopyInserting(heightArr, at, k, h);
      rows := rows + k;
      cellArr := tCellArr;
      heightArr := tHeightArr;
      layoutRequested := true;
    }

    /**
     * removeRows: the inclusive run [start..end] of rows and their heights
     * removed, when it is a non-empty run inside the table that leaves a row;
     * a sole surviving row is raised to twice the corner radius.
     */
    method RemoveRows(start: int, end: int) returns (ok: bool)
      requires Valid()
      modifies this
      ensures Valid() && Config() == old(Config()) && gesture == old(gesture) && lines == old(lines)
      ensures widthArr == old(widthArr) && mergeInfoList == old(mergeInfoList)
      ensures ok <==> RemovalAccepted(start, end, old(rows))
      ensures !ok ==> rows == old(rows) && cellArr == old(cellArr) && heightArr == old(heightArr) &&
                      layoutRequested == old(layoutRequested)
      ensures ok ==> rows == old(rows) - (end - start + 1) && fresh(cellArr) && fresh(heightArr) && layoutRequested
      ensures ok ==> Grid() == RemoveSpan(old(Grid()), start, end)
      ensures ok ==> heightArr[..] == SizesAfterRemoval(old(heightArr[..]), start, end, outStrokeCorner)
    {
      var rowsToDel := end - start + 1;
      if rowsToDel <= 0 || rowsToDel >= rows || start < 0 || end >= rows {
        return false;
      }
      ShrinkRows(start, end);
      ok := true;
    }

    /** The copy, floor and swap of removeRows, once the run is accepted. */
    method ShrinkRows(start: int, end: int)
      requires Valid() && RemovalAccepted(start, end, rows)
      modifies this
      ensures Valid() && Config() == old(Config()) && gesture == old(gesture) && lines == old(lines)
      ensures widthArr == old(widthArr) && mergeInfoList == old(mergeInfoList)
      ensures rows == old(rows) - (end - start + 1) && fresh(cellArr) && fresh(heightArr) && layoutRequested
      ensures Grid() == RemoveSpan(old(Grid()), start, end)
      ensures heightArr[..] == SizesAfterRemoval(old(heightArr[..]), start, end, outStrokeCorner)
    {
      var newRows := rows - (end - start + 1);
      var tCellArr := CopyRemovingRows(cellArr, start, end);
      var tHeightArr := CopyRemovingSizes(heightArr, start, end, outStrokeCorner);
      rows := newRows;
      cellArr := tCellArr;
      heightArr := tHeightArr;
      layoutRequested := true;
    }

    /**
     * addNewLines: `newLines` fresh columns of the given width (20.0 when
     * negative) inserted after the clamped anchor column (before it for
     * ADD_LINES_LEFT), in every row. Heights and merges are untouched.
     */
    method AddNewLines(curLine: int, newLines: int, width: real, direction: int) returns (ok: bool)
      requires Valid()
      modifies this
      ensures Valid() && Config() == old(Config()) && gesture == old(gesture) && rows == old(rows)
      ensures heightArr == old(heightArr) && mergeInfoList == old(mergeInfoList)
      ensures ok <==> newLines > 0
      ensures !ok ==> lines == old(lines) && cellArr == old(cellArr) && widthArr == old(widthArr) &&
                      layoutRequested == old(layoutRequested)
      ensures ok ==> lines == old(lines) + newLines && fresh(cellArr) && fresh(widthArr) && layoutRequested
      ensures ok ==> Grid() == InsertColumns(old(Grid()), old(lines), Anchor(curLine, old(lines), direction == ADD_LINES_LEFT),
                                             newLines, NewCell())
      ensures ok ==> widthArr[..] == InsertAt(old(widthArr[..]), Anchor(curLine, old(lines), direction == ADD_LINES_LEFT),
                                              newLines, InsertedSize(width, ADD_LINES_DEFAULT_WIDTH))
    {
      if newLines <= 0 {
        return false;
      }
      var cur := curLine;
      if cur < 0 {
        cur := 0;
      }
      if cur >= lines {
        cur := lines - 1;
      }
      if direction == ADD_LINES_LEFT {
        cur := cur - 1;
      }
      var w := width;
      if w < 0.0 {
        w := ADD_LINES_DEFAULT_WIDTH;
      }
      assert cur == Anchor(curLine, lines, direction == ADD_LINES_LEFT);
      GrowLines(cur, newLines, w);
      ok := true;
    }

    /** The copy and swap of addNewLines, once the anchor and width are settled. */
    method GrowLines(at: int, k: nat, w: real)
      requires Valid() && -1 <= at < lines
      modifies this
      ensures Valid() && Config() == old(Config()) && gesture == old(gesture) && rows == old(rows)
      ensures heightArr == old(heightArr) && mergeInfoList == old(mergeInfoList)
      ensures lines == old(lines) + k && fresh(cellArr) && fresh(widthArr) && layoutRequested
      ensures Grid() == InsertColumns(old(Grid()), old(lines), at, k, NewCell())
      ensures widthArr[..] == InsertAt(old(widthArr[..]), at, k, w)
    {
      var tCellArr := CopyInsertingColumns(cellArr, at, k);
      var tWidthArr := CopyInserting(widthArr, at, k, w);
      lines := lines + k;
      cellArr := tCellArr;
      widthArr := tWidthArr;
      layoutRequested := true;
    }

    /**
     * removeLines: the inclusive run [start..end] of columns and their widths
     * removed from every row, under the same acceptance rule as removeRows; a
     * sole surviving column is widened to twice the corner radius.
     */
    method RemoveLines(start: int, end: int) returns (ok: bool)
      requires Valid()
      modifies this
      ensures Valid() && Config() == old(Config()) && gesture == old(gesture) && rows == old(rows)
      ensures heightArr == old(heightArr) && mergeInfoList == old(mergeInfoList)
      ensures ok <==> RemovalAccepted(start, end, old(lines))
      ensures !ok ==> lines == old(lines) && cellArr == old(cellArr) && widthArr == old(widthArr) &&
                      layoutRequested == old(layoutRequested)
      ensures ok ==> lines == old(lines) - (end - start + 1) && fresh(cellArr) && fresh(widthArr) && layoutRequested
      ensures ok ==> Grid() == RemoveColumns(old(Grid()), old(lines), start, end)
      ensures ok ==> widthArr[..] == SizesAfterRemoval(old(widthArr[..]), start, end, outStrokeCorner)
    {
      var linesToDel := end - start + 1;
      if linesToDel <= 0 || linesToDel >= lines || start < 0 || end >= lines {
        return false;
      }
      ShrinkLines(start, end);
      ok := true;
    }

    /** The copy, floor and swap of removeLines, once the run is accepted. */
    method ShrinkLines(start: int, end: int)
      requires Valid() && RemovalAccepted(start, end, lines)
      modifies this
      ensures Valid() && Config() == old(Config()) && gesture == old(gesture) && rows == old(rows)
      ensures heightArr == old(heightArr) && mergeInfoList == old(mergeInfoList)
      ensures lines == old(lines) - (end - start + 1) && fresh(cellArr) && fresh(widthArr) && layoutRequested
      ensures Grid() == RemoveColumns(old(Grid()), old(lines), start, end)
      ensures widthArr[..] == SizesAfterRemoval(old(widthArr[..]), start, end, outStrokeCorner)
    {
      var newLines := lines - (end - start + 1);
      var tCellArr := CopyRemovingColumns(cellArr, start, end);
      var tWidthArr := CopyRemovingSizes(widthArr, start, end, outStrokeCorner);
      lines := newLines;
      cellArr := tCellArr;
      widthArr := tWidthArr;
      layoutRequested := true;
    }

    /**
     * mergeCells: every merge lying inside the grid is registered (background
     * defaulted, text attributes filled) and appended in input order; the
     * others are skipped. A layout is requested only if one was accepted.
     */
    method MergeCells(list: seq<MergeInfo>)
      requires Valid()
      modifies this
      ensures Valid() && Config() == old(Config()) && gesture == old(gesture)
      ensures rows == old(rows) && lines == old(lines) && cellArr == old(cellArr)
      ensures widthArr == old(widthArr) && heightArr == old(heightArr)
      ensures mergeInfoList == old(mergeInfoList) + AcceptMerges(list, Grid(), lines, bgColor, defaultTextSize)
      ensures layoutRequested == (old(layoutRequested) || AcceptMerges(list, Grid(), lines, bgColor, defaultTextSize) != [])
      ensures old(MergesInGrid()) ==> MergesInGrid()
    {
      if |list| == 0 {
        return;
      }
      var added, merged := AcceptedMerges(list, cellArr, bgColor, defaultTextSize);
      AppendMerges(added, merged);
    }

    /** The registration half of mergeCells: append the accepted merges and request a layout if there were any. */
    method AppendMerges(added: seq<MergeInfo>, merged: bool)
      requires Valid() && forall j :: 0 <= j < |added| ==> MergeInGrid(added[j], rows, lines)
      modifies this`mergeInfoList, this`layoutRequested
      ensures mergeInfoList == old(mergeInfoList) + added
      ensures layoutRequested == (old(layoutRequested) || merged)
      ensures old(MergesInGrid()) ==> MergesInGrid()
    {
      mergeInfoList := mergeInfoList + added;
      if merged {
        layoutRequested := true;
      }
    }

    /**
     * unmergeCells: every registered merge that is one of the given objects is
     * dropped (ArrayList.removeAll); an empty argument changes nothing.
     */
    method UnmergeCells(list: seq<MergeInfo>)
      requires Valid()
      modifies this
      ensures Valid() && Config() == old(Config()) && gesture == old(gesture)
      ensures rows == old(rows) && lines == old(lines) && cellArr == old(cellArr)
      ensures widthArr == old(widthArr) && heightArr == old(heightArr)
      ensures |list| == 0 ==> mergeInfoList == old(mergeInfoList) && layoutRequested == old(layoutRequested)
      ensures |list| > 0 ==> mergeInfoList == Unmerged(old(mergeInfoList), list) && layoutRequested
      ensures old(MergesInGrid()) ==> MergesInGrid()
    {
      if |list| == 0 {
        return;
      }
      mergeInfoList := Unmerged(mergeInfoList, list);
      layoutRequested := true;
      assert forall i :: 0 <= i < |mergeInfoList| ==> mergeInfoList[i] in old(mergeInfoList);
    }

    /**
     * setOutStrokeCorner: the radius is kept when it lies between 0 and the
     * smallest width or height of the four corner cells, and replaced by that
     * smallest size otherwise.
     */
    method SetOutStrokeCorner(corner: real)
      requires Valid()
      modifies this
      ensures Valid() && outStrokeCorner == ClampCorner(corner, CornerLimit(Grid(), rows, lines))
      ensures Config() == old(Config()).(outStrokeCorner := outStrokeCorner)
      ensures rows == old(rows) && lines == old(lines) && cellArr == old(cellArr) && gesture == old(gesture)
      ensures widthArr == old(widthArr) && heightArr == old(heightArr) && mergeInfoList == old(mergeInfoList)
      ensures layoutRequested == old(layoutRequested)
    {
      var min := CornerMin(cellArr);
      if corner < 0.0 || corner > min {
        outStrokeCorner := min;
      } else {
        outStrokeCorner := corner;
      }
    }
  }
}
