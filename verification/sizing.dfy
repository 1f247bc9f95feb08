/**
 * What setData and updateData compute: which record ends up in each cell,
 * the size of every column and row, and the floors applied at the table's
 * boundary so that the rounded outer corners fit.
 */
module Sizing {
  import opened Records
  import opened GridOps

  // ---------------------------------------------------------------------------
  // Which record lands in which cell

  /** The source only checks the upper bounds of an entry's row and line. */
  predicate InTable(c: CellInfo, rows: int, lines: int) {
    c.row < rows && c.line < lines
  }

  /** No entry that passes the upper-bound check has a negative index (that would be an index error). */
  ghost predicate IndexSafe(list: seq<CellInfo>, rows: int, lines: int) {
    forall i :: 0 <= i < |list| && InTable(list[i], rows, lines) ==> list[i].row >= 0 && list[i].line >= 0
  }

  /** The last entry of `list` addressed to cell (r, l): later entries overwrite earlier ones. */
  function LastAt(list: seq<CellInfo>, r: int, l: int): (e: Option<CellInfo>)
    ensures e.Some? ==> exists i :: 0 <= i < |list| && list[i] == e.value
    ensures e.Some? ==> e.value.row == r && e.value.line == l
    ensures e.None? <==> forall i :: 0 <= i < |list| ==> !(list[i].row == r && list[i].line == l)
  {
    if |list| == 0 then None
    else if list[|list| - 1].row == r && list[|list| - 1].line == l then Some(list[|list| - 1])
    else LastAt(list[..|list| - 1], r, l)
  }

  /** The last in-table entry of `list` in column l: the one whose width updateData keeps. */
  function LastInColumn(list: seq<CellInfo>, rows: int, lines: int, l: int): (e: Option<CellInfo>)
    ensures e.Some? ==> exists i :: 0 <= i < |list| && list[i] == e.value
    ensures e.Some? ==> e.value.line == l && InTable(e.value, rows, lines)
    ensures e.None? <==> forall i :: 0 <= i < |list| ==> !(list[i].line == l && InTable(list[i], rows, lines))
  {
    if |list| == 0 then None
    else if list[|list| - 1].line == l && InTable(list[|list| - 1], rows, lines) then Some(list[|list| - 1])
    else LastInColumn(list[..|list| - 1], rows, lines, l)
  }

  /** The last in-table entry of `list` in row r: the one whose height updateData keeps. */
  function LastInRow(list: seq<CellInfo>, rows: int, lines: int, r: int): (e: Option<CellInfo>)
    ensures e.Some? ==> exists i :: 0 <= i < |list| && list[i] == e.value
    ensures e.Some? ==> e.value.row == r && InTable(e.value, rows, lines)
    ensures e.None? <==> forall i :: 0 <= i < |list| ==> !(list[i].row == r && InTable(list[i], rows, lines))
  {
    if |list| == 0 then None
    else if list[|list| - 1].row == r && InTable(list[|list| - 1], rows, lines) then Some(list[|list| - 1])
    else LastInRow(list[..|list| - 1], rows, lines, r)
  }

  /** The cell (r, l) after updateData: the filled last entry addressed to it, else unchanged. */
  function UpdatedCell(list: seq<CellInfo>, r: int, l: int, current: CellInfo, defaultSize: int): CellInfo
    requires defaultSize != UNSET_TEXT_SIZE
  {
    match LastAt(list, r, l)
    case Some(e) => FillCellTextAttrs(e, defaultSize)
    case None => current
  }

  /** Column l's width after updateData: the floored width of its last in-table entry, else unchanged. */
  function UpdatedWidth(list: seq<CellInfo>, rows: int, lines: int, l: int, current: real, corner: real): real {
    match LastInColumn(list, rows, lines, l)
    case Some(e) => FloorSize(e.width, l, lines, corner)
    case None => current
  }

  /** Row r's height after updateData. */
  function UpdatedHeight(list: seq<CellInfo>, rows: int, lines: int, r: int, current: real, corner: real): real {
    match LastInRow(list, rows, lines, r)
    case Some(e) => FloorSize(e.height, r, rows, corner)
    case None => current
  }

  /** The cell (r, l) after a full data load: the filled last entry addressed to it, else a fresh cell. */
  function LoadedCell(list: seq<CellInfo>, r: int, l: int, defaultSize: int): CellInfo
    requires defaultSize != UNSET_TEXT_SIZE
  {
    match LastAt(list, r, l)
    case Some(e) => FillCellTextAttrs(e, defaultSize)
    case None => NewCell()
  }

  /**
   * The floor updateData applies to a stored size: a table with a single
   * column (row) needs room for two corner cuts, otherwise only the first and
   * last index need room for one. Interior sizes are stored verbatim, even the
   * negative "auto" sentinel.
   */
  function FloorSize(v: real, index: int, count: int, corner: real): (r: real)
    ensures count == 1 && corner >= 0.0 ==> r == Max(v, 2.0 * corner)
    // a negative radius makes the two floors disagree: the sole index is
    // raised to the single radius unless it lies below twice the radius
    ensures count == 1 && corner < 0.0 && index == 0 ==>
              r == (if v < 2.0 * corner then 2.0 * corner else Max(v, corner))
    ensures count == 1 && corner < 0.0 && index != 0 ==> r == Max(v, 2.0 * corner)
    ensures count != 1 && (index == 0 || index == count - 1) ==> r == Max(v, corner)
    ensures count != 1 && index != 0 && index != count - 1 ==> r == v
  {
    if count == 1 && v < 2.0 * corner then 2.0 * corner
    else if (index == 0 || index == count - 1) && v < corner then corner
    else v
  }

  // ---------------------------------------------------------------------------
  // Column widths and row heights in setData

  /** A cell takes part in the measured maximum only when it has text and an automatic width. */
  predicate RecordsWidth(c: CellInfo) {
    !(c.text.texts.Some? && c.width < 0.0)
  }

  predicate RecordsHeight(c: CellInfo) {
    !(c.text.texts.Some? && c.height < 0.0)
  }

  /** Every line that will be measured has a text size (otherwise the source fails with an index error). */
  predicate WidthMeasurable(c: CellInfo) {
    !RecordsWidth(c) ==> SizesCoverTexts(c.text)
  }

  predicate HeightMeasurable(c: CellInfo) {
    !RecordsHeight(c) ==> SizesCoverTexts(c.text)
  }

  /** `m` is at least the measured width of every text line of a measured cell. */
  predicate WidthCovers(m: real, c: CellInfo, measure: (string, int) -> real) {
    !RecordsWidth(c) && SizesCoverTexts(c.text) ==>
      forall t :: 0 <= t < |c.text.texts.value| ==> m >= measure(c.text.texts.value[t], c.text.textSizes.value[t])
  }

  /** Largest of `acc` and the measured widths of the first n text lines. */
  function LineWidthMax(acc: real, texts: seq<string>, sizes: seq<int>,
                        measure: (string, int) -> real, n: nat): (r: real)
    requires n <= |texts| && n <= |sizes|
    ensures r >= acc
    ensures forall t :: 0 <= t < n ==> r >= measure(texts[t], sizes[t])
    ensures r == acc || exists t :: 0 <= t < n && r == measure(texts[t], sizes[t])
  {
    if n == 0 then acc
    else Max(LineWidthMax(acc, texts, sizes, measure, n - 1), measure(texts[n - 1], sizes[n - 1]))
  }

  /** Sum of the line heights of the first n text lines. */
  function TextHeight(sizes: seq<int>, lineHeight: int -> real, n: nat): real
    requires n <= |sizes|
  {
    if n == 0 then 0.0 else TextHeight(sizes, lineHeight, n - 1) + lineHeight(sizes[n - 1])
  }

  /** Height of a cell's text block, as setData measures it. */
  function CellTextHeight(c: CellInfo, lineHeight: int -> real): real
    requires c.text.texts.Some? && SizesCoverTexts(c.text)
  {
    if |c.text.texts.value| == 0 then 0.0
    else TextHeight(c.text.textSizes.value, lineHeight, |c.text.texts.value|)
  }

  /** `m` is at least the text height of a measured cell. */
  predicate HeightCovers(m: real, c: CellInfo, lineHeight: int -> real) {
    !RecordsHeight(c) && SizesCoverTexts(c.text) ==> m >= CellTextHeight(c, lineHeight)
  }

  /** `m` is 0 or the measured width of some text line of a measured cell among rows [0..n) of column l. */
  predicate WidthAttained(m: real, g: seq<seq<CellInfo>>, l: nat, n: nat, measure: (string, int) -> real)
    requires n <= |g| && forall r :: 0 <= r < n ==> l < |g[r]|
  {
    m == 0.0 ||
    exists r, t :: 0 <= r < n && !RecordsWidth(g[r][l]) && SizesCoverTexts(g[r][l].text) &&
                   0 <= t < |g[r][l].text.texts.value| &&
                   m == measure(g[r][l].text.texts.value[t], g[r][l].text.textSizes.value[t])
  }

  /** `m` is 0 or the text height of some measured cell among columns [0..n) of row r. */
  predicate HeightAttained(m: real, g: seq<seq<CellInfo>>, r: nat, n: nat, lineHeight: int -> real)
    requires r < |g| && n <= |g[r]|
  {
    m == 0.0 ||
    exists l :: 0 <= l < n && !RecordsHeight(g[r][l]) && SizesCoverTexts(g[r][l].text) &&
                m == CellTextHeight(g[r][l], lineHeight)
  }

  /** `m` is the largest measured width in column l: it fits every measured line and is one of them, or 0. */
  predicate IsMeasuredWidth(m: real, g: seq<seq<CellInfo>>, l: nat, n: nat, measure: (string, int) -> real)
    requires n <= |g| && forall r :: 0 <= r < n ==> l < |g[r]|
  {
    m >= 0.0 && (forall r :: 0 <= r < n ==> WidthCovers(m, g[r][l], measure)) && WidthAttained(m, g, l, n, measure)
  }

  /** `m` is the tallest text block in row r. */
  predicate IsMeasuredHeight(m: real, g: seq<seq<CellInfo>>, r: nat, n: nat, lineHeight: int -> real)
    requires r < |g| && n <= |g[r]|
  {
    m >= 0.0 && (forall l :: 0 <= l < n ==> HeightCovers(m, g[r][l], lineHeight)) && HeightAttained(m, g, r, n, lineHeight)
  }

  /** The two running maxima of one column or row scan. */
  datatype Scan = Scan(measured: real, fixed: real)

  /** Maxima over rows [0..n) of column l: `fixed` starts at -1, `measured` at 0. */
  function ColumnScan(g: seq<seq<CellInfo>>, l: nat, n: nat, measure: (string, int) -> real): (s: Scan)
    requires n <= |g| && forall r :: 0 <= r < n ==> l < |g[r]| && WidthMeasurable(g[r][l])
    ensures s.fixed >= -1.0 && s.measured >= 0.0
  {
    if n == 0 then Scan(0.0, -1.0)
    else
      var s := ColumnScan(g, l, n - 1, measure);
      var c := g[n - 1][l];
      assert WidthMeasurable(c);
      if RecordsWidth(c) then Scan(s.measured, Max(s.fixed, c.width))
      else if |c.text.texts.value| == 0 then s
      else Scan(LineWidthMax(s.measured, c.text.texts.value, c.text.textSizes.value, measure,
                             |c.text.texts.value|), s.fixed)
  }

  /** Maxima over columns [0..n) of row r. */
  function RowScan(g: seq<seq<CellInfo>>, r: nat, n: nat, lineHeight: int -> real): (s: Scan)
    requires r < |g| && n <= |g[r]| && forall l :: 0 <= l < n ==> HeightMeasurable(g[r][l])
    ensures s.fixed >= -1.0 && s.measured >= 0.0
  {
    if n == 0 then Scan(0.0, -1.0)
    else
      var s := RowScan(g, r, n - 1, lineHeight);
      var c := g[r][n - 1];
      assert HeightMeasurable(c);
      if RecordsHeight(c) then Scan(s.measured, Max(s.fixed, c.height))
      else Scan(Max(s.measured, CellTextHeight(c, lineHeight)), s.fixed)
  }

  /**
   * The column scan's maxima: `fixed` bounds every recorded width and is one of
   * them (or still -1), `measured` bounds every measured text line.
   */
  lemma {:induction false} ColumnScanBounds(g: seq<seq<CellInfo>>, l: nat, n: nat, measure: (string, int) -> real)
    requires n <= |g| && forall r :: 0 <= r < n ==> l < |g[r]| && WidthMeasurable(g[r][l])
    ensures var s := ColumnScan(g, l, n, measure);
            && (forall r :: 0 <= r < n && RecordsWidth(g[r][l]) ==> s.fixed >= g[r][l].width)
            && (s.fixed == -1.0 || exists r :: 0 <= r < n && RecordsWidth(g[r][l]) && s.fixed == g[r][l].width)
            && IsMeasuredWidth(s.measured, g, l, n, measure)
  {
    if n > 0 {
      ColumnScanBounds(g, l, n - 1, measure);
    }
  }

  /** The same for a row scan. */
  lemma {:induction false} RowScanBounds(g: seq<seq<CellInfo>>, r: nat, n: nat, lineHeight: int -> real)
    requires r < |g| && n <= |g[r]| && forall l :: 0 <= l < n ==> HeightMeasurable(g[r][l])
    ensures var s := RowScan(g, r, n, lineHeight);
            && (forall l :: 0 <= l < n && RecordsHeight(g[r][l]) ==> s.fixed >= g[r][l].height)
            && (s.fixed == -1.0 || exists l :: 0 <= l < n && RecordsHeight(g[r][l]) && s.fixed == g[r][l].height)
            && IsMeasuredHeight(s.measured, g, r, n, lineHeight)
  {
    if n > 0 {
      RowScanBounds(g, r, n - 1, lineHeight);
    }
  }

  /** A recorded maximum wins over the measured one; the first and last index are raised to the corner radius. */
  function Resolved(s: Scan, index: int, count: int, corner: real): real {
    var v := if s.fixed != -1.0 then s.fixed else s.measured;
    if index == 0 || index == count - 1 then Max(v, corner) else v
  }

  function ColumnWidth(g: seq<seq<CellInfo>>, l: nat, lines: int, corner: real,
                       measure: (string, int) -> real): real
    requires forall r :: 0 <= r < |g| ==> l < |g[r]| && WidthMeasurable(g[r][l])
  {
    Resolved(ColumnScan(g, l, |g|, measure), l, lines, corner)
  }

  function RowHeight(g: seq<seq<CellInfo>>, r: nat, rows: int, corner: real,
                     lineHeight: int -> real): real
    requires r < |g| && forall l :: 0 <= l < |g[r]| ==> HeightMeasurable(g[r][l])
  {
    Resolved(RowScan(g, r, |g[r]|, lineHeight), r, rows, corner)
  }

  /**
   * A column is at least as wide as every width recorded in it, and as every
   * line measured in it when no cell records a width; when some cell records a
   * non-negative width, the column takes the largest recorded width (raised to
   * the corner radius at the boundary) and measured text is ignored. When every
   * recorded width is at most -1 (a blank cell records -1), the column is
   * exactly the largest measured line, or 0, raised at the boundary.
   */
  lemma ColumnWidthMeaning(g: seq<seq<CellInfo>>, l: nat, lines: int, corner: real,
                           measure: (string, int) -> real)
    requires forall r :: 0 <= r < |g| ==> l < |g[r]| && WidthMeasurable(g[r][l])
    ensures var w := ColumnWidth(g, l, lines, corner, measure);
            && (forall r :: 0 <= r < |g| && RecordsWidth(g[r][l]) ==> w >= g[r][l].width)
            && ((l == 0 || l == lines - 1) ==> w >= corner)
            && ((forall r :: 0 <= r < |g| ==> !RecordsWidth(g[r][l])) ==>
                  forall r :: 0 <= r < |g| ==> WidthCovers(w, g[r][l], measure))
            && ((exists r :: 0 <= r < |g| && RecordsWidth(g[r][l]) && g[r][l].width >= 0.0) ==>
                  (exists r :: 0 <= r < |g| && RecordsWidth(g[r][l]) &&
                     w == (if l == 0 || l == lines - 1 then Max(g[r][l].width, corner) else g[r][l].width)))
            && ((forall r :: 0 <= r < |g| && RecordsWidth(g[r][l]) ==> g[r][l].width <= -1.0) ==>
                  exists m :: IsMeasuredWidth(m, g, l, |g|, measure) &&
                    w == (if l == 0 || l == lines - 1 then Max(m, corner) else m))
  {
    var s := ColumnScan(g, l, |g|, measure);
    ColumnScanBounds(g, l, |g|, measure);
    if forall r :: 0 <= r < |g| && RecordsWidth(g[r][l]) ==> g[r][l].width <= -1.0 {
      assert s.fixed == -1.0;
      assert IsMeasuredWidth(s.measured, g, l, |g|, measure);
    }
  }

  /** The same for a row's height. */
  lemma RowHeightMeaning(g: seq<seq<CellInfo>>, r: nat, rows: int, corner: real, lineHeight: int -> real)
    requires r < |g| && forall l :: 0 <= l < |g[r]| ==> HeightMeasurable(g[r][l])
    ensures var h := RowHeight(g, r, rows, corner, lineHeight);
            && (forall l :: 0 <= l < |g[r]| && RecordsHeight(g[r][l]) ==> h >= g[r][l].height)
            && ((r == 0 || r == rows - 1) ==> h >= corner)
            && ((forall l :: 0 <= l < |g[r]| ==> !RecordsHeight(g[r][l])) ==>
                  forall l :: 0 <= l < |g[r]| ==> HeightCovers(h, g[r][l], lineHeight))
            && ((exists l :: 0 <= l < |g[r]| && RecordsHeight(g[r][l]) && g[r][l].height >= 0.0) ==>
                  (exists l :: 0 <= l < |g[r]| && RecordsHeight(g[r][l]) &&
                     h == (if r == 0 || r == rows - 1 then Max(g[r][l].height, corner) else g[r][l].height)))
            && ((forall l :: 0 <= l < |g[r]| && RecordsHeight(g[r][l]) ==> g[r][l].height <= -1.0) ==>
                  exists m :: IsMeasuredHeight(m, g, r, |g[r]|, lineHeight) &&
                    h == (if r == 0 || r == rows - 1 then Max(m, corner) else m))
  {
    var s := RowScan(g, r, |g[r]|, lineHeight);
    RowScanBounds(g, r, |g[r]|, lineHeight);
    if forall l :: 0 <= l < |g[r]| && RecordsHeight(g[r][l]) ==> g[r][l].height <= -1.0 {
      assert s.fixed == -1.0;
      assert IsMeasuredHeight(s.measured, g, r, |g[r]|, lineHeight);
    }
  }
}
