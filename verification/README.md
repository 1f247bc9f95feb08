# EasyTableView in Dafny

This project models the core of EasyTableView, an Android widget that draws a
table of `rows` x `lines` cells. The model covers:

- the grid engine of `EasyTableView`:
  - loading cell records (`setData`, `updateData`);
  - sizing columns and rows from their texts or fixed sizes;
  - the table's modes (`MODE_NORMAL`, `MODE_FIX_WIDTH`, `MODE_FIX_HEIGHT`, `MODE_FIX_WIDTH_HEIGHT`);
  - laying out cells and merged cells (`initData`);
  - inserting and removing rows and columns;
  - merging and unmerging cells;
  - hit-testing and click dispatch;
  - which cells get rounded outer corners;
  - clamping the corner radius;
- the records `CellInfo` and `MergeInfo`;
- the decoration `RangeDecoration`, which colours and highlights a run of cells;
- the demo app's `CalendarCheckDecoration`, which draws a check mark on the last tapped cell;
- the demo app's `EasyPathParser`, a small SVG-like path language (`m`, `l`, `a`, `o`, `q`, `c`, `z`) parsed with a hand-written scanner.

How the source's constructs are modelled:

- `CellInfo` and `MergeInfo` are datatypes (`Records`).
- `EasyTableView`, `RangeDecoration`, `CalendarCheckDecoration` and `EasyPathParser` are classes whose methods update their fields as the Java methods do.
- The cell grid is an `array2`, and the widths and heights are `array`s, reallocated by the row and column operations as in the source.
- Every method is proved against a specification function on values. Those functions live in separate modules:
  - `GridOps`: insertion and removal of runs, prefix sums;
  - `Layout`: coordinates of cells and merges;
  - `Sizing`: which record wins a cell, column and row sizes, boundary floors;
  - `HitTest`: `getCellByXY` and the touch state machine;
  - `Corners`: rounded corners and the corner clamp;
  - `Mutations`: row/column removal rules, merge registration and removal;
  - `PathParser`: the scanner and the parse;
  - `Ranges` and `CalendarCheck`: the two decorations.
- The lemmas in those modules state what the table promises. For example:
  - laid-out cells tile the table;
  - a merge spans exactly its cells;
  - a point inside a cell hits that cell;
  - a drag cancels a click;
  - removing inserted rows restores the sizes;
  - merging then unmerging the same list restores the merge list;
  - the ranged shapes form one strip;
  - a second tap on the checked cell never re-checks it.

Floats are modelled as `real`, so there is no rounding. Java's `int` colours are plain integers; they are only stored and compared.

## Model

| member | source | states |
|---|---|---|
| Records.NewCell | library/src/main/java/com/hzn/library/table/CellInfo.java:25-89 | a fresh cell has auto width and height (-1), no background, normal type, no texts and no row or line (-1) |
| Records.NewMerge | library/src/main/java/com/hzn/library/table/MergeInfo.java:14-85 | a default merge has width and height -1, origin 0, no background and no texts |
| Records.MakeMerge | library/src/main/java/com/hzn/library/table/MergeInfo.java:87-112 | the full constructor stores every given field and leaves width and height unset (-1) |
| Records.FillTextAttrs | library/src/main/java/com/hzn/library/table/EasyTableView.java:1172-1190 | with texts present, a set textColor or textSize overrides the per-line array line by line; with neither scalar nor array set, lines get BLACK and the default size; an array alone is kept; without texts nothing changes |
| Records.FillTextAttrsIdempotent | library/src/main/java/com/hzn/library/table/EasyTableView.java:1172-1190 | filling text attributes twice is the same as filling them once |
| Records.FillCellTextAttrs | library/src/main/java/com/hzn/library/table/EasyTableView.java:1172-1190 | only a cell's text attributes change, and a cell with texts ends with both per-line arrays |
| Records.FillMergeTextAttrs | library/src/main/java/com/hzn/library/table/EasyTableView.java:1195-1213 | only a merge's text attributes change, and a merge with texts ends with both per-line arrays |
| Records.FillCoversSizes | library/src/main/java/com/hzn/library/table/EasyTableView.java:1172-1190 | after filling, every text line has a text size unless the caller's own size array was too short |
| GridOps.Max | library/src/main/java/com/hzn/library/table/EasyTableView.java:795-796 | the running maximum is at least both arguments and equal to one of them |
| GridOps.Anchor | library/src/main/java/com/hzn/library/table/EasyTableView.java:959-965 | the insertion anchor clamps curRow/curLine into the table and steps back one for ADD_ROWS_TOP / ADD_LINES_LEFT; in range it is the given index (or one less), below range 0 (or -1), above range the last index (or one less) |
| GridOps.InsertAt | library/src/main/java/com/hzn/library/table/EasyTableView.java:973-987 | inserting k items after index `at` keeps the prefix, places k copies, and shifts the rest by k |
| GridOps.RemoveSpan | library/src/main/java/com/hzn/library/table/EasyTableView.java:1018-1031 | removing start..end keeps the prefix and shifts the rest left by end-start+1 |
| GridOps.RemoveInsertedRestores | library/src/main/java/com/hzn/library/table/EasyTableView.java:955-1052 | removing the run that addNewRows inserted gives back the original sequence |
| GridOps.InsertColumns | library/src/main/java/com/hzn/library/table/EasyTableView.java:1079-1097 | inserting columns inserts the same run into every row and keeps the grid rectangular |
| GridOps.RemoveColumns | library/src/main/java/com/hzn/library/table/EasyTableView.java:1128-1146 | removing columns removes the same span from every row and keeps the grid rectangular |
| GridOps.RemoveInsertedColumnsRestores | library/src/main/java/com/hzn/library/table/EasyTableView.java:1063-1167 | removing the columns addNewLines inserted gives back the original grid |
| GridOps.SumToMonotone | library/src/main/java/com/hzn/library/table/EasyTableView.java:266-279 | prefix sums of non-negative sizes never decrease, and strictly increase for positive sizes |
| GridOps.SumToRepeat | library/src/main/java/com/hzn/library/table/EasyTableView.java:251-262 | k equal fixed sizes add up to k times that size |
| GridOps.SumToPrefix | library/src/main/java/com/hzn/library/table/EasyTableView.java:266-279 | a prefix sum depends only on the prefix |
| GridOps.SumToAfterInsert | library/src/main/java/com/hzn/library/table/EasyTableView.java:973-987 | after inserting k sizes x, offsets before the insertion are unchanged and offsets after it grow by k*x |
| GridOps.SumToPastInsert | library/src/main/java/com/hzn/library/table/EasyTableView.java:973-987 | an offset past the inserted run equals the old offset plus k*x |
| GridOps.InsertedRunSum | library/src/main/java/com/hzn/library/table/EasyTableView.java:973-987 | offsets inside the inserted run grow by x per inserted row or column |
| GridOps.GridOf | library/src/main/java/com/hzn/library/table/EasyTableView.java:183-186 | the value of the cell array is a rectangular grid that agrees with it cell by cell |
| GridOps.GridExt | library/src/main/java/com/hzn/library/table/EasyTableView.java:183-186 | two rectangular grids that agree cell by cell are equal |
| Layout.LaidOutCell | library/src/main/java/com/hzn/library/table/EasyTableView.java:266-279 | initData gives a cell its row and line, and its right and bottom edges are the prefix sums of widths and heights through it; nothing else changes |
| Layout.LaidOutMerge | library/src/main/java/com/hzn/library/table/EasyTableView.java:282-298 | a merge starts at its left-top cell and ends at the right and bottom edges of its right-bottom cell; nothing else changes |
| Layout.FixedSize | library/src/main/java/com/hzn/library/table/EasyTableView.java:251-262 | a fixed-mode size is the available extent divided evenly, floored at the corner radius |
| Layout.LaidOutRowsTile | library/src/main/java/com/hzn/library/table/EasyTableView.java:266-279 | laid-out cells tile the table: each cell starts where its left (upper) neighbour ends, the first starts at the table's origin, and the last ends at the total width (height) |
| Layout.MergeSpansItsCells | library/src/main/java/com/hzn/library/table/EasyTableView.java:282-298 | a laid-out merge starts at its left-top cell's origin and ends at its right-bottom cell's far edges |
| Layout.MergeGeometryExample | library/src/main/java/com/hzn/library/table/EasyTableView.java:282-298 | a 2x2 merge over widths 10, 15 measures 25 by 25 from the origin |
| Sizing.LastAt | library/src/main/java/com/hzn/library/table/EasyTableView.java:768-777 | the record that lands in a cell is the last one in the list at that row and line, and there is none exactly when no entry names that cell |
| Sizing.LastInColumn | library/src/main/java/com/hzn/library/table/EasyTableView.java:896-916 | the record that sets a column's width in updateData is the last in-table one for that line, and there is none exactly when no in-table entry names it |
| Sizing.LastInRow | library/src/main/java/com/hzn/library/table/EasyTableView.java:896-916 | the record that sets a row's height in updateData is the last in-table one for that row, and there is none exactly when no in-table entry names it |
| Sizing.FloorSize | library/src/main/java/com/hzn/library/table/EasyTableView.java:900-910 | a sole column (row) is floored at twice the corner radius, a boundary one at the radius, an inner one is kept; with a negative radius the sole index is still raised to the single radius unless it lies below twice the radius |
| Sizing.LineWidthMax | library/src/main/java/com/hzn/library/table/EasyTableView.java:790-797 | the widest text line: at least every measured line and the running value, and equal to one of them |
| Sizing.ColumnScan | library/src/main/java/com/hzn/library/table/EasyTableView.java:785-805 | the column scan starts at measured 0 and fixed -1 and never goes below them |
| Sizing.RowScan | library/src/main/java/com/hzn/library/table/EasyTableView.java:823-847 | the row scan starts at measured 0 and fixed -1 and never goes below them |
| Sizing.ColumnScanBounds | library/src/main/java/com/hzn/library/table/EasyTableView.java:785-805 | the fixed maximum bounds every recorded width and is -1 or one of them; the measured maximum covers every text line of every auto-width cell and is 0 or one of those lines |
| Sizing.RowScanBounds | library/src/main/java/com/hzn/library/table/EasyTableView.java:823-847 | the fixed maximum bounds every recorded height and is -1 or one of them; the measured maximum covers the stacked text lines of every auto-height cell and is 0 or one of those stacks |
| Sizing.ColumnWidthMeaning | library/src/main/java/com/hzn/library/table/EasyTableView.java:785-813 | a column is at least as wide as every recorded width and, at the boundary, the corner radius; without recorded widths it fits every text; with a non-negative recorded width it is the largest one, floored at the boundary; when every recorded width is at most -1 (blank cells record -1) it is exactly the widest measured line, or 0, floored at the boundary |
| Sizing.RowHeightMeaning | library/src/main/java/com/hzn/library/table/EasyTableView.java:823-855 | a row is at least as tall as every recorded height and, at the boundary, the corner radius; without recorded heights it fits every text stack; with a non-negative recorded height it is the largest one, floored at the boundary; when every recorded height is at most -1 it is exactly the tallest text stack, or 0, floored at the boundary |
| HitTest.FirstMergeFrom | library/src/main/java/com/hzn/library/table/EasyTableView.java:729-735 | the index of the first merge containing the point, with no earlier merge containing it |
| HitTest.FirstInRowFrom | library/src/main/java/com/hzn/library/table/EasyTableView.java:738-746 | the first cell of a row containing the point, with no earlier one containing it |
| HitTest.FirstCellFrom | library/src/main/java/com/hzn/library/table/EasyTableView.java:738-746 | the first cell in row-major order containing the point, or none when no cell contains it |
| HitTest.MergeShadowsCells | library/src/main/java/com/hzn/library/table/EasyTableView.java:728-748 | when any merge contains the point, getCellByXY returns the first such merge, whatever the cells are |
| HitTest.ResolvesToFirstCell | library/src/main/java/com/hzn/library/table/EasyTableView.java:728-748 | with no merge at the point, getCellByXY returns the first cell in row-major order that contains it |
| HitTest.CellSpan | library/src/main/java/com/hzn/library/table/EasyTableView.java:266-279 | a laid-out cell spans from the prefix sum before it to the prefix sum through it, on both axes |
| HitTest.InteriorPointHitsItsCell | library/src/main/java/com/hzn/library/table/EasyTableView.java:728-748 | with positive sizes and no merge there, a point strictly inside a cell's span resolves to that cell |
| HitTest.SharedEdgeGoesToEarlierCell | library/src/main/java/com/hzn/library/table/EasyTableView.java:738-746 | a point on the edge two cells share resolves to the left one, although the right one contains it too |
| HitTest.OutsideGridHitsNoCell | library/src/main/java/com/hzn/library/table/EasyTableView.java:728-748 | a point outside the laid-out table, and not in a merge, hits nothing |
| HitTest.OutsideGridMissesCell | library/src/main/java/com/hzn/library/table/EasyTableView.java:738-746 | no laid-out cell contains a point outside the table |
| HitTest.Abs | library/src/main/java/com/hzn/library/table/EasyTableView.java:698 | the distance used by the slop test is non-negative and equals the difference or its negation |
| HitTest.TouchStep | library/src/main/java/com/hzn/library/table/EasyTableView.java:686-725 | without a listener the event goes to the base view; DOWN records the target and point and consumes; MOVE beyond the slop on both axes forgets the target and declines, otherwise passes on; UP clicks exactly when it hits the pressed target (cell at the same position, or the same merge) |
| HitTest.MovesForgetOnlyOnDrag | library/src/main/java/com/hzn/library/table/EasyTableView.java:695-704 | after a run of moves the press point is kept, and the pressed target is gone exactly when some move went beyond the slop on both axes |
| HitTest.SteadyTapClicksCell | library/src/main/java/com/hzn/library/table/EasyTableView.java:686-725 | down on a cell, moves within the slop, and up on the cell at the same position fire a click on the released cell |
| HitTest.DragCancelsTap | library/src/main/java/com/hzn/library/table/EasyTableView.java:695-704 | one move beyond the slop on both axes cancels the click, wherever the finger is released |
| HitTest.HorizontalDragStillClicks | library/src/main/java/com/hzn/library/table/EasyTableView.java:698 | a drag along one axis only does not cancel the click, because the code requires both axes to exceed the slop |
| Corners.CutOnlyInTableCorners | library/src/main/java/com/hzn/library/table/EasyTableView.java:389-421 | a cell's background gets a rounded corner exactly when it is a corner cell of the table |
| Corners.EachTableCornerCutOnce | library/src/main/java/com/hzn/library/table/EasyTableView.java:389-421 | each of the four corner arcs is drawn for exactly one cell: left-top (0,0), left-bottom (rows-1,0), right-bottom (rows-1,lines-1), right-top (0,lines-1) |
| Corners.SingleRowTakesTwoCuts | library/src/main/java/com/hzn/library/table/EasyTableView.java:389-421 | in a one-row table the end cells take both a top and a bottom corner, and a 1x1 table's cell takes all four |
| Corners.MergeCutsFollowCoveredCorners | library/src/main/java/com/hzn/library/table/EasyTableView.java:495-527 | a merge gets a rounded corner exactly when it covers that corner cell, and a one-cell merge is cut like its cell |
| Corners.Lower | library/src/main/java/com/hzn/library/table/EasyTableView.java:1399-1416 | the running minimum is at most both arguments and equal to one of them |
| Corners.ClampCorner | library/src/main/java/com/hzn/library/table/EasyTableView.java:1418-1421 | a radius inside [0, limit] is kept, otherwise it becomes the limit |
| Corners.CornerFitsCornerCells | library/src/main/java/com/hzn/library/table/EasyTableView.java:1398-1422 | the clamped radius fits the width and height of all four corner cells, is the requested radius or one of those sizes, is non-negative when they are, and clamping again keeps it |
| Mutations.InsertedSize | library/src/main/java/com/hzn/library/table/EasyTableView.java:967-968 | a negative size for new rows or columns falls back to the default of 20 |
| Mutations.RemovalAcceptedMeaning | library/src/main/java/com/hzn/library/table/EasyTableView.java:1014-1016 | removal is accepted exactly for 0 <= start <= end < count that leaves at least one row or column |
| Mutations.SoleFloor | library/src/main/java/com/hzn/library/table/EasyTableView.java:1034-1035 | when one row or column remains it is at least twice the corner radius, and is kept if already big enough; otherwise sizes are kept |
| Mutations.SizesAfterRemoval | library/src/main/java/com/hzn/library/table/EasyTableView.java:1018-1035 | the sizes after removal are one shorter per removed item, at least one long, and the plain removal when more than one remains |
| Mutations.SoleSurvivorFitsTwoCuts | library/src/main/java/com/hzn/library/table/EasyTableView.java:1034-1035 | when only one row or column survives its size is the survivor's size floored at twice the corner radius |
| Mutations.AddThenRemoveRestoresSizes | library/src/main/java/com/hzn/library/table/EasyTableView.java:955-1052 | removing the rows just added is accepted and restores the sizes (a sole original row or column is floored) |
| Mutations.MergeSurvivesRowRemovalIff | library/src/main/java/com/hzn/library/table/EasyTableView.java:1013-1052 | a merge stays inside the table after removing rows exactly when its end row is below the new row count |
| Mutations.RowRemovalStrandsMerge | library/src/main/java/com/hzn/library/table/EasyTableView.java:1013-1052 | a concrete accepted row removal leaves a registered merge outside the table, because removeRows does not touch the merge list |
| Mutations.MergeBg | library/src/main/java/com/hzn/library/table/EasyTableView.java:1245-1250 | a merge's colour is its own if set, else its left-top cell's if set, else the table's |
| Mutations.Registered | library/src/main/java/com/hzn/library/table/EasyTableView.java:1245-1251 | registering a merge sets only its background (by MergeBg) and fills its text attributes |
| Mutations.AcceptMerges | library/src/main/java/com/hzn/library/table/EasyTableView.java:1229-1261 | mergeCells registers at most the given merges, and every registered one lies inside the table |
| Mutations.AcceptMergesSound | library/src/main/java/com/hzn/library/table/EasyTableView.java:1239-1252 | every registered merge is the registration of some in-table merge of the batch |
| Mutations.AcceptMergesComplete | library/src/main/java/com/hzn/library/table/EasyTableView.java:1239-1252 | every in-table merge of the batch is registered |
| Mutations.AcceptMergesNoneIff | library/src/main/java/com/hzn/library/table/EasyTableView.java:1254-1260 | nothing is registered, so no layout is requested, exactly when no merge of the batch lies inside the table |
| Mutations.AcceptMergesAppend | library/src/main/java/com/hzn/library/table/EasyTableView.java:1229-1261 | registering two batches one after the other is the same as registering them together |
| Mutations.Unmerged | library/src/main/java/com/hzn/library/table/EasyTableView.java:1277-1285 | unmergeCells keeps exactly the registered merges that are not in the given list |
| Mutations.UnmergedAppend | library/src/main/java/com/hzn/library/table/EasyTableView.java:1281 | removing merges distributes over concatenation of the merge list |
| Mutations.UnmergeUnlistedKeeps | library/src/main/java/com/hzn/library/table/EasyTableView.java:1281 | unmerging merges that are not registered leaves the list unchanged |
| Mutations.UnmergeListedRemovesAll | library/src/main/java/com/hzn/library/table/EasyTableView.java:1281 | unmerging every registered merge empties the list |
| Mutations.AcceptedAreListed | library/src/main/java/com/hzn/library/table/EasyTableView.java:1239-1252 | every registered merge is the same object as one in the given batch |
| Mutations.MergeThenUnmergeRestores | library/src/main/java/com/hzn/library/table/EasyTableView.java:1229-1285 | merging a batch and then unmerging the same batch restores the merge list |
| Table.CopyRow | library/src/main/java/com/hzn/library/table/EasyTableView.java:973-987 | one row is copied over and every other row is untouched |
| Table.FillRow | library/src/main/java/com/hzn/library/table/EasyTableView.java:977-983 | one row is filled with fresh cells and every other row is untouched |
| Table.CopyInsertingRows | library/src/main/java/com/hzn/library/table/EasyTableView.java:970-987 | the new cell array is the old grid with rows of fresh cells inserted after the anchor |
| Table.FreshGrid | library/src/main/java/com/hzn/library/table/EasyTableView.java:183-186 | a new cell array of the given size holds fresh cells everywhere |
| Table.ZeroSizes | library/src/main/java/com/hzn/library/table/EasyTableView.java:178-179 | new size arrays hold zeros |
| Table.CopyInserting | library/src/main/java/com/hzn/library/table/EasyTableView.java:970-987 | the new size array is the old one with k copies of the size inserted after the anchor |
| Table.CopyRemovingRows | library/src/main/java/com/hzn/library/table/EasyTableView.java:1018-1031 | the new cell array is the old grid without rows start..end |
| Table.CopyRemoving | library/src/main/java/com/hzn/library/table/EasyTableView.java:1018-1031 | the new size array is the old one without start..end |
| Table.CopyRemovingSizes | library/src/main/java/com/hzn/library/table/EasyTableView.java:1018-1035 | the new size array is the old one without start..end, with a sole survivor floored |
| Table.CopyInsertingColumns | library/src/main/java/com/hzn/library/table/EasyTableView.java:1079-1097 | the new cell array is the old grid with fresh columns inserted after the anchor in every row |
| Table.InsertColumnsInRow | library/src/main/java/com/hzn/library/table/EasyTableView.java:1081-1089 | one row of the new array is that row with fresh cells inserted; other rows untouched |
| Table.CopyRemovingColumns | library/src/main/java/com/hzn/library/table/EasyTableView.java:1128-1146 | the new cell array is the old grid without columns start..end |
| Table.RemoveColumnsInRow | library/src/main/java/com/hzn/library/table/EasyTableView.java:1133-1139 | one row of the new array is that row without columns start..end; other rows untouched |
| Table.AcceptedMerges | library/src/main/java/com/hzn/library/table/EasyTableView.java:1229-1261 | the loop of mergeCells collects exactly AcceptMerges, and `merged` is true exactly when it collected any |
| Table.CornerMin | library/src/main/java/com/hzn/library/table/EasyTableView.java:1399-1416 | the minimum width and height over the four corner cells |
| Table.EasyTableView.Grid | library/src/main/java/com/hzn/library/table/EasyTableView.java:183-186 | the cell array as a rectangular grid of rows by lines |
| Table.EasyTableView.constructor | library/src/main/java/com/hzn/library/table/EasyTableView.java:135-173 | a new table has the given dimensions and settings, fresh cells, zero sizes, no merges, no listener and no pressed target |
| Table.EasyTableView.ResetTableData | library/src/main/java/com/hzn/library/table/EasyTableView.java:176-188 | fresh arrays of the current dimensions, every cell fresh, sizes zero, merge list empty, settings unchanged |
| Table.EasyTableView.InitData | library/src/main/java/com/hzn/library/table/EasyTableView.java:249-299 | in the fixed modes the sizes become the even share of the table's extent, raised to the corner radius when smaller; every cell is laid out by LaidOutCell and every merge by LaidOutMerge, so the grid is laid out |
| Table.EasyTableView.ApplyFixedMode | library/src/main/java/com/hzn/library/table/EasyTableView.java:251-262 | MODE_FIX_WIDTH(_HEIGHT) gives every column the even share of the width, MODE_FIX_HEIGHT(_WIDTH) every row the even share of the height, each raised to the corner radius when smaller; other sizes are kept |
| Table.EasyTableView.PlaceCells | library/src/main/java/com/hzn/library/table/EasyTableView.java:266-279 | every cell is laid out at the prefix sums of the sizes before it |
| Table.EasyTableView.PlaceMerges | library/src/main/java/com/hzn/library/table/EasyTableView.java:282-298 | every registered merge gets the origin of its left-top cell and the extent of its cells |
| Table.EasyTableView.MergeExtent | library/src/main/java/com/hzn/library/table/EasyTableView.java:287-297 | the merge's width is the sum of its columns' widths and its height the sum of its rows' heights |
| Table.EasyTableView.GridOfLaidOut | library/src/main/java/com/hzn/library/table/EasyTableView.java:266-279 | cells laid out one by one make the whole grid laid out |
| Table.EasyTableView.GetCellByXY | library/src/main/java/com/hzn/library/table/EasyTableView.java:728-748 | returns the first merge containing the point, else the first cell in row-major order containing it, else nothing |
| Table.EasyTableView.OnTouchEvent | library/src/main/java/com/hzn/library/table/EasyTableView.java:686-725 | one event updates the pressed target and fires a click as TouchStep says, on the target getCellByXY finds; the table's data is unchanged |
| Table.EasyTableView.SetOnCellClickListener | library/src/main/java/com/hzn/library/table/EasyTableView.java:1467-1469 | only whether a listener is present changes |
| Table.EasyTableView.SetData | library/src/main/java/com/hzn/library/table/EasyTableView.java:756-860 | an empty list changes nothing; otherwise merges are cleared, every cell becomes the last record naming it (or a fresh cell), and every column's width and row's height not fixed by the mode is ColumnWidth / RowHeight of the new grid |
| Table.EasyTableView.ComputeWidths | library/src/main/java/com/hzn/library/table/EasyTableView.java:781-814 | every column's width is ColumnWidth of the grid |
| Table.EasyTableView.ComputeHeights | library/src/main/java/com/hzn/library/table/EasyTableView.java:817-856 | every row's height is RowHeight of the grid |
| Table.EasyTableView.LoadCells | library/src/main/java/com/hzn/library/table/EasyTableView.java:761-777 | every cell becomes the last record naming it, with text attributes filled, or a fresh cell |
| Table.EasyTableView.MeasureColumn | library/src/main/java/com/hzn/library/table/EasyTableView.java:786-812 | one column's width is ColumnWidth of the grid |
| Table.EasyTableView.MeasureRow | library/src/main/java/com/hzn/library/table/EasyTableView.java:824-854 | one row's height is RowHeight of the grid |
| Table.EasyTableView.SetDimensions | library/src/main/java/com/hzn/library/table/EasyTableView.java:870-875 | setData(rows, lines, list) resizes to rows x lines with fresh arrays and then loads the list as setData does, from zero sizes |
| Table.EasyTableView.UpdateData | library/src/main/java/com/hzn/library/table/EasyTableView.java:893-920 | each in-table record replaces its cell; each column (row) named by an in-table record takes the last such record's width (height), floored at the boundary; merges are kept and a layout is requested |
| Table.EasyTableView.UpdateOne | library/src/main/java/com/hzn/library/table/EasyTableView.java:897-915 | one in-table record replaces its cell and sets its column's width and row's height through FloorSize; an out-of-table record changes nothing |
| Table.EasyTableView.AddNewRows | library/src/main/java/com/hzn/library/table/EasyTableView.java:955-1004 | rejects a non-positive count; otherwise inserts that many rows of fresh cells after the anchor, with heights from InsertedSize, and requests a layout |
| Table.EasyTableView.GrowRows | library/src/main/java/com/hzn/library/table/EasyTableView.java:970-1003 | the grid and heights get k new rows after `at` |
| Table.EasyTableView.RemoveRows | library/src/main/java/com/hzn/library/table/EasyTableView.java:1013-1052 | accepts exactly RemovalAccepted; then removes the rows and their heights (a sole survivor floored at twice the corner) and requests a layout; otherwise changes nothing |
| Table.EasyTableView.ShrinkRows | library/src/main/java/com/hzn/library/table/EasyTableView.java:1018-1051 | the grid and heights lose rows start..end |
| Table.EasyTableView.AddNewLines | library/src/main/java/com/hzn/library/table/EasyTableView.java:1063-1114 | rejects a non-positive count; otherwise inserts that many columns of fresh cells after the anchor, with widths from InsertedSize, and requests a layout |
| Table.EasyTableView.GrowLines | library/src/main/java/com/hzn/library/table/EasyTableView.java:1078-1113 | the grid and widths get k new columns after `at` |
| Table.EasyTableView.RemoveLines | library/src/main/java/com/hzn/library/table/EasyTableView.java:1123-1167 | accepts exactly RemovalAccepted; then removes the columns and their widths (a sole survivor floored) and requests a layout; otherwise changes nothing |
| Table.EasyTableView.ShrinkLines | library/src/main/java/com/hzn/library/table/EasyTableView.java:1128-1166 | the grid and widths lose columns start..end |
| Table.EasyTableView.MergeCells | library/src/main/java/com/hzn/library/table/EasyTableView.java:1229-1261 | appends exactly the registered in-table merges, requests a layout exactly when there are any, and keeps every merge inside the table |
| Table.EasyTableView.AppendMerges | library/src/main/java/com/hzn/library/table/EasyTableView.java:1254-1260 | the merges are appended and a layout is requested when any were merged |
| Table.EasyTableView.UnmergeCells | library/src/main/java/com/hzn/library/table/EasyTableView.java:1277-1285 | an empty list changes nothing; otherwise the listed merges are removed (Unmerged) and a layout is requested |
| Table.EasyTableView.SetOutStrokeCorner | library/src/main/java/com/hzn/library/table/EasyTableView.java:1398-1422 | the stored radius is the requested one clamped to the smallest side of the four corner cells; nothing else changes |
| PathParser.CommandOf | app/src/main/java/com/hzn/easytableview/EasyPathParser.java:81-186 | upper- and lower-case letters run the same lower-case command |
| PathParser.Arity | app/src/main/java/com/hzn/easytableview/EasyPathParser.java:85-165 | m and l take 2 numbers, o and q take 4, a and c take 6 |
| PathParser.PointSlots | app/src/main/java/com/hzn/easytableview/EasyPathParser.java:88-176 | the parent offset is subtracted from at most the numbers a command reads |
| PathParser.Trim | app/src/main/java/com/hzn/easytableview/EasyPathParser.java:61 | the trimmed string is no longer than the input and does not end in a control or space character |
| PathParser.TrimKeepsMiddle | app/src/main/java/com/hzn/easytableview/EasyPathParser.java:61 | String.trim keeps a contiguous middle slice, dropping only characters <= ' ' at either end |
| PathParser.TrimStart | app/src/main/java/com/hzn/easytableview/EasyPathParser.java:61 | dropping leading blanks never lengthens the string |
| PathParser.TrimStartDrops | app/src/main/java/com/hzn/easytableview/EasyPathParser.java:61 | the dropped prefix is all characters <= ' ' and the rest starts with a visible one |
| PathParser.TrimEnd | app/src/main/java/com/hzn/easytableview/EasyPathParser.java:61 | dropping trailing blanks leaves a string that does not end in one |
| PathParser.TrimEndKeeps | app/src/main/java/com/hzn/easytableview/EasyPathParser.java:61 | the kept part is a prefix, the dropped suffix is all characters <= ' ', and a visible first character survives |
| PathParser.SkipSpaces | app/src/main/java/com/hzn/easytableview/EasyPathParser.java:69-73 | skipping lands on the first non-space at or after the index, and everything skipped is a space |
| PathParser.Pow10 | app/src/main/java/com/hzn/easytableview/EasyPathParser.java:236 | a power of ten is at least 1 |
| PathParser.DotIndex | app/src/main/java/com/hzn/easytableview/EasyPathParser.java:236 | the position of the first '.', or the length when there is none |
| PathParser.NoDigitRejected | app/src/main/java/com/hzn/easytableview/EasyPathParser.java:236 | Float.valueOf rejects the empty token and a lone '-' |
| PathParser.UnsignedInteger | app/src/main/java/com/hzn/easytableview/EasyPathParser.java:236 | a digit string reads as its value |
| PathParser.SignedInteger | app/src/main/java/com/hzn/easytableview/EasyPathParser.java:236 | a minus followed by digits reads as the negated value |
| PathParser.NegatedValue | app/src/main/java/com/hzn/easytableview/EasyPathParser.java:236 | a leading '-' negates the value of the rest of the token, and keeps its rejection |
| PathParser.UnsignedDecimal | app/src/main/java/com/hzn/easytableview/EasyPathParser.java:236 | a token w.f reads as w + f / 10^|f|, or is rejected when it has no digit |
| PathParser.SignedDecimal | app/src/main/java/com/hzn/easytableview/EasyPathParser.java:236 | a token -w.f reads as -(w + f / 10^|f|), or is rejected when it has no digit |
| PathParser.DecimalParts | app/src/main/java/com/hzn/easytableview/EasyPathParser.java:236 | in w.f the first '.' sits right after the digits w, and the token does not start with '-' |
| PathParser.DotIndexAfterDigits | app/src/main/java/com/hzn/easytableview/EasyPathParser.java:236 | the first '.' of a string that starts with digits lies after them |
| PathParser.DecimalValue | app/src/main/java/com/hzn/easytableview/EasyPathParser.java:236 | a token w.f reads as w + f / 10^|f|, negated after a leading '-', and "." and "-." are rejected |
| PathParser.Consume | app/src/main/java/com/hzn/easytableview/EasyPathParser.java:234-237 | consumeNum counts the number and stores its value in the next slot, or fails with NumberFormatException on that token and leaves the slots alone |
| PathParser.ScanFrom | app/src/main/java/com/hzn/easytableview/EasyPathParser.java:196-232 | nextToken's scan only moves forward, writes only the slots of the numbers it reads, and, when it succeeds, stops at the end or right after the last number the command needs; what a successful scan stores is PathParser.ScanArguments |
| PathParser.ScanThroughToken | app/src/main/java/com/hzn/easytableview/EasyPathParser.java:202-214 | the scan appends the characters of a token (digits, a leading '-', one '.') to the pending number without stopping |
| PathParser.ScanTokenChar | app/src/main/java/com/hzn/easytableview/EasyPathParser.java:202-214 | one token character is appended and the rest of the token is still scanned as a token |
| PathParser.PeelFirst | app/src/main/java/com/hzn/easytableview/EasyPathParser.java:202-214 | appending a token's first character and then the rest appends the whole token |
| PathParser.MinusInsideToken | app/src/main/java/com/hzn/easytableview/EasyPathParser.java:204-205 | a '-' anywhere in a token but its first character throws "unexpected '-'" at its own index |
| PathParser.MisplacedDot | app/src/main/java/com/hzn/easytableview/EasyPathParser.java:206-207 | a '.' at the start of a token or after another '.' of it throws "unexpected '.'" at its own index |
| PathParser.BadNumberToken | app/src/main/java/com/hzn/easytableview/EasyPathParser.java:215-237 | a token Float.valueOf rejects ends the scan with NumberFormatException on that token |
| PathParser.MissingComma | app/src/main/java/com/hzn/easytableview/EasyPathParser.java:215-224 | a valid number followed by a character other than ',' while more numbers are due throws "expected ','" at that character |
| PathParser.ReadNonEmpty | app/src/main/java/com/hzn/easytableview/EasyPathParser.java:236 | a number Float.valueOf accepts has at least one character |
| PathParser.NumberEnds | app/src/main/java/com/hzn/easytableview/EasyPathParser.java:215-226 | after a number Float.valueOf accepts, its value goes into the next slot; the scan then ends (the last number) or goes on past the ',' to the next number from a fresh start |
| PathParser.ReadLast | app/src/main/java/com/hzn/easytableview/EasyPathParser.java:202-232 | the last number due, a token the scanner reads whole and Float.valueOf accepts, followed by a character that cannot continue it or by the end, is stored as its value in the last slot and the scan ends right after it |
| PathParser.ReadMore | app/src/main/java/com/hzn/easytableview/EasyPathParser.java:202-228 | a number before the last, followed by ',', is stored as its value in the next slot and the scan goes on after the ',' from a fresh start |
| PathParser.ScanArguments | app/src/main/java/com/hzn/easytableview/EasyPathParser.java:196-232 | when the input holds exactly the numbers still due, separated by single commas and followed by a character that cannot continue a number or by the end, nextToken reads them all without failing, stops right after the last one and stores their values in order from the next slot, leaving the other slots alone |
| PathParser.CommandReads | app/src/main/java/com/hzn/easytableview/EasyPathParser.java:81-178 | a command letter followed by exactly its arguments reads them all, stops right after the last, stores their values in the leading slots, subtracts the parent's offset for an upper-case letter with a parent and records that letter in `last` (the lower-case command otherwise) |
| PathParser.StepEmits | app/src/main/java/com/hzn/easytableview/EasyPathParser.java:75-178 | a pass of the loop over a command letter, or over a number repeating `last`, followed by exactly its arguments issues that command's Path call with the values read (offset as CommandReads says) and leaves the cursor right after the last number |
| PathParser.Shifted | app/src/main/java/com/hzn/easytableview/EasyPathParser.java:88-176 | an upper-case command with a parent subtracts the parent's x from even slots and y from odd slots of its point arguments, and leaves the rest |
| PathParser.Emit | app/src/main/java/com/hzn/easytableview/EasyPathParser.java:93-177 | addArc keeps the angles unscaled; addCircle scales the radius and is clockwise exactly when the fourth number is 1 |
| PathParser.Command | app/src/main/java/com/hzn/easytableview/EasyPathParser.java:81-178 | running a command advances past its letter, keeps six slots, records a valid `last`, and consumes any number that follows |
| PathParser.StepFrom | app/src/main/java/com/hzn/easytableview/EasyPathParser.java:65-190 | one pass of the loop either makes progress and emits a call, or stops the parse with an error or divergence |
| PathParser.StepAt | app/src/main/java/com/hzn/easytableview/EasyPathParser.java:75-190 | on a non-space character: a command letter, or a number repeating `last`, runs and makes progress; any other character stops the parse with "expected command character" at its own index; the call a pass issues is PathParser.StepEmits |
| PathParser.ParseFrom | app/src/main/java/com/hzn/easytableview/EasyPathParser.java:65-191 | a successful parse extends the calls already emitted |
| PathParser.ShiftArgs | app/src/main/java/com/hzn/easytableview/EasyPathParser.java:88-176 | the argument array is shifted in place by the parent offset as Shifted says |
| PathParser.ScanFailures | app/src/main/java/com/hzn/easytableview/EasyPathParser.java:196-237 | nextToken throws only "expected ','", "unexpected '-'", "unexpected '.'" or NumberFormatException |
| PathParser.ExpectedCommandOnlyThere | app/src/main/java/com/hzn/easytableview/EasyPathParser.java:75-189 | a pass of the loop fails with an exception nextToken cannot throw only when its character is no command letter and no repetition of `last` |
| PathParser.ParseRejectsNonCommand | app/src/main/java/com/hzn/easytableview/EasyPathParser.java:65-189 | at a loop boundary, a first non-space character that is no command letter and no number repeating `last` ends the parse with "expected command character" at its index |
| PathParser.EasyPathParser.constructor | app/src/main/java/com/hzn/easytableview/EasyPathParser.java:15-28 | a new parser has `last` set to no command and six zero argument slots |
| PathParser.EasyPathParser.ParsePath | app/src/main/java/com/hzn/easytableview/EasyPathParser.java:59-194 | parsePath stores the trimmed string and returns (or throws) what Parse gives from the parser's fields, leaving the fields Parse gives; the error rules of Parse are the lemmas PathParser.ParseRejectsNonCommand, ExpectedCommandOnlyThere, ScanFailures, MinusInsideToken, MisplacedDot, BadNumberToken and MissingComma, and the call each pass issues on well-formed arguments is PathParser.StepEmits |
| PathParser.EasyPathParser.ParseLoop | app/src/main/java/com/hzn/easytableview/EasyPathParser.java:65-193 | the main loop ends with Parse's outcome and fields |
| PathParser.EasyPathParser.ParseCommand | app/src/main/java/com/hzn/easytableview/EasyPathParser.java:66-190 | one pass of the loop does what StepFrom says |
| PathParser.EasyPathParser.Dispatch | app/src/main/java/com/hzn/easytableview/EasyPathParser.java:75-190 | the repetition test and the switch do what StepAt says |
| PathParser.EasyPathParser.SkipBlanks | app/src/main/java/com/hzn/easytableview/EasyPathParser.java:69-73 | the cursor moves to SkipSpaces and nothing else changes |
| PathParser.EasyPathParser.RunCommand | app/src/main/java/com/hzn/easytableview/EasyPathParser.java:84-178 | one command case does what Command says |
| PathParser.EasyPathParser.NextToken | app/src/main/java/com/hzn/easytableview/EasyPathParser.java:196-232 | nextToken does what ScanFrom says from one past the cursor |
| PathParser.EasyPathParser.ScanStep | app/src/main/java/com/hzn/easytableview/EasyPathParser.java:202-228 | one character of nextToken's loop either stops as ScanFrom does or advances by one, leaving the rest of the scan to ScanFrom |
| PathParser.EasyPathParser.EndNumber | app/src/main/java/com/hzn/easytableview/EasyPathParser.java:215-226 | a number ends by consumeNum; the scan stops on a failure, on the last needed number, or with "expected ','" when the separator is not a comma |
| PathParser.EasyPathParser.ConsumeNum | app/src/main/java/com/hzn/easytableview/EasyPathParser.java:234-237 | consumeNum does what Consume says on the parser's fields |
| PathExamples.OneDotFive | app/src/main/java/com/hzn/easytableview/EasyPathParser.java:236 | "1.5" reads as 1.5 |
| PathExamples.OneDot | app/src/main/java/com/hzn/easytableview/EasyPathParser.java:236 | "1." reads as 1 |
| PathExamples.MinusDotFive | app/src/main/java/com/hzn/easytableview/EasyPathParser.java:236 | "-.5" reads as -0.5 |
| PathExamples.LoneDots | app/src/main/java/com/hzn/easytableview/EasyPathParser.java:236 | "." and "-." are rejected by Float.valueOf |
| PathExamples.SecondDotExample | app/src/main/java/com/hzn/easytableview/EasyPathParser.java:206-207 | "m1.2.3" throws "unexpected '.'" at offset 4 |
| PathExamples.InnerMinusExample | app/src/main/java/com/hzn/easytableview/EasyPathParser.java:204-205 | "m1-2" throws "unexpected '-'" at offset 2 |
| PathExamples.ScanFirstPair | app/src/main/java/com/hzn/easytableview/EasyPathParser.java:196-232 | scanning "1,2" after "m" reads 1 and 2 into the first slots and stops on the space |
| PathExamples.ScanSecondPair | app/src/main/java/com/hzn/easytableview/EasyPathParser.java:196-232 | scanning "3,4" at the end reads 3 and 4 and stops at the end of input |
| PathExamples.ScanLonePair | app/src/main/java/com/hzn/easytableview/EasyPathParser.java:196-232 | scanning "3,4" from the start reads 3 and 4 |
| PathExamples.RepetitionExample | app/src/main/java/com/hzn/easytableview/EasyPathParser.java:75-94 | "m1,2 3,4" parses to two moveTo calls, the second a repetition of `m` |
| PathExamples.LastCarriesOverExample | app/src/main/java/com/hzn/easytableview/EasyPathParser.java:75-94 | a parser that already saw `m` reads a bare "3,4" as another moveTo, because `last` survives between calls |
| PathExamples.FreshParserRejectsPair | app/src/main/java/com/hzn/easytableview/EasyPathParser.java:188-189 | a fresh parser rejects a bare "3,4" with "expected command character" at offset 0 |
| PathExamples.NumberWithoutCommand | app/src/main/java/com/hzn/easytableview/EasyPathParser.java:76-189 | with no command seen yet, a number where a command is expected throws "expected command character" at that position |
| PathExamples.RepeatedCloseDiverges | app/src/main/java/com/hzn/easytableview/EasyPathParser.java:76-79 | a number after `z` repeats `z`, which steps back and forward to the same place forever |
| PathExamples.BlankParsesToNothing | app/src/main/java/com/hzn/easytableview/EasyPathParser.java:59-65 | a blank string parses to an empty path and leaves the cursor at 0 |
| PathExamples.BlankTrimStart | app/src/main/java/com/hzn/easytableview/EasyPathParser.java:61 | trimming a string of characters <= ' ' leaves nothing |
| Ranges.LegalIffIndexWindow | library/src/main/java/com/hzn/library/decoration/RangeDecoration.java:142-144 | a range is legal exactly when the cell list is present, start < end, and start..end-1 are valid indices |
| Ranges.WithTextColor | library/src/main/java/com/hzn/library/decoration/RangeDecoration.java:99-101 | recolouring a cell sets only its textColor |
| Ranges.RecolorRangeExact | library/src/main/java/com/hzn/library/decoration/RangeDecoration.java:94-104 | cells start..end-1 get the text colour and nothing else changes; every other cell is unchanged |
| Ranges.RecolorIdempotent | library/src/main/java/com/hzn/library/decoration/RangeDecoration.java:94-104 | setting the same text colour twice is the same as once |
| Ranges.RecolorKeepsIndexSafe | library/src/main/java/com/hzn/library/decoration/RangeDecoration.java:94-104 | recolouring keeps every cell's row and line, so the list stays safe to hand to updateData |
| Ranges.ShapeKinds | library/src/main/java/com/hzn/library/decoration/RangeDecoration.java:107-140 | a one-cell range is a circle; otherwise the first cell gets the start cap, the last the end cap, and the middle cells bands |
| Ranges.ShapeHeight | library/src/main/java/com/hzn/library/decoration/RangeDecoration.java:53-140 | every shape spans radius above and below its cell's centre |
| Ranges.ShapesFormStrip | library/src/main/java/com/hzn/library/decoration/RangeDecoration.java:53-140 | for side-by-side cells the shapes join edge to edge at one common height, from radius left of the first centre to radius right of the last |
| Ranges.SameRowFrom | library/src/main/java/com/hzn/library/decoration/RangeDecoration.java:107-140 | side-by-side cells share their centre height |
| Ranges.RangeDecoration.constructor | library/src/main/java/com/hzn/library/decoration/RangeDecoration.java:31-38 | stores its arguments unchecked |
| Ranges.RangeDecoration.Unranged | library/src/main/java/com/hzn/library/decoration/RangeDecoration.java:40-42 | without a range the decoration starts at -1..-1, which is illegal |
| Ranges.RangeDecoration.SetRadius | library/src/main/java/com/hzn/library/decoration/RangeDecoration.java:85-87 | only the radius changes |
| Ranges.RangeDecoration.SetRange | library/src/main/java/com/hzn/library/decoration/RangeDecoration.java:89-92 | only the bounds change, whether legal or not |
| Ranges.RangeDecoration.SetRangeTextColor | library/src/main/java/com/hzn/library/decoration/RangeDecoration.java:94-104 | on a legal range with a table, the range is recoloured (RecolorRange) and the whole list goes through the table's updateData, which keeps the table's settings, merges and gesture; otherwise neither the list nor the table changes |
| Ranges.RangeDecoration.Draw | library/src/main/java/com/hzn/library/decoration/RangeDecoration.java:107-140 | an illegal range draws nothing; a legal one draws one shape per cell, as ShapeAt says |
| CalendarCheck.CheckMark | app/src/main/java/com/hzn/easytableview/CalendarCheckDecoration.java:53-60 | a check mark is three points |
| CalendarCheck.CheckMarkInsideCell | app/src/main/java/com/hzn/easytableview/CalendarCheckDecoration.java:53-60 | for a cell of positive size the mark lies strictly inside it and is a V: down-right, then up-right above its start |
| CalendarCheck.TapDrawsIffNewPosition | app/src/main/java/com/hzn/easytableview/CalendarCheckDecoration.java:45-68 | a tap draws a mark exactly when it names a cell at another row or line than the checked one; it then becomes the checked cell, otherwise the checked cell stays |
| CalendarCheck.RepeatedTapNeverRechecks | app/src/main/java/com/hzn/easytableview/CalendarCheckDecoration.java:45-68 | tapping the same cell twice draws nothing the second time and keeps the state |
| CalendarCheck.AlternatingTapsRecheck | app/src/main/java/com/hzn/easytableview/CalendarCheckDecoration.java:45-68 | alternating between two positions checks each again in turn |
| CalendarCheck.CalendarCheckDecoration.constructor | app/src/main/java/com/hzn/easytableview/CalendarCheckDecoration.java:28-37 | nothing is checked and the path is empty |
| CalendarCheck.CalendarCheckDecoration.Default | app/src/main/java/com/hzn/easytableview/CalendarCheckDecoration.java:24-27 | the default mark is green and 10 wide |
| CalendarCheck.CalendarCheckDecoration.SetCheckedCell | app/src/main/java/com/hzn/easytableview/CalendarCheckDecoration.java:45-62 | the checked cell and the path become what Tap gives from the old checked cell |
| CalendarCheck.CalendarCheckDecoration.Draw | app/src/main/java/com/hzn/easytableview/CalendarCheckDecoration.java:40-43 | the path is drawn exactly when it is not empty |

## Left out

- Drawing is not modelled: Canvas, Paint, RectF, the headers, strokes, texts, outer stroke and the corner arcs themselves. The model keeps only which corners are rounded (`Corners`) and which shapes a decoration draws (`Ranges.Shape`, `CalendarCheck.Point`).
- Text measurement is a parameter: `measure(text, size)` stands for TextPaint.measureText, and `lineHeight(size)` for the font metrics' bottom - top. `spToPx(14)` is the constructor's `textSize` argument.
- onMeasure and the TypedArray attribute reading are not modelled; the table's background rectangle (`bgLeft`, `bgTop`, `bgRight`, `bgBottom`) is a field.
- Float arithmetic is modelled with `real`, so there is no rounding, no int-to-float truncation of pixel sizes, and Float.valueOf reads decimals exactly.
- Table.EasyTableView.constructor: a table with 0 rows or 0 lines is not modelled; the source leaves `cellArr` null then. Valid() requires at least one row and one line.
- Table.EasyTableView.SetDimensions: setData(rows, lines, list) with 0 rows or 0 lines is not modelled (it requires at least one of each); the source accepts it, allocates empty size arrays and keeps the previous `cellArr`.
- Table.EasyTableView.SetData: negative row or line indices in the list are excluded by the IndexSafe precondition; the source only checks the upper bounds and throws ArrayIndexOutOfBoundsException for them. A null list is modelled as the empty sequence.
- Table.EasyTableView.SetData: a cell with auto width or height whose textSizes array is shorter than its texts is excluded by LoadMeasurable; the source throws an index error while measuring it.
- Table.EasyTableView.UpdateData: negative indices are excluded by IndexSafe, as for SetData.
- Table.EasyTableView.InitData: the source would index out of bounds on a merge stranded outside the table by removeRows or removeLines. InitData requires MergesInGrid, and Mutations.RowRemovalStrandsMerge shows such a stranding.
- requestLayout() and invalidate() are modelled as the `layoutRequested` flag.
- Aliasing is not modelled. Cells and merges are values, so the model does not capture:
  - mergeCells writing the background and text attributes into the caller's MergeInfo objects;
  - RangeDecoration.setRangeTextColor mutating CellInfo objects that the table shares;
  - unmergeCells removing by object identity (modelled by a `ref` number on each MergeInfo).
- Ranges.RangeDecoration.Draw: in the source the decoration's list holds the same CellInfo objects the table stores (EasyTableView.java:774, 898), so draw reads the startX, startY, width and height that initData wrote into them. The model's decoration holds its own values, which never receive the layout, so Draw uses the coordinates and sizes the caller put in the list.
- Ranges.RangeDecoration.SetRangeTextColor: for the same reason the list handed to updateData carries the caller's own widths and heights (-1 for automatic sizes) rather than the laid-out ones; through FloorSize the model sets every inner column and row the list addresses to those values and the boundary ones to at least the corner radius, where the source writes the laid-out sizes back unchanged.
- The loops that null out the old arrays before reallocating them are not modelled; Dafny's memory is managed.
- updateMergeData is not modelled; it only re-adds merges, as mergeCells does.
- The plain setters and getters, reset(), setBottomDecorations/setTopDecorations and drawing the decorations list are not modelled.
- HitTest.TouchStep follows the code: a MOVE forgets the pressed target only when both axes exceed the touch slop (HitTest.HorizontalDragStillClicks shows the consequence).
- PathParser: parsePath's nested loops are split into helper methods (SkipBlanks, Dispatch, RunCommand, NextToken, ScanStep). The android.graphics.Path is the list of calls it receives (`PathOp`). The parent View is its (x, y) position or None.
- PathParser.Parse: the input where a number follows `z` makes the source loop forever. The model reports it as the `Diverges` outcome instead of running (PathExamples.RepeatedCloseDiverges).
- PathParser.NumberValue: only digit strings with an optional leading minus and a single optional '.' are read; exponents and the other forms Float.valueOf accepts cannot reach it, because the scanner only collects digits, '-' and '.'.
- Ranges.RangeDecoration.Draw: the source's null check on a list element is dropped; cells are values and cannot be null.
- Ranges.RangeDecoration.Draw: the startPath and endPath objects the source keeps in fields, and resets and refills on every draw, are not modelled as state; Draw returns the shapes one draw paints.
- The demo app's activities, EasyPathView, its copy of EasyTableView, CircleDecoration, the EasyDecoration interface and the singleton locking are not part of this model.
