/**
 * Value-level meaning of the table's structural and merge operations:
 * the acceptance rule of removeRows/removeLines, the floor on a sole
 * surviving row or column, which merges mergeCells registers and with
 * which colour, and what unmergeCells leaves behind.
 */
module Mutations {
  import opened Records
  import opened GridOps
  import opened Layout

  const ADD_ROWS_TOP := 0
  const ADD_ROWS_BOTTOM := 1
  const ADD_LINES_LEFT := 2
  const ADD_LINES_RIGHT := 3
  const ADD_ROWS_DEFAULT_HEIGHT := 20.0
  const ADD_LINES_DEFAULT_WIDTH := 20.0

  /** A negative size for inserted rows (columns) means "use the default". */
  function InsertedSize(size: real, default: real): (s: real)
    ensures size >= 0.0 ==> s == size
    ensures size < 0.0 ==> s == default
  {
    if size < 0.0 then default else size
  }

  /** removeRows / removeLines reject an empty or reversed span, one that would remove everything, or one out of range. */
  predicate RemovalAccepted(start: int, end: int, count: int) {
    var k := end - start + 1;
    !(k <= 0 || k >= count || start < 0 || end >= count)
  }

  /** The rejection rule accepts exactly a proper, non-total, in-range span. */
  lemma RemovalAcceptedMeaning(start: int, end: int, count: int)
    ensures RemovalAccepted(start, end, count) <==>
              0 <= start <= end < count && end - start + 1 < count
    ensures RemovalAccepted(start, end, count) ==> count - (end - start + 1) >= 1
  {
  }

  /** A sole surviving row (column) is raised to room for two corner cuts; otherwise sizes are kept. */
  function SoleFloor(s: seq<real>, corner: real): (r: seq<real>)
    ensures |r| == |s|
    ensures |s| == 1 ==> r[0] >= 2.0 * corner && (r[0] == s[0] || r[0] == 2.0 * corner)
    ensures |s| == 1 && s[0] >= 2.0 * corner ==> r == s
    ensures |s| != 1 ==> r == s
  {
    if |s| == 1 && s[0] < 2.0 * corner then [2.0 * corner] else s
  }

  /** The sizes after removing the inclusive span [start..end]. */
  function SizesAfterRemoval(s: seq<real>, start: int, end: int, corner: real): (r: seq<real>)
    requires RemovalAccepted(start, end, |s|)
    ensures |r| == |s| - (end - start + 1) >= 1
    ensures |r| > 1 ==> r == RemoveSpan(s, start, end)
  {
    SoleFloor(RemoveSpan(s, start, end), corner)
  }

  /**
   * Removing every row but one leaves a row at least twice the corner radius
   * high, which is its old height whenever that was already enough.
   */
  lemma SoleSurvivorFitsTwoCuts(s: seq<real>, start: int, end: int, corner: real)
    requires RemovalAccepted(start, end, |s|) && end - start + 1 == |s| - 1
    ensures var r := SizesAfterRemoval(s, start, end, corner);
            |r| == 1 && r[0] >= 2.0 * corner &&
            r[0] == (if start == 0 then Max(s[|s| - 1], 2.0 * corner) else Max(s[0], 2.0 * corner))
  {
    var t := RemoveSpan(s, start, end);
    if start == 0 {
      assert t[0] == s[|s| - 1];
    } else {
      assert t[0] == s[0];
    }
  }

  /**
   * Removing exactly the run that an insertion added gives back the old sizes,
   * except that a sole original row (column) comes back raised to twice the
   * corner radius.
   */
  lemma AddThenRemoveRestoresSizes(s: seq<real>, at: int, k: nat, x: real, corner: real)
    requires |s| >= 1 && -1 <= at < |s| && k >= 1
    ensures RemovalAccepted(at + 1, at + k, |s| + k)
    ensures SizesAfterRemoval(InsertAt(s, at, k, x), at + 1, at + k, corner) == SoleFloor(s, corner)
    ensures |s| > 1 ==> SizesAfterRemoval(InsertAt(s, at, k, x), at + 1, at + k, corner) == s
  {
    RemoveInsertedRestores(s, at, k, x);
  }

  /**
   * Row removal leaves the merge list alone, so a merge stays inside the
   * grid exactly when it ends above the new last row; a merge reaching into
   * the removed tail is stranded.
   */
  lemma MergeSurvivesRowRemovalIff(m: MergeInfo, rows: int, lines: int, start: int, end: int)
    requires RemovalAccepted(start, end, rows) && MergeInGrid(m, rows, lines)
    ensures MergeInGrid(m, rows - (end - start + 1), lines) <==> m.endRow < rows - (end - start + 1)
  {
  }

  /** A concrete stranding: a merge over rows 1..2 of a 3-row table after removeRows(0, 0). */
  lemma RowRemovalStrandsMerge()
    ensures var m := MakeMerge(0, TYPE_NORMAL, NoTag, 1, 0, 2, 0, 0, EMPTY_TEXT);
            MergeInGrid(m, 3, 1) && RemovalAccepted(0, 0, 3) && !MergeInGrid(m, 3 - 1, 1)
  {
  }

  // ---------------------------------------------------------------------------
  // mergeCells / unmergeCells

  /** The colour a registered merge gets: its own, else its left-top cell's, else the table's. */
  function MergeBg(own: int, cellBg: int, tableBg: int): (c: int)
    ensures own != 0 ==> c == own
    ensures own == 0 && cellBg != 0 ==> c == cellBg
    ensures own == 0 && cellBg == 0 ==> c == tableBg
  {
    if own != 0 then own else if cellBg != 0 then cellBg else tableBg
  }

  /** A merge as mergeCells stores it: background defaulted and text attributes filled. */
  function Registered(m: MergeInfo, cellBg: int, tableBg: int, defaultSize: int): (d: MergeInfo)
    requires defaultSize != UNSET_TEXT_SIZE
    ensures d.(bgColor := m.bgColor, text := m.text) == m
    ensures d.bgColor == MergeBg(m.bgColor, cellBg, tableBg)
    ensures d.text == FillTextAttrs(m.text, defaultSize)
  {
    FillMergeTextAttrs(m.(bgColor := MergeBg(m.bgColor, cellBg, tableBg)), defaultSize)
  }

  /** The entries of `list` that mergeCells accepts, registered, in input order. */
  function AcceptMerges(list: seq<MergeInfo>, g: seq<seq<CellInfo>>, lines: int, tableBg: int,
                        defaultSize: int): (r: seq<MergeInfo>)
    requires defaultSize != UNSET_TEXT_SIZE && Rectangular(g, lines)
    ensures |r| <= |list|
    ensures forall j :: 0 <= j < |r| ==> MergeInGrid(r[j], |g|, lines)
    decreases |list|
  {
    if |list| == 0 then []
    else
      var m := list[|list| - 1];
      var front := AcceptMerges(list[..|list| - 1], g, lines, tableBg, defaultSize);
      if MergeInGrid(m, |g|, lines)
      then front + [Registered(m, g[m.startRow][m.startLine].bgColor, tableBg, defaultSize)]
      else front
  }

  /** The registered form of an in-grid entry: its start cell's colour decides the background. */
  function RegisteredIn(m: MergeInfo, g: seq<seq<CellInfo>>, lines: int, tableBg: int, defaultSize: int): MergeInfo
    requires defaultSize != UNSET_TEXT_SIZE && Rectangular(g, lines) && MergeInGrid(m, |g|, lines)
  {
    Registered(m, g[m.startRow][m.startLine].bgColor, tableBg, defaultSize)
  }

  /** Whether x is the registered form of an in-grid entry of `list`. */
  ghost predicate FromBatch(x: MergeInfo, list: seq<MergeInfo>, g: seq<seq<CellInfo>>, lines: int,
                            tableBg: int, defaultSize: int)
    requires defaultSize != UNSET_TEXT_SIZE && Rectangular(g, lines)
  {
    exists i :: 0 <= i < |list| && MergeInGrid(list[i], |g|, lines) &&
      x == RegisteredIn(list[i], g, lines, tableBg, defaultSize)
  }

  /** Every accepted merge is the registered form of an in-grid entry of the batch. */
  lemma {:induction false} AcceptMergesSound(list: seq<MergeInfo>, g: seq<seq<CellInfo>>, lines: int,
                                             tableBg: int, defaultSize: int)
    requires defaultSize != UNSET_TEXT_SIZE && Rectangular(g, lines)
    ensures forall x :: x in AcceptMerges(list, g, lines, tableBg, defaultSize) ==>
              FromBatch(x, list, g, lines, tableBg, defaultSize)
    decreases |list|
  {
    if |list| > 0 {
      var front := list[..|list| - 1];
      AcceptMergesSound(front, g, lines, tableBg, defaultSize);
      forall x | x in AcceptMerges(list, g, lines, tableBg, defaultSize)
        ensures FromBatch(x, list, g, lines, tableBg, defaultSize)
      {
        if x in AcceptMerges(front, g, lines, tableBg, defaultSize) {
          assert FromBatch(x, front, g, lines, tableBg, defaultSize);
          var i :| 0 <= i < |front| && MergeInGrid(front[i], |g|, lines) &&
                   x == RegisteredIn(front[i], g, lines, tableBg, defaultSize);
          assert list[i] == front[i];
        } else {
          var k := |list| - 1;
          assert MergeInGrid(list[k], |g|, lines) && x == RegisteredIn(list[k], g, lines, tableBg, defaultSize);
        }
      }
    }
  }

  /** Every in-grid entry of the batch is registered. */
  lemma {:induction false} AcceptMergesComplete(list: seq<MergeInfo>, g: seq<seq<CellInfo>>, lines: int,
                                                tableBg: int, defaultSize: int)
    requires defaultSize != UNSET_TEXT_SIZE && Rectangular(g, lines)
    ensures forall i :: 0 <= i < |list| && MergeInGrid(list[i], |g|, lines) ==>
              RegisteredIn(list[i], g, lines, tableBg, defaultSize) in AcceptMerges(list, g, lines, tableBg, defaultSize)
    decreases |list|
  {
    if |list| > 0 {
      var front := list[..|list| - 1];
      AcceptMergesComplete(front, g, lines, tableBg, defaultSize);
      forall i | 0 <= i < |list| - 1 && MergeInGrid(list[i], |g|, lines)
        ensures RegisteredIn(list[i], g, lines, tableBg, defaultSize) in AcceptMerges(list, g, lines, tableBg, defaultSize)
      {
        assert front[i] == list[i];
      }
    }
  }

  /** Nothing is registered exactly when no entry lies inside the grid. */
  lemma {:induction false} AcceptMergesNoneIff(list: seq<MergeInfo>, g: seq<seq<CellInfo>>, lines: int,
                                               tableBg: int, defaultSize: int)
    requires defaultSize != UNSET_TEXT_SIZE && Rectangular(g, lines)
    ensures AcceptMerges(list, g, lines, tableBg, defaultSize) == [] <==>
              forall i :: 0 <= i < |list| ==> !MergeInGrid(list[i], |g|, lines)
    decreases |list|
  {
    if |list| > 0 {
      var front := list[..|list| - 1];
      AcceptMergesNoneIff(front, g, lines, tableBg, defaultSize);
      assert forall i :: 0 <= i < |list| - 1 ==> front[i] == list[i];
    }
  }

  /** Registering two batches one after the other is registering them together: input order is kept. */
  lemma {:induction false} AcceptMergesAppend(a: seq<MergeInfo>, b: seq<MergeInfo>, g: seq<seq<CellInfo>>,
                                             lines: int, tableBg: int, defaultSize: int)
    requires defaultSize != UNSET_TEXT_SIZE && Rectangular(g, lines)
    ensures AcceptMerges(a + b, g, lines, tableBg, defaultSize)
         == AcceptMerges(a, g, lines, tableBg, defaultSize) + AcceptMerges(b, g, lines, tableBg, defaultSize)
    decreases |b|
  {
    if |b| == 0 {
      assert a + b == a;
    } else {
      var b' := b[..|b| - 1];
      assert (a + b)[..|a + b| - 1] == a + b';
      assert (a + b)[|a + b| - 1] == b[|b| - 1];
      AcceptMergesAppend(a, b', g, lines, tableBg, defaultSize);
    }
  }

  /** Whether some entry of `list` is the same object (same reference) as m. */
  predicate Listed(m: MergeInfo, list: seq<MergeInfo>) {
    exists j :: 0 <= j < |list| && list[j].ref == m.ref
  }

  /** removeAll: the merges that are not the same object as any entry of `gone`, in their order. */
  function Unmerged(ms: seq<MergeInfo>, gone: seq<MergeInfo>): (r: seq<MergeInfo>)
    ensures |r| <= |ms|
    ensures forall m :: m in r <==> m in ms && !Listed(m, gone)
    decreases |ms|
  {
    if |ms| == 0 then []
    else
      var front := Unmerged(ms[..|ms| - 1], gone);
      var m := ms[|ms| - 1];
      assert ms == ms[..|ms| - 1] + [m];
      if Listed(m, gone) then front else front + [m]
  }

  lemma {:induction false} UnmergedAppend(a: seq<MergeInfo>, b: seq<MergeInfo>, gone: seq<MergeInfo>)
    ensures Unmerged(a + b, gone) == Unmerged(a, gone) + Unmerged(b, gone)
    decreases |b|
  {
    if |b| == 0 {
      assert a + b == a;
    } else {
      var b' := b[..|b| - 1];
      assert (a + b)[..|a + b| - 1] == a + b';
      assert (a + b)[|a + b| - 1] == b[|b| - 1];
      UnmergedAppend(a, b', gone);
    }
  }

  /** Unmerging entries none of which is registered leaves the list as it is. */
  lemma {:induction false} UnmergeUnlistedKeeps(ms: seq<MergeInfo>, gone: seq<MergeInfo>)
    requires forall i :: 0 <= i < |ms| ==> !Listed(ms[i], gone)
    ensures Unmerged(ms, gone) == ms
    decreases |ms|
  {
    if |ms| > 0 {
      UnmergeUnlistedKeeps(ms[..|ms| - 1], gone);
      assert ms == ms[..|ms| - 1] + [ms[|ms| - 1]];
    }
  }

  /** Unmerging a list of merges all of which are listed leaves nothing. */
  lemma {:induction false} UnmergeListedRemovesAll(ms: seq<MergeInfo>, gone: seq<MergeInfo>)
    requires forall i :: 0 <= i < |ms| ==> Listed(ms[i], gone)
    ensures Unmerged(ms, gone) == []
    decreases |ms|
  {
    if |ms| > 0 {
      UnmergeListedRemovesAll(ms[..|ms| - 1], gone);
    }
  }

  /** Every registered merge is the same object as an entry of the batch. */
  lemma AcceptedAreListed(list: seq<MergeInfo>, g: seq<seq<CellInfo>>, lines: int, tableBg: int, defaultSize: int)
    requires defaultSize != UNSET_TEXT_SIZE && Rectangular(g, lines)
    ensures forall j :: 0 <= j < |AcceptMerges(list, g, lines, tableBg, defaultSize)| ==>
              Listed(AcceptMerges(list, g, lines, tableBg, defaultSize)[j], list)
  {
    var added := AcceptMerges(list, g, lines, tableBg, defaultSize);
    AcceptMergesSound(list, g, lines, tableBg, defaultSize);
    forall j | 0 <= j < |added| ensures Listed(added[j], list) {
      assert FromBatch(added[j], list, g, lines, tableBg, defaultSize);
      var i :| 0 <= i < |list| && MergeInGrid(list[i], |g|, lines) &&
               added[j] == RegisteredIn(list[i], g, lines, tableBg, defaultSize);
      assert list[i].ref == added[j].ref;
    }
  }

  /**
   * Round trip: merging a batch of new objects and then unmerging the same
   * objects gives back the original merge list.
   */
  lemma MergeThenUnmergeRestores(ms: seq<MergeInfo>, list: seq<MergeInfo>, g: seq<seq<CellInfo>>,
                                 lines: int, tableBg: int, defaultSize: int)
    requires defaultSize != UNSET_TEXT_SIZE && Rectangular(g, lines)
    requires forall i :: 0 <= i < |ms| ==> !Listed(ms[i], list)
    ensures Unmerged(ms + AcceptMerges(list, g, lines, tableBg, defaultSize), list) == ms
  {
    var added := AcceptMerges(list, g, lines, tableBg, defaultSize);
    AcceptedAreListed(list, g, lines, tableBg, defaultSize);
    UnmergeListedRemovesAll(added, list);
    UnmergeUnlistedKeeps(ms, list);
    UnmergedAppend(ms, added, list);
  }
}
