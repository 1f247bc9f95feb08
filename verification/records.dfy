/**
 * The two plain records of the table widget: a cell (CellInfo) and a merged
 * region (MergeInfo), with their sentinel defaults and the rule that fills
 * their per-line text colours and sizes.
 */
module Records {

  datatype Option<T> = None | Some(value: T)

  /** The drawing type of a cell: NONE hides it but keeps its data. */
  const TYPE_NONE: int := 0
  const TYPE_NORMAL: int := 1
  const TYPE_BUTTON: int := 2

  /** android.graphics.Color.BLACK as a signed 32-bit ARGB value (0xFF000000). */
  const BLACK: int := -16777216

  /** The "unset" value of a text size. */
  const UNSET_TEXT_SIZE: int := -1

  /** The opaque tag a caller may attach to a cell or merge (a Java Object, or null). */
  datatype Tag = NoTag | Tag(id: nat)

  /**
   * Text of a cell or merge: several lines, each with its own colour and size.
   * A scalar textColor (non-zero) or textSize (not -1) overrides the per-line array.
   * `None` stands for a Java null array.
   */
  datatype TextAttrs = TextAttrs(
    textColor: int,
    textColors: Option<seq<int>>,
    textSize: int,
    textSizes: Option<seq<int>>,
    texts: Option<seq<string>>)
  {
    /** The record has at least one text line, the only case the fill rule touches. */
    predicate HasText() {
      texts.Some? && |texts.value| > 0
    }
  }

  /** A cell record. Negative width/height means "size automatically". */
  datatype CellInfo = CellInfo(
    cellType: int,
    tag: Tag,
    row: int,
    line: int,
    startX: real,
    startY: real,
    width: real,
    height: real,
    bgColor: int,
    text: TextAttrs)
  {
    predicate IsAutoWidth() { width < 0.0 }
    predicate IsAutoHeight() { height < 0.0 }
    /** A cell with bgColor 0 paints no background of its own. */
    predicate HasOwnBackground() { bgColor != 0 }
    /** TYPE_NONE cells keep their data but are not drawn. */
    predicate IsHidden() { cellType == TYPE_NONE }
  }

  /**
   * Identity of a MergeInfo object. MergeInfo does not override equals, so two
   * merges are "the same" for ArrayList.removeAll only when they are one object.
   */
  type MergeRef = nat

  /** A merged region over the inclusive rectangle [startRow..endRow] x [startLine..endLine]. */
  datatype MergeInfo = MergeInfo(
    ref: MergeRef,
    mergeType: int,
    tag: Tag,
    startRow: int,
    startLine: int,
    endRow: int,
    endLine: int,
    startX: real,
    startY: real,
    width: real,
    height: real,
    bgColor: int,
    text: TextAttrs)

  const EMPTY_TEXT: TextAttrs := TextAttrs(0, None, UNSET_TEXT_SIZE, None, None)

  /** `new CellInfo()`: every field at its sentinel. */
  function NewCell(): (c: CellInfo)
    ensures c.IsAutoWidth() && c.IsAutoHeight()
    ensures !c.HasOwnBackground() && !c.IsHidden() && !c.text.HasText()
    ensures c.row < 0 && c.line < 0
  {
    CellInfo(TYPE_NORMAL, NoTag, -1, -1, 0.0, 0.0, -1.0, -1.0, 0, EMPTY_TEXT)
  }

  /** `new MergeInfo()` (the object known as `ref`): bounds at Java's int default 0, geometry unset. */
  function NewMerge(ref: MergeRef): (m: MergeInfo)
    ensures m.ref == ref && m.width < 0.0 && m.height < 0.0
    ensures m.startX == 0.0 && m.startY == 0.0 && m.bgColor == 0 && !m.text.HasText()
  {
    MergeInfo(ref, TYPE_NORMAL, NoTag, 0, 0, 0, 0, 0.0, 0.0, -1.0, -1.0, 0, EMPTY_TEXT)
  }

  /** The full MergeInfo constructor: copies its arguments, checks nothing, leaves geometry unset. */
  function MakeMerge(ref: MergeRef, mergeType: int, tag: Tag, startRow: int, startLine: int,
                     endRow: int, endLine: int, bgColor: int, text: TextAttrs): (m: MergeInfo)
    ensures m.ref == ref && m.startRow == startRow && m.endRow == endRow
    ensures m.startLine == startLine && m.endLine == endLine
    ensures m.bgColor == bgColor && m.text == text && m.mergeType == mergeType && m.tag == tag
    ensures m.width < 0.0 && m.height < 0.0
  {
    MergeInfo(ref, mergeType, tag, startRow, startLine, endRow, endLine, 0.0, 0.0, -1.0, -1.0, bgColor, text)
  }

  function Repeat<T>(x: T, n: nat): (s: seq<T>)
    ensures |s| == n && forall i :: 0 <= i < n ==> s[i] == x
  {
    if n == 0 then [] else Repeat(x, n - 1) + [x]
  }

  /**
   * fillTextAttrs / fillMergeTextAttrs: when there is text, default the scalar
   * colour to BLACK and the scalar size to `defaultSize` (14sp in pixels) when
   * neither scalar nor array is set, then let a set scalar override the array
   * line by line. Without text nothing changes.
   */
  function FillTextAttrs(s: TextAttrs, defaultSize: int): (r: TextAttrs)
    requires defaultSize != UNSET_TEXT_SIZE
    ensures !s.HasText() ==> r == s
    ensures r.texts == s.texts
    ensures s.HasText() ==> r.textColors.Some? && r.textSizes.Some?
    // a set scalar wins over the per-line array, line by line
    ensures s.HasText() && s.textColor != 0 ==>
              r.textColor == s.textColor && r.textColors == Some(Repeat(s.textColor, |s.texts.value|))
    ensures s.HasText() && s.textSize != UNSET_TEXT_SIZE ==>
              r.textSize == s.textSize && r.textSizes == Some(Repeat(s.textSize, |s.texts.value|))
    // neither set: BLACK and the default size
    ensures s.HasText() && s.textColor == 0 && s.textColors.None? ==>
              r.textColor == BLACK && r.textColors == Some(Repeat(BLACK, |s.texts.value|))
    ensures s.HasText() && s.textSize == UNSET_TEXT_SIZE && s.textSizes.None? ==>
              r.textSize == defaultSize && r.textSizes == Some(Repeat(defaultSize, |s.texts.value|))
    // only the array set: it is kept as given
    ensures s.textColor == 0 && s.textColors.Some? ==> r.textColor == 0 && r.textColors == s.textColors
    ensures s.textSize == UNSET_TEXT_SIZE && s.textSizes.Some? ==>
              r.textSize == UNSET_TEXT_SIZE && r.textSizes == s.textSizes
  {
    if !s.HasText() then s
    else
      var n := |s.texts.value|;
      var color := if s.textColor == 0 && s.textColors.None? then BLACK else s.textColor;
      var colors := if color != 0 then Some(Repeat(color, n)) else s.textColors;
      var size := if s.textSize == UNSET_TEXT_SIZE && s.textSizes.None? then defaultSize else s.textSize;
      var sizes := if size != UNSET_TEXT_SIZE then Some(Repeat(size, n)) else s.textSizes;
      s.(textColor := color, textColors := colors, textSize := size, textSizes := sizes)
  }

  /** Filling twice is filling once: the table may refill a record it already holds. */
  lemma FillTextAttrsIdempotent(s: TextAttrs, defaultSize: int)
    requires defaultSize != UNSET_TEXT_SIZE
    ensures FillTextAttrs(FillTextAttrs(s, defaultSize), defaultSize) == FillTextAttrs(s, defaultSize)
  {
  }

  /** fillTextAttrs on a cell: only its text attributes change. */
  function FillCellTextAttrs(c: CellInfo, defaultSize: int): (r: CellInfo)
    requires defaultSize != UNSET_TEXT_SIZE
    ensures r.(text := c.text) == c
    ensures c.text.HasText() ==> r.text.textColors.Some? && r.text.textSizes.Some?
  {
    c.(text := FillTextAttrs(c.text, defaultSize))
  }

  /** fillMergeTextAttrs on a merge: only its text attributes change. */
  function FillMergeTextAttrs(m: MergeInfo, defaultSize: int): (r: MergeInfo)
    requires defaultSize != UNSET_TEXT_SIZE
    ensures r.(text := m.text) == m
    ensures m.text.HasText() ==> r.text.textColors.Some? && r.text.textSizes.Some?
  {
    m.(text := FillTextAttrs(m.text, defaultSize))
  }

  /**
   * After filling, every text line has a size to measure it with, unless the
   * caller supplied a size array shorter than the texts (then the source fails
   * with an index error when it measures).
   */
  predicate SizesCoverTexts(s: TextAttrs) {
    s.HasText() ==> s.textSizes.Some? && |s.textSizes.value| >= |s.texts.value|
  }

  lemma FillCoversSizes(s: TextAttrs, defaultSize: int)
    requires defaultSize != UNSET_TEXT_SIZE
    requires s.HasText() && s.textSize == UNSET_TEXT_SIZE && s.textSizes.Some? ==>
               |s.textSizes.value| >= |s.texts.value|
    ensures SizesCoverTexts(FillTextAttrs(s, defaultSize))
  {
  }
}
