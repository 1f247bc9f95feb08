/**
 * The path mini-language of the demo app: a trimmed string of command
 * letters, each followed by a fixed number of comma-separated decimal
 * numbers, turned into a list of android.graphics.Path calls. The scanner
 * state (curIndex, last, argNum, curNum and the six-slot args array) lives in
 * a long-lived parser object, so `last` and `args` carry over from one call
 * to the next.
 */
module PathParser {
  import opened Records

  /** The Path call issued for one command, arguments already offset and scaled. */
  datatype PathOp =
    | MoveTo(x: real, y: real)
    | LineTo(x: real, y: real)
    | AddArc(left: real, top: real, right: real, bottom: real, startAngle: real, sweepAngle: real)
    | AddCircle(cx: real, cy: real, radius: real, clockwise: bool)
    | QuadTo(x1: real, y1: real, x2: real, y2: real)
    | CubicTo(x1: real, y1: real, x2: real, y2: real, x3: real, y3: real)
    | Close

  /** java.text.ParseException (message and offset) or the NumberFormatException of Float.valueOf. */
  datatype Failure = ParseException(message: string, offset: int) | NumberFormatException(token: string)

  /** Parsed: the path's calls; Diverges: the input would make the parser loop forever. */
  datatype Outcome = Parsed(ops: seq<PathOp>) | Failed(failure: Failure) | Diverges

  /** The scanner fields: curIndex, last, argNum, curNum and the contents of args. */
  datatype Scanner = Scanner(index: int, last: char, argNum: int, curNum: int, args: seq<real>)

  /** The result of scanning numbers: the new scanner fields and the exception, if any. */
  datatype Scanned = Scanned(sc: Scanner, failure: Option<Failure>)

  /** The result of a whole parse: what parsePath returns or throws, and the fields it leaves. */
  datatype Run = Run(outcome: Outcome, sc: Scanner)

  /** The initial value of `last`: no command seen yet, so no repetition. */
  const NO_COMMAND: char := '!'

  const ARG_SLOTS: int := 6

  /** The messages of the ParseExceptions parsePath and nextToken throw. */
  const EXPECTED_COMMAND: string := "expected command character"
  const EXPECTED_COMMA: string := "expected ','"
  const UNEXPECTED_MINUS: string := "unexpected '-'"
  const UNEXPECTED_DOT: string := "unexpected '.'"

  predicate IsDigit(c: char) { '0' <= c <= '9' }

  /** A character that belongs to a number token. */
  predicate IsNumberChar(c: char) { IsDigit(c) || c == '-' || c == '.' }

  /** A character that makes the parser repeat the previous command. */
  predicate StartsNumber(c: char) { IsDigit(c) || c == '-' }

  predicate IsCommand(c: char) { IsLower(c) || IsUpper(c) }

  /** The lower-case commands, the only ones `last` records without an offset. */
  predicate IsLower(c: char) { c == 'm' || c == 'l' || c == 'a' || c == 'o' || c == 'q' || c == 'c' || c == 'z' }

  predicate IsUpper(c: char) { c == 'M' || c == 'L' || c == 'A' || c == 'O' || c == 'Q' || c == 'C' || c == 'Z' }

  /** The values `last` can hold: the start marker, a lower-case command, or an upper-case one stored after an offset. */
  predicate IsLast(c: char) { c == NO_COMMAND || (IsCommand(c) && c != 'Z') }

  /** The lower-case command of a command letter. */
  function CommandOf(c: char): (r: char)
    requires IsCommand(c)
    ensures IsLower(r)
    ensures IsLower(c) ==> r == c
  {
    match c
    case 'M' => 'm' case 'L' => 'l' case 'A' => 'a' case 'O' => 'o'
    case 'Q' => 'q' case 'C' => 'c' case 'Z' => 'z'
    case _ => c
  }

  /** A lower-case command that reads numbers (every one but z). */
  predicate HasArgs(cmd: char) { IsLower(cmd) && cmd != 'z' }

  /** argNum of each command: how many numbers it reads. */
  function Arity(cmd: char): (n: int)
    requires HasArgs(cmd)
    ensures 2 <= n <= ARG_SLOTS
    ensures (cmd == 'm' || cmd == 'l') ==> n == 2
    ensures (cmd == 'o' || cmd == 'q') ==> n == 4
    ensures (cmd == 'a' || cmd == 'c') ==> n == 6
  {
    if cmd == 'm' || cmd == 'l' then 2 else if cmd == 'o' || cmd == 'q' then 4 else 6
  }

  /** How many leading arguments of a command are coordinates an upper-case command offsets by the parent. */
  function PointSlots(cmd: char): (n: int)
    requires HasArgs(cmd)
    ensures n <= Arity(cmd)
  {
    if cmd == 'm' || cmd == 'l' || cmd == 'o' then 2 else if cmd == 'a' || cmd == 'q' then 4 else 6
  }

  // ---------------------------------------------------------------- trimming

  /** String.trim: drop the characters up to and including ' ' from both ends. */
  function Trim(s: string): (r: string)
    ensures |r| <= |s|
    ensures |r| > 0 ==> r[|r| - 1] > ' '
  {
    TrimEnd(TrimStart(s))
  }

  /** Trimming keeps one contiguous middle part and drops only blanks around it. */
  lemma TrimKeepsMiddle(s: string)
    ensures var r, a := Trim(s), |s| - |TrimStart(s)|;
            && a + |r| <= |s| && r == s[a..a + |r|]
            && (|r| > 0 ==> r[0] > ' ')
            && (forall k :: 0 <= k < a ==> s[k] <= ' ')
            && (forall k :: a + |r| <= k < |s| ==> s[k] <= ' ')
  {
    var t := TrimStart(s);
    var r := TrimEnd(t);
    var a := |s| - |t|;
    TrimStartDrops(s);
    TrimEndKeeps(t);
    SliceOfSuffix(s, a, |r|);
    forall k | a + |r| <= k < |s| ensures s[k] <= ' ' {
      assert s[k] == t[k - a];
    }
  }

  /** A prefix of the suffix s[a..] is the middle slice s[a..a + n]. */
  lemma SliceOfSuffix(s: string, a: int, n: int)
    requires 0 <= a && 0 <= n && a + n <= |s|
    ensures s[a..][..n] == s[a..a + n]
  {
  }

  function TrimStart(s: string): (r: string)
    ensures |r| <= |s|
    decreases |s|
  {
    if |s| > 0 && s[0] <= ' ' then TrimStart(s[1..]) else s
  }

  /** TrimStart drops a run of leading blanks and stops on a visible character. */
  lemma {:induction false} TrimStartDrops(s: string)
    ensures var r := TrimStart(s);
            && r == s[|s| - |r|..]
            && (|r| > 0 ==> r[0] > ' ')
            && (forall k :: 0 <= k < |s| - |r| ==> s[k] <= ' ')
    decreases |s|
  {
    if |s| > 0 && s[0] <= ' ' {
      TrimStartDrops(s[1..]);
      var r := TrimStart(s);
      forall k | 1 <= k < |s| - |r| ensures s[k] <= ' ' {
        assert s[k] == s[1..][k - 1];
      }
    }
  }

  function TrimEnd(s: string): (r: string)
    ensures |r| <= |s|
    ensures |r| > 0 ==> r[|r| - 1] > ' '
    decreases |s|
  {
    if |s| > 0 && s[|s| - 1] <= ' ' then TrimEnd(s[..|s| - 1]) else s
  }

  /** TrimEnd keeps a prefix and drops only trailing blanks. */
  lemma {:induction false} TrimEndKeeps(s: string)
    ensures var r := TrimEnd(s);
            && r == s[..|r|]
            && (forall k :: |r| <= k < |s| ==> s[k] <= ' ')
            && (|s| > 0 && s[0] > ' ' ==> |r| > 0)
    decreases |s|
  {
    if |s| > 0 && s[|s| - 1] <= ' ' {
      TrimEndKeeps(s[..|s| - 1]);
      var r := TrimEnd(s);
      assert r == s[..|s| - 1][..|r|];
      forall k | |r| <= k < |s| - 1 ensures s[k] <= ' ' {
        assert s[k] == s[..|s| - 1][k];
      }
    }
  }

  /** A trimmed string does not end in a space, which is what lets the space-skipping loop stop. */
  predicate EndsSolid(s: string) { |s| == 0 || s[|s| - 1] != ' ' }

  /** The first non-space index at or after i. */
  function SkipSpaces(s: string, i: int): (j: int)
    requires 0 <= i < |s| && EndsSolid(s)
    ensures i <= j < |s| && s[j] != ' '
    ensures forall k :: i <= k < j ==> s[k] == ' '
    decreases |s| - i
  {
    if s[i] != ' ' then i else SkipSpaces(s, i + 1)
  }

  // ---------------------------------------------------------------- numbers

  predicate AllDigits(s: string) { forall k :: 0 <= k < |s| ==> IsDigit(s[k]) }

  function DigitsValue(ds: string): (v: nat)
    requires AllDigits(ds)
  {
    if |ds| == 0 then 0 else DigitsValue(ds[..|ds| - 1]) * 10 + (ds[|ds| - 1] as int - '0' as int)
  }

  function Pow10(n: nat): (p: nat)
    ensures p >= 1
  {
    if n == 0 then 1 else 10 * Pow10(n - 1)
  }

  /** The index of the first '.', or |s| when there is none. */
  function DotIndex(s: string): (k: int)
    ensures 0 <= k <= |s| && (k < |s| ==> s[k] == '.')
    ensures forall j :: 0 <= j < k ==> s[j] != '.'
  {
    if |s| == 0 then 0 else if s[0] == '.' then 0 else 1 + DotIndex(s[1..])
  }

  /**
   * Float.valueOf on the tokens the scanner builds (an optional leading '-',
   * digits and at most one '.'), as an exact decimal: a value when there is
   * at least one digit, otherwise the NumberFormatException case.
   */
  function NumberValue(t: string): Option<real> {
    var neg := |t| > 0 && t[0] == '-';
    var body := if neg then t[1..] else t;
    var k := DotIndex(body);
    var whole := body[..k];
    var frac := if k < |body| then body[k + 1..] else [];
    assert k == |body| ==> whole == body;
    if AllDigits(whole) && AllDigits(frac) && |whole| + |frac| > 0 then
      var magnitude := Decimal(whole, frac);
      Some(if neg then -magnitude else magnitude)
    else
      None
  }

  /** The value of the digits `whole` and `frac` around a decimal point. */
  function Decimal(whole: string, frac: string): real
    requires AllDigits(whole) && AllDigits(frac)
  {
    DigitsValue(whole) as real + DigitsValue(frac) as real / Pow10(|frac|) as real
  }

  /** Float.valueOf rejects the empty token and a lone '-'. */
  lemma NoDigitRejected()
    ensures NumberValue("").None? && NumberValue("-").None?
  {
    assert "-"[1..] == [] && DotIndex([]) == 0;
  }

  /** A minus followed by digits reads as the negated digit value. */
  lemma SignedInteger(t: string)
    requires |t| > 1 && t[0] == '-' && AllDigits(t[1..])
    ensures NumberValue(t) == Some(-(DigitsValue(t[1..]) as real))
  {
    UnsignedInteger(t[1..]);
    NegatedValue(t, t[1..]);
  }

  /** A digit string reads as its value. */
  lemma UnsignedInteger(t: string)
    requires |t| > 0 && AllDigits(t)
    ensures t[0] != '-' && NumberValue(t) == Some(DigitsValue(t) as real)
  {
    var k := DotIndex(t);
    assert forall j :: 0 <= j < |t| ==> t[j] != '.';
    assert k == |t| && t[..k] == t;
    assert Decimal(t, []) == DigitsValue(t) as real;
  }

  /** DotIndex skips a dot-free prefix. */
  lemma {:induction false} DotIndexAfterDigits(w: string, rest: string)
    requires AllDigits(w)
    ensures DotIndex(w + rest) == |w| + DotIndex(rest)
  {
    if |w| > 0 {
      assert (w + rest)[0] == w[0] && IsDigit(w[0]);
      assert (w + rest)[1..] == w[1..] + rest;
      assert AllDigits(w[1..]) by {
        forall k | 0 <= k < |w| - 1 ensures IsDigit(w[1..][k]) { assert w[1..][k] == w[k + 1]; }
      }
      DotIndexAfterDigits(w[1..], rest);
    } else {
      assert w + rest == rest;
    }
  }

  /**
   * A decimal token `w.f` has the value w + f / 10^|f| and a leading '-'
   * negates it; with no digit on either side of the dot ("." and "-.") it is
   * the NumberFormatException case.
   */
  lemma DecimalValue(w: string, f: string)
    requires AllDigits(w) && AllDigits(f)
    ensures NumberValue(w + "." + f) == DecimalOf(w, f, false)
    ensures NumberValue("-" + w + "." + f) == DecimalOf(w, f, true)
  {
    var t := w + "." + f;
    DecimalParts(w, f);
    UnsignedDecimal(t, w, f);
    var u := "-" + w + "." + f;
    assert u[1..] == t && u[0] == '-';
    SignedDecimal(u, t, w, f);
  }

  /** The value of the decimal token `w.f`, negated when `neg`, or None when it has no digit. */
  function DecimalOf(w: string, f: string, neg: bool): Option<real>
    requires AllDigits(w) && AllDigits(f)
  {
    if |w| + |f| == 0 then None
    else Some(if neg then -Decimal(w, f) else Decimal(w, f))
  }

  lemma UnsignedDecimal(t: string, w: string, f: string)
    requires AllDigits(w) && AllDigits(f)
    requires DotIndex(t) == |w| < |t| && t[..|w|] == w && t[|w| + 1..] == f && t[0] != '-'
    ensures NumberValue(t) == DecimalOf(w, f, false)
  {
    assert t[|w|] == '.' && !AllDigits(t);
  }

  lemma SignedDecimal(u: string, t: string, w: string, f: string)
    requires AllDigits(w) && AllDigits(f)
    requires DotIndex(t) == |w| < |t| && t[..|w|] == w && t[|w| + 1..] == f && t[0] != '-'
    requires |u| > 0 && u[0] == '-' && u[1..] == t
    ensures NumberValue(u) == DecimalOf(w, f, true)
  {
    UnsignedDecimal(t, w, f);
    NegatedValue(u, t);
  }

  /** A leading '-' negates the value of an unsigned token and keeps its rejection. */
  lemma NegatedValue(u: string, t: string)
    requires |u| > 0 && u[0] == '-' && u[1..] == t && (|t| == 0 || t[0] != '-')
    ensures NumberValue(u) == if NumberValue(t).Some? then Some(-NumberValue(t).value) else None
  {
  }

  /** The dot of `w.f` sits right after the digits w. */
  lemma DecimalParts(w: string, f: string)
    requires AllDigits(w) && AllDigits(f)
    ensures var t := w + "." + f;
            DotIndex(t) == |w| && t[..|w|] == w && t[|w| + 1..] == f && t[0] != '-'
  {
    var t := w + "." + f;
    assert t == w + ("." + f);
    DotIndexAfterDigits(w, "." + f);
    assert t[..|w|] == w && t[|w| + 1..] == f;
    if |w| > 0 { assert t[0] == w[0]; } else { assert t[0] == '.'; }
  }

  // ---------------------------------------------------------------- nextToken

  /** The fields nextToken may rely on: args has its six slots and a slot is left for the next number. */
  predicate Scanning(sc: Scanner) {
    1 <= sc.argNum <= ARG_SLOTS && 0 <= sc.curNum < sc.argNum && |sc.args| == ARG_SLOTS
  }

  /** The exceptions nextToken can throw: every one but "expected command character". */
  predicate ScanError(f: Failure) {
    f.NumberFormatException? || f.message == EXPECTED_COMMA || f.message == UNEXPECTED_MINUS || f.message == UNEXPECTED_DOT
  }

  /** consumeNum: count the number, then store its value in the next slot (nothing is stored when Float.valueOf throws). */
  function Consume(sc: Scanner, num: string): (r: Scanned)
    requires 0 <= sc.curNum < ARG_SLOTS && |sc.args| == ARG_SLOTS
    ensures r.sc == sc.(curNum := sc.curNum + 1, args := r.sc.args)
    ensures r.failure.None? <==> NumberValue(num).Some?
    ensures r.failure.Some? ==> r.failure.value == NumberFormatException(num) && r.sc.args == sc.args
    ensures r.failure.None? ==> r.sc.args == sc.args[sc.curNum := NumberValue(num).value]
  {
    var n := sc.curNum + 1;
    match NumberValue(num)
    case None => Scanned(sc.(curNum := n), Some(NumberFormatException(num)))
    case Some(v) => Scanned(sc.(curNum := n, args := sc.args[n - 1 := v]), None)
  }

  /**
   * The loop of nextToken from scanner position sc.index, with the pending
   * token `num` and the flags isStart and seenDot.
   */
  function ScanFrom(s: string, sc: Scanner, num: string, isStart: bool, seenDot: bool): (r: Scanned)
    requires 0 <= sc.index <= |s| && Scanning(sc)
    ensures r.sc.last == sc.last && r.sc.argNum == sc.argNum && |r.sc.args| == ARG_SLOTS
    ensures sc.index <= r.sc.index <= |s|
    ensures sc.curNum <= r.sc.curNum <= sc.argNum
    // only the slots of the numbers read are written
    ensures forall k :: 0 <= k < ARG_SLOTS && !(sc.curNum <= k < r.sc.curNum) ==> r.sc.args[k] == sc.args[k]
    // it stops at the end of input, or right on the character after the last number it needed
    ensures r.failure.None? ==>
              && sc.curNum < r.sc.curNum
              && (r.sc.index == |s| || (r.sc.curNum == sc.argNum && !IsNumberChar(s[r.sc.index])))
    // a number start under the cursor is always consumed
    ensures sc.index < |s| && isStart && StartsNumber(s[sc.index]) ==> r.sc.index > sc.index
    decreases |s| - sc.index
  {
    if sc.index == |s| then
      Consume(sc, num)
    else
      var ch := s[sc.index];
      if ch == '-' && !isStart then
        Scanned(sc, Some(ParseException(UNEXPECTED_MINUS, sc.index)))
      else if ch == '.' && (isStart || seenDot) then
        Scanned(sc, Some(ParseException(UNEXPECTED_DOT, sc.index)))
      else if IsDigit(ch) || ch == '-' then
        ScanFrom(s, sc.(index := sc.index + 1), num + [ch], false, seenDot)
      else if !seenDot && ch == '.' then
        ScanFrom(s, sc.(index := sc.index + 1), num + [ch], false, true)
      else
        var t := Consume(sc, num);
        if t.failure.Some? then t
        else if t.sc.curNum == t.sc.argNum then t
        else if ch != ',' then Scanned(t.sc, Some(ParseException(EXPECTED_COMMA, sc.index)))
        else ScanFrom(s, t.sc.(index := sc.index + 1), [], true, false)
  }

  /**
   * s[a..k] can be read as the continuation of a number token: digits, a '-'
   * only as the token's first character, and a single '.' that is not the
   * first character (counting one already seen).
   */
  predicate TokenPrefix(s: string, a: int, k: int, isStart: bool, seenDot: bool) {
    && 0 <= a <= k <= |s|
    && (forall i :: a <= i < k ==>
          IsDigit(s[i]) || (s[i] == '-' && i == a && isStart) || (s[i] == '.' && !(i == a && isStart)))
    && (forall i, j :: a <= i < j < k && s[i] == '.' ==> s[j] != '.')
    && (seenDot ==> forall i :: a <= i < k ==> s[i] != '.')
  }

  /** The scanner reads a token prefix into `num` without stopping. */
  lemma {:induction false} ScanThroughToken(s: string, sc: Scanner, num: string, isStart: bool, seenDot: bool, k: int)
    requires Scanning(sc) && TokenPrefix(s, sc.index, k, isStart, seenDot)
    ensures ScanFrom(s, sc, num, isStart, seenDot) ==
            ScanFrom(s, sc.(index := k), num + s[sc.index..k], isStart && sc.index == k,
                     seenDot || '.' in s[sc.index..k])
    decreases k - sc.index
  {
    var a := sc.index;
    if a < k {
      var ch := s[a];
      var dot := seenDot || ch == '.';
      ScanTokenChar(s, sc, num, isStart, seenDot, k);
      ScanThroughToken(s, sc.(index := a + 1), num + [ch], false, dot, k);
      PeelFirst(s, a, k, num, seenDot);
    } else {
      assert s[a..k] == [] && num + [] == num && sc.(index := k) == sc;
    }
  }

  /** Splitting s[a..k] after its first character. */
  lemma PeelFirst(s: string, a: int, k: int, num: string, seenDot: bool)
    requires 0 <= a < k <= |s|
    ensures num + [s[a]] + s[a + 1..k] == num + s[a..k]
    ensures ((seenDot || s[a] == '.') || '.' in s[a + 1..k]) == (seenDot || '.' in s[a..k])
  {
    assert s[a..k] == [s[a]] + s[a + 1..k];
  }

  /** One character of a token prefix: it is appended to `num` and the rest is still a token prefix. */
  lemma ScanTokenChar(s: string, sc: Scanner, num: string, isStart: bool, seenDot: bool, k: int)
    requires Scanning(sc) && TokenPrefix(s, sc.index, k, isStart, seenDot) && sc.index < k
    ensures TokenPrefix(s, sc.index + 1, k, false, seenDot || s[sc.index] == '.')
    ensures ScanFrom(s, sc, num, isStart, seenDot) ==
            ScanFrom(s, sc.(index := sc.index + 1), num + [s[sc.index]], false, seenDot || s[sc.index] == '.')
  {
  }

  /** A '-' anywhere in a token but at its first character is rejected at its own index. */
  lemma MinusInsideToken(s: string, sc: Scanner, num: string, isStart: bool, seenDot: bool, k: int)
    requires Scanning(sc) && TokenPrefix(s, sc.index, k, isStart, seenDot)
    requires k < |s| && s[k] == '-' && !(isStart && sc.index == k)
    ensures ScanFrom(s, sc, num, isStart, seenDot) == Scanned(sc.(index := k), Some(ParseException(UNEXPECTED_MINUS, k)))
  {
    ScanThroughToken(s, sc, num, isStart, seenDot, k);
  }

  /** A '.' that starts a token or follows another '.' of it is rejected at its own index. */
  lemma MisplacedDot(s: string, sc: Scanner, num: string, isStart: bool, seenDot: bool, k: int)
    requires Scanning(sc) && TokenPrefix(s, sc.index, k, isStart, seenDot)
    requires k < |s| && s[k] == '.' && ((isStart && sc.index == k) || seenDot || '.' in s[sc.index..k])
    ensures ScanFrom(s, sc, num, isStart, seenDot) == Scanned(sc.(index := k), Some(ParseException(UNEXPECTED_DOT, k)))
  {
    ScanThroughToken(s, sc, num, isStart, seenDot, k);
  }

  /** A token that Float.valueOf rejects ends the scan with NumberFormatException, whatever follows it. */
  lemma BadNumberToken(s: string, sc: Scanner, num: string, isStart: bool, seenDot: bool, k: int)
    requires Scanning(sc) && TokenPrefix(s, sc.index, k, isStart, seenDot)
    requires k == |s| || !IsNumberChar(s[k])
    requires NumberValue(num + s[sc.index..k]).None?
    ensures ScanFrom(s, sc, num, isStart, seenDot).failure == Some(NumberFormatException(num + s[sc.index..k]))
  {
    ScanThroughToken(s, sc, num, isStart, seenDot, k);
  }

  /** A valid number followed by anything but ',' while more numbers are due is rejected at that character. */
  lemma MissingComma(s: string, sc: Scanner, num: string, isStart: bool, seenDot: bool, k: int)
    requires Scanning(sc) && TokenPrefix(s, sc.index, k, isStart, seenDot)
    requires k < |s| && !IsNumberChar(s[k]) && s[k] != ','
    requires NumberValue(num + s[sc.index..k]).Some? && sc.curNum + 1 < sc.argNum
    ensures ScanFrom(s, sc, num, isStart, seenDot).failure == Some(ParseException(EXPECTED_COMMA, k))
  {
    ScanThroughToken(s, sc, num, isStart, seenDot, k);
  }

  /** A number as written in the path, with the value Float.valueOf gives it. */
  datatype Number = Number(text: string, value: real)

  /** The scanner reads n's text whole from a fresh start, and Float.valueOf turns it into n's value. */
  predicate Reads(n: Number) {
    TokenPrefix(n.text, 0, |n.text|, true, false) && NumberValue(n.text) == Some(n.value)
  }

  /** Every number of the list is read as its value. */
  predicate AllRead(nums: seq<Number>) {
    forall i {:trigger Reads(nums[i])} :: 0 <= i < |nums| ==> Reads(nums[i])
  }

  /** The numbers written one after the other with a single ',' between each two. */
  function Joined(nums: seq<Number>): string {
    if |nums| == 0 then [] else if |nums| == 1 then nums[0].text else nums[0].text + [','] + Joined(nums[1..])
  }

  /** The values of the numbers, in order. */
  function Values(nums: seq<Number>): (vs: seq<real>)
    ensures |vs| == |nums|
  {
    seq(|nums|, i requires 0 <= i < |nums| => nums[i].value)
  }

  /** The slots `args` after the values `vs` are stored into slots from, from + 1, ... */
  function Stored(args: seq<real>, from: int, vs: seq<real>): seq<real>
    requires 0 <= from && from + |vs| <= |args|
  {
    seq(|args|, j requires 0 <= j < |args| => if from <= j < from + |vs| then vs[j - from] else args[j])
  }

  /** Where the joined numbers sit in s: the first text, then a ',' and the rest when there is more. */
  lemma {:induction false} JoinedFirst(s: string, a: int, k: int, nums: seq<Number>)
    requires 0 <= a <= k <= |s| && |nums| > 0 && s[a..k] == Joined(nums)
    ensures a + |nums[0].text| <= k && s[a..a + |nums[0].text|] == nums[0].text
    ensures |nums| == 1 ==> a + |nums[0].text| == k
    ensures |nums| > 1 ==> a + |nums[0].text| < k && s[a + |nums[0].text|] == ',' &&
                           s[a + |nums[0].text| + 1..k] == Joined(nums[1..])
  {
    var n := |nums[0].text|;
    if |nums| > 1 {
      var j := Joined(nums);
      assert j == nums[0].text + [','] + Joined(nums[1..]);
      assert s[a..a + n] == s[a..k][..n] == j[..n] == nums[0].text;
      assert s[a + n] == s[a..k][n] == j[n] == ',';
      assert s[a + n + 1..k] == s[a..k][n + 1..] == j[n + 1..] == Joined(nums[1..]);
    }
  }

  /** A token prefix of a fresh start copied into s at a is a token prefix of s from a fresh start. */
  lemma {:induction false} TokenAt(s: string, a: int, t: string)
    requires 0 <= a && a + |t| <= |s| && s[a..a + |t|] == t && TokenPrefix(t, 0, |t|, true, false)
    ensures TokenPrefix(s, a, a + |t|, true, false)
  {
    forall i | a <= i < a + |t| ensures s[i] == t[i - a] {
      assert s[i] == s[a..a + |t|][i - a];
    }
  }

  /** Float.valueOf accepts no empty token. */
  lemma {:induction false} ReadNonEmpty(n: Number)
    requires Reads(n)
    ensures |n.text| > 0
  {
    NoDigitRejected();
  }

  /** A non-empty token prefix t at sc.index, from a fresh start, is read whole into `num`. */
  lemma {:induction false} FirstToken(s: string, sc: Scanner, t: string, k: int)
    requires Scanning(sc) && sc.index < k && TokenPrefix(s, sc.index, k, true, false) && s[sc.index..k] == t
    ensures ScanFrom(s, sc, [], true, false) ==
            ScanFrom(s, Scanner(k, sc.last, sc.argNum, sc.curNum, sc.args), t, false, '.' in t)
  {
    ScanThroughToken(s, sc, [], true, false, k);
    assert [] + s[sc.index..k] == t;
    assert sc.(index := k) == Scanner(k, sc.last, sc.argNum, sc.curNum, sc.args);
  }

  /**
   * The scan at the character after a valid token: its value goes into the
   * next slot, and then the scan either ends there (the last number) or
   * moves past the ',' to read the next number from a fresh start.
   */
  lemma {:induction false} NumberEnds(s: string, i: int, last: char, argNum: int, curNum: int, args: seq<real>, t: string, seenDot: bool)
    requires Scanning(Scanner(i, last, argNum, curNum, args)) && 0 <= i <= |s| && NumberValue(t).Some?
    requires i == |s| || !IsNumberChar(s[i])
    ensures var stored := args[curNum := NumberValue(t).value];
            && (curNum + 1 == argNum ==>
                  ScanFrom(s, Scanner(i, last, argNum, curNum, args), t, false, seenDot) ==
                  Scanned(Scanner(i, last, argNum, argNum, stored), None))
            && (curNum + 1 < argNum && i < |s| && s[i] == ',' ==>
                  ScanFrom(s, Scanner(i, last, argNum, curNum, args), t, false, seenDot) ==
                  ScanFrom(s, Scanner(i + 1, last, argNum, curNum + 1, stored), [], true, false))
  {
  }

  /**
   * The arguments of a command: when the input from sc.index is exactly the
   * numbers still due, written as tokens the scanner reads whole, separated
   * by single commas and followed by a character that cannot continue a
   * number (or the end), the scan reads all of them, stops right after the
   * last one and stores their values in order into the slots from sc.curNum on.
   */
  lemma {:induction false} ScanArguments(s: string, sc: Scanner, nums: seq<Number>, k: int)
    requires Scanning(sc) && |nums| == sc.argNum - sc.curNum
    requires AllRead(nums)
    requires 0 <= sc.index <= k <= |s| && s[sc.index..k] == Joined(nums)
    requires k == |s| || !IsNumberChar(s[k])
    ensures ScanFrom(s, sc, [], true, false) ==
            Scanned(Scanner(k, sc.last, sc.argNum, sc.argNum, Stored(sc.args, sc.curNum, Values(nums))), None)
  {
    ScanTokens(s, sc, nums, k);
  }

  /** ScanArguments, by induction on the numbers. */
  lemma {:induction false} ScanTokens(s: string, sc: Scanner, nums: seq<Number>, k: int)
    requires Scanning(sc) && |nums| == sc.argNum - sc.curNum
    requires AllRead(nums)
    requires 0 <= sc.index <= k <= |s| && s[sc.index..k] == Joined(nums)
    requires k == |s| || !IsNumberChar(s[k])
    ensures ScanFrom(s, sc, [], true, false) ==
            Scanned(Scanner(k, sc.last, sc.argNum, sc.argNum, Stored(sc.args, sc.curNum, Values(nums))), None)
    decreases |nums|
  {
    var e := sc.index + |nums[0].text|;
    JoinedFirst(s, sc.index, k, nums);
    NextBoundary(s, e, k, nums);
    ArgumentStep(s, sc, nums, e);
    StoredFirst(sc.args, sc.curNum, nums);
    if |nums| > 1 {
      RestRead(nums);
      var args := sc.args[sc.curNum := nums[0].value];
      ScanTokens(s, Scanner(e + 1, sc.last, sc.argNum, sc.curNum + 1, args), nums[1..], k);
    }
  }

  /** The numbers after the first of a list that is all read are all read. */
  lemma {:induction false} RestRead(nums: seq<Number>)
    requires AllRead(nums) && |nums| > 0
    ensures AllRead(nums[1..])
  {
    forall i | 0 <= i < |nums| - 1 ensures Reads(nums[1..][i]) {
      assert Reads(nums[i + 1]);
    }
  }

  /** The character after the first number is the ',' before the next, or the one after the last. */
  lemma {:induction false} NextBoundary(s: string, e: int, k: int, nums: seq<Number>)
    requires 0 <= e <= k <= |s| && |nums| > 0
    requires |nums| == 1 ==> e == k
    requires |nums| > 1 ==> e < k && s[e] == ','
    requires k == |s| || !IsNumberChar(s[k])
    ensures e == |s| || !IsNumberChar(s[e])
  {
  }

  /**
   * One argument: the first number of a list that is all read, written at
   * s[sc.index..e], is read and its value stored in the next slot; the scan
   * then ends after it (the last number) or continues past the ',' that
   * follows it.
   */
  lemma {:induction false} ArgumentStep(s: string, sc: Scanner, nums: seq<Number>, e: int)
    requires AllRead(nums) && |nums| > 0
    requires Scanning(sc) && 0 <= sc.index && e == sc.index + |nums[0].text| <= |s| && s[sc.index..e] == nums[0].text
    requires e == |s| || !IsNumberChar(s[e])
    ensures var args := sc.args[sc.curNum := nums[0].value];
            && (sc.curNum + 1 == sc.argNum ==>
                  ScanFrom(s, sc, [], true, false) == Scanned(Scanner(e, sc.last, sc.argNum, sc.argNum, args), None))
            && (sc.curNum + 1 < sc.argNum && e < |s| && s[e] == ',' ==>
                  ScanFrom(s, sc, [], true, false) ==
                  ScanFrom(s, Scanner(e + 1, sc.last, sc.argNum, sc.curNum + 1, args), [], true, false))
  {
    var n := nums[0];
    assert Reads(n);
    ReadNonEmpty(n);
    TokenAt(s, sc.index, n.text);
    if sc.curNum + 1 == sc.argNum {
      ReadLast(s, sc, n.text, e);
    } else if e < |s| && s[e] == ',' {
      ReadMore(s, sc, n.text, e);
    }
  }

  /**
   * The last number: a token t at s[sc.index..e] that Float.valueOf accepts,
   * followed by a character that cannot continue it, is read and its value
   * stored in the last slot, and the scan ends there.
   */
  lemma {:induction false} ReadLast(s: string, sc: Scanner, t: string, e: int)
    requires Scanning(sc) && sc.index < e && TokenPrefix(s, sc.index, e, true, false) && s[sc.index..e] == t
    requires NumberValue(t).Some? && sc.curNum + 1 == sc.argNum
    requires e == |s| || !IsNumberChar(s[e])
    ensures ScanFrom(s, sc, [], true, false) ==
            Scanned(Scanner(e, sc.last, sc.argNum, sc.argNum, sc.args[sc.curNum := NumberValue(t).value]), None)
  {
    FirstToken(s, sc, t, e);
    NumberEnds(s, e, sc.last, sc.argNum, sc.curNum, sc.args, t, '.' in t);
  }

  /**
   * A number before the last: a token t at s[sc.index..e] that Float.valueOf
   * accepts, followed by a ',', is read and its value stored in the next
   * slot, and the scan goes on past the ',' from a fresh start.
   */
  lemma {:induction false} ReadMore(s: string, sc: Scanner, t: string, e: int)
    requires Scanning(sc) && sc.index < e && TokenPrefix(s, sc.index, e, true, false) && s[sc.index..e] == t
    requires NumberValue(t).Some? && sc.curNum + 1 < sc.argNum
    requires e < |s| && s[e] == ','
    ensures ScanFrom(s, sc, [], true, false) ==
            ScanFrom(s, Scanner(e + 1, sc.last, sc.argNum, sc.curNum + 1, sc.args[sc.curNum := NumberValue(t).value]), [], true, false)
  {
    NumberEnds(s, e, sc.last, sc.argNum, sc.curNum, sc.args, t, '.' in t);
    FirstToken(s, sc, t, e);
  }

  /** Storing a list of values is storing the first one, then the rest from the next slot. */
  lemma {:induction false} StoredFirst(args: seq<real>, from: int, nums: seq<Number>)
    requires 0 <= from && from + |nums| <= |args| && |nums| > 0
    ensures |nums| == 1 ==> Stored(args, from, Values(nums)) == args[from := nums[0].value]
    ensures Stored(args[from := nums[0].value], from + 1, Values(nums[1..])) == Stored(args, from, Values(nums))
  {
    assert Values(nums[1..]) == Values(nums)[1..];
  }

  // ---------------------------------------------------------------- parsePath

  /** The parent's offset subtracted from the coordinate arguments of an upper-case command. */
  function Shifted(args: seq<real>, cmd: char, parent: (real, real)): (r: seq<real>)
    requires |args| == ARG_SLOTS && HasArgs(cmd)
    ensures |r| == ARG_SLOTS
    ensures forall k :: 0 <= k < PointSlots(cmd) ==>
              r[k] == args[k] - (if k % 2 == 0 then parent.0 else parent.1)
    ensures forall k :: PointSlots(cmd) <= k < ARG_SLOTS ==> r[k] == args[k]
  {
    seq(ARG_SLOTS, k requires 0 <= k < ARG_SLOTS =>
      if k < PointSlots(cmd) then args[k] - (if k % 2 == 0 then parent.0 else parent.1) else args[k])
  }

  /**
   * The Path call of a command: coordinates scaled by factor; the arc's two
   * angles are passed through, and a circle is clockwise exactly when its
   * fourth argument is 1.
   */
  function Emit(cmd: char, args: seq<real>, factor: real): (op: PathOp)
    requires |args| == ARG_SLOTS && HasArgs(cmd)
    ensures cmd == 'a' ==> op.AddArc? && op.startAngle == args[4] && op.sweepAngle == args[5]
    ensures cmd == 'o' ==> op.AddCircle? && (op.clockwise <==> args[3] == 1.0) && op.radius == args[2] * factor
  {
    match cmd
    case 'm' => MoveTo(args[0] * factor, args[1] * factor)
    case 'l' => LineTo(args[0] * factor, args[1] * factor)
    case 'a' => AddArc(args[0] * factor, args[1] * factor, args[2] * factor, args[3] * factor, args[4], args[5])
    case 'o' => AddCircle(args[0] * factor, args[1] * factor, args[2] * factor, args[3] == 1.0)
    case 'q' => QuadTo(args[0] * factor, args[1] * factor, args[2] * factor, args[3] * factor)
    case 'c' => CubicTo(args[0] * factor, args[1] * factor, args[2] * factor,
                        args[3] * factor, args[4] * factor, args[5] * factor)
  }

  /** What the parse state must satisfy: the index on the (trimmed) string and six argument slots. */
  predicate Parsing(s: string, sc: Scanner) {
    0 <= sc.index <= |s| && |sc.args| == ARG_SLOTS && EndsSolid(s) && IsLast(sc.last)
  }

  /** Whether the character at j (the first non-space) repeats the previous command. */
  predicate Repeats(s: string, j: int, last: char)
    requires 0 <= j < |s|
  {
    last != NO_COMMAND && StartsNumber(s[j])
  }

  /**
   * One command of parsePath's switch, for the command letter ch whose
   * arguments begin after sc.index: read them, offset them for an
   * upper-case letter with a parent, and emit the Path call.
   */
  function Command(s: string, sc: Scanner, ch: char, parent: Option<(real, real)>): (r: Scanned)
    requires -1 <= sc.index < |s| && |sc.args| == ARG_SLOTS && IsCommand(ch) && CommandOf(ch) != 'z'
    ensures r.sc.index >= sc.index + 1 && r.sc.index <= |s| && |r.sc.args| == ARG_SLOTS && IsLast(r.sc.last)
    ensures sc.index + 1 < |s| && StartsNumber(s[sc.index + 1]) ==> r.sc.index > sc.index + 1
  {
    var cmd := CommandOf(ch);
    var t := ScanFrom(s, sc.(index := sc.index + 1, last := cmd, argNum := Arity(cmd), curNum := 0), [], true, false);
    if t.failure.Some? then t
    else if ch != cmd && parent.Some? then
      Scanned(t.sc.(last := ch, args := Shifted(t.sc.args, cmd, parent.value)), None)
    else t
  }

  /**
   * A command whose arguments are written out in full: when the input after
   * the letter at sc.index is exactly Arity(cmd) numbers separated by single
   * commas and followed by a character that cannot continue a number, the
   * command reads them all, stops right after the last one, stores their
   * values in the leading slots (the parent's offset subtracted from the
   * coordinates of an upper-case letter when there is a parent) and records
   * the letter in `last`.
   */
  lemma {:induction false} CommandReads(s: string, sc: Scanner, ch: char, parent: Option<(real, real)>,
                                        nums: seq<Number>, k: int)
    requires -1 <= sc.index < |s| && |sc.args| == ARG_SLOTS && IsCommand(ch) && CommandOf(ch) != 'z'
    requires |nums| == Arity(CommandOf(ch)) && AllRead(nums)
    requires sc.index + 1 <= k <= |s| && s[sc.index + 1..k] == Joined(nums)
    requires k == |s| || !IsNumberChar(s[k])
    ensures var cmd := CommandOf(ch);
            var stored := Stored(sc.args, 0, Values(nums));
            var r := Command(s, sc, ch, parent);
            && r.failure == None && r.sc.index == k && r.sc.argNum == Arity(cmd) && r.sc.curNum == Arity(cmd)
            && if ch != cmd && parent.Some?
               then r.sc.last == ch && r.sc.args == Shifted(stored, cmd, parent.value)
               else r.sc.last == cmd && r.sc.args == stored
  {
    var cmd := CommandOf(ch);
    ScanArguments(s, sc.(index := sc.index + 1, last := cmd, argNum := Arity(cmd), curNum := 0), nums, k);
  }

  /** One pass of parsePath's loop: the next Path call and the fields after it, or the end of the parse. */
  datatype Step = Next(sc: Scanner, op: PathOp) | Stop(run: Run)

  /**
   * One pass of parsePath's loop at sc.index: skip spaces, decide between a
   * command letter and a repetition of `last`, and run the command.
   */
  function StepFrom(s: string, sc: Scanner, parent: Option<(real, real)>, factor: real): (r: Step)
    requires Parsing(s, sc) && sc.index < |s|
    ensures r.Next? ==> Parsing(s, r.sc) && r.sc.index > sc.index
    ensures r.Stop? ==> !r.run.outcome.Parsed?
  {
    var j := SkipSpaces(s, sc.index);
    StepAt(s, sc.(curNum := 0, index := j), parent, factor)
  }

  /** The rest of one pass of parsePath's loop once sc.index is on the first non-space. */
  function StepAt(s: string, sc: Scanner, parent: Option<(real, real)>, factor: real): (r: Step)
    requires Parsing(s, sc) && sc.index < |s| && s[sc.index] != ' '
    ensures r.Next? ==> Parsing(s, r.sc) && r.sc.index > sc.index
    ensures r.Stop? ==> !r.run.outcome.Parsed?
    // a character that is neither a command nor a repetition of the last one is rejected where it stands
    ensures !IsCommand(s[sc.index]) && !Repeats(s, sc.index, sc.last) ==>
              r == Stop(Run(Failed(ParseException(EXPECTED_COMMAND, sc.index)), sc))
  {
    var j := sc.index;
    var repeat := Repeats(s, j, sc.last);
    var ch := if repeat then sc.last else s[j];
    if !IsCommand(ch) then
      Stop(Run(Failed(ParseException(EXPECTED_COMMAND, j)), sc))
    else if CommandOf(ch) == 'z' then
      if repeat then Stop(Run(Diverges, sc))
      else Next(sc.(index := j + 1, last := 'z'), Close)
    else
      var t := Command(s, sc.(index := if repeat then j - 1 else j), ch, parent);
      if t.failure.Some? then Stop(Run(Failed(t.failure.value), t.sc))
      else Next(t.sc, Emit(CommandOf(ch), t.sc.args, factor))
  }

  /**
   * One pass of parsePath's loop over a command written out in full, whether
   * its letter stands at sc.index or a number there repeats `last`: the pass
   * issues the command's Path call with the values read (offset for an
   * upper-case letter with a parent) and leaves the scanner right after the
   * last number.
   */
  lemma {:induction false} StepEmits(s: string, sc: Scanner, parent: Option<(real, real)>, factor: real,
                                     nums: seq<Number>, k: int)
    requires Parsing(s, sc) && sc.index < |s| && s[sc.index] != ' '
    requires var ch := if Repeats(s, sc.index, sc.last) then sc.last else s[sc.index];
             IsCommand(ch) && CommandOf(ch) != 'z' && |nums| == Arity(CommandOf(ch))
    requires AllRead(nums)
    requires var from := if Repeats(s, sc.index, sc.last) then sc.index else sc.index + 1;
             from <= k <= |s| && s[from..k] == Joined(nums)
    requires k == |s| || !IsNumberChar(s[k])
    ensures var ch := if Repeats(s, sc.index, sc.last) then sc.last else s[sc.index];
            var cmd := CommandOf(ch);
            var stored := Stored(sc.args, 0, Values(nums));
            var offset := ch != cmd && parent.Some?;
            var args := if offset then Shifted(stored, cmd, parent.value) else stored;
            StepAt(s, sc, parent, factor) ==
              Next(Scanner(k, if offset then ch else cmd, Arity(cmd), Arity(cmd), args), Emit(cmd, args, factor))
  {
    var repeat := Repeats(s, sc.index, sc.last);
    var ch := if repeat then sc.last else s[sc.index];
    CommandReads(s, sc.(index := if repeat then sc.index - 1 else sc.index), ch, parent, nums, k);
  }

  /**
   * The loop of parsePath from the scanner position sc.index, with the Path
   * calls issued so far in `ops`.
   */
  function ParseFrom(s: string, sc: Scanner, parent: Option<(real, real)>, factor: real,
                     ops: seq<PathOp>): (r: Run)
    requires Parsing(s, sc)
    ensures r.outcome.Parsed? ==> |r.outcome.ops| >= |ops| && r.outcome.ops[..|ops|] == ops
    decreases |s| - sc.index
  {
    if sc.index >= |s| then Run(Parsed(ops), sc)
    else
      match StepFrom(s, sc, parent, factor)
      case Next(next, op) => ParseFrom(s, next, parent, factor, ops + [op])
      case Stop(run) => run
  }

  /** nextToken throws only its own exceptions, never "expected command character". */
  lemma {:induction false} ScanFailures(s: string, sc: Scanner, num: string, isStart: bool, seenDot: bool)
    requires 0 <= sc.index <= |s| && Scanning(sc)
    ensures var r := ScanFrom(s, sc, num, isStart, seenDot); r.failure.Some? ==> ScanError(r.failure.value)
    decreases |s| - sc.index
  {
    if sc.index < |s| {
      var ch := s[sc.index];
      if ch == '-' && !isStart {
      } else if ch == '.' && (isStart || seenDot) {
      } else if IsDigit(ch) || ch == '-' {
        ScanFailures(s, sc.(index := sc.index + 1), num + [ch], false, seenDot);
      } else if !seenDot && ch == '.' {
        ScanFailures(s, sc.(index := sc.index + 1), num + [ch], false, true);
      } else {
        var t := Consume(sc, num);
        if t.failure.None? && t.sc.curNum != t.sc.argNum && ch == ',' {
          ScanFailures(s, t.sc.(index := sc.index + 1), [], true, false);
        }
      }
    }
  }

  /**
   * "expected command character" comes only from a first non-space character
   * that is neither a command letter nor a number repeating `last`.
   */
  lemma ExpectedCommandOnlyThere(s: string, sc: Scanner, parent: Option<(real, real)>, factor: real)
    requires Parsing(s, sc) && sc.index < |s| && s[sc.index] != ' '
    ensures var r := StepAt(s, sc, parent, factor);
            r.Stop? && r.run.outcome.Failed? && !ScanError(r.run.outcome.failure) ==>
              !IsCommand(s[sc.index]) && !Repeats(s, sc.index, sc.last)
  {
    var repeat := Repeats(s, sc.index, sc.last);
    var ch := if repeat then sc.last else s[sc.index];
    if IsCommand(ch) && CommandOf(ch) != 'z' {
      var cmd := CommandOf(ch);
      var i := if repeat then sc.index - 1 else sc.index;
      ScanFailures(s, sc.(index := i + 1, last := cmd, argNum := Arity(cmd), curNum := 0), [], true, false);
    }
  }

  /**
   * At a step boundary, a first non-space character that is neither a command
   * letter nor a number repeating the last command ends the whole parse with
   * "expected command character" at its index.
   */
  lemma ParseRejectsNonCommand(s: string, sc: Scanner, parent: Option<(real, real)>, factor: real, ops: seq<PathOp>)
    requires Parsing(s, sc) && sc.index < |s|
    requires var j := SkipSpaces(s, sc.index); !IsCommand(s[j]) && !Repeats(s, j, sc.last)
    ensures var j := SkipSpaces(s, sc.index);
            ParseFrom(s, sc, parent, factor, ops) == Run(Failed(ParseException(EXPECTED_COMMAND, j)), sc.(curNum := 0, index := j))
  {
  }

  /** parsePath(str, parent, factor) on a parser whose fields are `sc`. */
  function Parse(str: string, sc: Scanner, parent: Option<(real, real)>, factor: real): (r: Run)
    requires |sc.args| == ARG_SLOTS && IsLast(sc.last)
  {
    ParseFrom(Trim(str), sc.(index := 0), parent, factor, [])
  }

  /** The `args[k] -= parent.getX()/getY()` statements of an upper-case command. */
  method ShiftArgs(args: array<real>, cmd: char, parent: (real, real))
    requires args.Length == ARG_SLOTS && HasArgs(cmd)
    modifies args
    ensures args[..] == Shifted(old(args[..]), cmd, parent)
  {
    var (x, y) := parent;
    args[0] := args[0] - x;
    args[1] := args[1] - y;
    if PointSlots(cmd) >= 4 {
      args[2] := args[2] - x;
      args[3] := args[3] - y;
    }
    if PointSlots(cmd) == 6 {
      args[4] := args[4] - x;
      args[5] := args[5] - y;
    }
  }

  /** The long-lived parser object (getInstance's singleton). */
  class EasyPathParser {
    var pathString: string
    var len: int
    var curIndex: int
    var last: char
    var argNum: int
    var curNum: int
    var args: array<real>

    ghost predicate Valid()
      reads this
    {
      args.Length == ARG_SLOTS && IsLast(last)
    }

    ghost function State(): Scanner
      reads this, args
    {
      Scanner(curIndex, last, argNum, curNum, args[..])
    }

    /** A fresh parser: `last` is the start marker and every argument slot is 0. */
    constructor ()
      ensures Valid() && fresh(args) && last == NO_COMMAND && args[..] == Repeat(0.0, ARG_SLOTS)
      ensures pathString == [] && len == 0 && curIndex == 0 && argNum == 0 && curNum == 0
    {
      pathString, len, curIndex, last, argNum, curNum := [], 0, 0, NO_COMMAND, 0, 0;
      var a := new real[ARG_SLOTS](_ => 0.0);
      args := a;
    }

    /**
     * parsePath: the Path calls of the trimmed string, or the exception that
     * stops it. The arguments array and `last` keep what the parse left.
     */
    method ParsePath(str: string, parent: Option<(real, real)>, factor: real) returns (outcome: Outcome)
      requires Valid()
      modifies this, args
      ensures Valid() && args == old(args) && pathString == Trim(str) && len == |pathString|
      ensures var run := Parse(str, old(State()), parent, factor);
              outcome == run.outcome && State() == run.sc
    {
      ghost var sc := State();
      pathString := Trim(str);
      len := |pathString|;
      curIndex := 0;
      assert State() == sc.(index := 0);
      outcome := ParseLoop(parent, factor, str, sc);
    }

    /** The while loop of parsePath, from the current position with no Path calls issued yet. */
    method ParseLoop(parent: Option<(real, real)>, factor: real, ghost str: string, ghost sc: Scanner)
        returns (outcome: Outcome)
      requires Valid() && |sc.args| == ARG_SLOTS && IsLast(sc.last)
      requires pathString == Trim(str) && len == |pathString| && State() == sc.(index := 0)
      modifies this, args
      ensures Valid() && args == old(args) && pathString == old(pathString) && len == old(len)
      ensures var run := Parse(str, sc, parent, factor);
              outcome == run.outcome && State() == run.sc
    {
      var path: seq<PathOp> := [];
      ghost var target := Parse(str, sc, parent, factor);
      while curIndex < len
        invariant Valid() && args == old(args) && pathString == old(pathString) && len == |pathString|
        invariant Parsing(pathString, State())
        invariant ParseFrom(pathString, State(), parent, factor, path) == target
        decreases len - curIndex
      {
        var op, stop := ParseCommand(parent, factor);
        if stop.Some? {
          return stop.value;
        }
        path := path + [op];
      }
      outcome := Parsed(path);
    }

    /**
     * The body of parsePath's loop: skip spaces, repeat `last` on a number,
     * and run the command's case of the switch; `stop` is the exception, if any.
     */
    method ParseCommand(parent: Option<(real, real)>, factor: real) returns (op: PathOp, stop: Option<Outcome>)
      requires Valid() && Parsing(pathString, State()) && curIndex < len == |pathString|
      modifies this, args
      ensures Valid() && args == old(args) && pathString == old(pathString) && len == old(len)
      ensures StepFrom(pathString, old(State()), parent, factor) ==
                if stop.None? then Next(State(), op) else Stop(Run(stop.value, State()))
    {
      curNum := 0;
      var ch := SkipBlanks();
      op, stop := Dispatch(ch, parent, factor);
    }

    /** The rest of parsePath's loop body once ch, at curIndex, is not a space. */
    method Dispatch(ch: char, parent: Option<(real, real)>, factor: real) returns (op: PathOp, stop: Option<Outcome>)
      requires Valid() && Parsing(pathString, State()) && curIndex < len == |pathString|
      requires ch == pathString[curIndex] && ch != ' '
      modifies this, args
      ensures Valid() && args == old(args) && pathString == old(pathString) && len == old(len)
      ensures StepAt(pathString, old(State()), parent, factor) ==
                if stop.None? then Next(State(), op) else Stop(Run(stop.value, State()))
    {
      op := Close;
      stop := None;
      var c := ch;
      var repeated := false;
      if last != NO_COMMAND && (IsDigit(c) || c == '-') {
        c := last;
        curIndex := curIndex - 1;
        repeated := true;
      }
      if !IsCommand(c) {
        return op, Some(Failed(ParseException(EXPECTED_COMMAND, curIndex)));
      }
      if c == 'z' || c == 'Z' {
        last := 'z';
        curIndex := curIndex + 1;
        if repeated {
          return Close, Some(Diverges);
        }
        return Close, None;
      }
      var failure := RunCommand(c, parent);
      if failure.Some? {
        return op, Some(Failed(failure.value));
      }
      op := Emit(CommandOf(c), args[..], factor);
    }

    /** The `while (ch == ' ')` loop at the top of parsePath's loop: ch becomes the first non-space. */
    method SkipBlanks() returns (ch: char)
      requires Valid() && 0 <= curIndex < len == |pathString| && EndsSolid(pathString)
      modifies this
      ensures Valid() && args == old(args) && pathString == old(pathString) && len == old(len)
      ensures curIndex == SkipSpaces(pathString, old(curIndex)) && ch == pathString[curIndex]
      ensures State() == old(State()).(index := curIndex)
    {
      ch := pathString[curIndex];
      ghost var j := SkipSpaces(pathString, curIndex);
      while ch == ' '
        invariant Valid() && args == old(args) && pathString == old(pathString) && len == old(len)
        invariant old(curIndex) <= curIndex <= j && ch == pathString[curIndex]
        invariant State() == old(State()).(index := curIndex)
        decreases j - curIndex
      {
        curIndex := curIndex + 1;
        if curIndex < len {
          ch := pathString[curIndex];
        }
      }
    }

    /**
     * The cases of parsePath's switch for a command with arguments: set
     * argNum and last, read the numbers, and offset the coordinates of an
     * upper-case command when there is a parent.
     */
    method RunCommand(ch: char, parent: Option<(real, real)>) returns (failure: Option<Failure>)
      requires Valid() && IsCommand(ch) && CommandOf(ch) != 'z' && -1 <= curIndex < len == |pathString|
      modifies this, args
      ensures Valid() && args == old(args) && pathString == old(pathString) && len == old(len)
      ensures Command(pathString, old(State()), ch, parent) == Scanned(State(), failure)
    {
      var cmd := CommandOf(ch);
      argNum := Arity(cmd);
      last := cmd;
      curNum := 0;
      failure := NextToken();
      if failure.Some? {
        return;
      }
      if ch != cmd && parent.Some? {
        last := ch;
        ShiftArgs(args, cmd, parent.value);
      }
    }

    /**
     * nextToken: read comma-separated numbers after the command letter until
     * argNum of them are read or the input ends.
     */
    method NextToken() returns (failure: Option<Failure>)
      requires Valid() && -1 <= curIndex < len == |pathString| && Scanning(State())
      modifies this, args
      ensures Valid() && args == old(args) && pathString == old(pathString) && len == old(len)
      ensures ScanFrom(pathString, old(State()).(index := old(curIndex) + 1), [], true, false) == Scanned(State(), failure)
    {
      failure := None;
      var isStart := true;
      var seenDot := false;
      var num: string := [];
      curIndex := curIndex + 1;
      ghost var target := ScanFrom(pathString, State(), num, isStart, seenDot);
      while curIndex < len
        invariant Valid() && args == old(args) && pathString == old(pathString) && len == old(len)
        invariant 0 <= curIndex <= len && Scanning(State()) && State().last == old(last)
        invariant ScanFrom(pathString, State(), num, isStart, seenDot) == target
        decreases len - curIndex
      {
        var stop;
        failure, stop, num, isStart, seenDot := ScanStep(num, isStart, seenDot);
        if stop {
          return;
        }
      }
      if curIndex == len {
        failure := ConsumeNum(num);
      }
    }

    /** One character of nextToken's loop; `stop` when the loop returns or throws. */
    method ScanStep(num: string, isStart: bool, seenDot: bool)
        returns (failure: Option<Failure>, stop: bool, num': string, isStart': bool, seenDot': bool)
      requires Valid() && 0 <= curIndex < len == |pathString| && Scanning(State())
      modifies this, args
      ensures Valid() && args == old(args) && pathString == old(pathString) && len == old(len)
      ensures !stop ==> curIndex == old(curIndex) + 1 && Scanning(State()) && last == old(last)
      ensures ScanFrom(pathString, old(State()), num, isStart, seenDot) ==
                if stop then Scanned(State(), failure) else ScanFrom(pathString, State(), num', isStart', seenDot')
    {
      num', isStart', seenDot' := num, isStart, seenDot;
      var ch := pathString[curIndex];
      if ch == '-' && !isStart {
        return Some(ParseException(UNEXPECTED_MINUS, curIndex)), true, num', isStart', seenDot';
      } else if ch == '.' && (isStart || seenDot) {
        return Some(ParseException(UNEXPECTED_DOT, curIndex)), true, num', isStart', seenDot';
      }
      failure, stop := None, false;
      isStart' := false;
      if IsDigit(ch) || ch == '-' {
        num' := num + [ch];
      } else if !seenDot && ch == '.' {
        seenDot' := true;
        num' := num + [ch];
      } else {
        failure, stop := EndNumber(ch, num);
        if stop {
          return;
        }
        isStart' := true;
        seenDot' := false;
        num' := [];
      }
      curIndex := curIndex + 1;
    }

    /**
     * The separator branch of nextToken: consume the pending token, stop once
     * argNum numbers are read, and otherwise demand a ','.
     */
    method EndNumber(ch: char, num: string) returns (failure: Option<Failure>, stop: bool)
      requires Valid() && 0 <= curIndex < len == |pathString| && Scanning(State())
      modifies this, args
      ensures Valid() && args == old(args) && pathString == old(pathString) && len == old(len)
      ensures var t := Consume(old(State()), num);
              && State() == t.sc
              && (stop <==> t.failure.Some? || t.sc.curNum == t.sc.argNum || ch != ',')
              && failure == (if t.failure.Some? || t.sc.curNum == t.sc.argNum then t.failure
                             else if ch != ',' then Some(ParseException(EXPECTED_COMMA, curIndex))
                             else None)
    {
      stop := true;
      failure := ConsumeNum(num);
      if failure.Some? {
        return;
      }
      if curNum == argNum {
        return;
      }
      if ch != ',' {
        return Some(ParseException(EXPECTED_COMMA, curIndex)), true;
      }
      stop := false;
    }

    /** consumeNum: count the token, then store Float.valueOf of it in the next slot. */
    method ConsumeNum(num: string) returns (failure: Option<Failure>)
      requires Valid() && 0 <= curNum < ARG_SLOTS
      modifies this, args
      ensures Valid() && args == old(args) && pathString == old(pathString) && len == old(len)
      ensures Consume(old(State()), num) == Scanned(State(), failure)
    {
      curNum := curNum + 1;
      var v := NumberValue(num);
      if v.None? {
        return Some(NumberFormatException(num));
      }
      args[curNum - 1] := v.value;
      failure := None;
    }
  }
}
