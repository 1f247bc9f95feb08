/**
 * Worked inputs of the path parser and the two ways a number in command
 * position goes wrong: with no previous command, and after a close.
 */
module PathExamples {
  import opened Records
  import opened PathParser

  /** The argument slots of a fresh parser. */
  const ZEROS: seq<real> := [0.0, 0.0, 0.0, 0.0, 0.0, 0.0]

  /** The fields of a fresh parser (getInstance() on first use). */
  const FRESH: Scanner := Scanner(0, NO_COMMAND, 0, 0, ZEROS)

  /** A move followed by an implicit second move. */
  const REPEAT_INPUT: string := "m1,2 3,4"

  /** A bare pair of numbers, legal only as a repetition of the previous call's command. */
  const PAIR_INPUT: string := "3,4"

  lemma SmallDigits()
    ensures NumberValue("1") == Some(1.0) && NumberValue("2") == Some(2.0)
    ensures NumberValue("3") == Some(3.0) && NumberValue("4") == Some(4.0)
  {
    assert AllDigits("1") && AllDigits("2") && AllDigits("3") && AllDigits("4");
    assert DigitsValue("1") == 1 && DigitsValue("2") == 2 && DigitsValue("3") == 3 && DigitsValue("4") == 4;
    UnsignedInteger("1");
    UnsignedInteger("2");
    UnsignedInteger("3");
    UnsignedInteger("4");
  }

  // Decimal tokens: a digit on either side of the dot is enough, and a lone dot is not a number.

  lemma OneDotFive()
    ensures NumberValue("1.5") == Some(1.5)
  {
    var t := "1.5";
    assert AllDigits("1") && DigitsValue("1") == 1;
    assert AllDigits("5") && DigitsValue("5") == 5;
    assert DotIndex(t) == 1 && t[..1] == "1" && t[2..] == "5";
    assert Pow10(1) == 10;
    UnsignedDecimal(t, "1", "5");
  }

  lemma OneDot()
    ensures NumberValue("1.") == Some(1.0)
  {
    var t := "1.";
    assert AllDigits("1") && DigitsValue("1") == 1;
    assert DotIndex(t) == 1 && t[..1] == "1" && t[2..] == "";
    UnsignedDecimal(t, "1", "");
  }

  lemma MinusDotFive()
    ensures NumberValue("-.5") == Some(-0.5)
  {
    var u := "-.5";
    var t := ".5";
    assert AllDigits("5") && DigitsValue("5") == 5;
    assert DotIndex(t) == 0 && t[..0] == "" && t[1..] == "5";
    assert u[1..] == t;
    assert Pow10(1) == 10;
    SignedDecimal(u, t, "", "5");
  }

  lemma LoneDots()
    ensures NumberValue(".") == None && NumberValue("-.") == None
  {
    var t := ".";
    assert DotIndex(t) == 0 && t[..0] == "" && t[1..] == "";
    UnsignedDecimal(t, "", "");
    var u := "-.";
    assert u[1..] == t;
    SignedDecimal(u, t, "", "");
  }

  /** A second '.' in "m1.2.3" is rejected at its offset 4. */
  lemma SecondDotExample()
    ensures Parse("m1.2.3", FRESH, None, 1.0).outcome == Failed(ParseException(UNEXPECTED_DOT, 4))
  {
    var s := "m1.2.3";
    assert Trim(s) == s;
    var sc := Scanner(1, 'm', 2, 0, ZEROS);
    assert TokenPrefix(s, 1, 4, true, false);
    assert s[1..4][1] == s[2] == '.';
    MisplacedDot(s, sc, [], true, false, 4);
  }

  /** A '-' after the first digit of a token, as in "m1-2", is rejected at its offset. */
  lemma InnerMinusExample()
    ensures Parse("m1-2", FRESH, None, 1.0).outcome == Failed(ParseException(UNEXPECTED_MINUS, 2))
  {
    var s := "m1-2";
    assert Trim(s) == s;
    var sc := Scanner(1, 'm', 2, 0, ZEROS);
    assert TokenPrefix(s, 1, 2, true, false);
    MinusInsideToken(s, sc, [], true, false, 2);
  }

  /** nextToken for "m" in REPEAT_INPUT reads 1 and 2 into the first two slots and stops on the space. */
  lemma ScanFirstPair(a: seq<real>)
    requires |a| == ARG_SLOTS
    ensures ScanFrom(REPEAT_INPUT, Scanner(1, 'm', 2, 0, a), [], true, false) ==
              Scanned(Scanner(4, 'm', 2, 2, a[0 := 1.0][1 := 2.0]), None)
  {
    var s := REPEAT_INPUT;
    SmallDigits();
    var a1 := a[0 := 1.0];
    var done := Scanned(Scanner(4, 'm', 2, 2, a1[1 := 2.0]), None);
    assert ScanFrom(s, Scanner(4, 'm', 2, 1, a1), "2", false, false) == done;
    assert ScanFrom(s, Scanner(3, 'm', 2, 1, a1), [], true, false) == done;
    assert ScanFrom(s, Scanner(2, 'm', 2, 0, a), "1", false, false) == done;
  }

  /** nextToken for the repetition in REPEAT_INPUT reads 3 and 4 and stops at the end of input. */
  lemma ScanSecondPair(a: seq<real>)
    requires |a| == ARG_SLOTS
    ensures ScanFrom(REPEAT_INPUT, Scanner(5, 'm', 2, 0, a), [], true, false) ==
              Scanned(Scanner(8, 'm', 2, 2, a[0 := 3.0][1 := 4.0]), None)
  {
    var s := REPEAT_INPUT;
    SmallDigits();
    var a3 := a[0 := 3.0];
    var done := Scanned(Scanner(8, 'm', 2, 2, a3[1 := 4.0]), None);
    assert ScanFrom(s, Scanner(8, 'm', 2, 1, a3), "4", false, false) == done;
    assert ScanFrom(s, Scanner(7, 'm', 2, 1, a3), [], true, false) == done;
    assert ScanFrom(s, Scanner(6, 'm', 2, 0, a), "3", false, false) == done;
  }

  /** nextToken for a repetition at the start of PAIR_INPUT reads 3 and 4 and stops at the end of input. */
  lemma ScanLonePair(last: char, a: seq<real>)
    requires |a| == ARG_SLOTS
    ensures ScanFrom(PAIR_INPUT, Scanner(0, last, 2, 0, a), [], true, false) ==
              Scanned(Scanner(3, last, 2, 2, a[0 := 3.0][1 := 4.0]), None)
  {
    var s := PAIR_INPUT;
    SmallDigits();
    var a3 := a[0 := 3.0];
    var done := Scanned(Scanner(3, last, 2, 2, a3[1 := 4.0]), None);
    assert ScanFrom(s, Scanner(3, last, 2, 1, a3), "4", false, false) == done;
    assert ScanFrom(s, Scanner(2, last, 2, 1, a3), [], true, false) == done;
    assert ScanFrom(s, Scanner(1, last, 2, 0, a), "3", false, false) == done;
  }

  /** "m1,2 3,4" is two moves: the number after the space repeats the move command. */
  lemma RepetitionExample()
    ensures Parse(REPEAT_INPUT, FRESH, None, 1.0) ==
              Run(Parsed([MoveTo(1.0, 2.0), MoveTo(3.0, 4.0)]), Scanner(8, 'm', 2, 2, [3.0, 4.0, 0.0, 0.0, 0.0, 0.0]))
  {
    var s := REPEAT_INPUT;
    assert Trim(s) == s;
    var a2 := ZEROS[0 := 1.0][1 := 2.0];
    ScanFirstPair(ZEROS);
    assert SkipSpaces(s, 0) == 0;
    var sc2 := Scanner(4, 'm', 2, 2, a2);
    assert StepFrom(s, FRESH, None, 1.0) == Next(sc2, MoveTo(1.0, 2.0));
    ScanSecondPair(a2);
    assert SkipSpaces(s, 4) == 5;
    var sc3 := Scanner(8, 'm', 2, 2, a2[0 := 3.0][1 := 4.0]);
    assert StepFrom(s, sc2, None, 1.0) == Next(sc3, MoveTo(3.0, 4.0));
    assert a2[0 := 3.0][1 := 4.0] == [3.0, 4.0, 0.0, 0.0, 0.0, 0.0];
  }

  /**
   * `last` outlives a call: "3,4" on a parser whose last command was a move
   * is one more move (on a fresh parser it fails, see FreshParserRejectsPair).
   */
  lemma LastCarriesOverExample(a: seq<real>)
    requires |a| == ARG_SLOTS
    ensures Parse(PAIR_INPUT, Scanner(4, 'm', 2, 2, a), None, 1.0).outcome == Parsed([MoveTo(3.0, 4.0)])
  {
    var s := PAIR_INPUT;
    assert Trim(s) == s;
    assert SkipSpaces(s, 0) == 0;
    ScanLonePair('m', a);
    var sc := Scanner(0, 'm', 2, 2, a);
    var next := Scanner(3, 'm', 2, 2, a[0 := 3.0][1 := 4.0]);
    assert StepFrom(s, sc, None, 1.0) == Next(next, MoveTo(3.0, 4.0));
    assert ParseFrom(s, next, None, 1.0, [MoveTo(3.0, 4.0)]) == Run(Parsed([MoveTo(3.0, 4.0)]), next);
    assert [] + [MoveTo(3.0, 4.0)] == [MoveTo(3.0, 4.0)];
    assert ParseFrom(s, sc, None, 1.0, []) == Run(Parsed([MoveTo(3.0, 4.0)]), next);
    assert Scanner(4, 'm', 2, 2, a).(index := 0) == sc;
  }

  /** The same "3,4" on a fresh parser fails at offset 0: there is no command to repeat. */
  lemma FreshParserRejectsPair()
    ensures Parse(PAIR_INPUT, FRESH, None, 1.0).outcome == Failed(ParseException(EXPECTED_COMMAND, 0))
  {
    assert Trim(PAIR_INPUT) == PAIR_INPUT;
    assert SkipSpaces(PAIR_INPUT, 0) == 0;
    NumberWithoutCommand(PAIR_INPUT, FRESH, None, 1.0, []);
  }

  /**
   * With no command seen yet (`last` is the start marker), a number in
   * command position is not a repetition: the parse fails with "expected
   * command character" at the number's offset.
   */
  lemma NumberWithoutCommand(s: string, sc: Scanner, parent: Option<(real, real)>, factor: real, ops: seq<PathOp>)
    requires Parsing(s, sc) && sc.index < |s| && sc.last == NO_COMMAND
    requires StartsNumber(s[SkipSpaces(s, sc.index)])
    ensures ParseFrom(s, sc, parent, factor, ops) ==
              Run(Failed(ParseException(EXPECTED_COMMAND, SkipSpaces(s, sc.index))),
                  sc.(curNum := 0, index := SkipSpaces(s, sc.index)))
  {
  }

  /**
   * After a close, a number in command position repeats the close, which
   * never advances: parsePath would loop forever, reported as Diverges with
   * the scanner on the number.
   */
  lemma RepeatedCloseDiverges(s: string, sc: Scanner, parent: Option<(real, real)>, factor: real, ops: seq<PathOp>)
    requires Parsing(s, sc) && sc.index < |s| && sc.last == 'z'
    requires StartsNumber(s[SkipSpaces(s, sc.index)])
    ensures ParseFrom(s, sc, parent, factor, ops) ==
              Run(Diverges, sc.(curNum := 0, index := SkipSpaces(s, sc.index)))
  {
  }

  /** A blank string parses to no calls and leaves every field but the index as it was. */
  lemma BlankParsesToNothing(str: string, sc: Scanner, parent: Option<(real, real)>, factor: real)
    requires |sc.args| == ARG_SLOTS && IsLast(sc.last)
    requires forall k :: 0 <= k < |str| ==> str[k] <= ' '
    ensures Parse(str, sc, parent, factor) == Run(Parsed([]), sc.(index := 0))
  {
    BlankTrimStart(str);
  }

  /** Trimming a string of blanks leaves nothing. */
  lemma {:induction false} BlankTrimStart(s: string)
    requires forall k :: 0 <= k < |s| ==> s[k] <= ' '
    ensures TrimStart(s) == []
    decreases |s|
  {
    if |s| > 0 {
      assert forall k :: 0 <= k < |s| - 1 ==> s[1..][k] == s[k + 1];
      BlankTrimStart(s[1..]);
    }
  }
}
