/**
 * The four layouts the graph builder is run on, drawn as rows, and what
 * the builder makes of them. Each diagram is a raw string that begins and
 * ends with a newline, so its first and last lines are empty.
 */
module Layouts {
  import opened Wrappers
  import opened Geometry
  import opened Layout
  import opened Adjacency
  import opened Drawing
  import opened Text

  // ---------------------------------------------------------------------------
  // QWERTY

  const QwertyDigits := ["`~", "1!", "2@", "3#", "4$", "5%", "6^", "7&", "8*", "9(", "0)", "-_", "=+"]
  const QwertyTop := ["qQ", "wW", "eE", "rR", "tT", "yY", "uU", "iI", "oO", "pP", "[{", "]}", "\\|"]
  const QwertyHome := ["aA", "sS", "dD", "fF", "gG", "hH", "jJ", "kK", "lL", ";:", "'\""]
  const QwertyBottom := ["zZ", "xX", "cC", "vV", "bB", "nN", "mM", ",<", ".>", "/?"]

  const QwertyRows: seq<Row> :=
    [Row(0, []), Row(0, QwertyDigits), Row(4, QwertyTop), Row(5, QwertyHome), Row(6, QwertyBottom), Row(0, [])]

  /** The US QWERTY keyboard, parsed with `slanted` set. */
  const Qwerty: string := Diagram(QwertyRows)

  /** QWERTY is drawn regularly: two-character keys, each row one column further right. */
  lemma QwertyDrawn()
    ensures WellDrawn(QwertyRows, 2) && Fits(QwertyRows, 2, true)
  {
    QwertyUpperKeys();
    QwertyLowerKeys();
    assert QwertyRows[1].tokens != [];
  }

  lemma QwertyUpperKeys()
    ensures KeysDrawn(QwertyDigits, 2) && KeysDrawn(QwertyTop, 2)
  {
  }

  lemma QwertyLowerKeys()
    ensures KeysDrawn(QwertyHome, 2) && KeysDrawn(QwertyBottom, 2)
  {
  }

  /**
   * The example in the source's documentation: on QWERTY, `g` is adjacent
   * to f, t, y, h, b and v, listed clockwise from the left.
   */
  lemma QwertyG()
    ensures AdjacencyGraph(Qwerty, true).Ok? && 'g' in AdjacencyGraph(Qwerty, true).value
    ensures AdjacencyGraph(Qwerty, true).value['g']
         == [Some("fF"), Some("tT"), Some("yY"), Some("hH"), Some("bB"), Some("vV")]
  {
    QwertyDrawn();
    QwertyOneG();
    DrawnGraph(QwertyRows, 2, true, 'g', 3, 4);
    QwertyAroundG();
  }

  lemma QwertyOneG()
    ensures PrintedOnce(QwertyRows, 'g', 3, 4)
  {
    assert forall k :: 0 <= k < |QwertyDigits| ==> 'g' !in QwertyDigits[k];
    assert forall k :: 0 <= k < |QwertyTop| ==> 'g' !in QwertyTop[k];
    assert forall k :: 0 <= k < |QwertyHome| && 'g' in QwertyHome[k] ==> k == 4;
    assert forall k :: 0 <= k < |QwertyBottom| ==> 'g' !in QwertyBottom[k];
  }

  /** What the QWERTY drawing shows around `g`, which is drawn at (5, 3). */
  lemma QwertyAroundG()
    ensures DrawnAround(QwertyRows, 2, true, Coord(Col0(QwertyRows, 2, true, 3) + 4, 3))
         == [Some("fF"), Some("tT"), Some("yY"), Some("hH"), Some("bB"), Some("vV")]
  {
    assert Col0(QwertyRows, 2, true, 2) == 1 && Col0(QwertyRows, 2, true, 3) == 1 && Col0(QwertyRows, 2, true, 4) == 1;
  }

  // ---------------------------------------------------------------------------
  // Dvorak

  const DvorakDigits := ["`~", "1!", "2@", "3#", "4$", "5%", "6^", "7&", "8*", "9(", "0)", "[{", "]}"]
  const DvorakTop := ["'\"", ",<", ".>", "pP", "yY", "fF", "gG", "cC", "rR", "lL", "/?", "=+", "\\|"]
  const DvorakHome := ["aA", "oO", "eE", "uU", "iI", "dD", "hH", "tT", "nN", "sS", "-_"]
  const DvorakBottom := [";:", "qQ", "jJ", "kK", "xX", "bB", "mM", "wW", "vV", "zZ"]

  const DvorakRows: seq<Row> :=
    [Row(0, []), Row(0, DvorakDigits), Row(4, DvorakTop), Row(5, DvorakHome), Row(6, DvorakBottom), Row(0, [])]

  /** The Dvorak keyboard, parsed with `slanted` set. */
  const Dvorak: string := Diagram(DvorakRows)

  lemma DvorakDrawn()
    ensures WellDrawn(DvorakRows, 2) && Fits(DvorakRows, 2, true)
  {
    DvorakUpperKeys();
    DvorakLowerKeys();
    assert DvorakRows[1].tokens != [];
  }

  lemma DvorakUpperKeys()
    ensures KeysDrawn(DvorakDigits, 2) && KeysDrawn(DvorakTop, 2)
  {
  }

  lemma DvorakLowerKeys()
    ensures KeysDrawn(DvorakHome, 2) && KeysDrawn(DvorakBottom, 2)
  {
  }

  /** On Dvorak, `u` is adjacent to e, p, y, i, k and j. */
  lemma DvorakU()
    ensures AdjacencyGraph(Dvorak, true).Ok? && 'u' in AdjacencyGraph(Dvorak, true).value
    ensures AdjacencyGraph(Dvorak, true).value['u']
         == [Some("eE"), Some("pP"), Some("yY"), Some("iI"), Some("kK"), Some("jJ")]
  {
    DvorakDrawn();
    DvorakOneU();
    DrawnGraph(DvorakRows, 2, true, 'u', 3, 3);
    DvorakAroundU();
  }

  lemma DvorakOneU()
    ensures PrintedOnce(DvorakRows, 'u', 3, 3)
  {
    assert forall k :: 0 <= k < |DvorakDigits| ==> 'u' !in DvorakDigits[k];
    assert forall k :: 0 <= k < |DvorakTop| ==> 'u' !in DvorakTop[k];
    assert forall k :: 0 <= k < |DvorakHome| && 'u' in DvorakHome[k] ==> k == 3;
    assert forall k :: 0 <= k < |DvorakBottom| ==> 'u' !in DvorakBottom[k];
  }

  /** What the Dvorak drawing shows around `u`, which is drawn at (4, 3). */
  lemma DvorakAroundU()
    ensures DrawnAround(DvorakRows, 2, true, Coord(Col0(DvorakRows, 2, true, 3) + 3, 3))
         == [Some("eE"), Some("pP"), Some("yY"), Some("iI"), Some("kK"), Some("jJ")]
  {
    assert Col0(DvorakRows, 2, true, 2) == 1 && Col0(DvorakRows, 2, true, 3) == 1 && Col0(DvorakRows, 2, true, 4) == 1;
  }

  // ---------------------------------------------------------------------------
  // Keypads

  const KeypadOperators := ["/", "*", "-"]
  const KeypadTop := ["7", "8", "9", "+"]
  const KeypadMiddle := ["4", "5", "6"]
  const MacKeypadOperators := ["=", "/", "*"]
  const MacKeypadTop := ["7", "8", "9", "-"]
  const MacKeypadMiddle := ["4", "5", "6", "+"]
  const KeypadBottom := ["1", "2", "3"]
  const KeypadZero := ["0", "."]

  const KeypadRows: seq<Row> :=
    [Row(0, []), Row(2, KeypadOperators), Row(0, KeypadTop), Row(0, KeypadMiddle),
     Row(0, KeypadBottom), Row(2, KeypadZero), Row(0, [])]

  /** The standard numeric keypad, parsed with `slanted` unset. */
  const Keypad: string := Diagram(KeypadRows)

  const MacKeypadRows: seq<Row> :=
    [Row(0, []), Row(2, MacKeypadOperators), Row(0, MacKeypadTop), Row(0, MacKeypadMiddle),
     Row(0, KeypadBottom), Row(2, KeypadZero), Row(0, [])]

  /** The Mac numeric keypad, parsed with `slanted` unset. */
  const MacKeypad: string := Diagram(MacKeypadRows)

  /** `'\n'.join` of seven lines, one line at a time. */
  lemma JoinSeven(ls: seq<string>)
    requires |ls| == 7
    ensures JoinLines(ls) == ls[0] + "\n" + (ls[1] + "\n" + (ls[2] + "\n" + (ls[3] + "\n" + (ls[4] + "\n" + (ls[5] + "\n" + ls[6])))))
  {
    assert ls[5..][1..] == ls[6..];
    assert JoinLines(ls[5..]) == ls[5] + "\n" + ls[6];
    assert ls[4..][1..] == ls[5..];
    assert JoinLines(ls[4..]) == ls[4] + "\n" + JoinLines(ls[5..]);
    assert ls[3..][1..] == ls[4..];
    assert JoinLines(ls[3..]) == ls[3] + "\n" + JoinLines(ls[4..]);
    assert ls[2..][1..] == ls[3..];
    assert JoinLines(ls[2..]) == ls[2] + "\n" + JoinLines(ls[3..]);
    assert ls[1..][1..] == ls[2..];
    assert JoinLines(ls[1..]) == ls[1] + "\n" + JoinLines(ls[2..]);
  }

  /** The rows render to the script's keypad literal, character for character. */
  lemma KeypadLiteral()
    ensures Keypad == "\n  / * -\n7 8 9 +\n4 5 6\n1 2 3\n  0 .\n"
  {
    KeypadTexts();
    JoinSeven(RowTexts(KeypadRows));
    KeypadJoined();
  }

  /** The keypad's lines, joined with newlines, spell out its literal. */
  lemma KeypadJoined()
    ensures "" + "\n" + ("  / * -" + "\n" + ("7 8 9 +" + "\n" + ("4 5 6" + "\n" + ("1 2 3" + "\n" + ("  0 ." + "\n" + ""))))) == "\n  / * -\n7 8 9 +\n4 5 6\n1 2 3\n  0 .\n"
  {
  }

  /** Each keypad row renders to its line of the literal. */
  lemma KeypadTexts()
    ensures RowTexts(KeypadRows) == ["", "  / * -", "7 8 9 +", "4 5 6", "1 2 3", "  0 .", ""]
  {
    assert RowText(KeypadRows[0]) == "";
    assert RowText(KeypadRows[1]) == "  / * -";
    assert RowText(KeypadRows[2]) == "7 8 9 +";
    assert RowText(KeypadRows[3]) == "4 5 6";
    assert RowText(KeypadRows[4]) == "1 2 3";
    assert RowText(KeypadRows[5]) == "  0 .";
    assert RowText(KeypadRows[6]) == "";
  }

  /** The rows render to the script's Mac keypad literal, character for character. */
  lemma MacKeypadLiteral()
    ensures MacKeypad == "\n  = / *\n7 8 9 -\n4 5 6 +\n1 2 3\n  0 .\n"
  {
    MacKeypadTexts();
    JoinSeven(RowTexts(MacKeypadRows));
    MacKeypadJoined();
  }

  /** The Mac keypad's lines, joined with newlines, spell out its literal. */
  lemma MacKeypadJoined()
    ensures "" + "\n" + ("  = / *" + "\n" + ("7 8 9 -" + "\n" + ("4 5 6 +" + "\n" + ("1 2 3" + "\n" + ("  0 ." + "\n" + ""))))) == "\n  = / *\n7 8 9 -\n4 5 6 +\n1 2 3\n  0 .\n"
  {
  }

  /** Each Mac keypad row renders to its line of the literal. */
  lemma MacKeypadTexts()
    ensures RowTexts(MacKeypadRows) == ["", "  = / *", "7 8 9 -", "4 5 6 +", "1 2 3", "  0 .", ""]
  {
    assert RowText(MacKeypadRows[0]) == "";
    assert RowText(MacKeypadRows[1]) == "  = / *";
    assert RowText(MacKeypadRows[2]) == "7 8 9 -";
    assert RowText(MacKeypadRows[3]) == "4 5 6 +";
    assert RowText(MacKeypadRows[4]) == "1 2 3";
    assert RowText(MacKeypadRows[5]) == "  0 .";
    assert RowText(MacKeypadRows[6]) == "";
  }

  /** Both keypads are drawn with one-character keys on vertically aligned rows. */
  lemma KeypadDrawn()
    ensures WellDrawn(KeypadRows, 1) && Fits(KeypadRows, 1, false)
  {
    KeypadKeys();
    assert KeypadRows[1].tokens != [];
  }

  lemma MacKeypadDrawn()
    ensures WellDrawn(MacKeypadRows, 1) && Fits(MacKeypadRows, 1, false)
  {
    KeypadKeys();
    assert MacKeypadRows[1].tokens != [];
  }

  lemma KeypadKeys()
    ensures KeysDrawn(KeypadOperators, 1) && KeysDrawn(KeypadTop, 1) && KeysDrawn(KeypadMiddle, 1)
    ensures KeysDrawn(MacKeypadOperators, 1) && KeysDrawn(MacKeypadTop, 1) && KeysDrawn(MacKeypadMiddle, 1)
    ensures KeysDrawn(KeypadBottom, 1) && KeysDrawn(KeypadZero, 1)
  {
  }

  /** On the keypad, `5` is surrounded by all eight neighbours, clockwise from `4`. */
  lemma KeypadFive()
    ensures AdjacencyGraph(Keypad, false).Ok? && '5' in AdjacencyGraph(Keypad, false).value
    ensures AdjacencyGraph(Keypad, false).value['5']
         == [Some("4"), Some("7"), Some("8"), Some("9"), Some("6"), Some("3"), Some("2"), Some("1")]
  {
    KeypadDrawn();
    KeypadOneFive();
    DrawnGraph(KeypadRows, 1, false, '5', 3, 1);
    KeypadAroundFive();
  }

  lemma KeypadOneFive()
    ensures PrintedOnce(KeypadRows, '5', 3, 1)
  {
  }

  /** What the keypad drawing shows around `5`, which is drawn at (1, 3). */
  lemma KeypadAroundFive()
    ensures DrawnAround(KeypadRows, 1, false, Coord(Col0(KeypadRows, 1, false, 3) + 1, 3))
         == [Some("4"), Some("7"), Some("8"), Some("9"), Some("6"), Some("3"), Some("2"), Some("1")]
  {
    assert Col0(KeypadRows, 1, false, 2) == 0 && Col0(KeypadRows, 1, false, 3) == 0 && Col0(KeypadRows, 1, false, 4) == 0;
  }

  /** On the Mac keypad, `7` has neighbours only above-right, right and below. */
  lemma MacKeypadSeven()
    ensures AdjacencyGraph(MacKeypad, false).Ok? && '7' in AdjacencyGraph(MacKeypad, false).value
    ensures AdjacencyGraph(MacKeypad, false).value['7']
         == [None, None, None, Some("="), Some("8"), Some("5"), Some("4"), None]
  {
    MacKeypadDrawn();
    MacKeypadOneSeven();
    DrawnGraph(MacKeypadRows, 1, false, '7', 2, 0);
    MacKeypadAroundSeven();
  }

  lemma MacKeypadOneSeven()
    ensures PrintedOnce(MacKeypadRows, '7', 2, 0)
  {
  }

  /** What the Mac keypad drawing shows around `7`, which is drawn at (0, 2). */
  lemma MacKeypadAroundSeven()
    ensures DrawnAround(MacKeypadRows, 1, false, Coord(Col0(MacKeypadRows, 1, false, 2) + 0, 2))
         == [None, None, None, Some("="), Some("8"), Some("5"), Some("4"), None]
  {
    assert Col0(MacKeypadRows, 1, false, 1) == 1 && Col0(MacKeypadRows, 1, false, 2) == 0 && Col0(MacKeypadRows, 1, false, 3) == 0;
  }

  /**
   * On the standard keypad, `7` has `/` above-right where the Mac keypad
   * has `=`: the documented example list belongs to the Mac keypad.
   */
  lemma KeypadSeven()
    ensures AdjacencyGraph(Keypad, false).Ok? && '7' in AdjacencyGraph(Keypad, false).value
    ensures AdjacencyGraph(Keypad, false).value['7']
         == [None, None, None, Some("/"), Some("8"), Some("5"), Some("4"), None]
  {
    KeypadDrawn();
    KeypadOneSeven();
    DrawnGraph(KeypadRows, 1, false, '7', 2, 0);
    KeypadAroundSeven();
  }

  lemma KeypadOneSeven()
    ensures PrintedOnce(KeypadRows, '7', 2, 0)
  {
  }

  /** What the keypad drawing shows around `7`, which is drawn at (0, 2). */
  lemma KeypadAroundSeven()
    ensures DrawnAround(KeypadRows, 1, false, Coord(Col0(KeypadRows, 1, false, 2) + 0, 2))
         == [None, None, None, Some("/"), Some("8"), Some("5"), Some("4"), None]
  {
    assert Col0(KeypadRows, 1, false, 1) == 1 && Col0(KeypadRows, 1, false, 2) == 0 && Col0(KeypadRows, 1, false, 3) == 0;
  }
}
