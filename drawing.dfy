/**
 * Regularly drawn diagrams. The four layouts of the source are drawn the
 * same way: each line is some indentation followed by equal-width tokens
 * separated by single spaces, and the tokens of a line are distinct and hold
 * no whitespace (`KeysDrawn`). For such a diagram `line.index(token)` is the
 * token's own position (a repeated token would be found at its first copy),
 * and the parse phase's result is known in closed form: the `k`-th token of
 * line `y` sits at `(Col0(y) + k, y)`. The graph is given in closed form for
 * a character printed on one key only (`DrawnGraph`).
 */
module Drawing {
  import opened Wrappers
  import opened Text
  import opened Geometry
  import opened Layout
  import opened Adjacency

  /** One diagram line: `indent` spaces, then the tokens joined by single spaces. */
  datatype Row = Row(indent: nat, tokens: seq<string>)

  function Spaces(n: nat): (s: string)
    ensures |s| == n && forall i :: 0 <= i < n ==> s[i] == ' '
  {
    if n == 0 then "" else " " + Spaces(n - 1)
  }

  /** `' '.join(ts)`. */
  function JoinTokens(ts: seq<string>): string {
    if ts == [] then "" else if |ts| == 1 then ts[0] else ts[0] + " " + JoinTokens(ts[1..])
  }

  function RowText(r: Row): string {
    Spaces(r.indent) + JoinTokens(r.tokens)
  }

  function RowTexts(rows: seq<Row>): seq<string> {
    seq(|rows|, y requires 0 <= y < |rows| => RowText(rows[y]))
  }

  /** The diagram text: the rendered rows joined by newlines. */
  function Diagram(rows: seq<Row>): string
    requires rows != []
  {
    JoinLines(RowTexts(rows))
  }

  /** All tokens, row by row. */
  function AllTokens(rows: seq<Row>): seq<string> {
    if rows == [] then [] else rows[0].tokens + AllTokens(rows[1..])
  }

  /** Every key of a row is `w` characters wide with no whitespace, and no key is repeated. */
  predicate KeysDrawn(ts: seq<string>, w: nat) {
    && (forall k :: 0 <= k < |ts| ==> |ts[k]| == w && NoSpace(ts[k]))
    && (forall i, j :: 0 <= i < j < |ts| ==> ts[i] != ts[j])
  }

  /** At least one key, and every row's keys drawn as above with a positive width. */
  predicate WellDrawn(rows: seq<Row>, w: nat) {
    && w > 0
    && (exists y :: 0 <= y < |rows| && rows[y].tokens != [])
    && (forall y :: 0 <= y < |rows| ==> KeysDrawn(rows[y].tokens, w))
  }

  /** Every non-empty row's indentation, less its slant, is a whole number of x units. */
  predicate Fits(rows: seq<Row>, w: nat, slanted: bool) {
    forall y :: 0 <= y < |rows| && rows[y].tokens != [] ==>
      (rows[y].indent - Slant(slanted, y)) % (w + 1) == 0
  }

  lemma FitsAt(rows: seq<Row>, w: nat, slanted: bool, y: nat)
    requires Fits(rows, w, slanted) && y < |rows| && rows[y].tokens != []
    ensures (rows[y].indent - Slant(slanted, y)) % (w + 1) == 0
  {
  }

  /** The x coordinate of row `y`'s first token. */
  function Col0(rows: seq<Row>, w: nat, slanted: bool, y: nat): int
    requires y < |rows|
  {
    (rows[y].indent - Slant(slanted, y)) / (w + 1)
  }

  /** The coordinate holds one of the drawn keys. */
  predicate InDrawing(rows: seq<Row>, w: nat, slanted: bool, q: Coord) {
    0 <= q.y < |rows| && Col0(rows, w, slanted, q.y) <= q.x < Col0(rows, w, slanted, q.y) + |rows[q.y].tokens|
  }

  /** Character `c` is printed on key `k` of row `y` and on no other key. */
  predicate PrintedOnce(rows: seq<Row>, c: char, y: nat, k: nat) {
    forall y', k' :: 0 <= y' < |rows| && 0 <= k' < |rows[y'].tokens| && c in rows[y'].tokens[k']
      ==> y' == y && k' == k
  }

  /** What the drawing shows at `q`: the token there, or None. */
  function DrawnLookup(rows: seq<Row>, w: nat, slanted: bool, q: Coord): Option<string> {
    if InDrawing(rows, w, slanted, q) then Some(rows[q.y].tokens[q.x - Col0(rows, w, slanted, q.y)]) else None
  }

  /** What the drawing shows around `p`, direction by direction. */
  function DrawnAround(rows: seq<Row>, w: nat, slanted: bool, p: Coord): seq<Option<string>> {
    seq(Degree(slanted), i requires 0 <= i < Degree(slanted) => DrawnLookup(rows, w, slanted, Adjacent(p, slanted)[i]))
  }

  // ---------------------------------------------------------------------------
  // Arithmetic of the x unit.

  lemma MulAtLeast(d: int, u: int)
    requires d >= 1 && u > 0
    ensures d * u >= u
  {
    assert d * u == u + (d - 1) * u;
  }

  /** `divmod` has one answer: the quotient and remainder are determined. */
  lemma DivModUnique(n: int, u: int, q: int, r: int)
    requires u > 0 && n == q * u + r && 0 <= r < u
    ensures n / u == q && n % u == r
  {
    var q', r' := n / u, n % u;
    assert n == q' * u + r';
    assert (q - q') * u == r' - r;
    if q > q' {
      MulAtLeast(q - q', u);
    } else if q < q' {
      MulAtLeast(q' - q, u);
    }
  }

  /** Moving `k` whole units keeps the remainder and adds `k` to the quotient. */
  lemma DivModShift(a: int, k: int, u: int)
    requires u > 0
    ensures (a + k * u) % u == a % u && (a + k * u) / u == a / u + k
  {
    assert a == (a / u) * u + a % u;
    assert a + k * u == (a / u + k) * u + a % u;
    DivModUnique(a + k * u, u, a / u + k, a % u);
  }

  /** A key found `k` units after a row's first key, on a row that fits, is in column `Col0 + k`. */
  lemma CellColumn(x: int, u: int, slant: int, indent: int, k: int)
    requires u > 0 && (indent - slant) % u == 0 && x * u + slant == indent + k * u
    ensures x == (indent - slant) / u + k
  {
    DivModShift(indent - slant, k, u);
    assert x * u == indent - slant + k * u;
    DivModUnique(x * u, u, x, 0);
  }

  // ---------------------------------------------------------------------------
  // Splitting a regularly drawn diagram.

  lemma {:induction false} WordsOfJoinTokens(ts: seq<string>)
    requires forall k :: 0 <= k < |ts| ==> ts[k] != [] && NoSpace(ts[k])
    ensures Words(JoinTokens(ts)) == ts
  {
    if |ts| == 1 {
      WordsOfWord(ts[0]);
    } else if |ts| > 1 {
      WordsOfJoinTokens(ts[1..]);
      WordsOfWord(ts[0]);
      assert ts[0] + " " + JoinTokens(ts[1..]) == ts[0] + [' '] + JoinTokens(ts[1..]);
      WordsSplit(ts[0], ' ', JoinTokens(ts[1..]));
      assert [ts[0]] + ts[1..] == ts;
    }
  }

  /** `line.split()` of a drawn row gives its tokens back. */
  lemma RowWords(r: Row)
    requires forall k :: 0 <= k < |r.tokens| ==> r.tokens[k] != [] && NoSpace(r.tokens[k])
    ensures Words(RowText(r)) == r.tokens
  {
    WordsSkip(Spaces(r.indent), JoinTokens(r.tokens));
    WordsOfJoinTokens(r.tokens);
  }

  /** The only whitespace in a joined row is the separating spaces. */
  lemma {:induction false} JoinTokensSpaces(ts: seq<string>)
    requires forall k :: 0 <= k < |ts| ==> NoSpace(ts[k])
    ensures forall i :: 0 <= i < |JoinTokens(ts)| && IsSpace(JoinTokens(ts)[i]) ==> JoinTokens(ts)[i] == ' '
  {
    if |ts| > 1 {
      JoinTokensSpaces(ts[1..]);
      var j := JoinTokens(ts[1..]);
      forall i | 0 <= i < |JoinTokens(ts)| && IsSpace(JoinTokens(ts)[i])
        ensures JoinTokens(ts)[i] == ' '
      {
        if i > |ts[0]| {
          assert JoinTokens(ts)[i] == j[i - |ts[0]| - 1];
        }
      }
    }
  }

  lemma RowNoNewline(r: Row)
    requires forall k :: 0 <= k < |r.tokens| ==> NoSpace(r.tokens[k])
    ensures '\n' !in RowText(r)
  {
    JoinTokensSpaces(r.tokens);
    var s, j := RowText(r), JoinTokens(r.tokens);
    forall i | 0 <= i < |s|
      ensures s[i] != '\n'
    {
      if i >= r.indent {
        assert s[i] == j[i - r.indent];
      }
    }
  }

  lemma {:induction false} LineWordsOfRows(rows: seq<Row>)
    requires forall y, k :: 0 <= y < |rows| && 0 <= k < |rows[y].tokens| ==>
               rows[y].tokens[k] != [] && NoSpace(rows[y].tokens[k])
    ensures LineWords(RowTexts(rows)) == AllTokens(rows)
  {
    if rows != [] {
      assert RowTexts(rows)[1..] == RowTexts(rows[1..]);
      RowWords(rows[0]);
      LineWordsOfRows(rows[1..]);
    }
  }

  lemma {:induction false} AllTokensWidth(rows: seq<Row>, w: nat)
    requires forall y, k :: 0 <= y < |rows| && 0 <= k < |rows[y].tokens| ==> |rows[y].tokens[k]| == w
    ensures forall m :: 0 <= m < |AllTokens(rows)| ==> |AllTokens(rows)[m]| == w
  {
    if rows != [] {
      assert forall y :: 0 <= y < |rows[1..]| ==> rows[1..][y] == rows[y + 1];
      AllTokensWidth(rows[1..], w);
    }
  }

  lemma {:induction false} AllTokensNonEmpty(rows: seq<Row>, y: nat)
    requires y < |rows| && rows[y].tokens != []
    ensures AllTokens(rows) != []
  {
    if y > 0 && rows[0].tokens == [] {
      assert rows[1..][y - 1] == rows[y];
      AllTokensNonEmpty(rows[1..], y - 1);
    }
  }

  /** The lines, and the tokens the width check sees, of a drawn diagram. */
  lemma DiagramSplits(rows: seq<Row>, w: nat)
    requires rows != [] && WellDrawn(rows, w)
    ensures Lines(Diagram(rows)) == RowTexts(rows)
    ensures Words(Diagram(rows)) == AllTokens(rows)
    ensures Words(Diagram(rows)) != [] && UniformWidth(Words(Diagram(rows)))
    ensures Unit(Diagram(rows)) == w + 1
  {
    forall y | 0 <= y < |rows| {
      RowNoNewline(rows[y]);
    }
    LinesOfJoinLines(RowTexts(rows));
    WordsOfJoinLines(RowTexts(rows));
    LineWordsOfRows(rows);
    AllTokensWidth(rows, w);
    var y :| 0 <= y < |rows| && rows[y].tokens != [];
    AllTokensNonEmpty(rows, y);
  }

  // ---------------------------------------------------------------------------
  // `line.index(token)` on a drawn row.

  /** A token without whitespace cannot occur across the space at index `w`. */
  lemma NotAcrossSpace(s: string, t: string, w: nat, j: nat)
    requires |t| == w && NoSpace(t) && 0 < j <= w < |s| && s[w] == ' '
    ensures !OccursAt(s, t, j)
  {
    assert !IsSpace(t[w - j]);
    if j + w <= |s| {
      assert s[j..j + w][w - j] == s[w];
    }
  }

  /** In a joined row of `w`-wide tokens, token `k` occurs at `k * (w + 1)`... */
  lemma {:induction false} JoinTokensOccurs(ts: seq<string>, w: nat, k: nat)
    requires k < |ts|
    requires forall m :: 0 <= m < |ts| ==> |ts[m]| == w
    ensures OccursAt(JoinTokens(ts), ts[k], k * (w + 1))
  {
    var s, t := JoinTokens(ts), ts[k];
    if |ts| == 1 {
      assert s[0..w] == t;
    } else {
      var head, rest := ts[0] + " ", JoinTokens(ts[1..]);
      assert s == head + rest;
      if k == 0 {
        assert s[0..w] == ts[0];
      } else {
        JoinTokensOccurs(ts[1..], w, k - 1);
        assert k * (w + 1) == |head| + (k - 1) * (w + 1);
        OccursShift(head, rest, t, (k - 1) * (w + 1));
      }
    }
  }

  /** The first of several joined tokens is followed by the separating space. */
  lemma JoinTokensHead(ts: seq<string>, w: nat)
    requires |ts| >= 2 && |ts[0]| == w
    ensures JoinTokens(ts) == ts[0] + " " + JoinTokens(ts[1..])
    ensures JoinTokens(ts)[0..w] == ts[0] && JoinTokens(ts)[w] == ' '
  {
  }

  lemma KeysDrawnTail(ts: seq<string>, w: nat)
    requires ts != [] && KeysDrawn(ts, w)
    ensures KeysDrawn(ts[1..], w)
  {
    forall i, j | 0 <= i < j < |ts[1..]|
      ensures ts[1..][i] != ts[1..][j]
    {
      assert ts[1..][i] == ts[i + 1] && ts[1..][j] == ts[j + 1];
    }
  }

  /** ...and, the tokens being distinct and free of whitespace, at no earlier index. */
  lemma {:induction false} JoinTokensNotBefore(ts: seq<string>, w: nat, k: nat, j: nat)
    requires w > 0 && k < |ts| && KeysDrawn(ts, w) && j < k * (w + 1)
    ensures !OccursAt(JoinTokens(ts), ts[k], j)
  {
    var s, t := JoinTokens(ts), ts[k];
    JoinTokensHead(ts, w);
    if j == 0 {
      assert ts[0] != t;
    } else if j <= w {
      NotAcrossSpace(s, t, w, j);
    } else {
      var head := ts[0] + " ";
      assert k * (w + 1) == |head| + (k - 1) * (w + 1);
      KeysDrawnTail(ts, w);
      JoinTokensNotBefore(ts[1..], w, k - 1, j - |head|);
      OccursShift(head, JoinTokens(ts[1..]), t, j - |head|);
    }
  }

  /** In a joined row of distinct `w`-wide tokens, token `k` first occurs at `k * (w + 1)`. */
  lemma JoinTokensIndex(ts: seq<string>, w: nat, k: nat)
    requires w > 0 && k < |ts| && KeysDrawn(ts, w)
    ensures OccursAt(JoinTokens(ts), ts[k], k * (w + 1))
    ensures forall j :: 0 <= j < k * (w + 1) ==> !OccursAt(JoinTokens(ts), ts[k], j)
  {
    JoinTokensOccurs(ts, w, k);
    forall j | 0 <= j < k * (w + 1)
      ensures !OccursAt(JoinTokens(ts), ts[k], j)
    {
      JoinTokensNotBefore(ts, w, k, j);
    }
  }

  /** `line.index(token)` finds the `k`-th token of a drawn row at its true position. */
  lemma RowIndex(r: Row, w: nat, k: nat)
    requires w > 0 && k < |r.tokens| && KeysDrawn(r.tokens, w)
    ensures IndexOf(RowText(r), r.tokens[k]) == Some(r.indent + k * (w + 1))
  {
    var s, t := RowText(r), r.tokens[k];
    JoinTokensIndex(r.tokens, w, k);
    OccursShift(Spaces(r.indent), JoinTokens(r.tokens), t, k * (w + 1));
    forall j | 0 <= j < r.indent + k * (w + 1)
      ensures !OccursAt(s, t, j)
    {
      if j >= r.indent {
        OccursShift(Spaces(r.indent), JoinTokens(r.tokens), t, j - r.indent);
      } else {
        assert s[j] == ' ' && !IsSpace(t[0]);
        if j + w <= |s| {
          assert s[j..j + w][0] == s[j];
        }
      }
    }
    FirstOccurrence(s, t, r.indent + k * (w + 1));
  }

  // ---------------------------------------------------------------------------
  // The parse phase on a drawn diagram.

  lemma RowAligned(rows: seq<Row>, w: nat, slanted: bool, y: nat, k: nat)
    requires WellDrawn(rows, w) && Fits(rows, w, slanted)
    requires y < |rows| && k < |rows[y].tokens|
    ensures IndexOf(RowText(rows[y]), rows[y].tokens[k]) == Some(rows[y].indent + k * (w + 1))
    ensures Aligned(RowText(rows[y]), rows[y].tokens[k], w + 1, Slant(slanted, y))
    ensures Position(RowText(rows[y]), rows[y].tokens[k], y, w + 1, Slant(slanted, y))
         == Coord(Col0(rows, w, slanted, y) + k, y)
  {
    RowIndex(rows[y], w, k);
    DivModShift(rows[y].indent - Slant(slanted, y), k, w + 1);
    assert rows[y].indent + k * (w + 1) - Slant(slanted, y)
        == rows[y].indent - Slant(slanted, y) + k * (w + 1);
  }

  /** A well-drawn diagram whose rows fit the geometry parses. */
  lemma DiagramParses(rows: seq<Row>, w: nat, slanted: bool)
    requires rows != [] && WellDrawn(rows, w) && Fits(rows, w, slanted)
    ensures ParseLayout(Diagram(rows), slanted).Ok?
  {
    var layout := Diagram(rows);
    var lines := Lines(layout);
    DiagramSplits(rows, w);
    forall y | 0 <= y < |lines|
      ensures AlignedLine(lines[y], Unit(layout), Slant(slanted, y))
    {
      RowWords(rows[y]);
      forall k | 0 <= k < |Words(lines[y])|
        ensures Aligned(lines[y], Words(lines[y])[k], Unit(layout), Slant(slanted, y))
      {
        RowAligned(rows, w, slanted, y, k);
      }
    }
    ParseOk(layout, slanted);
  }

  /**
   * The position table of such a diagram holds exactly the drawn keys: the
   * `k`-th token of line `y` at `(Col0(y) + k, y)`, nothing anywhere else.
   */
  lemma DiagramTable(rows: seq<Row>, w: nat, slanted: bool)
    requires rows != [] && WellDrawn(rows, w) && Fits(rows, w, slanted)
    ensures ParseLayout(Diagram(rows), slanted).Ok?
    ensures forall q :: Lookup(ParseLayout(Diagram(rows), slanted).value.cells, q) == DrawnLookup(rows, w, slanted, q)
  {
    DiagramParses(rows, w, slanted);
    forall q
      ensures Lookup(ParseLayout(Diagram(rows), slanted).value.cells, q) == DrawnLookup(rows, w, slanted, q)
    {
      DrawnKey(rows, w, slanted, q);
    }
  }

  /** What the table holds at one coordinate is what the drawing shows there. */
  lemma DrawnKey(rows: seq<Row>, w: nat, slanted: bool, q: Coord)
    requires rows != [] && WellDrawn(rows, w) && Fits(rows, w, slanted)
    requires ParseLayout(Diagram(rows), slanted).Ok?
    ensures Lookup(ParseLayout(Diagram(rows), slanted).value.cells, q) == DrawnLookup(rows, w, slanted, q)
  {
    if InDrawing(rows, w, slanted, q) {
      DrawnStored(rows, w, slanted, q);
    }
    if q in ParseLayout(Diagram(rows), slanted).value.cells {
      DrawnCell(rows, w, slanted, q);
    }
  }

  /** Every drawn key gets a cell. */
  lemma DrawnStored(rows: seq<Row>, w: nat, slanted: bool, q: Coord)
    requires rows != [] && WellDrawn(rows, w) && Fits(rows, w, slanted)
    requires ParseLayout(Diagram(rows), slanted).Ok?
    requires InDrawing(rows, w, slanted, q)
    ensures q in ParseLayout(Diagram(rows), slanted).value.cells
  {
    var layout := Diagram(rows);
    var y, k := q.y, q.x - Col0(rows, w, slanted, q.y);
    DiagramSplits(rows, w);
    var line := RowText(rows[y]);
    assert Lines(layout)[y] == line;
    RowWords(rows[y]);
    assert Words(line)[k] == rows[y].tokens[k];
    ParseStores(layout, slanted, y, k);
    RowAligned(rows, w, slanted, y, k);
    assert Position(line, rows[y].tokens[k], y, w + 1, Slant(slanted, y)) == q;
  }

  /** The parse of a drawn diagram places its cells as the parse phase promises. */
  lemma DiagramPlaced(rows: seq<Row>, w: nat, slanted: bool)
    requires rows != [] && WellDrawn(rows, w) && ParseLayout(Diagram(rows), slanted).Ok?
    ensures Placed(RowTexts(rows), w + 1, slanted, ParseLayout(Diagram(rows), slanted).value)
  {
    DiagramSplits(rows, w);
    ParsePlaced(Diagram(rows), slanted);
  }

  /** A stored cell of a drawn diagram is a drawn key, holding the drawn token. */
  lemma DrawnCell(rows: seq<Row>, w: nat, slanted: bool, q: Coord)
    requires rows != [] && WellDrawn(rows, w) && Fits(rows, w, slanted)
    requires ParseLayout(Diagram(rows), slanted).Ok?
    requires q in ParseLayout(Diagram(rows), slanted).value.cells
    ensures InDrawing(rows, w, slanted, q)
    ensures ParseLayout(Diagram(rows), slanted).value.cells[q] == rows[q.y].tokens[q.x - Col0(rows, w, slanted, q.y)]
  {
    var t := ParseLayout(Diagram(rows), slanted).value;
    DiagramPlaced(rows, w, slanted);
    PlacedAt(RowTexts(rows), w + 1, slanted, t, q);
    assert KeysDrawn(rows[q.y].tokens, w);
    PlacedCell(rows, w, slanted, q, t.cells[q]);
  }

  /**
   * A token of row `y` that the parse phase places at `q` (its first
   * occurrence is at `q.x * unit + slant`) is the drawn key at `q`.
   */
  lemma PlacedCell(rows: seq<Row>, w: nat, slanted: bool, q: Coord, token: string)
    requires w > 0 && 0 <= q.y < |rows| && KeysDrawn(rows[q.y].tokens, w) && Fits(rows, w, slanted)
    requires token in Words(RowTexts(rows)[q.y])
    requires IndexOf(RowTexts(rows)[q.y], token) == Some(q.x * (w + 1) + Slant(slanted, q.y))
    ensures InDrawing(rows, w, slanted, q)
    ensures token == rows[q.y].tokens[q.x - Col0(rows, w, slanted, q.y)]
  {
    assert RowTexts(rows)[q.y] == RowText(rows[q.y]);
    RowWords(rows[q.y]);
    FitsAt(rows, w, slanted, q.y);
    RowCell(rows[q.y], w, Slant(slanted, q.y), token, q.x);
  }

  /** In a drawn row, a token found at `x * (w + 1) + slant` is the row's token number `x - col0`. */
  lemma RowCell(r: Row, w: nat, slant: int, token: string, x: int)
    requires w > 0 && KeysDrawn(r.tokens, w) && (r.indent - slant) % (w + 1) == 0
    requires token in r.tokens && IndexOf(RowText(r), token) == Some(x * (w + 1) + slant)
    ensures (r.indent - slant) / (w + 1) <= x < (r.indent - slant) / (w + 1) + |r.tokens|
    ensures token == r.tokens[x - (r.indent - slant) / (w + 1)]
  {
    var k :| 0 <= k < |r.tokens| && r.tokens[k] == token;
    RowIndex(r, w, k);
    CellColumn(x, w + 1, slant, r.indent, k);
  }

  /**
   * In the graph of a drawn diagram, a character printed on one key only
   * maps to what the drawing shows around that key, direction by direction.
   */
  lemma DrawnGraph(rows: seq<Row>, w: nat, slanted: bool, c: char, y: nat, k: nat)
    requires rows != [] && WellDrawn(rows, w) && Fits(rows, w, slanted)
    requires y < |rows| && k < |rows[y].tokens| && c in rows[y].tokens[k]
    requires PrintedOnce(rows, c, y, k)
    ensures AdjacencyGraph(Diagram(rows), slanted).Ok?
    ensures c in AdjacencyGraph(Diagram(rows), slanted).value
    ensures AdjacencyGraph(Diagram(rows), slanted).value[c] == DrawnAround(rows, w, slanted, Coord(Col0(rows, w, slanted, y) + k, y))
  {
    var layout := Diagram(rows);
    DiagramTable(rows, w, slanted);
    var t := ParseLayout(layout, slanted).value;
    var p := Coord(Col0(rows, w, slanted, y) + k, y);
    assert Lookup(t.cells, p) == DrawnLookup(rows, w, slanted, p);
    forall q | q in t.cells && c in t.cells[q]
      ensures q == p
    {
      DrawnCell(rows, w, slanted, q);
    }
    SoleOwner(t, c, p);
    ConnectKeySet(t, slanted);
    assert c in Chars(t);
    BuildGraphShape(layout, slanted);
  }
}
