/**
 * The parse phase of `build_graph`: a layout diagram becomes a position table
 * mapping key coordinates to the token printed there.
 *
 * The table is a Python dict, whose iteration order is insertion order; the
 * model keeps that order (`order`) beside the mapping (`cells`), because the
 * adjacency phase walks the table in that order.
 */
module Layout {
  import opened Wrappers
  import opened Text
  import opened Geometry

  /** The ways `build_graph` can fail. */
  datatype BuildError =
    | NoTokens                                // `tokens[0]` of an empty split raises IndexError
    | TokenLengthMismatch                     // the 'token len mismatch' assertion
    | UnexpectedOffset(token: string, y: nat) // the 'unexpected x offset' assertion
    | TokenNotFound(token: string)            // `line.index` raising ValueError; never happens

  /** `position_table`: coordinates in insertion order, and what each holds. */
  datatype PositionTable = PositionTable(order: seq<Coord>, cells: map<Coord, string>)

  /** The insertion order lists each stored coordinate exactly once. */
  predicate Wf(t: PositionTable) {
    && Distinct(t.order)
    && (forall p :: p in t.cells ==> p in t.order)
    && (forall i :: 0 <= i < |t.order| ==> t.order[i] in t.cells)
  }

  const Empty := PositionTable([], map[])

  /** `position_table[p] = token`: a new key goes to the end, an existing key keeps its place. */
  function Store(t: PositionTable, p: Coord, token: string): PositionTable {
    PositionTable(if p in t.cells then t.order else t.order + [p], t.cells[p := token])
  }

  /** Storing keeps each coordinate listed once in the insertion order. */
  lemma StoreWf(t: PositionTable, p: Coord, token: string)
    requires Wf(t)
    ensures Wf(Store(t, p, token))
  {
  }

  /** Each slanted row is drawn one column further right than the one above it. */
  function Slant(slanted: bool, y: nat): int {
    if slanted then y - 1 else 0
  }

  /** `token` sits where `divmod(line.index(token) - slant, unit)` leaves no remainder. */
  predicate Aligned(line: string, token: string, unit: nat, slant: int)
    requires unit > 0
  {
    IndexOf(line, token).Some? && (IndexOf(line, token).value - slant) % unit == 0
  }

  /** Every token of the line is aligned. */
  predicate AlignedLine(line: string, unit: nat, slant: int)
    requires unit > 0
  {
    forall k :: 0 <= k < |Words(line)| ==> Aligned(line, Words(line)[k], unit, slant)
  }

  /** The coordinate of `token` on line `y`: the quotient of the same `divmod`. */
  function Position(line: string, token: string, y: nat, unit: nat, slant: int): Coord
    requires unit > 0 && IndexOf(line, token).Some?
  {
    Coord((IndexOf(line, token).value - slant) / unit, y)
  }

  /** One pass of the token loop's body: find the token, divide its column, store it. */
  function TokenStep(t: PositionTable, line: string, y: nat, token: string, unit: nat, slant: int)
    : Result<PositionTable, BuildError>
    requires unit > 0
  {
    if IndexOf(line, token).None? then Err(TokenNotFound(token))
    else if !Aligned(line, token, unit, slant) then Err(UnexpectedOffset(token, y))
    else Ok(Store(t, Position(line, token, y, unit, slant), token))
  }

  /** The inner loop over `line.split()`, from the `k`-th token on. */
  function PlaceTokens(t: PositionTable, line: string, y: nat, ws: seq<string>, k: nat,
                       unit: nat, slant: int): (r: Result<PositionTable, BuildError>)
    requires k <= |ws| && unit > 0
    decreases |ws| - k
  {
    if k == |ws| then Ok(t)
    else
      var step := TokenStep(t, line, y, ws[k], unit, slant);
      if step.Err? then step else PlaceTokens(step.value, line, y, ws, k + 1, unit, slant)
  }

  /** The outer loop over the diagram's lines, from line `y` on. */
  function PlaceLines(t: PositionTable, lines: seq<string>, y: nat, unit: nat, slanted: bool)
    : (r: Result<PositionTable, BuildError>)
    requires y <= |lines| && unit > 0
    decreases |lines| - y
  {
    if y == |lines| then Ok(t)
    else match PlaceTokens(t, lines[y], y, Words(lines[y]), 0, unit, Slant(slanted, y))
      case Err(e) => Err(e)
      case Ok(t') => PlaceLines(t', lines, y + 1, unit, slanted)
  }

  /** Every token has the length of the first one. */
  predicate UniformWidth(tokens: seq<string>) {
    forall k :: 0 <= k < |tokens| ==> |tokens[k]| == |tokens[0]|
  }

  /** The x unit: a token's width plus the separating column. */
  function Unit(layout: string): nat
    requires Words(layout) != []
  {
    |Words(layout)[0]| + 1
  }

  /** The parse phase of `build_graph(layout, slanted)`, as a value. */
  function ParseLayout(layout: string, slanted: bool): (r: Result<PositionTable, BuildError>)
    ensures r.Ok? ==> Wf(r.value)
  {
    if Words(layout) == [] then Err(NoTokens)
    else if !UniformWidth(Words(layout)) then Err(TokenLengthMismatch)
    else
      PlaceLinesWf(Empty, Lines(layout), 0, Unit(layout), slanted);
      PlaceLines(Empty, Lines(layout), 0, Unit(layout), slanted)
  }

  /** The token loop keeps the table well formed... */
  lemma {:induction false} PlaceTokensWf(t: PositionTable, line: string, y: nat, ws: seq<string>, k: nat,
                                         unit: nat, slant: int)
    requires Wf(t) && k <= |ws| && unit > 0
    requires PlaceTokens(t, line, y, ws, k, unit, slant).Ok?
    ensures Wf(PlaceTokens(t, line, y, ws, k, unit, slant).value)
    decreases |ws| - k
  {
    if k < |ws| {
      PlaceTokensStep(t, line, y, ws, k, unit, slant);
      StoreWf(t, Position(line, ws[k], y, unit, slant), ws[k]);
      PlaceTokensWf(TokenStep(t, line, y, ws[k], unit, slant).value, line, y, ws, k + 1, unit, slant);
    }
  }

  /** ...and so does the line loop. */
  lemma {:induction false} PlaceLinesWf(t: PositionTable, lines: seq<string>, y: nat, unit: nat, slanted: bool)
    requires Wf(t) && y <= |lines| && unit > 0
    ensures PlaceLines(t, lines, y, unit, slanted).Ok? ==> Wf(PlaceLines(t, lines, y, unit, slanted).value)
    decreases |lines| - y
  {
    if y < |lines| {
      var r := PlaceTokens(t, lines[y], y, Words(lines[y]), 0, unit, Slant(slanted, y));
      if r.Ok? {
        PlaceTokensWf(t, lines[y], y, Words(lines[y]), 0, unit, Slant(slanted, y));
        PlaceLinesWf(r.value, lines, y + 1, unit, slanted);
      }
    }
  }

  /** The parse phase as the source runs it: a nested loop filling `position_table`. */
  method Parse(layout: string, slanted: bool) returns (r: Result<PositionTable, BuildError>)
    ensures r == ParseLayout(layout, slanted)
  {
    var tokens := Words(layout);
    if |tokens| == 0 {
      return Err(NoTokens);
    }
    var tokenSize := |tokens[0]|;
    var unit := tokenSize + 1;
    var k := 0;
    while k < |tokens|
      invariant k <= |tokens|
      invariant forall j :: 0 <= j < k ==> |tokens[j]| == tokenSize
    {
      if |tokens[k]| != tokenSize {
        return Err(TokenLengthMismatch);
      }
      k := k + 1;
    }
    var lines := Lines(layout);
    var table := Empty;
    var y := 0;
    while y < |lines|
      invariant y <= |lines|
      invariant ParseLayout(layout, slanted) == PlaceLines(table, lines, y, unit, slanted)
    {
      var slant := if slanted then y - 1 else 0;
      var placed := PlaceLine(table, lines[y], y, Words(lines[y]), unit, slant);
      PlaceLinesNext(table, lines, y, unit, slanted, placed);
      if placed.Err? {
        return Err(placed.error);
      }
      table := placed.value;
      y := y + 1;
    }
    return Ok(table);
  }

  /** One more line: the loop stops with that line's error, or goes on from the updated table. */
  lemma PlaceLinesNext(t: PositionTable, lines: seq<string>, y: nat, unit: nat, slanted: bool,
                       placed: Result<PositionTable, BuildError>)
    requires y < |lines| && unit > 0
    requires placed == PlaceTokens(t, lines[y], y, Words(lines[y]), 0, unit, Slant(slanted, y))
    ensures placed.Err? ==> PlaceLines(t, lines, y, unit, slanted) == Err(placed.error)
    ensures placed.Ok? ==> PlaceLines(t, lines, y, unit, slanted) == PlaceLines(placed.value, lines, y + 1, unit, slanted)
  {
  }

  /** One pass of the outer loop: the tokens `ws` of line `y` (its `split()`) are stored in the table. */
  method PlaceLine(table: PositionTable, line: string, y: nat, ws: seq<string>, unit: nat, slant: int)
    returns (r: Result<PositionTable, BuildError>)
    requires unit > 0
    ensures r == PlaceTokens(table, line, y, ws, 0, unit, slant)
  {
    var t := table;
    var j := 0;
    while j < |ws|
      invariant j <= |ws|
      invariant PlaceTokens(table, line, y, ws, 0, unit, slant) == PlaceTokens(t, line, y, ws, j, unit, slant)
    {
      var placed := PlaceToken(t, line, y, ws[j], unit, slant);
      PlaceTokensNext(table, t, line, y, ws, j, unit, slant, placed);
      if placed.Err? {
        return placed;
      }
      t := placed.value;
      j := j + 1;
    }
    return Ok(t);
  }

  /** One more token: the loop stops with the step's error, or goes on from the updated table. */
  lemma PlaceTokensNext(table: PositionTable, t: PositionTable, line: string, y: nat, ws: seq<string>, j: nat,
                        unit: nat, slant: int, placed: Result<PositionTable, BuildError>)
    requires j < |ws| && unit > 0
    requires PlaceTokens(table, line, y, ws, 0, unit, slant) == PlaceTokens(t, line, y, ws, j, unit, slant)
    requires placed == TokenStep(t, line, y, ws[j], unit, slant)
    ensures placed.Err? ==> placed == PlaceTokens(table, line, y, ws, 0, unit, slant)
    ensures placed.Ok? ==> PlaceTokens(table, line, y, ws, 0, unit, slant)
                           == PlaceTokens(placed.value, line, y, ws, j + 1, unit, slant)
  {
  }

  /** The body of the token loop: `line.index`, the `divmod`, the offset assertion, the store. */
  method PlaceToken(t: PositionTable, line: string, y: nat, token: string, unit: nat, slant: int)
    returns (r: Result<PositionTable, BuildError>)
    requires unit > 0
    ensures r == TokenStep(t, line, y, token, unit, slant)
  {
    var found := IndexOf(line, token);
    if found.None? {
      return Err(TokenNotFound(token));
    }
    var x, remainder := (found.value - slant) / unit, (found.value - slant) % unit;
    if remainder != 0 {
      return Err(UnexpectedOffset(token, y));
    }
    var p := Coord(x, y);
    var order := if p in t.cells then t.order else t.order + [p];
    return Ok(PositionTable(order, t.cells[p := token]));
  }

  // ---------------------------------------------------------------------------
  // What the parse phase guarantees.

  /** The token loop succeeds exactly when every remaining token is aligned. */
  lemma {:induction false} PlaceTokensOk(t: PositionTable, line: string, y: nat, ws: seq<string>, k: nat,
                                         unit: nat, slant: int)
    requires k <= |ws| && unit > 0
    ensures PlaceTokens(t, line, y, ws, k, unit, slant).Ok?
        <==> forall j :: k <= j < |ws| ==> Aligned(line, ws[j], unit, slant)
    decreases |ws| - k
  {
    if k < |ws| {
      PlaceTokensStep(t, line, y, ws, k, unit, slant);
      var step := TokenStep(t, line, y, ws[k], unit, slant);
      AlignedFromNext(line, ws, k, unit, slant);
      if step.Ok? {
        PlaceTokensOk(step.value, line, y, ws, k + 1, unit, slant);
      }
    }
  }

  /** The tokens from `k` on are aligned exactly when the `k`-th is and those after it are. */
  lemma AlignedFromNext(line: string, ws: seq<string>, k: nat, unit: nat, slant: int)
    requires k < |ws| && unit > 0
    ensures (forall j :: k <= j < |ws| ==> Aligned(line, ws[j], unit, slant))
        <==> Aligned(line, ws[k], unit, slant) && forall j :: k + 1 <= j < |ws| ==> Aligned(line, ws[j], unit, slant)
  {
  }

  /** The line loop succeeds exactly when every remaining line is aligned. */
  lemma {:induction false} PlaceLinesOk(t: PositionTable, lines: seq<string>, y: nat, unit: nat, slanted: bool)
    requires y <= |lines| && unit > 0
    ensures PlaceLines(t, lines, y, unit, slanted).Ok?
        <==> forall j :: y <= j < |lines| ==> AlignedLine(lines[j], unit, Slant(slanted, j))
    decreases |lines| - y
  {
    if y < |lines| {
      var ws, slant := Words(lines[y]), Slant(slanted, y);
      PlaceTokensOk(t, lines[y], y, ws, 0, unit, slant);
      var r := PlaceTokens(t, lines[y], y, ws, 0, unit, slant);
      if r.Ok? {
        PlaceLinesOk(r.value, lines, y + 1, unit, slanted);
        assert PlaceLines(t, lines, y, unit, slanted) == PlaceLines(r.value, lines, y + 1, unit, slanted);
      } else {
        assert !AlignedLine(lines[y], unit, slant);
      }
    }
  }

  /**
   * The build fails exactly when the diagram has no token, when a token's
   * length differs from the first token's, or when some token of some line
   * `y` is not at a multiple of the x unit after removing that line's slant.
   */
  lemma ParseOk(layout: string, slanted: bool)
    ensures ParseLayout(layout, slanted).Ok?
        <==> Words(layout) != [] && UniformWidth(Words(layout))
             && forall y :: 0 <= y < |Lines(layout)| ==> AlignedLine(Lines(layout)[y], Unit(layout), Slant(slanted, y))
  {
    if Words(layout) != [] && UniformWidth(Words(layout)) {
      PlaceLinesOk(Empty, Lines(layout), 0, Unit(layout), slanted);
    }
  }

  /** The error checks come in the source's order: no tokens, then width, then offsets. */
  lemma ParseErrors(layout: string, slanted: bool)
    ensures Words(layout) == [] ==> ParseLayout(layout, slanted) == Err(NoTokens)
    ensures Words(layout) != [] && !UniformWidth(Words(layout))
        ==> ParseLayout(layout, slanted) == Err(TokenLengthMismatch)
    ensures ParseLayout(layout, slanted).Err? && ParseLayout(layout, slanted).error.UnexpectedOffset?
        ==> Words(layout) != [] && UniformWidth(Words(layout))
  {
  }

  /** A token loop over `line.split()` never reports a missing token. */
  lemma {:induction false} PlaceTokensFindsAll(t: PositionTable, line: string, y: nat, k: nat, unit: nat, slant: int)
    requires k <= |Words(line)| && unit > 0
    ensures !PlaceTokens(t, line, y, Words(line), k, unit, slant).Err?
         || !PlaceTokens(t, line, y, Words(line), k, unit, slant).error.TokenNotFound?
    decreases |Words(line)| - k
  {
    var ws := Words(line);
    if k < |ws| {
      PlaceTokensStep(t, line, y, ws, k, unit, slant);
      var step := TokenStep(t, line, y, ws[k], unit, slant);
      WordsFound(line, k);
      if step.Ok? {
        PlaceTokensFindsAll(step.value, line, y, k + 1, unit, slant);
      } else {
        assert step.error.UnexpectedOffset?;
      }
    }
  }

  lemma {:induction false} PlaceLinesFindsAll(t: PositionTable, lines: seq<string>, y: nat, unit: nat, slanted: bool)
    requires y <= |lines| && unit > 0
    ensures !PlaceLines(t, lines, y, unit, slanted).Err?
         || !PlaceLines(t, lines, y, unit, slanted).error.TokenNotFound?
    decreases |lines| - y
  {
    if y < |lines| {
      PlaceTokensFindsAll(t, lines[y], y, 0, unit, Slant(slanted, y));
      match PlaceTokens(t, lines[y], y, Words(lines[y]), 0, unit, Slant(slanted, y))
      case Err(e) =>
      case Ok(t') => PlaceLinesFindsAll(t', lines, y + 1, unit, slanted);
    }
  }

  /** `line.index(token)` cannot fail: the modelled ValueError never occurs. */
  lemma NeverTokenNotFound(layout: string, slanted: bool)
    ensures !ParseLayout(layout, slanted).Err? || !ParseLayout(layout, slanted).error.TokenNotFound?
  {
    if Words(layout) != [] && UniformWidth(Words(layout)) {
      PlaceLinesFindsAll(Empty, Lines(layout), 0, Unit(layout), slanted);
    }
  }

  /**
   * Every stored cell `(x, y)` holds a token of line `y` whose first
   * occurrence in that line is at `x * unit + slant`.
   */
  ghost predicate Placed(lines: seq<string>, unit: nat, slanted: bool, t: PositionTable) {
    forall p :: p in t.cells ==>
      && 0 <= p.y < |lines|
      && t.cells[p] in Words(lines[p.y])
      && IndexOf(lines[p.y], t.cells[p]) == Some(p.x * unit + Slant(slanted, p.y))
  }

  /** What `Placed` says about one stored cell. */
  lemma PlacedAt(lines: seq<string>, unit: nat, slanted: bool, t: PositionTable, q: Coord)
    requires Placed(lines, unit, slanted, t) && q in t.cells
    ensures 0 <= q.y < |lines| && t.cells[q] in Words(lines[q.y])
    ensures IndexOf(lines[q.y], t.cells[q]) == Some(q.x * unit + Slant(slanted, q.y))
  {
  }

  lemma DivModExact(n: int, unit: nat)
    requires unit > 0 && n % unit == 0
    ensures (n / unit) * unit == n
  {
  }

  lemma StorePlaced(t: PositionTable, lines: seq<string>, y: nat, unit: nat, slanted: bool, token: string, p: Coord)
    requires y < |lines| && p.y == y && token in Words(lines[y])
    requires IndexOf(lines[y], token) == Some(p.x * unit + Slant(slanted, y))
    requires Placed(lines, unit, slanted, t)
    ensures Placed(lines, unit, slanted, Store(t, p, token))
  {
  }

  lemma {:induction false} PlaceTokensPlaced(t: PositionTable, lines: seq<string>, y: nat, k: nat, unit: nat, slanted: bool)
    requires y < |lines| && k <= |Words(lines[y])| && unit > 0
    requires Placed(lines, unit, slanted, t)
    requires PlaceTokens(t, lines[y], y, Words(lines[y]), k, unit, Slant(slanted, y)).Ok?
    ensures Placed(lines, unit, slanted, PlaceTokens(t, lines[y], y, Words(lines[y]), k, unit, Slant(slanted, y)).value)
    decreases |Words(lines[y])| - k
  {
    var line, ws, slant := lines[y], Words(lines[y]), Slant(slanted, y);
    if k < |ws| {
      PlaceTokensStep(t, line, y, ws, k, unit, slant);
      var step := TokenStep(t, line, y, ws[k], unit, slant);
      StepPlaced(t, lines, y, k, unit, slanted);
      PlaceTokensPlaced(step.value, lines, y, k + 1, unit, slanted);
    }
  }

  /** One step of the token loop: it succeeds exactly on an aligned token, and the loop goes on or stops with it. */
  lemma PlaceTokensStep(t: PositionTable, line: string, y: nat, ws: seq<string>, k: nat, unit: nat, slant: int)
    requires k < |ws| && unit > 0
    ensures TokenStep(t, line, y, ws[k], unit, slant).Ok? <==> Aligned(line, ws[k], unit, slant)
    ensures TokenStep(t, line, y, ws[k], unit, slant).Err?
            ==> PlaceTokens(t, line, y, ws, k, unit, slant) == TokenStep(t, line, y, ws[k], unit, slant)
    ensures TokenStep(t, line, y, ws[k], unit, slant).Ok?
            ==> PlaceTokens(t, line, y, ws, k, unit, slant)
                == PlaceTokens(TokenStep(t, line, y, ws[k], unit, slant).value, line, y, ws, k + 1, unit, slant)
  {
  }

  /** Storing one aligned token keeps every cell placed. */
  lemma StepPlaced(t: PositionTable, lines: seq<string>, y: nat, k: nat, unit: nat, slanted: bool)
    requires y < |lines| && k < |Words(lines[y])| && unit > 0
    requires Placed(lines, unit, slanted, t)
    requires TokenStep(t, lines[y], y, Words(lines[y])[k], unit, Slant(slanted, y)).Ok?
    ensures Placed(lines, unit, slanted, TokenStep(t, lines[y], y, Words(lines[y])[k], unit, Slant(slanted, y)).value)
  {
    var line, token, slant := lines[y], Words(lines[y])[k], Slant(slanted, y);
    TokenStepStores(t, line, y, token, unit, slant);
    StorePlaced(t, lines, y, unit, slanted, token, Position(line, token, y, unit, slant));
  }

  /** A successful step stores the token at a coordinate that gives back where `line.index` found it. */
  lemma TokenStepStores(t: PositionTable, line: string, y: nat, token: string, unit: nat, slant: int)
    requires unit > 0 && TokenStep(t, line, y, token, unit, slant).Ok?
    ensures Aligned(line, token, unit, slant)
    ensures TokenStep(t, line, y, token, unit, slant).value == Store(t, Position(line, token, y, unit, slant), token)
    ensures IndexOf(line, token) == Some(Position(line, token, y, unit, slant).x * unit + slant)
  {
    DivModExact(IndexOf(line, token).value - slant, unit);
  }

  lemma {:induction false} PlaceLinesPlaced(t: PositionTable, lines: seq<string>, y: nat, unit: nat, slanted: bool)
    requires y <= |lines| && unit > 0
    requires Placed(lines, unit, slanted, t)
    requires PlaceLines(t, lines, y, unit, slanted).Ok?
    ensures Placed(lines, unit, slanted, PlaceLines(t, lines, y, unit, slanted).value)
    decreases |lines| - y
  {
    if y < |lines| {
      PlaceTokensPlaced(t, lines, y, 0, unit, slanted);
      PlaceLinesPlaced(PlaceTokens(t, lines[y], y, Words(lines[y]), 0, unit, Slant(slanted, y)).value,
                       lines, y + 1, unit, slanted);
    }
  }

  /**
   * A successful parse stores only tokens of the diagram, each at the
   * coordinate `(x, y)` with `x * unit + slant == line.index(token)`.
   */
  lemma ParsePlaced(layout: string, slanted: bool)
    requires ParseLayout(layout, slanted).Ok?
    ensures Placed(Lines(layout), Unit(layout), slanted, ParseLayout(layout, slanted).value)
  {
    PlaceLinesPlaced(Empty, Lines(layout), 0, Unit(layout), slanted);
  }

  /** The token loop never removes a stored coordinate. */
  lemma {:induction false} PlaceTokensKeeps(t: PositionTable, line: string, y: nat, ws: seq<string>, k: nat,
                                            unit: nat, slant: int)
    requires k <= |ws| && unit > 0
    requires PlaceTokens(t, line, y, ws, k, unit, slant).Ok?
    ensures t.cells.Keys <= PlaceTokens(t, line, y, ws, k, unit, slant).value.cells.Keys
    decreases |ws| - k
  {
    if k < |ws| {
      PlaceTokensStep(t, line, y, ws, k, unit, slant);
      PlaceTokensKeeps(TokenStep(t, line, y, ws[k], unit, slant).value, line, y, ws, k + 1, unit, slant);
    }
  }

  /** Nor does the line loop. */
  lemma {:induction false} PlaceLinesKeeps(t: PositionTable, lines: seq<string>, y: nat, unit: nat, slanted: bool)
    requires y <= |lines| && unit > 0
    requires PlaceLines(t, lines, y, unit, slanted).Ok?
    ensures t.cells.Keys <= PlaceLines(t, lines, y, unit, slanted).value.cells.Keys
    decreases |lines| - y
  {
    if y < |lines| {
      var t' := PlaceTokens(t, lines[y], y, Words(lines[y]), 0, unit, Slant(slanted, y)).value;
      PlaceTokensKeeps(t, lines[y], y, Words(lines[y]), 0, unit, Slant(slanted, y));
      PlaceLinesKeeps(t', lines, y + 1, unit, slanted);
    }
  }

  lemma {:induction false} PlaceTokensStores(t: PositionTable, line: string, y: nat, ws: seq<string>, k: nat,
                                             unit: nat, slant: int, m: nat)
    requires k <= m < |ws| && unit > 0
    requires PlaceTokens(t, line, y, ws, k, unit, slant).Ok?
    ensures Aligned(line, ws[m], unit, slant)
    ensures Position(line, ws[m], y, unit, slant) in PlaceTokens(t, line, y, ws, k, unit, slant).value.cells
    decreases |ws| - k
  {
    PlaceTokensStep(t, line, y, ws, k, unit, slant);
    var t' := TokenStep(t, line, y, ws[k], unit, slant).value;
    if k < m {
      PlaceTokensStores(t', line, y, ws, k + 1, unit, slant, m);
    } else {
      PlaceTokensKeeps(t', line, y, ws, k + 1, unit, slant);
    }
  }

  lemma {:induction false} PlaceLinesStores(t: PositionTable, lines: seq<string>, y: nat, unit: nat, slanted: bool,
                                            row: nat, m: nat)
    requires y <= row < |lines| && m < |Words(lines[row])| && unit > 0
    requires PlaceLines(t, lines, y, unit, slanted).Ok?
    ensures Aligned(lines[row], Words(lines[row])[m], unit, Slant(slanted, row))
    ensures Position(lines[row], Words(lines[row])[m], row, unit, Slant(slanted, row))
            in PlaceLines(t, lines, y, unit, slanted).value.cells
    decreases |lines| - y
  {
    var t' := PlaceTokens(t, lines[y], y, Words(lines[y]), 0, unit, Slant(slanted, y)).value;
    if y == row {
      PlaceTokensStores(t, lines[y], y, Words(lines[y]), 0, unit, Slant(slanted, y), m);
      PlaceLinesKeeps(t', lines, y + 1, unit, slanted);
    } else {
      PlaceLinesStores(t', lines, y + 1, unit, slanted, row, m);
    }
  }

  /** A successful parse gives every token of every line a cell at its computed coordinate. */
  lemma ParseStores(layout: string, slanted: bool, y: nat, m: nat)
    requires ParseLayout(layout, slanted).Ok?
    requires y < |Lines(layout)| && m < |Words(Lines(layout)[y])|
    ensures Aligned(Lines(layout)[y], Words(Lines(layout)[y])[m], Unit(layout), Slant(slanted, y))
    ensures Position(Lines(layout)[y], Words(Lines(layout)[y])[m], y, Unit(layout), Slant(slanted, y))
            in ParseLayout(layout, slanted).value.cells
  {
    PlaceLinesStores(Empty, Lines(layout), 0, Unit(layout), slanted, y, m);
  }
}
