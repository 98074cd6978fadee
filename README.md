# Keyboard adjacency graphs, modelled in Dafny

This project models the keyboard-adjacency graph builder of zxcvbn-cpp's
data scripts (`data-scripts/build_keyboard_adjacency_graphs.py`). The
builder turns an ASCII diagram of a keyboard or keypad into a graph. The
graph maps every character printed on a key to a list with one entry per
direction. The entry holds the whole token of the neighbouring key in that
direction, or None when no key is there.

The builder works in two phases. Both are modelled as methods with loops,
and each method is proved equal to a pure specification function.

- **Parse** (`Layout.Parse`, `Layout.PlaceLine`). The diagram is split into
  whitespace tokens, and every token must be as wide as the first one. For
  line `y` and each token, `divmod(line.index(token) - slant, width + 1)`
  must leave no remainder. The quotient is the key's x coordinate. The token
  is then stored in the position table, a Python dict, which iterates in
  insertion order from Python 3.7 on.
- **Connect** (`Adjacency.ConnectKeys`). This is the triple loop over
  stored keys, the characters of each key's token, and the neighbour
  coordinates. It rebinds each character to a fresh list and appends what
  the table holds at each neighbour.

The modules follow the script's structure:

- `Text` holds the three Python string operations the builder uses:
  `str.split()`, `str.split('\n')` and `str.index`.
- `Geometry` holds the two neighbour-offset functions.
- `Layout` holds the parse phase.
- `Adjacency` holds the adjacency phase and `build_graph` as a whole.
- `Drawing` proves what the parse phase does on a regularly drawn diagram.
  Every line of such a diagram is an indentation followed by equal-width
  tokens joined by single spaces. The tokens of a line are distinct and hold
  no whitespace. For these diagrams, `line.index` finds each token at its own
  column. A repeated token would be found at its first copy, so this does
  not hold without distinctness. The graph is stated in closed form for
  characters printed on one key only.
- `Layouts` holds the script's four diagrams, the two lists the script
  documents (`g` on QWERTY, `7` on both keypads) and two more examples
  (`u` on Dvorak, `5` on the keypad).
- `Escape` holds `escape`. Only the C++ source writer `output_cpp` calls it.
  It escapes every key character and every neighbour token before writing
  them into string literals.

Two remarks on the script's own documentation, each proved by the lemmas named:

- The docstring of `get_aligned_adjacent_coords` speaks of nine
  coordinates. The function returns eight (`Geometry.AlignedAdjacent`).
- The docstring of `build_graph` attributes the list
  `[None, None, None, '=', '8', '5', '4', None]` for `7` to the keypad
  layout. That list is the Mac keypad's (`Layouts.MacKeypadSeven`). On the
  standard keypad, direction 3 of `7` holds `/` (`Layouts.KeypadSeven`,
  with `Layouts.KeypadLiteral` tying the keypad to the script's literal).

## Model

| member | source | states |
|---|---|---|
| Geometry.SlantedAdjacent | data-scripts/build_keyboard_adjacency_graphs.py:44-51 | six distinct coordinates, each one step from the key; the two far diagonals (x-1,y-1) and (x+1,y+1) are not adjacent |
| Geometry.AlignedAdjacent | data-scripts/build_keyboard_adjacency_graphs.py:53-57 | eight distinct coordinates, and a coordinate is listed exactly when it touches the key (all eight surrounding keys) |
| Geometry.Adjacent | data-scripts/build_keyboard_adjacency_graphs.py:71 | the chosen offset function lists 6 coordinates when slanted and 8 when aligned |
| Geometry.AdjacentSymmetric | data-scripts/build_keyboard_adjacency_graphs.py:44-57 | if q is p's neighbour in direction i, then p is q's neighbour in direction (i+3) mod 6 (slanted) or (i+4) mod 8 (aligned) |
| Text.Words | data-scripts/build_keyboard_adjacency_graphs.py:68 | `str.split()` yields only non-empty tokens that contain no whitespace |
| Text.Lines | data-scripts/build_keyboard_adjacency_graphs.py:73 | `split('\n')` yields one more line than there are newlines, and no line holds a newline |
| Text.JoinLinesOfLines | data-scripts/build_keyboard_adjacency_graphs.py:73 | joining the lines with newlines gives back the diagram |
| Text.WordsOfLines | data-scripts/build_keyboard_adjacency_graphs.py:68-76 | the tokens of the whole diagram are the tokens of its lines, in order, so the width check sees exactly the tokens the line loop places |
| Text.IndexOf | data-scripts/build_keyboard_adjacency_graphs.py:77 | `line.index(token)`: the first index at which the token occurs, or None where Python raises ValueError; what it returns is stated by Text.IndexFromFirst (through IndexFrom, the search from a given index) |
| Text.IndexFromFirst | data-scripts/build_keyboard_adjacency_graphs.py:77 | `line.index(token)` is an occurrence with no occurrence before it, or None when the token does not occur |
| Text.WordsFound | data-scripts/build_keyboard_adjacency_graphs.py:76-77 | every token of `line.split()` is found by `line.index` |
| Layout.Store | data-scripts/build_keyboard_adjacency_graphs.py:79 | `position_table[(x,y)] = token`: the cell is bound to the token, and a new coordinate is appended to the insertion order while an existing one keeps its place; Layout.StoreWf states that the table stays well formed |
| Layout.Slant | data-scripts/build_keyboard_adjacency_graphs.py:75 | `slant = y - 1 if slanted else 0`: the column offset removed from line y before the `divmod`; Layout.ParsePlaced and Drawing.RowAligned state where it puts each key |
| Layout.Unit | data-scripts/build_keyboard_adjacency_graphs.py:70 | `x_unit = token_size + 1`: the first token's width plus the separating column; Drawing.DiagramSplits states that a drawn diagram's unit is its key width plus one |
| Layout.UniformWidth | data-scripts/build_keyboard_adjacency_graphs.py:72 | the width assertion `all(len(token) == token_size ...)`: every token is as wide as the first; Layout.ParseOk and Layout.ParseErrors state that the parse fails with TokenLengthMismatch exactly when it does not hold |
| Layout.Aligned | data-scripts/build_keyboard_adjacency_graphs.py:77-78 | the offset assertion `remainder == 0`: the token is found and its column minus the slant is a multiple of `x_unit`; Layout.PlaceTokensStep states that a token-loop step succeeds exactly on an aligned token |
| Layout.Position | data-scripts/build_keyboard_adjacency_graphs.py:77 | the `divmod` quotient: the coordinate (x, y) with x = (column - slant) div `x_unit`; Layout.TokenStepStores states that `x * x_unit + slant` is the token's column |
| Layout.TokenStep | data-scripts/build_keyboard_adjacency_graphs.py:77-79 | one pass of the token loop's body: `line.index`, the `divmod`, the offset assertion and the store; Layout.PlaceTokensStep and Layout.TokenStepStores state its outcomes |
| Layout.PlaceTokens | data-scripts/build_keyboard_adjacency_graphs.py:76-79 | the token loop over one line, stopping at the first error; Layout.PlaceTokensOk, Layout.PlaceTokensWf and Layout.PlaceTokensKeeps state when it succeeds and what it keeps |
| Layout.PlaceLines | data-scripts/build_keyboard_adjacency_graphs.py:73-79 | the line loop over `enumerate(layout_str.split('\n'))`, stopping at the first error; Layout.PlaceLinesOk, Layout.PlaceLinesWf and Layout.PlaceLinesKeeps state when it succeeds and what it keeps |
| Layout.StoreWf | data-scripts/build_keyboard_adjacency_graphs.py:79 | `position_table[(x,y)] = token` binds the coordinate and keeps the insertion order listing every stored key once |
| Layout.PlaceTokensWf | data-scripts/build_keyboard_adjacency_graphs.py:76-79 | the token loop keeps the table well formed |
| Layout.PlaceTokensKeeps | data-scripts/build_keyboard_adjacency_graphs.py:76-79 | the token loop never drops a stored key |
| Layout.PlaceTokensStep | data-scripts/build_keyboard_adjacency_graphs.py:76-79 | one step of the token loop succeeds exactly on an aligned token; the loop then goes on from the updated table, or stops with that step's error |
| Layout.PlaceLinesWf | data-scripts/build_keyboard_adjacency_graphs.py:73-79 | the line loop keeps the table well formed |
| Layout.PlaceLinesKeeps | data-scripts/build_keyboard_adjacency_graphs.py:73-79 | the line loop never drops a stored key |
| Layout.ParseLayout | data-scripts/build_keyboard_adjacency_graphs.py:67-79 | a successful parse yields a well-formed position table |
| Layout.Parse | data-scripts/build_keyboard_adjacency_graphs.py:67-79 | the width-check loop and the nested line and token loops return exactly Layout.ParseLayout's result, errors included |
| Layout.PlaceLine | data-scripts/build_keyboard_adjacency_graphs.py:76-79 | the token loop over a line's tokens, updating the table's order and cells, equals Layout.PlaceTokens, stopping at the first error |
| Layout.PlaceToken | data-scripts/build_keyboard_adjacency_graphs.py:77-79 | the loop body (`line.index`, the `divmod`, the offset assertion, the store) equals Layout.TokenStep: it fails with TokenNotFound or UnexpectedOffset exactly when that step does, and otherwise stores the same cell |
| Layout.TokenStepStores | data-scripts/build_keyboard_adjacency_graphs.py:77-79 | a successful step stores the token at the x whose `x * x_unit + slant` is where `line.index` found it |
| Layout.PlaceTokensOk | data-scripts/build_keyboard_adjacency_graphs.py:76-79 | the token loop succeeds if and only if every remaining token is aligned |
| Layout.PlaceLinesOk | data-scripts/build_keyboard_adjacency_graphs.py:73-79 | the line loop succeeds if and only if every remaining line's tokens are aligned with that line's slant |
| Layout.ParseOk | data-scripts/build_keyboard_adjacency_graphs.py:68-79 | the parse succeeds if and only if there is a token, all tokens have the first one's width, and every token of every line has remainder 0 |
| Layout.ParseErrors | data-scripts/build_keyboard_adjacency_graphs.py:68-78 | the failures come in the script's order: no token, then a width mismatch, and an offset error only when the widths agree |
| Layout.NeverTokenNotFound | data-scripts/build_keyboard_adjacency_graphs.py:77 | `line.index` never raises ValueError |
| Layout.ParsePlaced | data-scripts/build_keyboard_adjacency_graphs.py:75-79 | every stored cell (x, y) holds a token of line y whose first occurrence is at `x * x_unit + slant` |
| Layout.ParseStores | data-scripts/build_keyboard_adjacency_graphs.py:76-79 | after a successful parse, every token of every line has remainder 0 and a cell at its computed coordinate |
| Adjacency.LastOwner | data-scripts/build_keyboard_adjacency_graphs.py:82-84 | the last key in insertion order whose token holds the character, or None when no key holds it |
| Adjacency.Lookup | data-scripts/build_keyboard_adjacency_graphs.py:90 | `position_table.get(coord, None)`: the stored token when the coordinate is in the table, and None otherwise |
| Adjacency.Neighbours | data-scripts/build_keyboard_adjacency_graphs.py:85-90 | the list built for one key: entry i is `position_table.get` of the key's i-th neighbour coordinate; Adjacency.ConnectEntries and Adjacency.ListLengths state its entries and length |
| Adjacency.AddChars | data-scripts/build_keyboard_adjacency_graphs.py:83-84 | the loop over a token's characters, binding each to the key's list; Adjacency.AddCharsAt states every binding it leaves |
| Adjacency.AddKeys | data-scripts/build_keyboard_adjacency_graphs.py:82-90 | the loop over `position_table.items()` in insertion order; Adjacency.AddKeysAt states the key set and each character's list it leaves |
| Adjacency.Connect | data-scripts/build_keyboard_adjacency_graphs.py:81-90 | the adjacency phase as a value: the key loop from an empty graph; Adjacency.ConnectKeySet, Adjacency.ConnectEntries and Adjacency.ListLengths state its keys, entries and list lengths |
| Adjacency.AdjacencyGraph | data-scripts/build_keyboard_adjacency_graphs.py:59-91 | `build_graph` as a value: the parse phase, then the adjacency phase on its table; Adjacency.BuildGraphShape and Adjacency.BuildGraphFails state its result on success and on failure |
| Adjacency.ConnectKeys | data-scripts/build_keyboard_adjacency_graphs.py:81-90 | the triple loop of resets and appends builds exactly Adjacency.Connect's graph |
| Adjacency.BuildGraph | data-scripts/build_keyboard_adjacency_graphs.py:59-91 | `build_graph` equals Adjacency.AdjacencyGraph, and every list has 6 entries when slanted and 8 when aligned |
| Adjacency.AddCharsAt | data-scripts/build_keyboard_adjacency_graphs.py:83-84 | after the character loop, exactly the token's characters are bound to the key's list, and every other binding is unchanged |
| Adjacency.AddKeysAt | data-scripts/build_keyboard_adjacency_graphs.py:82-90 | after the key loop, a character is a key exactly when some key holds it, and it carries its last owner's list (later writes overwrite) |
| Adjacency.ConnectEntries | data-scripts/build_keyboard_adjacency_graphs.py:85-90 | entry i of a character's list is what the table holds at the i-th neighbour of its owner's key, or None |
| Adjacency.ListLengths | data-scripts/build_keyboard_adjacency_graphs.py:84-90 | every list has 6 entries when slanted and 8 when aligned |
| Adjacency.ConnectKeySet | data-scripts/build_keyboard_adjacency_graphs.py:82-84 | the graph's keys are exactly the characters of the stored tokens |
| Adjacency.SoleOwner | data-scripts/build_keyboard_adjacency_graphs.py:82-84 | a character printed on one key only is owned by that key |
| Adjacency.ConnectSymmetric | data-scripts/build_keyboard_adjacency_graphs.py:82-90 | when no character is on two keys: if direction i of c's list holds a token with d, then direction Opposite(i) of d's list holds c's token |
| Adjacency.BuildGraphShape | data-scripts/build_keyboard_adjacency_graphs.py:81-91 | on success, the keys are the tokens' characters, and each list is the owner key's neighbourhood read off the table, direction by direction |
| Adjacency.BuildGraphFails | data-scripts/build_keyboard_adjacency_graphs.py:59-91 | `build_graph` fails exactly when the parse phase fails, with the same error |
| Drawing.WordsOfJoinTokens | data-scripts/build_keyboard_adjacency_graphs.py:76 | splitting space-joined tokens gives the tokens back |
| Drawing.JoinTokensNotBefore | data-scripts/build_keyboard_adjacency_graphs.py:77 | in a row of distinct equal-width tokens, token k does not occur before column k * (width + 1) |
| Drawing.JoinTokensIndex | data-scripts/build_keyboard_adjacency_graphs.py:77 | in a row of distinct equal-width tokens, the first occurrence of token k is at k * (width + 1) |
| Drawing.RowIndex | data-scripts/build_keyboard_adjacency_graphs.py:77 | `line.index` finds token k of an indented row at indent + k * (width + 1) |
| Drawing.RowAligned | data-scripts/build_keyboard_adjacency_graphs.py:75-78 | on a row that fits the geometry, token k has remainder 0 and x coordinate Col0 + k |
| Drawing.DiagramSplits | data-scripts/build_keyboard_adjacency_graphs.py:68-73 | a drawn diagram's lines are its rows, its tokens are the rows' tokens, and `x_unit` is the width plus one |
| Drawing.DiagramParses | data-scripts/build_keyboard_adjacency_graphs.py:67-79 | a well-drawn diagram whose rows fit the geometry parses without error |
| Drawing.RowCell | data-scripts/build_keyboard_adjacency_graphs.py:77-78 | a token of an indented row whose first occurrence is at `x * unit + slant` is key number x - (indent - slant) / (width + 1) of that row |
| Drawing.PlacedCell | data-scripts/build_keyboard_adjacency_graphs.py:77-79 | a cell placed as the parse places it is a drawn key and holds the drawn token |
| Drawing.DrawnStored | data-scripts/build_keyboard_adjacency_graphs.py:76-79 | every drawn key gets a cell |
| Drawing.DrawnCell | data-scripts/build_keyboard_adjacency_graphs.py:76-79 | every stored cell is a drawn key holding the drawn token |
| Drawing.DrawnKey | data-scripts/build_keyboard_adjacency_graphs.py:79 | at every coordinate, `position_table.get` shows what the drawing shows |
| Drawing.DiagramTable | data-scripts/build_keyboard_adjacency_graphs.py:67-79 | the position table holds exactly the drawn keys: token k of line y at (Col0(y) + k, y) and nothing elsewhere |
| Drawing.DrawnGraph | data-scripts/build_keyboard_adjacency_graphs.py:59-91 | a character printed on one key maps to the tokens drawn around that key, direction by direction |
| Layouts.QwertyDrawn | data-scripts/build_keyboard_adjacency_graphs.py:14-19 | the QWERTY diagram has two-character keys, and each row sits one column further right than the one above it |
| Layouts.QwertyG | data-scripts/build_keyboard_adjacency_graphs.py:64 | on QWERTY, `g` maps to fF, tT, yY, hH, bB, vV |
| Layouts.DvorakDrawn | data-scripts/build_keyboard_adjacency_graphs.py:21-26 | the Dvorak diagram is drawn the same way |
| Layouts.DvorakU | data-scripts/build_keyboard_adjacency_graphs.py:21-26 | on Dvorak, `u` maps to eE, pP, yY, iI, kK, jJ |
| Layouts.KeypadLiteral | data-scripts/build_keyboard_adjacency_graphs.py:28-34 | the keypad rows render to the script's `keypad` literal, character for character |
| Layouts.KeypadDrawn | data-scripts/build_keyboard_adjacency_graphs.py:28-34 | the keypad diagram has one-character keys on aligned rows |
| Layouts.KeypadFive | data-scripts/build_keyboard_adjacency_graphs.py:28-34 | on the keypad, `5` maps to all eight neighbours: 4, 7, 8, 9, 6, 3, 2, 1 |
| Layouts.KeypadSeven | data-scripts/build_keyboard_adjacency_graphs.py:28-34 | on the keypad, `7` maps to None, None, None, /, 8, 5, 4, None |
| Layouts.MacKeypadLiteral | data-scripts/build_keyboard_adjacency_graphs.py:36-42 | the Mac keypad rows render to the script's `mac_keypad` literal, character for character |
| Layouts.MacKeypadDrawn | data-scripts/build_keyboard_adjacency_graphs.py:36-42 | the Mac keypad diagram has one-character keys on aligned rows |
| Layouts.MacKeypadSeven | data-scripts/build_keyboard_adjacency_graphs.py:65 | on the Mac keypad, `7` maps to None, None, None, =, 8, 5, 4, None |
| Escape.EscapeString | data-scripts/build_keyboard_adjacency_graphs.py:110-111 | `escape(x)`: backslashes doubled first, then a backslash put before every double quote; Escape.EscapeCons, Escape.EscapeLength and Escape.UnescapeEscape state what it yields |
| Escape.ReplaceChar | data-scripts/build_keyboard_adjacency_graphs.py:111 | `str.replace` with a one-character pattern: every occurrence of the character is replaced, left to right; Escape.ReplaceAppend and Escape.ReplaceLength state how it acts on a concatenation and on the length |
| Escape.ReplaceAppend | data-scripts/build_keyboard_adjacency_graphs.py:111 | `str.replace` of one character works piece by piece over a concatenation |
| Escape.ReplaceLength | data-scripts/build_keyboard_adjacency_graphs.py:111 | each replaced character grows by the replacement's length minus one |
| Escape.EscapeCons | data-scripts/build_keyboard_adjacency_graphs.py:110-111 | the two chained replacements escape character by character; the quote pass never touches the backslashes the first pass wrote |
| Escape.EscapeLength | data-scripts/build_keyboard_adjacency_graphs.py:110-111 | the output is the input plus one character per backslash and per double quote |
| Escape.UnescapeEscape | data-scripts/build_keyboard_adjacency_graphs.py:110-111 | reading the escaped text back, with a backslash taking the next character literally, recovers the input |

## Left out

- `output_coffee`, `output_hpp` and `output_cpp` are left out. They write files and emit JSON or C++ text from `build_graph`'s results.
- `usage` and the command-line entry point are left out. They handle `sys.argv`, exit codes and dispatch on the file extension.
- `calc_average_degree`, the average-degree and starting-position constants, and the `largest` maximum are left out. They are C++ text inside a string literal, use floating-point division, or only feed the output.
- The assertion messages are left out. A failed assertion is modelled as a `BuildError` value (`TokenLengthMismatch`, or `UnexpectedOffset` with the token and line), not as an AssertionError and its text.
- Whitespace is Python's ASCII whitespace: space, `\t` to `\r`, and `\x1c` to `\x1f`. Unicode whitespace, which `str.split()` also splits on, is not modelled, because the diagrams are ASCII.
- The four layouts are written as rows: an indentation plus space-joined tokens, rendered by `Drawing.Diagram`. For the two keypads, `Layouts.KeypadLiteral` and `Layouts.MacKeypadLiteral` prove that the rendering equals the script's literal. For QWERTY and Dvorak this equality is not proved, because the solver does not close a comparison with string literals of that length (about 150 characters). Their rows' indentation and tokens are copied from the script's diagrams, which have no trailing spaces.
- Layouts.QwertyG: concrete lists are proved only for the two the script documents (`g`, `7`) and two more examples (`u`, `5`), not for every key of every layout. The general statement for any key printed on one key only is `Drawing.DrawnGraph`.
- Adjacency.ConnectSymmetric: symmetry is proved only when no character is printed on two keys. Otherwise the key stored last decides a character's list, and symmetry can fail.
- Python 3.7+ dict order: the iteration order of `position_table.items()` is modelled as the insertion order kept beside the map. Older interpreters iterate in hash order, and hash-table internals are not modelled. For a character printed on two keys, `Adjacency.LastOwner` and `Adjacency.AddKeysAt` therefore decide its list as Python 3.7+ does. In the four layouts no character is printed on two keys (read off the diagrams, not proved).
