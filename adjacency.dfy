/**
 * The adjacency phase of `build_graph`: every character of every stored
 * token maps to the list of tokens found in each direction around its key,
 * with None where no key is.
 */
module Adjacency {
  import opened Wrappers
  import opened Geometry
  import opened Layout

  /** `adjacency_graph`: a key character to one entry per direction, each a whole token or None. */
  type Graph = map<char, seq<Option<string>>>

  /** `position_table.get(q, None)`. */
  function Lookup(cells: map<Coord, string>, q: Coord): (r: Option<string>)
    ensures r.Some? <==> q in cells
    ensures r.Some? ==> r.value == cells[q]
  {
    if q in cells then Some(cells[q]) else None
  }

  /** The list the source appends for a key at `p`: what each neighbour coordinate holds. */
  function Neighbours(cells: map<Coord, string>, p: Coord, slanted: bool): seq<Option<string>> {
    seq(Degree(slanted), i requires 0 <= i < Degree(slanted) => Lookup(cells, Adjacent(p, slanted)[i]))
  }

  /** The loop over the characters of one token, from the `j`-th on: each is (re)bound to `list`. */
  function AddChars(g: Graph, chars: string, j: nat, list: seq<Option<string>>): Graph
    requires j <= |chars|
    decreases |chars| - j
  {
    if j == |chars| then g else AddChars(g[chars[j] := list], chars, j + 1, list)
  }

  /** The loop over `position_table.items()` in insertion order, from the `k`-th entry on. */
  function AddKeys(g: Graph, t: PositionTable, k: nat, slanted: bool): Graph
    requires Wf(t) && k <= |t.order|
    decreases |t.order| - k
  {
    if k == |t.order| then g
    else
      var p := t.order[k];
      AddKeys(AddChars(g, t.cells[p], 0, Neighbours(t.cells, p, slanted)), t, k + 1, slanted)
  }

  /** The adjacency phase, as a value. */
  function Connect(t: PositionTable, slanted: bool): Graph
    requires Wf(t)
  {
    AddKeys(map[], t, 0, slanted)
  }

  /** `build_graph(layout, slanted)`, as a value. */
  function AdjacencyGraph(layout: string, slanted: bool): Result<Graph, BuildError> {
    match ParseLayout(layout, slanted)
    case Err(e) => Err(e)
    case Ok(t) => Ok(Connect(t, slanted))
  }

  /** The characters printed on the stored keys. */
  function Chars(t: PositionTable): set<char> {
    set p, c | p in t.cells && c in t.cells[p] :: c
  }

  /**
   * The last entry, at or after `k` in insertion order, whose token holds `c`:
   * the key whose list `c` ends up with, since later writes overwrite earlier ones.
   */
  function LastOwner(t: PositionTable, c: char, k: nat): (r: Option<nat>)
    requires Wf(t) && k <= |t.order|
    ensures r.Some? ==> k <= r.value < |t.order| && c in t.cells[t.order[r.value]]
    ensures r.Some? ==> forall m :: r.value < m < |t.order| ==> c !in t.cells[t.order[m]]
    ensures r.None? ==> forall m :: k <= m < |t.order| ==> c !in t.cells[t.order[m]]
    decreases |t.order| - k
  {
    if k == |t.order| then None
    else match LastOwner(t, c, k + 1)
      case Some(m) => Some(m)
      case None => if c in t.cells[t.order[k]] then Some(k) else None
  }

  // ---------------------------------------------------------------------------
  // The adjacency phase as the source runs it.

  /** The triple loop over keys, their characters and the neighbour coordinates. */
  method ConnectKeys(t: PositionTable, slanted: bool) returns (g: Graph)
    requires Wf(t)
    ensures g == Connect(t, slanted)
  {
    g := map[];
    var k := 0;
    while k < |t.order|
      invariant k <= |t.order|
      invariant Connect(t, slanted) == AddKeys(g, t, k, slanted)
    {
      var p := t.order[k];
      var chars := t.cells[p];
      ghost var list := Neighbours(t.cells, p, slanted);
      ghost var start := g;
      var j := 0;
      while j < |chars|
        invariant j <= |chars|
        invariant AddChars(start, chars, 0, list) == AddChars(g, chars, j, list)
      {
        var c := chars[j];
        ghost var before := g;
        g := g[c := []];
        var coords := Adjacent(p, slanted);
        var i := 0;
        while i < |coords|
          invariant i <= |coords|
          invariant g == before[c := list[..i]]
        {
          g := g[c := g[c] + [Lookup(t.cells, coords[i])]];
          assert list[..i + 1] == list[..i] + [list[i]];
          i := i + 1;
        }
        assert list[..i] == list;
        j := j + 1;
      }
      k := k + 1;
    }
  }

  /** `build_graph`: parse the diagram, then connect the keys. */
  method BuildGraph(layout: string, slanted: bool) returns (r: Result<Graph, BuildError>)
    ensures r == AdjacencyGraph(layout, slanted)
    ensures r.Ok? ==> forall c :: c in r.value ==> |r.value[c]| == Degree(slanted)
  {
    var parsed := Parse(layout, slanted);
    if parsed.Err? {
      return Err(parsed.error);
    }
    var g := ConnectKeys(parsed.value, slanted);
    ListLengths(parsed.value, slanted);
    return Ok(g);
  }

  // ---------------------------------------------------------------------------
  // What the adjacency phase guarantees.

  /** After the character loop, exactly the token's characters are (re)bound to `list`. */
  lemma {:induction false} AddCharsAt(g: Graph, chars: string, j: nat, list: seq<Option<string>>, c: char)
    requires j <= |chars|
    ensures c in AddChars(g, chars, j, list) <==> c in g || c in chars[j..]
    ensures c in chars[j..] ==> AddChars(g, chars, j, list)[c] == list
    ensures c !in chars[j..] && c in g ==> AddChars(g, chars, j, list)[c] == g[c]
    decreases |chars| - j
  {
    if j < |chars| {
      AddCharsAt(g[chars[j] := list], chars, j + 1, list, c);
      assert chars[j..] == [chars[j]] + chars[j + 1..];
    }
  }

  /** After the key loop, a character carries the list of its last owner, if it has one. */
  lemma {:induction false} AddKeysAt(g: Graph, t: PositionTable, k: nat, slanted: bool, c: char)
    requires Wf(t) && k <= |t.order|
    ensures c in AddKeys(g, t, k, slanted) <==> c in g || LastOwner(t, c, k).Some?
    ensures LastOwner(t, c, k).Some? ==>
      AddKeys(g, t, k, slanted)[c] == Neighbours(t.cells, t.order[LastOwner(t, c, k).value], slanted)
    ensures LastOwner(t, c, k).None? && c in g ==> AddKeys(g, t, k, slanted)[c] == g[c]
    decreases |t.order| - k
  {
    if k < |t.order| {
      var p := t.order[k];
      var list := Neighbours(t.cells, p, slanted);
      var g' := AddChars(g, t.cells[p], 0, list);
      AddCharsAt(g, t.cells[p], 0, list, c);
      assert t.cells[p][0..] == t.cells[p];
      AddKeysAt(g', t, k + 1, slanted, c);
    }
  }

  /**
   * Entry `i` of a character's list is whatever the table holds at the `i`-th
   * neighbour of the key that (last) printed the character, or None; every
   * list has one entry per direction.
   */
  lemma ConnectEntries(t: PositionTable, slanted: bool, c: char)
    requires Wf(t) && c in Connect(t, slanted)
    ensures LastOwner(t, c, 0).Some?
    ensures c in t.cells[t.order[LastOwner(t, c, 0).value]]
    ensures |Connect(t, slanted)[c]| == Degree(slanted)
    ensures forall i :: 0 <= i < Degree(slanted) ==>
      Connect(t, slanted)[c][i] == Lookup(t.cells, Adjacent(t.order[LastOwner(t, c, 0).value], slanted)[i])
  {
    AddKeysAt(map[], t, 0, slanted, c);
  }

  /** Every list has length 6 for a slanted layout and 8 for an aligned one. */
  lemma ListLengths(t: PositionTable, slanted: bool)
    requires Wf(t)
    ensures forall c :: c in Connect(t, slanted) ==> |Connect(t, slanted)[c]| == Degree(slanted)
  {
    forall c | c in Connect(t, slanted) {
      ConnectEntries(t, slanted, c);
    }
  }

  /** The graph's keys are exactly the characters of the stored tokens; nothing else becomes a key. */
  lemma ConnectKeySet(t: PositionTable, slanted: bool)
    requires Wf(t)
    ensures Connect(t, slanted).Keys == Chars(t)
  {
    forall c | c in Chars(t)
      ensures c in Connect(t, slanted)
    {
      var p :| p in t.cells && c in t.cells[p];
      var m :| 0 <= m < |t.order| && t.order[m] == p;
      AddKeysAt(map[], t, 0, slanted, c);
    }
    forall c | c in Connect(t, slanted)
      ensures c in Chars(t)
    {
      ConnectEntries(t, slanted, c);
    }
  }

  /** No character is printed on two different keys. */
  predicate UniqueChars(t: PositionTable) {
    forall p, q, c :: p in t.cells && q in t.cells && c in t.cells[p] && c in t.cells[q] ==> p == q
  }

  /**
   * Direction-respecting symmetry: if direction `i` of `c`'s key holds a
   * token with character `d`, then direction Opposite(i) of `d`'s list holds
   * the token that carries `c`. It needs every character to be on one key
   * only; otherwise the last owner decides and the symmetry can break.
   */
  lemma ConnectSymmetric(t: PositionTable, slanted: bool, c: char, i: nat, d: char)
    requires Wf(t) && UniqueChars(t)
    requires c in Connect(t, slanted) && i < |Connect(t, slanted)[c]|
    requires Connect(t, slanted)[c][i].Some? && d in Connect(t, slanted)[c][i].value
    ensures d in Connect(t, slanted) && |Connect(t, slanted)[d]| == Degree(slanted)
    ensures Connect(t, slanted)[d][Opposite(slanted, i)].Some?
    ensures c in Connect(t, slanted)[d][Opposite(slanted, i)].value
  {
    ConnectEntries(t, slanted, c);
    var p := t.order[LastOwner(t, c, 0).value];
    var q := Adjacent(p, slanted)[i];
    assert q in t.cells && d in t.cells[q];
    ConnectKeySet(t, slanted);
    assert d in Chars(t);
    ConnectEntries(t, slanted, d);
    var q' := t.order[LastOwner(t, d, 0).value];
    assert q' == q;
    AdjacentSymmetric(p, slanted, i);
  }

  /** A character printed on one key only is owned by that key. */
  lemma SoleOwner(t: PositionTable, c: char, p: Coord)
    requires Wf(t) && p in t.cells && c in t.cells[p]
    requires forall q :: q in t.cells && c in t.cells[q] ==> q == p
    ensures LastOwner(t, c, 0).Some? && t.order[LastOwner(t, c, 0).value] == p
  {
    var m :| 0 <= m < |t.order| && t.order[m] == p;
  }

  // ---------------------------------------------------------------------------
  // The same guarantees, stated for `build_graph` on a diagram.

  /**
   * On success, the keys of `build_graph(layout, slanted)` are the characters
   * of the parsed tokens, and each list has one entry per direction, entry `i`
   * being the token at the `i`-th neighbour of the character's key, or None.
   */
  lemma BuildGraphShape(layout: string, slanted: bool)
    requires AdjacencyGraph(layout, slanted).Ok?
    ensures var t, g := ParseLayout(layout, slanted).value, AdjacencyGraph(layout, slanted).value;
      && g.Keys == Chars(t)
      && forall c :: c in g ==>
           && LastOwner(t, c, 0).Some?
           && |g[c]| == Degree(slanted)
           && forall i :: 0 <= i < Degree(slanted) ==>
                g[c][i] == Lookup(t.cells, Adjacent(t.order[LastOwner(t, c, 0).value], slanted)[i])
  {
    var t := ParseLayout(layout, slanted).value;
    ConnectKeySet(t, slanted);
    forall c | c in Connect(t, slanted) {
      ConnectEntries(t, slanted, c);
    }
  }

  /** `build_graph` fails exactly when the parse phase fails, with the same error. */
  lemma BuildGraphFails(layout: string, slanted: bool)
    ensures AdjacencyGraph(layout, slanted).Err? <==> ParseLayout(layout, slanted).Err?
    ensures AdjacencyGraph(layout, slanted).Err? ==>
      AdjacencyGraph(layout, slanted).error == ParseLayout(layout, slanted).error
  {
  }
}
