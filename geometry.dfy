/**
 * Key coordinates and the two neighbour-offset functions. Both list the
 * neighbours clockwise, starting with the key to the left; the position in
 * the list is the direction.
 */
module Geometry {

  /** A key position: `x` counts key widths along a row, `y` is the diagram line. */
  datatype Coord = Coord(x: int, y: int)

  /** `p` and `q` are distinct and at most one step apart on each axis. */
  predicate Touching(p: Coord, q: Coord) {
    p != q && -1 <= p.x - q.x <= 1 && -1 <= p.y - q.y <= 1
  }

  /** No coordinate is listed twice. */
  predicate Distinct(ps: seq<Coord>) {
    forall i, j :: 0 <= i < j < |ps| ==> ps[i] != ps[j]
  }

  /**
   * Staggered keyboard rows: left, the two keys above (up, up-right), right,
   * the two keys below (down, down-left).
   */
  function SlantedAdjacent(p: Coord): (r: seq<Coord>)
    ensures |r| == 6 && Distinct(r)
    ensures forall i :: 0 <= i < 6 ==> Touching(r[i], p)
    ensures Coord(p.x - 1, p.y - 1) !in r && Coord(p.x + 1, p.y + 1) !in r
  {
    var x, y := p.x, p.y;
    [Coord(x - 1, y), Coord(x, y - 1), Coord(x + 1, y - 1),
     Coord(x + 1, y), Coord(x, y + 1), Coord(x - 1, y + 1)]
  }

  /** Keypad rows stacked vertically: all eight surrounding keys, clockwise from the left. */
  function AlignedAdjacent(p: Coord): (r: seq<Coord>)
    ensures |r| == 8 && Distinct(r)
    ensures forall q :: q in r <==> Touching(q, p)
  {
    var x, y := p.x, p.y;
    [Coord(x - 1, y), Coord(x - 1, y - 1), Coord(x, y - 1), Coord(x + 1, y - 1),
     Coord(x + 1, y), Coord(x + 1, y + 1), Coord(x, y + 1), Coord(x - 1, y + 1)]
  }

  /** The neighbour count of a geometry: 6 when slanted, 8 when aligned. */
  function Degree(slanted: bool): nat {
    if slanted then 6 else 8
  }

  /** `adjacency_func`, chosen by the `slanted` flag. */
  function Adjacent(p: Coord, slanted: bool): (r: seq<Coord>)
    ensures |r| == Degree(slanted)
  {
    if slanted then SlantedAdjacent(p) else AlignedAdjacent(p)
  }

  /** The direction opposite direction `i`: half a turn further round the clock. */
  function Opposite(slanted: bool, i: nat): nat {
    (i + Degree(slanted) / 2) % Degree(slanted)
  }

  /**
   * Adjacency is symmetric and respects directions: if `q` is the neighbour of
   * `p` in direction `i`, then `p` is the neighbour of `q` in the opposite
   * direction ((i+3) mod 6 slanted, (i+4) mod 8 aligned).
   */
  lemma AdjacentSymmetric(p: Coord, slanted: bool, i: nat)
    requires i < Degree(slanted)
    ensures Adjacent(Adjacent(p, slanted)[i], slanted)[Opposite(slanted, i)] == p
  {
  }
}
