/**
 * Coordinates on the 9×9 board and the neighbour graph of a 3×3 grid.
 * Both board classes use a 3×3 grid (num_xs == num_ys == 3); positions are (x, y) pairs.
 */
module Geometry {

  type Pos = (int, int)

  /** num_xs and num_ys of both board classes. */
  const Size := 3

  predicate InGrid(p: Pos) {
    0 <= p.0 < Size && 0 <= p.1 < Size
  }

  /** All positions of a 3×3 grid. */
  function GridCells(): (cells: set<Pos>)
    ensures forall p :: p in cells <==> InGrid(p)
  {
    set x, y | 0 <= x < Size && 0 <= y < Size :: (x, y)
  }

  /** A global coordinate of the 9×9 board, as the input loop guarantees. */
  predicate InBoard(x: int, y: int) {
    0 <= x < Size * Size && 0 <= y < Size * Size
  }

  // ---------------------------------------------------------------------------
  // coord: global coordinates to (game_x, game_y, square_x, square_y)
  // ---------------------------------------------------------------------------

  /** math.trunc(x / 3): division rounding toward zero. */
  function TruncDiv3(x: int): int {
    if x >= 0 then x / 3 else -((-x) / 3)
  }

  /**
   * coord: the small-game index is the truncated quotient by 3 and the cell index the
   * remainder (Python's % by a positive divisor never returns a negative value, like Dafny's).
   */
  function Coord(x: int, y: int): (r: (int, int, int, int))
    ensures 0 <= r.2 < 3 && 0 <= r.3 < 3
    ensures InBoard(x, y) ==>
      && InGrid((r.0, r.1)) && InGrid((r.2, r.3))
      && x == 3 * r.0 + r.2 && y == 3 * r.1 + r.3
  {
    (TruncDiv3(x), TruncDiv3(y), x % 3, y % 3)
  }

  /** The inverse direction: the global coordinates of cell (sx, sy) of small game (gx, gy). */
  function Global(gx: int, gy: int, sx: int, sy: int): (int, int) {
    (3 * gx + sx, 3 * gy + sy)
  }

  lemma CoordThenGlobal(x: int, y: int)
    requires InBoard(x, y)
    ensures var (gx, gy, sx, sy) := Coord(x, y); Global(gx, gy, sx, sy) == (x, y)
  {
  }

  lemma GlobalThenCoord(gx: int, gy: int, sx: int, sy: int)
    requires InGrid((gx, gy)) && InGrid((sx, sy))
    ensures var (x, y) := Global(gx, gy, sx, sy); InBoard(x, y) && Coord(x, y) == (gx, gy, sx, sy)
  {
  }

  /** Two distinct global coordinates never address the same cell of the same small game. */
  lemma CoordInjective(x: int, y: int, x': int, y': int)
    requires InBoard(x, y) && InBoard(x', y')
    requires Coord(x, y) == Coord(x', y')
    ensures x == x' && y == y'
  {
  }

  // ---------------------------------------------------------------------------
  // _is_valid_new_tup and the edge lists built by both set_up methods
  // ---------------------------------------------------------------------------

  /** _is_valid_new_tup: new_tup differs from tup and lies on the numXs × numYs grid. */
  function IsValidNewTup(newTup: Pos, tup: Pos, numXs: int, numYs: int): bool {
    if newTup == tup then false
    else if newTup.0 < 0 || newTup.0 >= numXs then false
    else if newTup.1 < 0 || newTup.1 >= numYs then false
    else true
  }

  /**
   * The nine candidates (x + x_change, y + y_change) that set_up visits around p, in the order
   * of its loops `for x_change in (-1, 0, 1): for y_change in (-1, 0, 1)`.
   */
  function Candidates(p: Pos): seq<Pos> {
    [ (p.0 - 1, p.1 - 1), (p.0 - 1, p.1), (p.0 - 1, p.1 + 1),
      (p.0,     p.1 - 1), (p.0,     p.1), (p.0,     p.1 + 1),
      (p.0 + 1, p.1 - 1), (p.0 + 1, p.1), (p.0 + 1, p.1 + 1) ]
  }

  /** The candidates that pass _is_valid_new_tup, in the order in which set_up appends them. */
  function KeepValid(p: Pos, candidates: seq<Pos>): seq<Pos> {
    if candidates == [] then []
    else
      var newTup := candidates[|candidates| - 1];
      KeepValid(p, candidates[..|candidates| - 1])
        + (if IsValidNewTup(newTup, p, Size, Size) then [newTup] else [])
  }

  /** square_edges[p] as set_up builds it. */
  function Neighbours(p: Pos): seq<Pos> {
    KeepValid(p, Candidates(p))
  }

  /** The reference definition: n is one of the eight squares around p. */
  predicate Adjacent(p: Pos, n: Pos) {
    n != p && -1 <= n.0 - p.0 <= 1 && -1 <= n.1 - p.1 <= 1
  }

  lemma {:induction false} KeepValidMembers(p: Pos, candidates: seq<Pos>, n: Pos)
    ensures n in KeepValid(p, candidates) <==> n in candidates && IsValidNewTup(n, p, Size, Size)
    decreases |candidates|
  {
    if candidates != [] {
      var prefix := candidates[..|candidates| - 1];
      KeepValidMembers(p, prefix, n);
      assert candidates == prefix + [candidates[|candidates| - 1]];
    }
  }

  /** The edge list of p holds exactly the in-grid squares adjacent to p. */
  lemma NeighboursMembers(p: Pos, n: Pos)
    ensures n in Neighbours(p) <==> Adjacent(p, n) && InGrid(n)
  {
    KeepValidMembers(p, Candidates(p), n);
  }

  function Indicator(b: bool): nat {
    if b then 1 else 0
  }

  lemma KeepValidStep(p: Pos, candidates: seq<Pos>, k: nat)
    requires k < |candidates|
    ensures KeepValid(p, candidates[..k + 1]) ==
      KeepValid(p, candidates[..k]) + (if IsValidNewTup(candidates[k], p, Size, Size) then [candidates[k]] else [])
  {
    assert candidates[..k + 1][..k] == candidates[..k];
  }

  /** How many of the first k candidates around p are kept. */
  function CountValid(p: Pos, candidates: seq<Pos>, k: nat): nat
    requires k <= |candidates|
  {
    if k == 0 then 0
    else CountValid(p, candidates, k - 1) + Indicator(IsValidNewTup(candidates[k - 1], p, Size, Size))
  }

  lemma {:induction false} KeepValidLength(p: Pos, candidates: seq<Pos>, k: nat)
    requires k <= |candidates|
    ensures |KeepValid(p, candidates[..k])| == CountValid(p, candidates, k)
  {
    if k == 0 {
      assert candidates[..0] == [];
    } else {
      KeepValidLength(p, candidates, k - 1);
      KeepValidStep(p, candidates, k - 1);
    }
  }

  /** Corners have 3 edges, the centre 8, the other border squares 5. */
  lemma NeighbourCount(p: Pos)
    requires InGrid(p)
    ensures |Neighbours(p)| == if p == (1, 1) then 8 else if p.0 != 1 && p.1 != 1 then 3 else 5
  {
    var c := Candidates(p);
    KeepValidLength(p, c, 9);
    assert c[..9] == c;
    assert CountValid(p, c, 9) ==
      Indicator(IsValidNewTup(c[0], p, Size, Size)) + Indicator(IsValidNewTup(c[1], p, Size, Size))
      + Indicator(IsValidNewTup(c[2], p, Size, Size)) + Indicator(IsValidNewTup(c[3], p, Size, Size))
      + Indicator(IsValidNewTup(c[4], p, Size, Size)) + Indicator(IsValidNewTup(c[5], p, Size, Size))
      + Indicator(IsValidNewTup(c[6], p, Size, Size)) + Indicator(IsValidNewTup(c[7], p, Size, Size))
      + Indicator(IsValidNewTup(c[8], p, Size, Size));
  }

  /** square_edges after set_up: every grid position, and only those, mapped to its edge list. */
  function EdgeTable(): (table: map<Pos, seq<Pos>>)
    ensures table.Keys == GridCells()
  {
    map p | p in GridCells() :: Neighbours(p)
  }

  /** An edge list of p in the sense check_win relies on: it holds exactly the in-grid squares around p. */
  ghost predicate NeighbourList(p: Pos, edges: seq<Pos>) {
    forall t :: t in edges <==> Adjacent(p, t) && InGrid(t)
  }

  /** The edge list set_up builds for p is such a list. */
  lemma NeighboursList(p: Pos)
    ensures NeighbourList(p, Neighbours(p))
  {
    forall t
      ensures t in Neighbours(p) <==> Adjacent(p, t) && InGrid(t)
    {
      NeighboursMembers(p, t);
    }
  }

  /** A table in the shape set_up leaves square_edges: every grid square mapped to its edge list. */
  ghost predicate EdgeLists(table: map<Pos, seq<Pos>>) {
    forall p {:trigger p in table} :: InGrid(p) ==> p in table && table[p] == Neighbours(p)
  }

  /** Such a table gives every grid square an edge list in the sense of NeighbourList. */
  lemma EdgeListAt(table: map<Pos, seq<Pos>>, p: Pos)
    requires EdgeLists(table) && InGrid(p)
    ensures p in table && NeighbourList(p, table[p])
  {
    assert table[p] == Neighbours(p);
    NeighboursList(p);
  }

  /** The table set_up builds is such a table. */
  lemma EdgeTableLists()
    ensures EdgeLists(EdgeTable())
  {
  }

  /** The inner two loops of the edge construction in set_up, for one square tup. */
  method CollectEdges(tup: Pos) returns (edges: seq<Pos>)
    ensures edges == Neighbours(tup)
  {
    var candidates := Candidates(tup);
    edges := [];
    for xChange := -1 to 2
      invariant edges == KeepValid(tup, candidates[..3 * (xChange + 1)])
    {
      for yChange := -1 to 2
        invariant edges == KeepValid(tup, candidates[..3 * (xChange + 1) + (yChange + 1)])
      {
        var k := 3 * (xChange + 1) + (yChange + 1);
        var newTup := (tup.0 + xChange, tup.1 + yChange);
        assert candidates[k] == newTup;
        KeepValidStep(tup, candidates, k);
        if IsValidNewTup(newTup, tup, Size, Size) {
          edges := edges + [newTup];
        }
      }
    }
    assert candidates[..9] == candidates;
  }

  /** The outer two loops of the edge construction in set_up: square_edges for the whole grid. */
  method BuildEdgeTable() returns (squareEdges: map<Pos, seq<Pos>>)
    ensures squareEdges == EdgeTable()
  {
    squareEdges := map[];
    for x := 0 to Size
      invariant squareEdges.Keys == set a, b | 0 <= a < x && 0 <= b < Size :: (a, b)
      invariant forall p :: p in squareEdges ==> squareEdges[p] == Neighbours(p)
    {
      for y := 0 to Size
        invariant squareEdges.Keys ==
          (set a, b | 0 <= a < x && 0 <= b < Size :: (a, b)) + (set b | 0 <= b < y :: (x, b))
        invariant forall p :: p in squareEdges ==> squareEdges[p] == Neighbours(p)
      {
        var tup := (x, y);
        var edges := CollectEdges(tup);
        squareEdges := squareEdges[tup := edges];
      }
    }
  }
}
