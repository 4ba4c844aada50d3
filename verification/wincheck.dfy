/**
 * The win and fullness checks of `check_win`. board.py writes the same algorithm twice, once
 * over the squares of a small game and once over the small games of the big board; both compare
 * ShownEnum values, so here it is written once over a 3×3 grid of Shown values.
 */
module WinCheck {
  import opened States
  import opened Geometry

  /**
   * A 3×3 grid indexed [x][y], as board.py indexes both its squares and its small games:
   * the squares of a small game, or the small games of the big board.
   */
  predicate IsGrid<T>(g: seq<seq<T>>) {
    |g| == Size && forall x :: 0 <= x < Size ==> |g[x]| == Size
  }

  /** The entry of grid g at position p. */
  function At<T>(g: seq<seq<T>>, p: Pos): T
    requires IsGrid(g) && InGrid(p)
  {
    g[p.0][p.1]
  }

  /** Grid g with the entry at p replaced by v: a grid again, different from g at p alone. */
  function SetAt<T>(g: seq<seq<T>>, p: Pos, v: T): (r: seq<seq<T>>)
    requires IsGrid(g) && InGrid(p)
    ensures IsGrid(r)
    ensures forall q :: InGrid(q) ==> At(r, q) == if q == p then v else At(g, q)
  {
    g[p.0 := g[p.0][p.1 := v]]
  }

  /** Writing back the entry already there leaves the grid as it was. */
  lemma SetAtSame<T>(g: seq<seq<T>>, p: Pos)
    requires IsGrid(g) && InGrid(p)
    ensures SetAt(g, p, At(g, p)) == g
  {
    assert g[p.0][p.1 := At(g, p)] == g[p.0];
  }

  // ---------------------------------------------------------------------------
  // The reference definition: the eight lines of a 3×3 grid
  // ---------------------------------------------------------------------------

  type Line = (Pos, Pos, Pos)

  /** The three columns (fixed x), the three rows (fixed y) and the two diagonals. */
  const AllLines: seq<Line> := [
    ((0, 0), (0, 1), (0, 2)), ((1, 0), (1, 1), (1, 2)), ((2, 0), (2, 1), (2, 2)),
    ((0, 0), (1, 0), (2, 0)), ((0, 1), (1, 1), (2, 1)), ((0, 2), (1, 2), (2, 2)),
    ((0, 0), (1, 1), (2, 2)), ((0, 2), (1, 1), (2, 0))
  ]

  predicate OnLine(p: Pos, l: Line) {
    p == l.0 || p == l.1 || p == l.2
  }

  /** All three squares of l show m. */
  predicate Owned(g: seq<seq<Shown>>, l: Line, m: Shown)
    requires IsGrid(g)
  {
    InGrid(l.0) && InGrid(l.1) && InGrid(l.2) && At(g, l.0) == m && At(g, l.1) == m && At(g, l.2) == m
  }

  /** Some row, column or diagonal through o shows m on all three squares. */
  predicate LineThrough(g: seq<seq<Shown>>, o: Pos, m: Shown)
    requires IsGrid(g)
  {
    exists i :: 0 <= i < |AllLines| && OnLine(o, AllLines[i]) && Owned(g, AllLines[i], m)
  }

  /** Every square of the grid is non-BLANK. */
  ghost predicate Full(g: seq<seq<Shown>>)
    requires IsGrid(g)
  {
    forall p :: InGrid(p) ==> At(g, p) != Blank
  }

  // ---------------------------------------------------------------------------
  // The algorithm: probing from each neighbour of the changed square
  // ---------------------------------------------------------------------------

  /**
   * What one turn of the worklist loop of check_win tests for neighbour t of the changed
   * square o: t shows m, and so does the square one step beyond t (2t − o) when that is on
   * the grid, or otherwise the square on the opposite side of o (2o − t).
   */
  predicate Probe(g: seq<seq<Shown>>, o: Pos, t: Pos, m: Shown)
    requires IsGrid(g)
  {
    var direction1 := (2 * t.0 - o.0, 2 * t.1 - o.1);
    var direction2 := (2 * o.0 - t.0, 2 * o.1 - t.1);
    && InGrid(t) && At(g, t) == m
    && if IsValidNewTup(direction1, o, Size, Size) then At(g, direction1) == m
       else IsValidNewTup(direction2, o, Size, Size) && At(g, direction2) == m
  }

  /** Facts about each of the eight lines: on the grid, evenly spaced, and spanning the grid. */
  lemma LineShape(i: int)
    requires 0 <= i < |AllLines|
    ensures var l := AllLines[i];
      && InGrid(l.0) && InGrid(l.1) && InGrid(l.2) && l.0 != l.1
      && l.1.0 - l.0.0 == l.2.0 - l.1.0 && l.1.1 - l.0.1 == l.2.1 - l.1.1
      && !InGrid((2 * l.0.0 - l.1.0, 2 * l.0.1 - l.1.1))
      && !InGrid((2 * l.2.0 - l.1.0, 2 * l.2.1 - l.1.1))
  {
  }

  /** Three evenly spaced distinct squares of the grid always form one of the eight lines. */
  lemma EvenlySpacedIsLine(a: Pos, b: Pos, c: Pos)
    requires InGrid(a) && InGrid(b) && InGrid(c) && a != b
    requires b.0 - a.0 == c.0 - b.0 && b.1 - a.1 == c.1 - b.1
    ensures exists i :: 0 <= i < |AllLines| && (AllLines[i] == (a, b, c) || AllLines[i] == (c, b, a))
  {
    if a == (0, 0) && c == (0, 2) { assert AllLines[0] == (a, b, c); }
    else if a == (0, 2) && c == (0, 0) { assert AllLines[0] == (c, b, a); }
    else if a == (1, 0) && c == (1, 2) { assert AllLines[1] == (a, b, c); }
    else if a == (1, 2) && c == (1, 0) { assert AllLines[1] == (c, b, a); }
    else if a == (2, 0) && c == (2, 2) { assert AllLines[2] == (a, b, c); }
    else if a == (2, 2) && c == (2, 0) { assert AllLines[2] == (c, b, a); }
    else if a == (0, 0) && c == (2, 0) { assert AllLines[3] == (a, b, c); }
    else if a == (2, 0) && c == (0, 0) { assert AllLines[3] == (c, b, a); }
    else if a == (0, 1) && c == (2, 1) { assert AllLines[4] == (a, b, c); }
    else if a == (2, 1) && c == (0, 1) { assert AllLines[4] == (c, b, a); }
    else if a == (0, 2) && c == (2, 2) { assert AllLines[5] == (a, b, c); }
    else if a == (2, 2) && c == (0, 2) { assert AllLines[5] == (c, b, a); }
    else if a == (0, 0) && c == (2, 2) { assert AllLines[6] == (a, b, c); }
    else if a == (2, 2) && c == (0, 0) { assert AllLines[6] == (c, b, a); }
    else if a == (0, 2) && c == (2, 0) { assert AllLines[7] == (a, b, c); }
    else { assert a == (2, 0) && c == (0, 2); assert AllLines[7] == (c, b, a); }
  }

  /** A successful probe from neighbour t lies on a full line of m through o. */
  lemma ProbeOnlyOnLines(g: seq<seq<Shown>>, o: Pos, t: Pos, m: Shown)
    requires IsGrid(g) && InGrid(o) && At(g, o) == m
    requires Adjacent(o, t) && InGrid(t) && Probe(g, o, t, m)
    ensures LineThrough(g, o, m)
  {
    var direction1 := (2 * t.0 - o.0, 2 * t.1 - o.1);
    var direction2 := (2 * o.0 - t.0, 2 * o.1 - t.1);
    if IsValidNewTup(direction1, o, Size, Size) {
      EvenlySpacedIsLine(o, t, direction1);
      var i :| 0 <= i < |AllLines| && (AllLines[i] == (o, t, direction1) || AllLines[i] == (direction1, t, o));
      assert OnLine(o, AllLines[i]) && Owned(g, AllLines[i], m);
    } else {
      EvenlySpacedIsLine(direction2, o, t);
      var i :| 0 <= i < |AllLines| && (AllLines[i] == (direction2, o, t) || AllLines[i] == (t, o, direction2));
      assert OnLine(o, AllLines[i]) && Owned(g, AllLines[i], m);
    }
  }

  /**
   * Along a full line a, b, c of m that starts at the edge of the grid: probing from the end a
   * towards b reaches c one step beyond b, and probing from the middle b towards a falls off
   * the grid, so it turns round to c on the other side.
   */
  lemma ProbeAlongLine(g: seq<seq<Shown>>, a: Pos, b: Pos, c: Pos, m: Shown)
    requires IsGrid(g) && InGrid(a) && InGrid(b) && InGrid(c) && a != b
    requires b.0 - a.0 == c.0 - b.0 && b.1 - a.1 == c.1 - b.1
    requires !InGrid((2 * a.0 - b.0, 2 * a.1 - b.1))
    requires At(g, a) == m && At(g, b) == m && At(g, c) == m
    ensures Probe(g, a, b, m) && Probe(g, b, a, m)
  {
  }

  /** Every full line of m through o is found by probing from one of o's neighbours. */
  lemma LinesFoundByProbe(g: seq<seq<Shown>>, o: Pos, m: Shown)
    requires IsGrid(g) && InGrid(o) && At(g, o) == m
    requires LineThrough(g, o, m)
    ensures exists t :: Adjacent(o, t) && InGrid(t) && Probe(g, o, t, m)
  {
    var i :| 0 <= i < |AllLines| && OnLine(o, AllLines[i]) && Owned(g, AllLines[i], m);
    var l := AllLines[i];
    LineShape(i);
    if o == l.2 {
      ProbeAlongLine(g, l.2, l.1, l.0, m);
      assert Adjacent(o, l.1);
    } else {
      ProbeAlongLine(g, l.0, l.1, l.2, m);
      if o == l.0 {
        assert Adjacent(o, l.1);
      } else {
        assert Adjacent(o, l.0);
      }
    }
  }

  /**
   * The neighbour probing of check_win succeeds exactly when a full row, column or diagonal
   * of m passes through o: it misses no line and invents none.
   */
  lemma ProbeFindsExactlyLines(g: seq<seq<Shown>>, o: Pos, m: Shown)
    requires IsGrid(g) && InGrid(o) && At(g, o) == m
    ensures (exists t :: Adjacent(o, t) && InGrid(t) && Probe(g, o, t, m)) <==> LineThrough(g, o, m)
  {
    if t :| Adjacent(o, t) && InGrid(t) && Probe(g, o, t, m) {
      ProbeOnlyOnLines(g, o, t, m);
    }
    if LineThrough(g, o, m) {
      LinesFoundByProbe(g, o, m);
    }
  }

  // ---------------------------------------------------------------------------
  // The two loops of check_win
  // ---------------------------------------------------------------------------

  /**
   * The worklist loop of check_win: traverse_list starts as the edge list of o and is popped
   * from its end; traversed_set skips repeats. The source assigns square_shown_state inside
   * the loop, always the same value (the shown state of o); here the loop reports whether that
   * assignment would happen at least once.
   */
  method ScanForLine(g: seq<seq<Shown>>, o: Pos, edges: seq<Pos>) returns (hit: bool)
    requires IsGrid(g) && InGrid(o) && NeighbourList(o, edges)
    ensures hit <==> LineThrough(g, o, At(g, o))
  {
    var m := At(g, o);
    var traverseList := edges;
    var traversedSet: set<Pos> := {};
    hit := false;
    while traverseList != []
      invariant |traverseList| <= |edges|
      invariant traverseList == edges[..|traverseList|]
      invariant traversedSet == set t | t in edges[|traverseList|..]
      invariant hit <==> exists t :: t in traversedSet && Probe(g, o, t, m)
    {
      var t := traverseList[|traverseList| - 1];
      traverseList := traverseList[..|traverseList| - 1];
      if t in traversedSet {
        continue;
      }
      traversedSet := traversedSet + {t};
      assert t in edges;
      if g[t.0][t.1] == m {
        var direction1 := (2 * t.0 - o.0, 2 * t.1 - o.1);
        var direction2 := (2 * o.0 - t.0, 2 * o.1 - t.1);
        if IsValidNewTup(direction1, o, Size, Size) {
          if g[direction1.0][direction1.1] == m {
            hit := true;
          }
        } else if IsValidNewTup(direction2, o, Size, Size) {
          if g[direction2.0][direction2.1] == m {
            hit := true;
          }
        }
      }
    }
    assert traversedSet == set t | t in edges;
    ProbeFindsExactlyLines(g, o, m);
  }

  /** The double loop at the end of check_win that recomputes board_full. */
  method ScanFull(g: seq<seq<Shown>>) returns (full: bool)
    requires IsGrid(g)
    ensures full <==> Full(g)
  {
    full := true;
    for x := 0 to Size
      invariant full <==> forall p :: InGrid(p) && p.0 < x ==> At(g, p) != Blank
    {
      for y := 0 to Size
        invariant full <==> forall p :: InGrid(p) && (p.0 < x || (p.0 == x && p.1 < y)) ==> At(g, p) != Blank
      {
        if At(g, (x, y)) == Blank {
          full := false;
        }
      }
    }
  }
}
