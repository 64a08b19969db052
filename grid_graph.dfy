/**
 * The grid-to-graph construction `create_instance` of src/main.py: every '.'
 * cell becomes a walkable state labelled (row, column), and every such state
 * receives an ordered list of weighted edges to its walkable neighbours among
 * the eight surrounding cells, with no corner cutting on diagonals.
 */
module GridGraph {

  /** A cell label `(i, j)`: row `i` (below `height`) and column `j` (below `width`). */
  type Label = (int, int)

  /** A move `(x, y)`: the change of row and of column. */
  type Offset = (int, int)

  /** One successor entry: the neighbouring cell and the cost of moving there. */
  datatype Edge = Edge(target: Label, cost: real)

  /** A state as `create_instance` builds it: its label `cell`, its walkable flag, its successor list. */
  datatype GridState = GridState(cell: Label, walkable: bool, successors: seq<Edge>)

  /** The map as the program holds it: `height` rows of characters, each read up to `width`. */
  datatype Grid = Grid(width: nat, height: nat, rows: seq<seq<char>>)
  {
    /** Every cell the construction reads exists (otherwise the source raises IndexError). */
    predicate WellFormed()
    {
      height <= |rows| && forall i :: 0 <= i < height ==> width <= |rows[i]|
    }

    predicate InBounds(p: Label)
    {
      0 <= p.0 < height && 0 <= p.1 < width
    }

    /** A walkable cell: inside the grid and holding '.'. */
    predicate Open(p: Label)
    {
      InBounds(p) && p.0 < |rows| && p.1 < |rows[p.0]| && rows[p.0][p.1] == '.'
    }
  }

  function Abs(n: int): (r: nat)
  {
    if n < 0 then -n else n
  }

  /** The edge cost `min(1.5, abs(x) + abs(y))`. */
  function StepCost(d: Offset): (c: real)
  {
    var s := (Abs(d.0) + Abs(d.1)) as real;
    if s < 1.5 then s else 1.5
  }

  function Shift(p: Label, d: Offset): (q: Label)
  {
    (p.0 + d.0, p.1 + d.1)
  }

  /** The offset that leads from `p` to `q`. */
  function Diff(p: Label, q: Label): (d: Offset)
  {
    (q.0 - p.0, q.1 - p.1)
  }

  /**
   * The move from `p` by `d` is an edge: `d` is not the zero offset, both ends
   * are walkable, and so are the two cells that share a side with both ends.
   */
  predicate Legal(g: Grid, p: Label, d: Offset)
  {
    d != (0, 0) && g.Open(p) && g.Open(Shift(p, d)) && g.Open((p.0, p.1 + d.1)) && g.Open((p.0 + d.0, p.1))
  }

  function EdgeIf(g: Grid, p: Label, d: Offset): (es: seq<Edge>)
  {
    if Legal(g, p, d) then [Edge(Shift(p, d), StepCost(d))] else []
  }

  /**
   * The edges from `p` by the offsets `(x, -1)`, ..., `(x, n - 2)`, in that
   * order: the first `n` steps of the inner `range(-1, 2)` loop.
   */
  function RowEdges(g: Grid, p: Label, x: int, n: nat): (es: seq<Edge>)
    requires n <= 3
  {
    if n == 0 then [] else RowEdges(g, p, x, n - 1) + EdgeIf(g, p, (x, n - 2))
  }

  /**
   * The edges from `p` by the offsets of the rows `x = -1`, ..., `x = m - 2`,
   * in lexicographic order: the first `m` steps of the outer `range(-1, 2)` loop.
   */
  function RowsEdges(g: Grid, p: Label, m: nat): (es: seq<Edge>)
    requires m <= 3
  {
    if m == 0 then [] else RowsEdges(g, p, m - 1) + RowEdges(g, p, m - 2, 3)
  }

  /** The reference successor list of `p`: every legal move, in lexicographic offset order. */
  function Successors(g: Grid, p: Label): (es: seq<Edge>)
  {
    RowsEdges(g, p, 3)
  }

  /** `q` is one of the eight cells around `p`, and the move from `p` to `q` is legal. */
  predicate IsMove(g: Grid, p: Label, q: Label)
  {
    Abs(q.0 - p.0) <= 1 && Abs(q.1 - p.1) <= 1 && Legal(g, p, Diff(p, q))
  }

  /** `states` is the result `create_instance` must produce for `g`. */
  ghost predicate IsInstance(g: Grid, states: map<Label, GridState>)
  {
    && (forall p {:trigger p in states} :: p in states <==> g.Open(p))
    && (forall p :: p in states ==> states[p] == GridState(p, true, Successors(g, p)))
  }

  predicate LexLess(a: (int, int), b: (int, int))
  {
    a.0 < b.0 || (a.0 == b.0 && a.1 < b.1)
  }

  /** Whether the row-major scan has passed cell `p` before reaching `(i, j)`. */
  predicate Scanned(p: Label, i: int, j: int)
  {
    p.0 < i || (p.0 == i && p.1 < j)
  }

  /**
   * The state of the second pass on reaching cell `(i, j)`: the keys are the
   * walkable cells, and exactly the cells already scanned hold their successors.
   */
  ghost predicate Progress(g: Grid, states: map<Label, GridState>, i: int, j: int)
  {
    && (forall p {:trigger p in states} :: p in states <==> g.Open(p))
    && (forall p :: p in states ==> states[p] == GridState(p, true, if Scanned(p, i, j) then Successors(g, p) else []))
  }

  /** `states` with the list `es` appended to the successors of `p`, if `p` has a state. */
  function Extend(states: map<Label, GridState>, p: Label, es: seq<Edge>): (m: map<Label, GridState>)
  {
    if p in states then states[p := states[p].(successors := states[p].successors + es)] else states
  }

  // ---------------------------------------------------------------------------
  // The construction itself.
  // ---------------------------------------------------------------------------

  /**
   * Builds the state map: first one walkable state per '.' cell, then, cell by
   * cell, the successors found by scanning the offsets clipped to the grid.
   */
  method CreateInstance(width: nat, height: nat, grid: seq<seq<char>>) returns (states: map<Label, GridState>)
    requires Grid(width, height, grid).WellFormed()
    ensures IsInstance(Grid(width, height, grid), states)
  {
    states := AddStates(width, height, grid);
    states := AddAllSuccessors(width, height, grid, states);
  }

  /** The first pass: a walkable state with no successors for every '.' cell. */
  method AddStates(width: nat, height: nat, grid: seq<seq<char>>) returns (states: map<Label, GridState>)
    requires Grid(width, height, grid).WellFormed()
    ensures forall p {:trigger p in states} :: p in states <==> Grid(width, height, grid).Open(p)
    ensures forall p :: p in states ==> states[p] == GridState(p, true, [])
  {
    ghost var g := Grid(width, height, grid);
    states := map[];
    for i := 0 to height
      invariant forall p {:trigger p in states} :: p in states <==> g.Open(p) && p.0 < i
      invariant forall p :: p in states ==> states[p] == GridState(p, true, [])
    {
      for j := 0 to width
        invariant forall p {:trigger p in states} :: p in states <==> g.Open(p) && (p.0 < i || (p.0 == i && p.1 < j))
        invariant forall p :: p in states ==> states[p] == GridState(p, true, [])
      {
        if grid[i][j] == '.' {
          states := states[(i, j) := GridState((i, j), true, [])];
        }
      }
    }
  }

  /** The second pass: every cell, in row-major order, receives its successors. */
  method AddAllSuccessors(width: nat, height: nat, grid: seq<seq<char>>, states: map<Label, GridState>)
    returns (result: map<Label, GridState>)
    requires Grid(width, height, grid).WellFormed()
    requires forall p {:trigger p in states} :: p in states <==> Grid(width, height, grid).Open(p)
    requires forall p :: p in states ==> states[p] == GridState(p, true, [])
    ensures IsInstance(Grid(width, height, grid), result)
  {
    ghost var g := Grid(width, height, grid);
    result := states;
    assert Progress(g, result, 0, 0);
    for i := 0 to height
      invariant Progress(g, result, i, 0)
    {
      for j := 0 to width
        invariant Progress(g, result, i, j)
      {
        ghost var prev := result;
        result := AddSuccessors(width, height, grid, i, j, result);
        CellDone(g, i, j, prev, result);
      }
      RowDone(g, i, result);
    }
    Finished(g, result);
  }

  /**
   * The two offset loops of the second pass for cell `(i, j)`: appends to its
   * state, in offset order, every legal move.
   */
  method AddSuccessors(width: nat, height: nat, grid: seq<seq<char>>, i: nat, j: nat, states: map<Label, GridState>)
    returns (result: map<Label, GridState>)
    requires Grid(width, height, grid).WellFormed()
    requires i < height && j < width
    requires Grid(width, height, grid).Open((i, j)) ==> (i, j) in states
    ensures result == Extend(states, (i, j), Successors(Grid(width, height, grid), (i, j)))
  {
    ghost var g, p := Grid(width, height, grid), (i, j);
    result := states;
    var xs, xf := if i > 0 then -1 else 0, if i < height - 1 then 2 else 1;
    var ys, yf := if j > 0 then -1 else 0, if j < width - 1 then 2 else 1;
    ExtendNothing(states, p);
    if xs == 0 {
      // Row i - 1 does not exist: no move by (-1, _).
      NoEdgesOffGrid(g, p, -1, 3);
    }
    for x := xs to xf
      invariant result == Extend(states, p, RowsEdges(g, p, x + 1))
    {
      result := AddRowSuccessors(width, height, grid, i, j, x, ys, yf, result);
      ExtendTwice(states, p, RowsEdges(g, p, x + 1), RowEdges(g, p, x, 3));
    }
    if xf == 1 {
      // Row i + 1 does not exist: no move by (1, _).
      LastRowOffGrid(g, p);
    }
  }

  /**
   * The innermost loop for cell `(i, j)` and row offset `x`: the column
   * offsets `y` from `ys` up to `yf`, clipped to the grid as the source clips them.
   */
  method AddRowSuccessors(width: nat, height: nat, grid: seq<seq<char>>, i: nat, j: nat, x: int, ys: int, yf: int,
                          states: map<Label, GridState>)
    returns (result: map<Label, GridState>)
    requires Grid(width, height, grid).WellFormed()
    requires i < height && j < width && 0 <= i + x < height && -1 <= x <= 1
    requires ys == (if j > 0 then -1 else 0) && yf == (if j < width - 1 then 2 else 1)
    requires Grid(width, height, grid).Open((i, j)) ==> (i, j) in states
    ensures result == Extend(states, (i, j), RowEdges(Grid(width, height, grid), (i, j), x, 3))
  {
    ghost var g, p := Grid(width, height, grid), (i, j);
    result := states;
    ExtendNothing(states, p);
    if ys == 0 {
      // Column j - 1 does not exist: no move by (x, -1).
      NoEdgesOffGrid(g, p, x, 1);
    }
    for y := ys to yf
      invariant result == Extend(states, p, RowEdges(g, p, x, y + 1))
    {
      result := AddSuccessorIfLegal(width, height, grid, i, j, x, y, result);
      assert RowEdges(g, p, x, y + 2) == RowEdges(g, p, x, y + 1) + EdgeIf(g, p, (x, y));
      ExtendTwice(states, p, RowEdges(g, p, x, y + 1), EdgeIf(g, p, (x, y)));
    }
    if yf == 1 {
      // Column j + 1 does not exist: no move by (x, 1).
      LastColumnOffGrid(g, p, x);
    }
  }

  /**
   * The body of the innermost loop: the move from `(i, j)` by `(x, y)` is
   * added, with cost `min(1.5, |x| + |y|)`, when it is not the zero offset
   * and the start, the target and both side cells hold '.'.
   */
  method AddSuccessorIfLegal(width: nat, height: nat, grid: seq<seq<char>>, i: nat, j: nat, x: int, y: int,
                             states: map<Label, GridState>)
    returns (result: map<Label, GridState>)
    requires Grid(width, height, grid).WellFormed()
    requires i < height && j < width && 0 <= i + x < height && 0 <= j + y < width
    requires Grid(width, height, grid).Open((i, j)) ==> (i, j) in states
    ensures result == Extend(states, (i, j), EdgeIf(Grid(width, height, grid), (i, j), (x, y)))
  {
    StepMatches(Grid(width, height, grid), i, j, x, y);
    if !(x == 0 && y == 0) && grid[i][j] == '.' && grid[i + x][j + y] == '.'
       && grid[i][j + y] == '.' && grid[i + x][j] == '.'
    {
      result := states[(i, j) := states[(i, j)].(successors := states[(i, j)].successors + [Edge((i + x, j + y), StepCost((x, y)))])];
    } else {
      result := states;
      ExtendNothing(states, (i, j));
    }
  }

  /** Within the clipped ranges, the source's four-cell test is exactly `Legal`. */
  lemma StepMatches(g: Grid, i: nat, j: nat, x: int, y: int)
    requires g.WellFormed() && i < g.height && j < g.width
    requires 0 <= i + x < g.height && 0 <= j + y < g.width
    ensures EdgeIf(g, (i, j), (x, y)) ==
      if !(x == 0 && y == 0) && g.rows[i][j] == '.' && g.rows[i + x][j + y] == '.'
         && g.rows[i][j + y] == '.' && g.rows[i + x][j] == '.'
      then [Edge((i + x, j + y), StepCost((x, y)))] else []
  {
  }

  /** After cell `(i, j)` is processed, the states before `(i, j + 1)` in row-major order are complete. */
  lemma CellDone(g: Grid, i: int, j: int, prev: map<Label, GridState>, result: map<Label, GridState>)
    requires g.WellFormed()
    requires Progress(g, prev, i, j)
    requires result == Extend(prev, (i, j), Successors(g, (i, j)))
    ensures Progress(g, result, i, j + 1)
  {
    forall p | p in result
      ensures result[p] == GridState(p, true, if Scanned(p, i, j + 1) then Successors(g, p) else [])
    {
      CellEntry(g, i, j, prev, result, p);
    }
  }

  /** The entry of one key after cell `(i, j)` has been given its successors. */
  lemma CellEntry(g: Grid, i: int, j: int, prev: map<Label, GridState>, result: map<Label, GridState>, p: Label)
    requires p in prev
    requires prev[p] == GridState(p, true, if Scanned(p, i, j) then Successors(g, p) else [])
    requires result == Extend(prev, (i, j), Successors(g, (i, j)))
    ensures p in result
    ensures result[p] == GridState(p, true, if Scanned(p, i, j + 1) then Successors(g, p) else [])
  {
    if p == (i, j) {
      assert [] + Successors(g, p) == Successors(g, p);
    }
  }

  /** Once row `i` has been scanned to its end, every state of rows up to `i` is complete. */
  lemma RowDone(g: Grid, i: int, result: map<Label, GridState>)
    requires Progress(g, result, i, g.width)
    ensures Progress(g, result, i + 1, 0)
  {
    forall p | p in result
      ensures result[p] == GridState(p, true, if Scanned(p, i + 1, 0) then Successors(g, p) else [])
    {
      assert g.Open(p);
    }
  }

  /** Once every row has been scanned, every state is complete. */
  lemma Finished(g: Grid, result: map<Label, GridState>)
    requires Progress(g, result, g.height, 0)
    ensures IsInstance(g, result)
  {
    forall p | p in result
      ensures result[p] == GridState(p, true, Successors(g, p))
    {
      assert g.Open(p);
    }
  }

  lemma ExtendNothing(states: map<Label, GridState>, p: Label)
    ensures Extend(states, p, []) == states
  {
    if p in states {
      assert states[p].successors + [] == states[p].successors;
      assert states[p].(successors := states[p].successors) == states[p];
    }
  }

  lemma ExtendTwice(states: map<Label, GridState>, p: Label, es: seq<Edge>, fs: seq<Edge>)
    ensures Extend(Extend(states, p, es), p, fs) == Extend(states, p, es + fs)
  {
    if p in states {
      assert states[p].successors + es + fs == states[p].successors + (es + fs);
    }
  }

  // ---------------------------------------------------------------------------
  // Lemmas about the offset list and the reference successor lists.
  // ---------------------------------------------------------------------------

  /** A row of offsets that leaves the grid from `p` contributes no edge, nor does the column offset -1 at column 0. */
  lemma {:induction false} NoEdgesOffGrid(g: Grid, p: Label, x: int, n: nat)
    requires n <= 3
    requires !(0 <= p.0 + x < g.height) || (n <= 1 && p.1 == 0)
    ensures RowEdges(g, p, x, n) == []
  {
    if n > 0 {
      NoEdgesOffGrid(g, p, x, n - 1);
    }
  }

  /** At the last row, the row offset 1 leaves the grid: it adds no edge to the successors. */
  lemma LastRowOffGrid(g: Grid, p: Label)
    requires p.0 + 1 >= g.height
    ensures RowsEdges(g, p, 3) == RowsEdges(g, p, 2)
  {
    NoEdgesOffGrid(g, p, 1, 3);
    assert RowsEdges(g, p, 3) == RowsEdges(g, p, 2) + [];
  }

  /** At the last column, the column offset 1 leaves the grid: it adds no edge to the row. */
  lemma LastColumnOffGrid(g: Grid, p: Label, x: int)
    requires p.1 + 1 >= g.width
    ensures RowEdges(g, p, x, 3) == RowEdges(g, p, x, 2)
  {
    assert EdgeIf(g, p, (x, 1)) == [];
    assert RowEdges(g, p, x, 3) == RowEdges(g, p, x, 2) + [];
  }

  // ---------------------------------------------------------------------------
  // What the successor lists contain.
  // ---------------------------------------------------------------------------

  /** The edge `e` from `p` follows a legal move and has the cost of its direction. */
  predicate Admits(g: Grid, p: Label, e: Edge)
  {
    Legal(g, p, Diff(p, e.target)) && e.cost == StepCost(Diff(p, e.target))
  }

  lemma EdgeIfMember(g: Grid, p: Label, d: Offset, e: Edge)
    ensures e in EdgeIf(g, p, d) <==> Diff(p, e.target) == d && Admits(g, p, e)
  {
  }

  lemma {:induction false} RowEdgesMember(g: Grid, p: Label, x: int, n: nat, e: Edge)
    requires n <= 3
    ensures e in RowEdges(g, p, x, n) <==>
      e.target.0 - p.0 == x && -1 <= e.target.1 - p.1 <= n - 2 && Admits(g, p, e)
  {
    if n > 0 {
      RowEdgesMember(g, p, x, n - 1, e);
      EdgeIfMember(g, p, (x, n - 2), e);
      assert e in RowEdges(g, p, x, n) <==> e in RowEdges(g, p, x, n - 1) || e in EdgeIf(g, p, (x, n - 2));
    }
  }

  lemma {:induction false} RowsEdgesMember(g: Grid, p: Label, m: nat, e: Edge)
    requires m <= 3
    ensures e in RowsEdges(g, p, m) <==>
      -1 <= e.target.0 - p.0 <= m - 2 && -1 <= e.target.1 - p.1 <= 1 && Admits(g, p, e)
  {
    if m > 0 {
      RowsEdgesMember(g, p, m - 1, e);
      RowEdgesMember(g, p, m - 2, 3, e);
      JoinRows(e in RowsEdges(g, p, m), e in RowsEdges(g, p, m - 1), e in RowEdges(g, p, m - 2, 3),
               e.target.0 - p.0, e.target.1 - p.1, m, Admits(g, p, e));
    }
  }

  /** The rows below `m - 2`, followed by row `m - 2`, are the rows up to `m - 2`. */
  lemma JoinRows(whole: bool, before: bool, last: bool, x: int, y: int, m: int, admits: bool)
    requires m >= 1
    requires whole <==> before || last
    requires before <==> -1 <= x <= m - 3 && -1 <= y <= 1 && admits
    requires last <==> x == m - 2 && -1 <= y <= 3 - 2 && admits
    ensures whole <==> -1 <= x <= m - 2 && -1 <= y <= 1 && admits
  {
  }

  /**
   * The successor list of `p` holds exactly one edge per legal move to one of
   * the eight surrounding cells, at cost `min(1.5, |x| + |y|)`.
   */
  lemma SuccessorsExactly(g: Grid, p: Label, e: Edge)
    ensures e in Successors(g, p) <==> IsMove(g, p, e.target) && e.cost == StepCost(Diff(p, e.target))
  {
    RowsEdgesMember(g, p, 3, e);
  }

  /**
   * Every edge joins two walkable cells inside the grid, is not a self-loop,
   * goes to one of the eight surrounding cells, does not cut a corner, and
   * costs 1 when orthogonal and 1.5 when diagonal.
   */
  lemma EdgeProperties(g: Grid, p: Label, e: Edge)
    requires e in Successors(g, p)
    ensures g.Open(p) && g.Open(e.target)
    ensures g.InBounds(p) && g.InBounds(e.target)
    ensures e.target != p
    ensures Abs(e.target.0 - p.0) <= 1 && Abs(e.target.1 - p.1) <= 1
    ensures g.Open((p.0, e.target.1)) && g.Open((e.target.0, p.1))
    ensures e.cost == if e.target.0 != p.0 && e.target.1 != p.1 then 1.5 else 1.0
  {
    SuccessorsExactly(g, p, e);
  }

  /** Conversely, every such move is in the successor list, with its cost. */
  lemma EdgePresent(g: Grid, p: Label, q: Label)
    requires g.Open(p) && g.Open(q) && q != p
    requires Abs(q.0 - p.0) <= 1 && Abs(q.1 - p.1) <= 1
    requires g.Open((p.0, q.1)) && g.Open((q.0, p.1))
    ensures Edge(q, if q.0 != p.0 && q.1 != p.1 then 1.5 else 1.0) in Successors(g, p)
  {
    SuccessorsExactly(g, p, Edge(q, if q.0 != p.0 && q.1 != p.1 then 1.5 else 1.0));
  }

  /** Adjacency is symmetric: the reverse move is an edge too, at the same cost. */
  lemma SuccessorsSymmetric(g: Grid, p: Label, e: Edge)
    requires e in Successors(g, p)
    ensures Edge(p, e.cost) in Successors(g, e.target)
  {
    EdgeProperties(g, p, e);
    EdgePresent(g, e.target, p);
  }

  // ---------------------------------------------------------------------------
  // The shape of the successor lists: at most eight, in offset order.
  // ---------------------------------------------------------------------------

  lemma {:induction false} RowEdgesCount(g: Grid, p: Label, x: int, n: nat)
    requires n <= 3
    ensures |RowEdges(g, p, x, n)| <= if x == 0 && n >= 2 then n - 1 else n
  {
    if n > 0 {
      RowEdgesCount(g, p, x, n - 1);
    }
  }

  lemma {:induction false} RowsEdgesCount(g: Grid, p: Label, m: nat)
    requires m <= 3
    ensures |RowsEdges(g, p, m)| <= if m >= 2 then 3 * m - 1 else 3 * m
  {
    if m > 0 {
      RowsEdgesCount(g, p, m - 1);
      RowEdgesCount(g, p, m - 2, 3);
    }
  }

  lemma {:induction false} RowEdgesOrdered(g: Grid, p: Label, x: int, n: nat)
    requires n <= 3
    ensures forall a, b :: 0 <= a < b < |RowEdges(g, p, x, n)| ==>
      LexLess(RowEdges(g, p, x, n)[a].target, RowEdges(g, p, x, n)[b].target)
  {
    if n > 0 {
      RowEdgesOrdered(g, p, x, n - 1);
      var s := RowEdges(g, p, x, n);
      var t := RowEdges(g, p, x, n - 1);
      forall a, b | 0 <= a < b < |s|
        ensures LexLess(s[a].target, s[b].target)
      {
        if b >= |t| {
          RowEdgesMember(g, p, x, n - 1, s[a]);
          assert s[a] in t;
        }
      }
    }
  }

  lemma {:induction false} RowsEdgesOrdered(g: Grid, p: Label, m: nat)
    requires m <= 3
    ensures forall a, b :: 0 <= a < b < |RowsEdges(g, p, m)| ==>
      LexLess(RowsEdges(g, p, m)[a].target, RowsEdges(g, p, m)[b].target)
  {
    if m > 0 {
      RowsEdgesOrdered(g, p, m - 1);
      RowEdgesOrdered(g, p, m - 2, 3);
      var s := RowsEdges(g, p, m);
      var t := RowsEdges(g, p, m - 1);
      var r := RowEdges(g, p, m - 2, 3);
      forall a, b | 0 <= a < b < |s|
        ensures LexLess(s[a].target, s[b].target)
      {
        if b >= |t| {
          assert s[b] == r[b - |t|];
          RowEdgesMember(g, p, m - 2, 3, s[b]);
          if a < |t| {
            RowsEdgesMember(g, p, m - 1, s[a]);
            assert s[a] in t;
          } else {
            assert s[a] == r[a - |t|];
          }
        }
      }
    }
  }

  /**
   * A state has at most eight successors, listed in strictly increasing
   * lexicographic order of the offset (and so of the target label).
   */
  lemma SuccessorsShape(g: Grid, p: Label)
    ensures |Successors(g, p)| <= 8
    ensures forall a, b :: 0 <= a < b < |Successors(g, p)| ==>
      LexLess(Successors(g, p)[a].target, Successors(g, p)[b].target)
  {
    RowsEdgesCount(g, p, 3);
    RowsEdgesOrdered(g, p, 3);
  }

  // ---------------------------------------------------------------------------
  // The same facts, read off the map `create_instance` returns.
  // ---------------------------------------------------------------------------

  /**
   * In the built map every edge leads to another state of the map, stays in
   * the grid, is not a self-loop, does not cut a corner, has the cost of its
   * direction, and is matched by the reverse edge at the same cost.
   */
  lemma InstanceEdges(g: Grid, states: map<Label, GridState>, p: Label, e: Edge)
    requires g.WellFormed() && IsInstance(g, states)
    requires p in states && e in states[p].successors
    ensures e.target in states && e.target != p && g.InBounds(e.target)
    ensures g.Open((p.0, e.target.1)) && g.Open((e.target.0, p.1))
    ensures e.cost == if e.target.0 != p.0 && e.target.1 != p.1 then 1.5 else 1.0
    ensures Edge(p, e.cost) in states[e.target].successors
  {
    EdgeProperties(g, p, e);
    SuccessorsSymmetric(g, p, e);
  }

  /** Every state of the built map is walkable, carries its own label, and has at most eight ordered successors. */
  lemma InstanceStates(g: Grid, states: map<Label, GridState>, p: Label)
    requires g.WellFormed() && IsInstance(g, states)
    requires p in states
    ensures g.rows[p.0][p.1] == '.' && states[p].cell == p && states[p].walkable
    ensures |states[p].successors| <= 8
    ensures forall a, b :: 0 <= a < b < |states[p].successors| ==>
      LexLess(states[p].successors[a].target, states[p].successors[b].target)
  {
    SuccessorsShape(g, p);
  }
}
