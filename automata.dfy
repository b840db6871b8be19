/**
 * The generation step of the cellular-automaton demo in
 * src/components/ExperimentsZone.jsx (`animateAutomata`): Conway's Game of
 * Life, rule B3/S23, on a toroidal `cols x rows` grid. `grid[i][j]` is the
 * cell in column i and row j.
 */
module Automata {

  type Grid = seq<seq<bool>>

  /** Canvas pixels per cell. */
  const CellSize: nat := 10

  /** `cols = Math.floor(width / cellSize)`, `rows = Math.floor(height / cellSize)`. */
  function Dimensions(width: nat, height: nat): (d: (nat, nat))
    ensures d.0 * CellSize <= width < (d.0 + 1) * CellSize
    ensures d.1 * CellSize <= height < (d.1 + 1) * CellSize
  {
    (width / CellSize, height / CellSize)
  }

  /** The demo's 600 x 400 canvas holds a 60 x 40 grid. */
  lemma CanvasDimensions()
    ensures Dimensions(600, 400) == (60, 40)
  {
  }

  /** `cols` columns of `rows` cells each. */
  predicate Shaped(g: Grid, cols: nat, rows: nat)
  {
    |g| == cols && forall i :: 0 <= i < cols ==> |g[i]| == rows
  }

  /** `(k + n) % n` for an index shifted by at most one step. */
  function Wrap(k: int, n: nat): (r: nat)
    requires n > 0 && -1 <= k <= n
    ensures r < n
  {
    (k + n) % n
  }

  /** 1 when the neighbour at offset (di, dj) is alive; the cell itself is skipped. */
  function NeighborAt(g: Grid, cols: nat, rows: nat, i: nat, j: nat, di: int, dj: int): (c: nat)
    requires Shaped(g, cols, rows) && i < cols && j < rows
    requires -1 <= di <= 1 && -1 <= dj <= 1
    ensures c <= 1
  {
    if di == 0 && dj == 0 then 0
    else if g[Wrap(i + di, cols)][Wrap(j + dj, rows)] then 1 else 0
  }

  /** Live neighbours at offsets (di, -1), ..., (di, djTo - 1). */
  function CountColumn(g: Grid, cols: nat, rows: nat, i: nat, j: nat, di: int, djTo: int): (n: nat)
    requires Shaped(g, cols, rows) && i < cols && j < rows
    requires -1 <= di <= 1 && -1 <= djTo <= 2
    ensures n <= djTo + 1
    ensures di == 0 && djTo >= 1 ==> n <= djTo
    decreases djTo + 1
  {
    if djTo == -1 then 0
    else CountColumn(g, cols, rows, i, j, di, djTo - 1) + NeighborAt(g, cols, rows, i, j, di, djTo - 1)
  }

  /** Live neighbours at offsets (-1, _), ..., (diTo - 1, _). */
  function CountBlock(g: Grid, cols: nat, rows: nat, i: nat, j: nat, diTo: int): (n: nat)
    requires Shaped(g, cols, rows) && i < cols && j < rows
    requires -1 <= diTo <= 2
    ensures n <= 3 * (diTo + 1) - (if diTo >= 1 then 1 else 0)
    decreases diTo + 1
  {
    if diTo == -1 then 0
    else CountBlock(g, cols, rows, i, j, diTo - 1) + CountColumn(g, cols, rows, i, j, diTo - 1, 2)
  }

  /** The number of live cells among the eight around (i, j), wrapping at the edges. */
  function LiveNeighbors(g: Grid, cols: nat, rows: nat, i: nat, j: nat): (n: nat)
    requires Shaped(g, cols, rows) && i < cols && j < rows
    ensures n <= 8
  {
    CountBlock(g, cols, rows, i, j, 2)
  }

  /** The nested `for` loops that count `neighbors` for one cell. */
  method CountNeighbors(g: Grid, cols: nat, rows: nat, i: nat, j: nat) returns (neighbors: nat)
    requires Shaped(g, cols, rows) && i < cols && j < rows
    ensures neighbors == LiveNeighbors(g, cols, rows, i, j)
  {
    neighbors := 0;
    for di := -1 to 2
      invariant neighbors == CountBlock(g, cols, rows, i, j, di)
    {
      ghost var before := neighbors;
      for dj := -1 to 2
        invariant neighbors == before + CountColumn(g, cols, rows, i, j, di, dj)
      {
        if di == 0 && dj == 0 {
          continue;
        }
        var ni := (i + di + cols) % cols;
        var nj := (j + dj + rows) % rows;
        if g[ni][nj] {
          neighbors := neighbors + 1;
        }
      }
    }
  }

  /** Birth on exactly three live neighbours, survival on two or three. */
  function Rule(cell: bool, neighbors: nat): (alive: bool)
    ensures alive <==> neighbors == 3 || (cell && neighbors == 2)
  {
    if cell && (neighbors == 2 || neighbors == 3) then true
    else if !cell && neighbors == 3 then true
    else false
  }

  /** The next generation, computed from the previous grid alone. */
  function NextGeneration(g: Grid, cols: nat, rows: nat): (next: Grid)
    requires Shaped(g, cols, rows)
    ensures Shaped(next, cols, rows)
  {
    seq(cols, i requires 0 <= i < cols =>
      seq(rows, j requires 0 <= j < rows => Rule(g[i][j], LiveNeighbors(g, cols, rows, i, j))))
  }

  /** B3/S23, stated cell by cell: survival iff 2 or 3 neighbours, birth iff exactly 3. */
  lemma LifeRule(g: Grid, cols: nat, rows: nat, i: nat, j: nat)
    requires Shaped(g, cols, rows) && i < cols && j < rows
    ensures var n := LiveNeighbors(g, cols, rows, i, j);
      && (g[i][j] ==> (NextGeneration(g, cols, rows)[i][j] <==> n == 2 || n == 3))
      && (!g[i][j] ==> (NextGeneration(g, cols, rows)[i][j] <==> n == 3))
  {
  }

  /** The inner `col.map((cell, j) => ...)` for column i. */
  method ComputeColumn(g: Grid, cols: nat, rows: nat, i: nat) returns (column: seq<bool>)
    requires Shaped(g, cols, rows) && i < cols
    ensures column == NextGeneration(g, cols, rows)[i]
  {
    column := [];
    for j := 0 to rows
      invariant |column| == j
      invariant forall b :: 0 <= b < j ==> column[b] == Rule(g[i][b], LiveNeighbors(g, cols, rows, i, b))
    {
      var neighbors := CountNeighbors(g, cols, rows, i, j);
      column := column + [Rule(g[i][j], neighbors)];
    }
  }

  /** The outer `grid.map((col, i) => ...)`. */
  method ComputeNextGeneration(g: Grid, cols: nat, rows: nat) returns (next: Grid)
    requires Shaped(g, cols, rows)
    ensures next == NextGeneration(g, cols, rows)
  {
    ghost var target := NextGeneration(g, cols, rows);
    next := [];
    for i := 0 to cols
      invariant next == target[..i]
    {
      var column := ComputeColumn(g, cols, rows, i);
      assert target[..i + 1] == target[..i] + [column];
      next := next + [column];
    }
    assert target[..cols] == target;
  }

  function Dead(cols: nat, rows: nat): (g: Grid)
    ensures Shaped(g, cols, rows)
  {
    seq(cols, i => seq(rows, j => false))
  }

  lemma {:induction false} DeadColumn(cols: nat, rows: nat, i: nat, j: nat, di: int, djTo: int)
    requires i < cols && j < rows && -1 <= di <= 1 && -1 <= djTo <= 2
    ensures CountColumn(Dead(cols, rows), cols, rows, i, j, di, djTo) == 0
    decreases djTo + 1
  {
    if djTo > -1 {
      DeadColumn(cols, rows, i, j, di, djTo - 1);
    }
  }

  lemma {:induction false} DeadBlock(cols: nat, rows: nat, i: nat, j: nat, diTo: int)
    requires i < cols && j < rows && -1 <= diTo <= 2
    ensures CountBlock(Dead(cols, rows), cols, rows, i, j, diTo) == 0
    decreases diTo + 1
  {
    if diTo > -1 {
      DeadBlock(cols, rows, i, j, diTo - 1);
      DeadColumn(cols, rows, i, j, diTo - 1, 2);
    }
  }

  /** An all-dead grid stays all-dead. */
  lemma DeadStaysDead(cols: nat, rows: nat)
    ensures NextGeneration(Dead(cols, rows), cols, rows) == Dead(cols, rows)
  {
    var g := Dead(cols, rows);
    var next := NextGeneration(g, cols, rows);
    forall i | 0 <= i < cols
      ensures next[i] == g[i]
    {
      forall j | 0 <= j < rows
        ensures next[i][j] == g[i][j]
      {
        DeadBlock(cols, rows, i, j, 2);
      }
    }
  }

  /** On a torus at least 2 cells wide, no neighbour offset wraps back onto the cell. */
  lemma WrapLeavesCell(k: nat, d: int, n: nat)
    requires n >= 2 && k < n && -1 <= d <= 1 && d != 0
    ensures Wrap(k + d, n) != k
  {
  }

  /** The grid with cell (i, j) set to `v`. */
  function SetCell(g: Grid, cols: nat, rows: nat, i: nat, j: nat, v: bool): (h: Grid)
    requires Shaped(g, cols, rows) && i < cols && j < rows
    ensures Shaped(h, cols, rows)
    ensures h[i][j] == v
    ensures forall a, b :: 0 <= a < cols && 0 <= b < rows && (a != i || b != j) ==> h[a][b] == g[a][b]
  {
    g[i := g[i][j := v]]
  }

  lemma {:induction false} SelfExcludedColumn(g: Grid, cols: nat, rows: nat, i: nat, j: nat, v: bool, di: int, djTo: int)
    requires Shaped(g, cols, rows) && i < cols && j < rows && cols >= 2 && rows >= 2
    requires -1 <= di <= 1 && -1 <= djTo <= 2
    ensures CountColumn(SetCell(g, cols, rows, i, j, v), cols, rows, i, j, di, djTo)
         == CountColumn(g, cols, rows, i, j, di, djTo)
    decreases djTo + 1
  {
    if djTo > -1 {
      SelfExcludedColumn(g, cols, rows, i, j, v, di, djTo - 1);
      SelfExcludedOffset(g, cols, rows, i, j, v, di, djTo - 1);
    }
  }

  /** No single offset around (i, j) reads the cell itself. */
  lemma SelfExcludedOffset(g: Grid, cols: nat, rows: nat, i: nat, j: nat, v: bool, di: int, dj: int)
    requires Shaped(g, cols, rows) && i < cols && j < rows && cols >= 2 && rows >= 2
    requires -1 <= di <= 1 && -1 <= dj <= 1
    ensures NeighborAt(SetCell(g, cols, rows, i, j, v), cols, rows, i, j, di, dj)
         == NeighborAt(g, cols, rows, i, j, di, dj)
  {
    if di != 0 { WrapLeavesCell(i, di, cols); }
    if dj != 0 { WrapLeavesCell(j, dj, rows); }
  }

  lemma {:induction false} SelfExcludedBlock(g: Grid, cols: nat, rows: nat, i: nat, j: nat, v: bool, diTo: int)
    requires Shaped(g, cols, rows) && i < cols && j < rows && cols >= 2 && rows >= 2
    requires -1 <= diTo <= 2
    ensures CountBlock(SetCell(g, cols, rows, i, j, v), cols, rows, i, j, diTo)
         == CountBlock(g, cols, rows, i, j, diTo)
    decreases diTo + 1
  {
    if diTo > -1 {
      var h := SetCell(g, cols, rows, i, j, v);
      SelfExcludedBlock(g, cols, rows, i, j, v, diTo - 1);
      SelfExcludedColumn(g, cols, rows, i, j, v, diTo - 1, 2);
      assert CountBlock(h, cols, rows, i, j, diTo)
          == CountBlock(h, cols, rows, i, j, diTo - 1) + CountColumn(h, cols, rows, i, j, diTo - 1, 2);
    }
  }

  /**
   * On a grid of at least 2 x 2 cells the count excludes the cell itself:
   * changing cell (i, j) leaves its own neighbour count unchanged.
   */
  lemma NeighborsExcludeSelf(g: Grid, cols: nat, rows: nat, i: nat, j: nat, v: bool)
    requires Shaped(g, cols, rows) && i < cols && j < rows && cols >= 2 && rows >= 2
    ensures LiveNeighbors(SetCell(g, cols, rows, i, j, v), cols, rows, i, j) == LiveNeighbors(g, cols, rows, i, j)
  {
    SelfExcludedBlock(g, cols, rows, i, j, v, 2);
  }

  /** On a 1 x 1 torus every offset wraps onto the cell itself: a live cell has eight neighbours. */
  lemma SingleCellTorus()
    ensures LiveNeighbors([[true]], 1, 1, 0, 0) == 8
    ensures NextGeneration([[true]], 1, 1) == [[false]]
  {
    var g := [[true]];
    assert CountColumn(g, 1, 1, 0, 0, -1, 2) == 3;
    assert CountColumn(g, 1, 1, 0, 0, 0, 2) == 2;
    assert CountColumn(g, 1, 1, 0, 0, 1, 2) == 3;
    assert NextGeneration(g, 1, 1)[0] == [false];
  }

  /**
   * One column wide, the wrapped offsets (-1, 0) and (1, 0) both land on the
   * cell itself, so a lone live cell counts itself twice.
   */
  lemma OneWideColumn()
    ensures LiveNeighbors([[true, false, false]], 1, 3, 0, 0) == 2
  {
    var g := [[true, false, false]];
    assert CountColumn(g, 1, 3, 0, 0, -1, 2) == 1;
    assert CountColumn(g, 1, 3, 0, 0, 0, 2) == 0;
    assert CountColumn(g, 1, 3, 0, 0, 1, 2) == 1;
  }

  /** The automaton's state: the grid, replaced by its next generation each frame. */
  class Automaton {
    const cols: nat
    const rows: nat
    var grid: Grid

    ghost predicate Valid()
      reads this
    {
      Shaped(grid, cols, rows)
    }

    /** The grid for a `width x height` canvas; the random seeding is the `seed` parameter. */
    constructor (width: nat, height: nat, seed: Grid)
      requires Shaped(seed, width / CellSize, height / CellSize)
      ensures Valid() && (cols, rows) == Dimensions(width, height) && grid == seed
    {
      cols := width / CellSize;
      rows := height / CellSize;
      grid := seed;
    }

    /** One frame of `animate`: `grid = newGrid`. */
    method Step()
      requires Valid()
      modifies this
      ensures Valid()
      ensures grid == NextGeneration(old(grid), cols, rows)
    {
      var newGrid := ComputeNextGeneration(grid, cols, rows);
      grid := newGrid;
    }
  }
}
