/** The intensity grid of the digital-rain animation and its one-tick update.

    A grid is a list of rows, row 0 at the top (where new streaks appear) and
    row `rows - 1` at the bottom. Each cell holds an intensity: MAX_INTENSITY
    is the head of a falling streak, 0 is an unlit cell. */
module RainGrid {

  /** Intensity of a streak's head (src/App.jsx:18). */
  const MAX_INTENSITY := 5

  /** Slider limits on the grid's dimensions (src/App.jsx:118-119, 128-129). */
  const MIN_ROWS := 10
  const MAX_ROWS := 30
  const MIN_COLS := 10
  const MAX_COLS := 40

  type Grid = seq<seq<int>>

  /** `g` has exactly `rows` rows of `cols` cells each. */
  predicate IsShape(g: Grid, rows: nat, cols: nat) {
    |g| == rows && forall i :: 0 <= i < rows ==> |g[i]| == cols
  }

  /** Every cell holds an intensity in [0, MAX_INTENSITY]. */
  predicate InRange(g: Grid) {
    forall i, j :: 0 <= i < |g| && 0 <= j < |g[i]| ==> 0 <= g[i][j] <= MAX_INTENSITY
  }

  /** Every cell is unlit. */
  predicate IsDark(g: Grid) {
    forall i, j :: 0 <= i < |g| && 0 <= j < |g[i]| ==> g[i][j] == 0
  }

  /** The dimensions the sliders allow. */
  predicate SizeInRange(rows: nat, cols: nat) {
    MIN_ROWS <= rows <= MAX_ROWS && MIN_COLS <= cols <= MAX_COLS
  }

  /** A fresh grid of the given dimensions with every cell unlit
      (src/App.jsx:22-26, 30-34, 45-47). */
  function ZeroGrid(rows: nat, cols: nat): (g: Grid)
    ensures IsShape(g, rows, cols) && IsDark(g) && InRange(g)
  {
    seq(rows, _ => seq(cols, _ => 0))
  }

  // ---------------------------------------------------------------------
  // The one-tick rule, cell by cell. Each pass reads only the previous grid.
  // ---------------------------------------------------------------------

  /** Pass 1, "fade trail": a lit cell loses one unit; an unlit cell keeps
      the 0 the fresh buffer starts with. */
  function Faded(v: int): int {
    if v > 0 then v - 1 else 0
  }

  /** Pass 2, "move heads down": cell (i, j) receives a head when the cell
      directly above it held one. Row 0 has no cell above it. */
  predicate HeadAbove(prev: Grid, i: int, j: int) {
    0 < i < |prev| && 0 <= j < |prev[i - 1]| && prev[i - 1][j] == MAX_INTENSITY
  }

  /** The value of cell (i, j) after passes 1 and 2. */
  function Moved(prev: Grid, i: nat, j: nat): int
    requires i < |prev| && j < |prev[i]|
  {
    if HeadAbove(prev, i, j) then MAX_INTENSITY else Faded(prev[i][j])
  }

  /** The value of cell (i, j) after all three passes: pass 3, "new heads",
      puts a head on row 0 of every column whose spawn draw came up. */
  function NextCell(prev: Grid, spawn: seq<bool>, i: nat, j: nat): int
    requires i < |prev| && j < |prev[i]| && j < |spawn|
  {
    if i == 0 && spawn[j] then MAX_INTENSITY else Moved(prev, i, j)
  }

  /** The grid one tick after `prev`, given this tick's per-column spawn draws
      (`spawn[j]` stands for `Math.random() < 0.03` in column j). */
  function NextGrid(prev: Grid, rows: nat, cols: nat, spawn: seq<bool>): (next: Grid)
    requires IsShape(prev, rows, cols) && |spawn| == cols
    ensures IsShape(next, rows, cols)
  {
    seq(rows, i requires 0 <= i < rows =>
      seq(cols, j requires 0 <= j < cols => NextCell(prev, spawn, i, j)))
  }

  /** Two grids of one shape that agree on every cell are equal. */
  lemma SameCells(a: Grid, b: Grid, rows: nat, cols: nat)
    requires IsShape(a, rows, cols) && IsShape(b, rows, cols)
    requires forall i, j :: 0 <= i < rows && 0 <= j < cols ==> a[i][j] == b[i][j]
    ensures a == b
  {
    forall i | 0 <= i < rows
      ensures a[i] == b[i]
    {
      assert forall j :: 0 <= j < cols ==> a[i][j] == b[i][j];
    }
  }

  // ---------------------------------------------------------------------
  // The tick as the source computes it: a fresh buffer written in three
  // passes while the previous grid is only read.
  // ---------------------------------------------------------------------

  /** Allocates the zero buffer and runs the fade pass over every cell
      (src/App.jsx:45-56). */
  method FadeTrail(prevGrid: Grid, rows: nat, cols: nat) returns (newGrid: Grid)
    requires IsShape(prevGrid, rows, cols)
    ensures IsShape(newGrid, rows, cols)
    ensures forall r, c :: 0 <= r < rows && 0 <= c < cols ==>
      newGrid[r][c] == Faded(prevGrid[r][c])
  {
    newGrid := ZeroGrid(rows, cols);
    for i := 0 to rows
      invariant IsShape(newGrid, rows, cols)
      invariant forall r, c :: 0 <= r < rows && 0 <= c < cols ==>
        newGrid[r][c] == if r < i then Faded(prevGrid[r][c]) else 0
    {
      for j := 0 to cols
        invariant IsShape(newGrid, rows, cols)
        invariant forall r, c :: 0 <= r < rows && 0 <= c < cols ==>
          newGrid[r][c] == if r < i || (r == i && c < j) then Faded(prevGrid[r][c]) else 0
      {
        if prevGrid[i][j] > 0 {
          newGrid := newGrid[i := newGrid[i][j := prevGrid[i][j] - 1]];
        }
      }
    }
  }

  /** Copies every head of `prevGrid` in rows 0 .. rows-2 onto the cell below
      it in the buffer, visiting source rows from the bottom up
      (src/App.jsx:59-65). */
  method MoveHeadsDown(prevGrid: Grid, faded: Grid, rows: nat, cols: nat) returns (newGrid: Grid)
    requires rows > 0
    requires IsShape(prevGrid, rows, cols) && IsShape(faded, rows, cols)
    requires forall r, c :: 0 <= r < rows && 0 <= c < cols ==>
      faded[r][c] == Faded(prevGrid[r][c])
    ensures IsShape(newGrid, rows, cols)
    ensures forall r, c :: 0 <= r < rows && 0 <= c < cols ==>
      newGrid[r][c] == Moved(prevGrid, r, c)
  {
    newGrid := faded;
    for i := rows - 1 downto 0
      invariant IsShape(newGrid, rows, cols)
      invariant forall r, c :: 0 <= r < rows && 0 <= c < cols ==>
        newGrid[r][c] == if r > i then Moved(prevGrid, r, c) else Faded(prevGrid[r][c])
    {
      for j := 0 to cols
        invariant IsShape(newGrid, rows, cols)
        invariant forall r, c :: 0 <= r < rows && 0 <= c < cols ==>
          newGrid[r][c] ==
            if r > i + 1 || (r == i + 1 && c < j) then Moved(prevGrid, r, c)
            else Faded(prevGrid[r][c])
      {
        if prevGrid[i][j] == MAX_INTENSITY {
          newGrid := newGrid[i + 1 := newGrid[i + 1][j := MAX_INTENSITY]];
        }
      }
    }
  }

  /** Puts a head on row 0 of every column whose draw came up
      (src/App.jsx:68-72). */
  method NewHeads(prevGrid: Grid, moved: Grid, rows: nat, cols: nat, spawn: seq<bool>)
    returns (newGrid: Grid)
    requires rows > 0
    requires IsShape(prevGrid, rows, cols) && IsShape(moved, rows, cols) && |spawn| == cols
    requires forall r, c :: 0 <= r < rows && 0 <= c < cols ==>
      moved[r][c] == Moved(prevGrid, r, c)
    ensures IsShape(newGrid, rows, cols)
    ensures forall r, c :: 0 <= r < rows && 0 <= c < cols ==>
      newGrid[r][c] == NextCell(prevGrid, spawn, r, c)
  {
    newGrid := moved;
    for j := 0 to cols
      invariant IsShape(newGrid, rows, cols)
      invariant forall r, c :: 0 <= r < rows && 0 <= c < cols ==>
        newGrid[r][c] ==
          if r == 0 && c < j then NextCell(prevGrid, spawn, r, c) else Moved(prevGrid, r, c)
    {
      if spawn[j] {
        newGrid := newGrid[0 := newGrid[0][j := MAX_INTENSITY]];
      }
    }
  }

  /** One tick of the grid: the updater handed to `setGrid`
      (src/App.jsx:44-75). Its result is the cell-by-cell rule, so it does
      not depend on the order in which the passes visit the cells. */
  method Step(prevGrid: Grid, rows: nat, cols: nat, spawn: seq<bool>) returns (newGrid: Grid)
    requires SizeInRange(rows, cols)
    requires IsShape(prevGrid, rows, cols) && |spawn| == cols
    ensures newGrid == NextGrid(prevGrid, rows, cols, spawn)
  {
    var faded := FadeTrail(prevGrid, rows, cols);
    var moved := MoveHeadsDown(prevGrid, faded, rows, cols);
    newGrid := NewHeads(prevGrid, moved, rows, cols, spawn);
    SameCells(newGrid, NextGrid(prevGrid, rows, cols, spawn), rows, cols);
  }

  // ---------------------------------------------------------------------
  // What one tick promises.
  // ---------------------------------------------------------------------

  /** Bounds invariant: a tick keeps every intensity in [0, MAX_INTENSITY]. */
  lemma NextGridInRange(prev: Grid, rows: nat, cols: nat, spawn: seq<bool>)
    requires IsShape(prev, rows, cols) && |spawn| == cols
    requires InRange(prev)
    ensures InRange(NextGrid(prev, rows, cols, spawn))
  {
  }

  /** Decay rule: a cell that is neither a spawn target nor below a head
      loses one unit if lit and stays 0 if unlit. */
  lemma DecayRule(prev: Grid, rows: nat, cols: nat, spawn: seq<bool>, i: nat, j: nat)
    requires IsShape(prev, rows, cols) && |spawn| == cols
    requires i < rows && j < cols
    requires !(i == 0 && spawn[j]) && !(i > 0 && prev[i - 1][j] == MAX_INTENSITY)
    ensures prev[i][j] > 0 ==> NextGrid(prev, rows, cols, spawn)[i][j] == prev[i][j] - 1
    ensures prev[i][j] <= 0 ==> NextGrid(prev, rows, cols, spawn)[i][j] == 0
  {
  }

  /** Propagation: a head in any row but the last puts a head directly
      below it, whatever that cell held. */
  lemma PropagationRule(prev: Grid, rows: nat, cols: nat, spawn: seq<bool>, i: nat, j: nat)
    requires IsShape(prev, rows, cols) && |spawn| == cols
    requires i + 1 < rows && j < cols
    requires prev[i][j] == MAX_INTENSITY
    ensures NextGrid(prev, rows, cols, spawn)[i + 1][j] == MAX_INTENSITY
  {
  }

  /** Row 0: a drawn column gets a head; an undrawn one only fades, since
      nothing propagates into row 0 and the bottom row is never a source. */
  lemma RowZeroRule(prev: Grid, rows: nat, cols: nat, spawn: seq<bool>, j: nat)
    requires IsShape(prev, rows, cols) && |spawn| == cols
    requires 0 < rows && j < cols
    ensures spawn[j] ==> NextGrid(prev, rows, cols, spawn)[0][j] == MAX_INTENSITY
    ensures !spawn[j] ==> NextGrid(prev, rows, cols, spawn)[0][j] == Faded(prev[0][j])
  {
  }

  /** Where heads come from: in a grid within bounds, a cell is a head after
      the tick exactly when it is a drawn cell of row 0 or lies directly
      below a head. */
  lemma HeadOrigin(prev: Grid, rows: nat, cols: nat, spawn: seq<bool>, i: nat, j: nat)
    requires IsShape(prev, rows, cols) && |spawn| == cols && InRange(prev)
    requires i < rows && j < cols
    ensures NextGrid(prev, rows, cols, spawn)[i][j] == MAX_INTENSITY <==>
      (i == 0 && spawn[j]) || (i > 0 && prev[i - 1][j] == MAX_INTENSITY)
  {
  }

  /** A dark grid with no draws stays dark. */
  lemma DarkStaysDark(rows: nat, cols: nat, spawn: seq<bool>)
    requires |spawn| == cols
    requires forall j :: 0 <= j < cols ==> !spawn[j]
    ensures NextGrid(ZeroGrid(rows, cols), rows, cols, spawn) == ZeroGrid(rows, cols)
  {
    var next := NextGrid(ZeroGrid(rows, cols), rows, cols, spawn);
    SameCells(next, ZeroGrid(rows, cols), rows, cols);
  }

  // ---------------------------------------------------------------------
  // Several ticks.
  // ---------------------------------------------------------------------

  /** Every tick's draws cover all columns. */
  predicate DrawsFit(draws: seq<seq<bool>>, cols: nat) {
    forall t :: 0 <= t < |draws| ==> |draws[t]| == cols
  }

  /** No column is drawn on any tick. */
  predicate NoSpawns(draws: seq<seq<bool>>) {
    forall t, j :: 0 <= t < |draws| && 0 <= j < |draws[t]| ==> !draws[t][j]
  }

  /** The grid after one tick per entry of `draws`, first entry first. */
  function Run(g: Grid, rows: nat, cols: nat, draws: seq<seq<bool>>): (r: Grid)
    requires IsShape(g, rows, cols) && DrawsFit(draws, cols)
    ensures IsShape(r, rows, cols)
    decreases |draws|
  {
    if draws == [] then g
    else Run(NextGrid(g, rows, cols, draws[0]), rows, cols, draws[1..])
  }

  /** The bounds invariant holds over any number of ticks. */
  lemma {:induction false} RunInRange(g: Grid, rows: nat, cols: nat, draws: seq<seq<bool>>)
    requires IsShape(g, rows, cols) && DrawsFit(draws, cols) && InRange(g)
    ensures InRange(Run(g, rows, cols, draws))
    decreases |draws|
  {
    if draws != [] {
      NextGridInRange(g, rows, cols, draws[0]);
      RunInRange(NextGrid(g, rows, cols, draws[0]), rows, cols, draws[1..]);
    }
  }

  /** A head falls one row per tick: after k ticks a head that started in
      row i is in row i + k, as long as that row exists. */
  lemma {:induction false} HeadFalls(g: Grid, rows: nat, cols: nat, draws: seq<seq<bool>>, i: nat, j: nat)
    requires IsShape(g, rows, cols) && DrawsFit(draws, cols)
    requires i + |draws| < rows && j < cols
    requires g[i][j] == MAX_INTENSITY
    ensures Run(g, rows, cols, draws)[i + |draws|][j] == MAX_INTENSITY
    decreases |draws|
  {
    if draws != [] {
      var next := NextGrid(g, rows, cols, draws[0]);
      PropagationRule(g, rows, cols, draws[0], i, j);
      HeadFalls(next, rows, cols, draws[1..], i + 1, j);
    }
  }

  /** How bright row i can still be after k ticks without spawns: rows the
      oldest heads may have reached are unconstrained, rows above them have
      been fading for k - i ticks. */
  function FadeBound(i: nat, k: nat): nat {
    if k <= i then MAX_INTENSITY
    else if k - i >= MAX_INTENSITY then 0
    else MAX_INTENSITY - (k - i)
  }

  /** Every cell of row i is within FadeBound(i, k). */
  predicate FadedBy(g: Grid, k: nat) {
    forall i, j :: 0 <= i < |g| && 0 <= j < |g[i]| ==> 0 <= g[i][j] <= FadeBound(i, k)
  }

  /** One tick without spawns tightens the bound by one tick. */
  lemma FadedByStep(g: Grid, rows: nat, cols: nat, spawn: seq<bool>, k: nat)
    requires IsShape(g, rows, cols) && |spawn| == cols
    requires forall j :: 0 <= j < cols ==> !spawn[j]
    requires FadedBy(g, k)
    ensures FadedBy(NextGrid(g, rows, cols, spawn), k + 1)
  {
    var next := NextGrid(g, rows, cols, spawn);
    forall i, j | 0 <= i < rows && 0 <= j < cols
      ensures 0 <= next[i][j] <= FadeBound(i, k + 1)
    {
      if HeadAbove(g, i, j) {
        assert FadeBound(i - 1, k) == MAX_INTENSITY;
      }
    }
  }

  lemma {:induction false} FadedByRun(g: Grid, rows: nat, cols: nat, draws: seq<seq<bool>>, k: nat)
    requires IsShape(g, rows, cols) && DrawsFit(draws, cols) && NoSpawns(draws)
    requires FadedBy(g, k)
    ensures FadedBy(Run(g, rows, cols, draws), k + |draws|)
    decreases |draws|
  {
    if draws != [] {
      FadedByStep(g, rows, cols, draws[0], k);
      FadedByRun(NextGrid(g, rows, cols, draws[0]), rows, cols, draws[1..], k + 1);
    }
  }

  /** The rain stops: with no spawns for rows + MAX_INTENSITY - 1 ticks every
      head has left the bottom row and every trail has faded out. */
  lemma RainStops(g: Grid, rows: nat, cols: nat, draws: seq<seq<bool>>)
    requires IsShape(g, rows, cols) && DrawsFit(draws, cols) && NoSpawns(draws)
    requires InRange(g)
    requires |draws| >= rows + MAX_INTENSITY - 1
    ensures IsDark(Run(g, rows, cols, draws))
  {
    assert FadedBy(g, 0);
    FadedByRun(g, rows, cols, draws, 0);
  }
}
