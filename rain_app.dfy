/** The state the rain component keeps between ticks: the grid's dimensions,
    the grid itself and the hue (src/App.jsx:13-79). */
module RainApp {
  import opened RainGrid
  import Hue

  /** Initial slider positions (src/App.jsx:14-15). */
  const DEFAULT_ROWS := 20
  const DEFAULT_COLS := 30

  class App {
    var rows: nat
    var cols: nat
    var grid: Grid
    var hue: nat

    /** The grid always matches the sliders' dimensions, every intensity is
        in bounds and the hue is on the colour wheel. */
    ghost predicate Valid()
      reads this
    {
      && SizeInRange(rows, cols)
      && IsShape(grid, rows, cols)
      && InRange(grid)
      && hue < Hue.HUE_CIRCLE
    }

    /** Mounting: default dimensions, a dark grid and hue 0
        (src/App.jsx:14-15, 21-26). */
    constructor ()
      ensures Valid()
      ensures rows == DEFAULT_ROWS && cols == DEFAULT_COLS
      ensures grid == ZeroGrid(DEFAULT_ROWS, DEFAULT_COLS) && hue == 0
    {
      rows, cols := DEFAULT_ROWS, DEFAULT_COLS;
      grid := ZeroGrid(DEFAULT_ROWS, DEFAULT_COLS);
      hue := 0;
    }

    /** The effect run after the dimensions change: a dark grid of the new
        dimensions replaces the old one (src/App.jsx:29-35). */
    method ResetGrid()
      requires SizeInRange(rows, cols) && hue < Hue.HUE_CIRCLE
      modifies this`grid
      ensures Valid()
      ensures grid == ZeroGrid(rows, cols)
      ensures IsShape(grid, rows, cols) && IsDark(grid)
    {
      grid := ZeroGrid(rows, cols);
    }

    /** Moving the rows slider. A new row count resets the grid; the same
        count leaves the state alone, since the reset effect is keyed on the
        dimensions and does not run when they are unchanged. */
    method SetRows(n: nat)
      requires Valid() && MIN_ROWS <= n <= MAX_ROWS
      modifies this
      ensures Valid()
      ensures rows == n && cols == old(cols) && hue == old(hue)
      ensures grid == if n == old(rows) then old(grid) else ZeroGrid(n, old(cols))
    {
      if n != rows {
        rows := n;
        ResetGrid();
      }
    }

    /** Moving the columns slider. A new column count resets the grid; the
        same count leaves the state alone. */
    method SetCols(n: nat)
      requires Valid() && MIN_COLS <= n <= MAX_COLS
      modifies this
      ensures Valid()
      ensures cols == n && rows == old(rows) && hue == old(hue)
      ensures grid == if n == old(cols) then old(grid) else ZeroGrid(old(rows), n)
    {
      if n != cols {
        cols := n;
        ResetGrid();
      }
    }

    /** Advances the shared hue by one step (src/App.jsx:42). */
    method AdvanceHue()
      requires Valid()
      modifies this`hue
      ensures Valid()
      ensures hue == Hue.NextHue(old(hue))
    {
      hue := Hue.NextHue(hue);
    }

    /** One firing of the interval: advance the hue, then replace the grid
        by the one-tick update of the previous grid (src/App.jsx:40-75).
        `spawn[j]` is column j's draw of `Math.random() < 0.03`. */
    method Tick(spawn: seq<bool>)
      requires Valid() && |spawn| == cols
      modifies this`grid, this`hue
      ensures Valid()
      ensures grid == NextGrid(old(grid), rows, cols, spawn)
      ensures hue == Hue.NextHue(old(hue))
    {
      AdvanceHue();
      NextGridInRange(grid, rows, cols, spawn);
      grid := Step(grid, rows, cols, spawn);
    }
  }
}
