# Digital rain grid — a Dafny model

The rain component animates "digital rain" on a grid of integer intensities.
On each tick it does three things:
- every lit cell fades by one unit;
- every head (a cell at the top intensity, 5) moves one row down;
- with probability 0.03, each column grows a new head in row 0.

A hue counter, shared by all lit cells, moves five degrees per tick and wraps at 360. A cell is painted black when unlit. Otherwise it is painted in that hue with lightness `15 + 15 * intensity` percent. Changing the grid's dimensions replaces the grid with a dark one of the new size.

The model has four modules:

- `RainGrid` (`rain_grid.dfy`) holds the grid and the one-tick rule.
  - `NextCell` and `NextGrid` give the rule cell by cell, as a pure function of the previous grid and the tick's spawn draws.
  - `Step` is the tick as the component computes it. It fills a fresh buffer in three passes (`FadeTrail`, `MoveHeadsDown`, `NewHeads`) while reading only the previous grid. The three passes, visiting cells as the component does, are proved equal to `NextGrid`, a per-cell rule that reads only the previous grid.
  - `Run` iterates the tick. The lemmas about it show three things: a head falls one row per tick, the bounds hold forever, and the rain stops once nothing spawns.
- `Hue` (`hue.dfy`) is the hue step, its closed form after n ticks, and its 72-tick period.
- `Colour` (`hue.dfy`) is the cell colouring rule.
- `RainApp` (`rain_app.dfy`) has the class `App`, which holds the state the component keeps: `rows`, `cols`, `grid` and `hue`. Its methods are mounting, the two dimension sliders with the reset effect, the hue advance and one timer firing. `Valid()` is the invariant they keep: the grid matches the dimensions, every intensity is in [0, 5], and the hue is in [0, 360).

The random draw `Math.random() < 0.03` of column `j` is a parameter: `spawn[j]` for one tick, `draws[t][j]` for tick `t` of a run.

## Model

| member | source | states |
|---|---|---|
| RainGrid.ZeroGrid | src/App.jsx:22-26 | a fresh grid has exactly `rows` rows of `cols` cells, all unlit (and so within bounds) |
| RainGrid.NextGrid | src/App.jsx:44-75 | one tick keeps the grid's dimensions: `rows` rows of `cols` cells |
| RainGrid.FadeTrail | src/App.jsx:45-56 | the fade pass over a zero buffer leaves `prev - 1` in each lit cell and 0 in each unlit one, in a buffer of the same shape |
| RainGrid.MoveHeadsDown | src/App.jsx:59-65 | after the bottom-up head pass, a cell directly below a previous head holds 5; every other cell keeps its faded value; no write reaches row 0 and the bottom row is never a source |
| RainGrid.NewHeads | src/App.jsx:68-72 | after the spawn pass, every drawn column has 5 in row 0; all other cells keep their value from the earlier passes |
| RainGrid.Step | src/App.jsx:44-75 | the double-buffered three-pass tick, visiting cells in the component's order, equals `NextGrid`, a per-cell rule of the previous grid and the draws that reads no value written in the same tick |
| RainGrid.NextGridInRange | src/App.jsx:50-72 | if every cell starts in [0, 5], every cell is still in [0, 5] after a tick |
| RainGrid.DecayRule | src/App.jsx:50-56 | a cell that is neither a spawn target nor below a head becomes `prev - 1` if lit and 0 if unlit |
| RainGrid.PropagationRule | src/App.jsx:59-65 | a head in row `i < rows - 1` makes cell `(i + 1, j)` a head, whatever it held before |
| RainGrid.RowZeroRule | src/App.jsx:50-72 | a drawn column gets 5 in row 0; an undrawn column's row-0 cell only fades |
| RainGrid.HeadOrigin | src/App.jsx:59-72 | in a grid within bounds, a cell is a head after the tick exactly when it is a drawn cell of row 0 or sits directly below a previous head |
| RainGrid.DarkStaysDark | src/App.jsx:44-75 | a dark grid with no draws stays dark |
| RainGrid.Run | src/App.jsx:40-76 | any number of ticks keeps the grid's dimensions |
| RainGrid.RunInRange | src/App.jsx:50-72 | the [0, 5] bounds hold after any number of ticks |
| RainGrid.HeadFalls | src/App.jsx:59-65 | after k ticks, a head that started in row i is in row i + k, as long as that row exists, whatever the draws |
| RainGrid.FadedByRun | src/App.jsx:50-65 | after k ticks without spawns, a cell in row i < k is at most `5 - (k - i)` (and 0 once that is negative) |
| RainGrid.RainStops | src/App.jsx:50-65 | after `rows + 4` ticks without spawns, every cell of a grid that started within bounds is 0 |
| Hue.NextHue | src/App.jsx:42 | the new hue is below 360: `h + 5` if that stays below 360, else `h + 5 - 360` |
| Hue.HueAfterOffset | src/App.jsx:21-42 | after n ticks, a hue in [0, 360) is `(h + 5n) mod 360` |
| Hue.HueCycle | src/App.jsx:21-42 | from any hue in [0, 360), 72 ticks return the hue to its start, and no smaller positive number of ticks does |
| Colour.CellColour | src/App.jsx:138-141 | a cell is black exactly when its intensity is not positive; otherwise it gets the current hue, saturation 100 and lightness `15 + 15 * cell` |
| Colour.CellColourRange | src/App.jsx:138-141 | an intensity of 0 maps to black and nothing else does; intensities 1..5 map to the current hue at a lightness in [30, 90] |
| Colour.BrighterIsLighter | src/App.jsx:139-141 | distinct intensities in [0, 5] get distinct colours; among lit cells, a higher intensity gets a higher lightness |
| RainApp.App.constructor | src/App.jsx:14-26 | mounting gives 20 rows, 30 columns, a dark grid of that shape and hue 0 |
| RainApp.App.ResetGrid | src/App.jsx:29-35 | the grid becomes a dark grid of the current dimensions, which restores the invariant |
| RainApp.App.SetRows | src/App.jsx:115-120 | a new row count resets the grid to a dark grid of the new shape; an unchanged count keeps the grid; the hue and the invariant are kept |
| RainApp.App.SetCols | src/App.jsx:125-130 | a new column count resets the grid to a dark grid of the new shape; an unchanged count keeps the grid; the hue and the invariant are kept |
| RainApp.App.AdvanceHue | src/App.jsx:42 | the hue becomes its successor under `NextHue`, which is below 360, and the invariant is kept |
| RainApp.App.Tick | src/App.jsx:40-75 | one interval firing advances the hue by one step, replaces the grid by `NextGrid` of the old grid and keeps the invariant: same shape, every cell in [0, 5], hue below 360 |

## Left out

- The timer. `setInterval` and `clearInterval`, the `speed` value and the `isRaining` run/pause flag (src/App.jsx:16-17, 37-40, 76-79, 94-111) are left out. They decide only when `App.Tick` is called. The guarantee that only one timer is active comes from React's effect cleanup, not from code in the component.
- The random source. `Math.random()` (src/App.jsx:69) is a foreign, non-deterministic call. Its comparison with the rainfall percentage 0.03 is taken as an input: one boolean per column per tick. Probabilities are not modelled.
- Rendering. The JSX and MUI layout (src/App.jsx:81-156) and the `hsl(...)` string are left out. Only the hue, saturation and integer lightness of a cell's colour are modelled.
- React state scheduling. The order in which React applies a queued reset and a pending tick updater is not modelled. Its one consequence is made a precondition: the grid a tick reads always has the current `rows × cols` shape.
- Out-of-range dimensions. The component does no range checks; the sliders keep rows in [10, 30] and columns in [10, 40]. `RainGrid.Step` and the `App` methods therefore require those bounds rather than clamping or rejecting other values. The pure rule `NextGrid` needs only a well-shaped grid.
- In-place mutation. The tick's buffer is a `seq<seq<int>>` value reassigned cell by cell, where the component mutates nested JavaScript arrays in place. The buffer is local to the tick, so no aliasing is lost.
