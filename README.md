# Dungeon Monster Sweeper — a verified model of the game engine

Dungeon Monster Sweeper is a turn-based dungeon crawler on a grid (16 by 16
in the game). The player walks from cell to cell, and the fog of war clears
along each path walked. The player fights the enemies placed on the floor.
Clearing a floor leads to the next one, which has more and stronger enemies.
This project models the engine in `src/main.rs` in Dafny, with the terminal
stripped away:

- `World` (world.dfy): coordinates, the player and enemy records, and the
  `u8` bound.
- `Raster` (raster.dfy): `draw_line`, the DDA line rasteriser that reveals
  fog. It is a method over a 2-D array (`canvas[y, x]`). Its specification is
  `Paint`, which gives the canvas after painting. The cells of a line are
  computed exactly: cell `i` is `(round(sx + i*dx/steps), round(sy + i*dy/steps))`.
- `Placement` (placement.dfy): `prepare_enemies`. The enemy cap, the sampled
  cells, the coin-flip "nudge" that moves a sampled cell off an occupied
  one, and the strengths. The method is proved against the functions
  `Settle` and `Place`.
- `Game` (game.dfy): the state `main` mutates, as the class `Dungeon` with
  fields `player`, `enemies`, `fog`, `floorProgress` and a `phase`. The turn
  steps are methods:
  - `BeginTurn`: the new-floor step.
  - `MoveTo`: the move command.
  - `Attack`: the attack command.
  - `EndTurn`: the floor check at the end of a turn.

Randomness is passed in as explicit draws, each in the range the code asks
the generator for:
- `FloorDraws` holds the sampled cells (one per enemy, so the enemy count is
  their number), the coin flips and the strengths.
- The spawn cell is a separate draw.
- An attack takes the outcome of the weighted coin and the strength gain.

Arithmetic on `u8` values that overflows panics in a debug build. The model
ends the game there with `Halted(ArithmeticOverflow)`. This covers:
- `(1 + floor_progress).pow(2)`, from floor 15 on;
- the strength sums at lines 201 and 252;
- `hp += 1`;
- `floor_progress += 1`.

The model proves that `player.strength += gained_strength` cannot overflow,
because the sum checked at line 201 already bounds it.

The model does what the code does, also where a reader might expect
otherwise:
- One might expect an enemy cap of `min(w*h, 1+f)`. The code's cap is `w*h`
  when `w*h <= (1+f)^2`, and `1 + f` otherwise.
  `Placement.CapExceedsFloorPlusOne` shows it is the whole grid whenever
  `1 + f < w*h <= (1+f)^2`. On a 2 by 2 map at floor 1 the cap is 4.
- One might expect the first floor to start hidden. Floor 0's fog starts
  fully revealed, and only later floors start hidden.
- One might expect past floors to be kept. Only the current floor is kept.
- An attack fights the first enemy on the player's cell. Placement keeps
  enemies on distinct cells, so that enemy is the only one there.
- The placement loop never gives up or falls back to another search. The
  model gives it a finite list of coin flips and reports `FlipsExhausted`
  when the list runs out.

## Model

| member | source | states |
|---|---|---|
| `Raster.DrawLine` | src/main.rs:25-50 | the canvas afterwards is `Paint` of the canvas before: exactly the cells of the line hold the brush, every other cell keeps its value |
| `Raster.Steps` | src/main.rs:34-40 | the step count is the larger of `\|dx\|` and `\|dy\|`: at least both, and equal to one of them |
| `Raster.CellAt` | src/main.rs:41-48 | cell `i` of the line has each coordinate between the start and end coordinates on that axis |
| `Raster.Paint` | src/main.rs:45-49 | the canvas after painting keeps its shape; a cell on the line holds the brush and every other cell keeps its old value |
| `Raster.RoundedAccumulator` | src/main.rs:41-48 | rounding the exact position `s + i*step` reached after `i` steps gives the cell coordinate `AxisAt`; with 0 steps only the start is used |
| `Raster.RoundHalfUpIsRealRound` | src/main.rs:46 | the integer rounding equals `floor(num/den + 1/2)` over the reals, i.e. `f64::round` on a non-negative value |
| `Raster.AxisAt` | src/main.rs:34-48 | each coordinate of a line cell lies between the start and end coordinates, so every painted cell is on the canvas |
| `Raster.CellAtEnds` | src/main.rs:43-46 | the first cell painted is the start and the last one (step `steps`) is the end |
| `Raster.EndsOnLine` | src/main.rs:45-49 | both the start cell and the end cell are painted |
| `Raster.PointLine` | src/main.rs:36-46 | when start equals end, that cell is painted and no other |
| `Raster.CellsAdjacent` | src/main.rs:41-48 | consecutive cells differ by at most 1 on each axis: the painted path is 8-connected |
| `Raster.CellsDistinct` | src/main.rs:36-48 | the `steps + 1` cells are pairwise different, since the longer axis advances by exactly 1 per step |
| `Raster.PaintIdempotent` | src/main.rs:45-49 | painting the same line twice gives the same canvas as painting it once |
| `Placement.PowOverflowsFrom15` | src/main.rs:69 | `(1 + floor)^2` exceeds the `u8` range exactly when the floor is 15 or more |
| `Placement.EnemyCap` | src/main.rs:68-71 | `how_many_enemies` is never above the cell count or `(1+f)^2`; it is the cell count or `1 + f`, and the cell count whenever that fits under `(1+f)^2` |
| `Placement.CapBounds` | src/main.rs:68-71 | the enemy cap is at least 1, at most `w*h`, at most `(1+f)^2`, and at least `1 + f` unless it is `w*h` |
| `Placement.CapExceedsFloorPlusOne` | src/main.rs:68-71 | for every grid with more than `1 + f` cells but at most `(1+f)^2`, the cap is the whole grid, above `1 + f`; on a 2 by 2 map at floor 1 it is 4 |
| `Placement.Nudge` | src/main.rs:79-96 | one nudge stays on the grid. A `true` first flip moves x right and a `false` one moves it left; a `true` second flip moves y towards 0 and a `false` one moves it away. Each move is one cell, and an axis stays put exactly when it is at the edge in that direction |
| `Placement.Settle` | src/main.rs:77-100 | the collision loop ends on a free cell inside the grid, uses flips only forwards, and keeps a sampled cell that is already free |
| `Placement.PlaceFrom` | src/main.rs:72-106 | placing the enemies after those already placed gives, when it succeeds, one enemy per draw, the placed ones first, and each new one with its drawn strength |
| `Placement.Place` | src/main.rs:72-106 | a successful placement of a floor's draws has one enemy per draw, all inside the grid, on distinct cells, each with its drawn strength |
| `Placement.PlaceFromSound` | src/main.rs:72-106 | a placement that succeeds gives one enemy per draw, extends those already placed, keeps all inside the grid and on distinct cells, and gives each its drawn strength |
| `Placement.DistinctSamplesNeedNoNudge` | src/main.rs:73-103 | when the sampled cells are pairwise different, placement succeeds without flips and every enemy stands on its sampled cell |
| `Placement.PrepareEnemies` | src/main.rs:60-108 | overflow of `(1+f)^2` is reported first; otherwise the result is `Place` of the draws, with between 1 and the cap enemies, on distinct cells inside the grid, with strengths in `[1, (1+f)^2]` |
| `Game.EnemyIndexAt` | src/main.rs:192-193 | the index found holds an enemy on the cell and no earlier one does; no index is found exactly when no enemy stands there |
| `Game.EnemyIndexAtUnique` | src/main.rs:192-198 | with distinct positions, the enemy found on a cell is the only one there |
| `Game.RemoveEnemy` | src/main.rs:209 | removing the defeated enemy leaves one fewer enemy, all still inside the grid, on distinct cells, with floor strengths, and none on the freed cell |
| `Game.Dungeon.constructor` | src/main.rs:111-128 | floor 0, the player at (0,0) with strength 2 and 3 hit points, the single enemy on its sampled cell, and every fog cell revealed |
| `Game.Dungeon.BeginTurn` | src/main.rs:131-149 | with enemies left, only the player's cell is revealed. A cleared floor gets the placed enemies (non-empty), the spawn position, one more hit point and fog hidden everywhere except the spawn cell; overflow or missing flips halt the game |
| `Game.Dungeon.MoveTo` | src/main.rs:224-259 | an off-grid target changes nothing. Otherwise the fog becomes `Paint` of the old fog along the line from the old cell with `false`, the player stands on the target, enemies are unchanged, the enemy met is reported, and a hidden cell never reappears |
| `Game.Dungeon.Attack` | src/main.rs:190-223 | no enemy on the cell changes nothing. A win adds `gain` to the strength and removes exactly that enemy, keeping the others in order. A loss costs exactly one hit point and ends the game at 0; an overflowing strength sum halts it |
| `Game.Dungeon.EndTurn` | src/main.rs:261-263 | an empty enemy list raises the floor counter by one (halting at the `u8` limit); otherwise nothing changes |

All `Game.Dungeon` methods also preserve `Valid()`. This says:
- the player and the enemies are on the grid;
- no two enemies share a cell;
- every enemy strength is in `[1, (1 + floorProgress)^2]`;
- the `u8` counters are in range;
- a running game has a living player.

## Left out

- Terminal I/O is not modelled, being presentation only: the help text, banners, the map and ruler rendering, and reading commands from stdin. The `exit` and `help` commands, and the loop that dispatches commands, are left out too. The methods take already-parsed commands.
- Command parsing with the `regex` crate and `parse().unwrap()` is a foreign library. A number too large for `usize` is not modelled.
- The `rand` crate is replaced by explicit draws with the ranges the code requests. The model does not state the distributions: the uniform cells and counts, and the win probability `strength / (strength + enemy strength)` of `gen_ratio`.
- The order in which the code interleaves its random draws is not kept. Cells, flips and strengths are separate sequences.
- The f64 step accumulation in `draw_line` is replaced by exact real arithmetic, so no rounding error is modelled. The win percentage shown after a move is floating point and is dropped. Its `u8` strength sum, which can overflow, is kept.
- `enemy_map` is a display cache and is left out. "Enemy on this cell" is a search of the enemy list.
- The nudge loop ends only with probability 1. The model bounds it by the length of the coin-flip sequence and returns `FlipsExhausted` (`Halted(OutOfFlips)` in the game) when the flips run out.
- `u8` wrap-around in release builds is not modelled: an overflow is the debug-build panic. The `usize` product `w*h` is taken as unbounded.
- The map size is a constructor parameter of at least 1 by 1. The game itself uses 16 by 16.
- Game.Dungeon.BeginTurn: after an arithmetic overflow or missing flips, only the phase is stated. The real process has panicked or would still be looping.
- Game.Dungeon.MoveTo: after the report's strength sum overflows, only the phase is stated beyond the move itself.
- Game.Dungeon.Attack: after the strength sum overflows, only the phase is stated, with the player and enemies unchanged.
- An out-of-bounds move skips the end-of-turn floor check (`continue`). The model has no turn loop, so this ordering lives only in how `MoveTo` and `EndTurn` are meant to be called.
