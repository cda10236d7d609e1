# Snake game state, modelled in Dafny

This project models the game-state logic of a small Snake game written in
Rust on top of the Piston engine (`real-app/snake/src/main.rs`). The logic
covers:

- the snake, a double-ended queue of grid cells with its head first, plus a
  direction;
- the single coin;
- the one-tick-delayed `collide` flag;
- the four-way direction filter, which refuses 180° reversals.

Rendering, the window and the event loop are not modelled.

The model has three modules:

- `Grid` (`grid.dfy`): `u32` coordinates, cells and directions. It holds the
  one-cell move `Offset` and the game's bound check `OnGrid`. Only the upper
  bound is checked: `x > 10` or `y > 10` ends the game.
- `SnakeRules` (`rules.dfy`): the transitions as pure functions over values.
  - `Advance` is `Snake::update`.
  - `Collides` is `Coin::collide`.
  - `Steer` is the `match` inside `Game::pressed`.
  - `Tick` is `Game::update`.
  - `Run` is the driving loop over a sequence of events. It stops at the first
    tick that returns false.
  - Lemmas cover single ticks and whole runs.
- `SnakeGame` (`game.dfy`): the two mutable objects. `Snake` changes its
  `body` and `dir` in place. `Game` owns a `Snake`, the `coin` and the
  `collide` flag. Every method's postcondition ties the new state to the pure
  function of the old state.

Decisions:

- **Coordinate overflow.** The source decrements a `u32` (`-= 1` at
  main.rs:139 and main.rs:141; `+= 1` at 140 and 142 in principle). A
  decrement from 0 panics in a debug build and wraps in a release build. The
  model treats both cases as an explicit outcome, `Step.Overflow`. In that
  case the body is unchanged, because the panic comes before `push_front`, and
  `Game.Update` returns false.
- **Release builds.** `Grid.WrappingOffset` gives the release build's wrapped
  move. Its contract shows that, from a cell that passes the bound check, the
  wrapped head always fails that check. So a release build would also end the
  game on that tick.
- **Coordinate 0.** Coordinate 0 passes the bound check. In the update
  logic a head at x = 1 can move Left to x = 0, and the tick keeps running.
  The renderer then computes `(x - 1) * 50` on a `u32` (main.rs:115 and
  main.rs:187-188): a debug build panics on the next frame, and a release
  build wraps and draws the cell off-screen. The model covers the update
  logic only.
- **Random draws.** `Game::update` draws `gen_range(1, 10)` twice. These draws
  are parameters of `Game.Update`, and the method does not constrain them. The
  two-argument `gen_range` excludes its upper bound, so the source draws from
  1..=9 and not from 1..=10. The model follows the code. `RunKeepsInPlay`
  assumes the draws lie in 1..=9 and proves that the coin then stays there.
  Nothing keeps the coin off the snake's body.
- **Dead assignment.** Setting `collide` to false at main.rs:57-60 has no
  effect, because line 62 overwrites it at once. The model keeps this
  assignment in `Game.Update`.

## Model

| member | source | states |
|---|---|---|
| `Grid.Offset` | real-app/snake/src/main.rs:137-143 | The head moves one unit in the direction (Left x−1, Right x+1, Up y−1, Down y+1). The result is `None` exactly when the new coordinate leaves the `u32` range. |
| `Grid.WrappingOffset` | real-app/snake/src/main.rs:139-142 | The release build's wrapping move equals `Offset` whenever `Offset` succeeds. From an on-grid cell, an overflowing move always lands off the grid. |
| `Grid.OppositeIsInvolution` | real-app/snake/src/main.rs:81-88 | The reversal paired with each direction (Up↔Down, Left↔Right) is never the direction itself, and applying it twice gives the original direction. |
| `SnakeRules.Initial` | real-app/snake/src/main.rs:208-223 | The start state has two cells, heads Right, has a clear collide flag, and is in play: on the grid with the coin in the draw range. |
| `SnakeRules.Collides` | real-app/snake/src/main.rs:170-179 | True exactly when the snake's front cell equals the coin's cell. It is a pure test. |
| `SnakeRules.Advance` | real-app/snake/src/main.rs:132-158 | The body is never empty. An overflowing move leaves the body unchanged. Otherwise the new head is the old head offset by one unit. Every old cell moves back one place, and the last cell is dropped unless `collide`, so the length is unchanged or grows by exactly one. The move reports off-grid exactly when the new head has x > 10 or y > 10, and by then the body has already changed. |
| `SnakeRules.Steer` | real-app/snake/src/main.rs:76-91 | The result is never the reverse of the current direction. A non-arrow button keeps the current direction. An arrow asking for the reverse keeps the current direction. Any other arrow sets the requested direction. |
| `SnakeRules.Press` | real-app/snake/src/main.rs:76-91 | A button press changes only the direction, and it changes it to what the filter selects. |
| `SnakeRules.Tick` | real-app/snake/src/main.rs:50-73 | The tick returns true exactly when the move succeeds and the new head passes the bound check. The body grows by one exactly when the previous collide flag was set and the move did not overflow. The new body is exactly the one `Advance` gives: the new head, then the old cells shifted back one place, with the tail kept only when growing. On false, the coin and the collide flag are unchanged. On true, the new collide flag is "new head equals old coin". The coin becomes the drawn cell exactly when that flag is set and is unchanged otherwise. |
| `SnakeRules.Run` | real-app/snake/src/main.rs:235-248 | Over any sequence of ticks and presses, the body is never empty. |
| `SnakeRules.RunSplit` | real-app/snake/src/main.rs:235-241 | Running two event sequences in a row equals running the first and, only if it is still running, continuing with the second. So the loop stops at the first tick that returns false, and a stopped game stays stopped whatever events follow. |
| `SnakeRules.TickKeepsInPlay` | real-app/snake/src/main.rs:50-73 | A tick that keeps the game running, with draws in 1..=9, keeps every body cell on the grid and the coin in 1..=9. |
| `SnakeRules.RunLengthBounds` | real-app/snake/src/main.rs:145-149 | Over any run, the snake never shrinks and grows by at most one cell per tick. |
| `SnakeRules.RunKeepsInPlay` | real-app/snake/src/main.rs:62-72 | While a run keeps going, every body cell passes the bound check and the coin stays in 1..=9, provided the draws do. |
| `SnakeRules.RunStopsOnlyAtEdge` | real-app/snake/src/main.rs:52-55 | A run ends only when the final head fails the bound check or the next move from it overflows. |
| `SnakeRules.GrowthFollowsHit` | real-app/snake/src/main.rs:57-62 | Growth is one tick late. After a tick that hits the coin, the next tick that does not overflow grows the body by one cell. |
| `SnakeRules.FirstTick` | real-app/snake/src/main.rs:208-223 | The first tick of a new game moves the head to (6,5), gives the body (6,5),(5,5), keeps the coin at (2,2) with collide false, and keeps running. |
| `SnakeRules.LeavingRightEdge` | real-app/snake/src/main.rs:151-154 | A head at (10,5) moving Right reaches (11,5) and ends the game. |
| `SnakeGame.Snake.constructor` | real-app/snake/src/main.rs:211-216 | A snake starts with the given non-empty body and direction. |
| `SnakeGame.Snake.Update` | real-app/snake/src/main.rs:132-158 | The body is updated in place and the outcome is returned, exactly as `Advance` gives them. The direction is unchanged, and the body stays non-empty. |
| `SnakeGame.Game.constructor` | real-app/snake/src/main.rs:208-223 | A new game holds body (5,5),(5,4), direction Right, coin (2,2) and collide false. |
| `SnakeGame.Game.Update` | real-app/snake/src/main.rs:50-73 | The new snake, coin and collide flag, and the returned flag, are exactly those of `Tick` applied to the old state and the two draws. |
| `SnakeGame.Game.Pressed` | real-app/snake/src/main.rs:76-91 | Only the snake's direction changes, to the direction the filter selects. |

## Left out

- The three `render` methods (main.rs:34-46, 104-130, 182-197) are not modelled. They are graphics-library draw calls with floating-point colours and geometry.
- The width fields (`obj_width`, `width`) and the `((x-1)*50)+5` pixel projection are not modelled. Only rendering uses them.
- The renderer's `u32` projection `(x - 1) * 50` (main.rs:115, main.rs:187-188) is not modelled. For a cell at coordinate 0, which the update logic accepts, a debug build panics when drawing and a release build wraps and draws it off-screen.
- The window, OpenGL setup and Piston event loop in `main` (main.rs:201-251) are engine I/O. `SnakeRules.Run` stands in for the loop as a fold over a given sequence of events. It does not model timing: the loop runs 6 updates per second and renders at its own rate.
- The random-number generator is a foreign call. Its draws are parameters.
- `standard-library/for.rs` is not part of this model. It is a loop-syntax demo that only prints.
- `SnakeRules.Advance` and `SnakeGame.Snake.Update` model a `u32` overflow in the move as the outcome `Overflow`, with the body unchanged. In a debug build this is a panic that aborts the program. `Grid.WrappingOffset` states the release build's wrapped head, but no member models the release build's full update, which pushes the wrapped head.
- `SnakeGame.Game.Update` returns false on `Overflow`. The source would instead panic (debug build), or push the wrapped head and then return false (release build).
- The `LinkedList` is a `seq`, so the model does not capture the constant-time cost of `push_front` and `pop_back`.
