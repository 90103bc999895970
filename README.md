# Game of the Goose ("El juego de la OCA") — game engine model

A Dafny model of the engine of a terminal Game of the Goose for four players
(J1..J4) on a 64-cell track drawn as an 8 x 8 grid. The model has three modules:

- `Board` (board.dfy) covers board-cell classification. Cell 0 is the start and cell 63 is the end.
  Otherwise a multiple of 5 is a setback cell ("castigo") and, failing that, a
  multiple of 7 is a bonus cell ("suerte"). The source writes this chain twice:
  the block kind is computed from the grid row and column, and the title suffix from the
  linear index `col + row * 8`. Both chains are modelled, together with the loop over
  the grid that computes them for every cell. They are proved to agree on all 64 cells.
- `Rules` (rules.dfy) holds the turn rules on values. A player rolls 1..6. A roll
  past 63 is rejected and logged with the number of cells still needed. Otherwise the
  player moves. Landing exactly on 63 wins at once. Otherwise at most one special
  cell applies: back 2 on a multiple of 5, else forward 2 on a multiple of 7. The
  turn index then rotates over the four players. Log entries are an `Event`
  datatype, not formatted strings. `Step` is one turn on the whole game and `Play`
  is a sequence of turns that stops at the first win.
- `Goose` (app.dfy) holds the `App` object that the terminal loop updates in place. It has
  the players (a `seq` of `Player` values), the turn index, the information log, the
  `finished` flag and the winner. `App.TakeTurn` follows the source statement by
  statement and is proved to produce `Rules.Step` of the old state. `RunApp` is the
  game loop. It consumes one die roll per turn-key press and is proved to produce
  `Rules.Play`.

The source differs from a plain reading of its rules in three ways, and the model follows the source:

- `finished` is never set to true. A win leaves the game loop through a `break`,
  which also skips the turn rotation. `TakeTurn` returns `won` instead, and
  `RunApp` stops on it. `finished` stays false throughout.
- The special-cell check runs after a rejected (overshooting) roll too. From
  any reachable position this changes nothing: `TurnFromResting` shows that an
  overshoot can start only from 58, 59, 61 or 62, and none of these is a special
  cell. From the unreachable cell 60, however, a roll of 5 is rejected and the
  player still falls back to 58 (`TurnExamples`). A rule that keeps the player
  on 60 does not match the code.
- The turn index moves with "if it is the last index then 0, else add 1". It is not written as a
  modulo. `NextIndex` is proved equal to `(i + 1) % 4`.

Positions and the turn index are 16-bit integers in the source. The object
invariant (`App.Valid`, `Rules.WellFormed`) keeps every cell within 0..63 and the
index within 0..3. Every turn preserves it, so no arithmetic can wrap. The source
tests special cells with Rust's truncating `%`, but only as `% 5 == 0` and
`% 7 == 0`. Those tests agree with Dafny's `%` for every sign.

## Model

| member | source | states |
|---|---|---|
| `Board.CellIndex` | src/main.rs:255 | The index of the cell drawn at (row, col) is in 0..63, and row and column are recovered from it by division and remainder by 8. Every grid position names a distinct cell. |
| `Board.LabelSuffix` | src/main.rs:272-282 | The title suffix is "-Inicio" exactly at 0 and "-Fin" exactly at 63. It is "-Castigo" exactly for nonzero multiples of 5. It is "-Suerte" exactly for multiples of 7 that are not multiples of 5 and not 63. It is empty exactly for cells divisible by neither 5 nor 7. |
| `Board.KindAt` | src/main.rs:258-268 | The block kind chosen from the row and column always carries the suffix that the index-based chain gives the same cell. |
| `Board.SuffixDeterminesKind` | src/main.rs:18-24 | The five block kinds have five distinct title suffixes. |
| `Board.KindAndLabelAgree` | src/main.rs:255-283 | For every (row, col) in 0..7 x 0..7, the two chains agree in both directions. The kind is k exactly when k's suffix is the cell's label suffix. |
| `Board.Precedence` | src/main.rs:258-282 | Cell 0 is the start although 0 is a multiple of 5. Cell 35 is a setback although it is also a multiple of 7. Cell 63 is the end, not a bonus. |
| `Board.BoardCells` | src/main.rs:253-285 | The loop over rows and columns yields 64 cells in index order. Each cell has its index, its kind from `KindAt`, its suffix from `LabelSuffix`, and the two agree. |
| `Rules.Landing` | src/main.rs:123-137 | A roll moves the player exactly `roll` cells. A roll that would pass 63 leaves the player where it was. Either way the cell stays on the board. |
| `Rules.Turn` | src/main.rs:117-159 | One turn keeps the cell on the board and logs one or two entries. It wins exactly when the cell after the move (or the kept cell after an overshoot) is 63, and exactly when the cell ends on 63. A win logs the victory as the second entry. |
| `Rules.NextIndex` | src/main.rs:161-165 | The compare-and-reset rotation equals `(i + 1) mod len` for every index in range. |
| `Rules.Step` | src/main.rs:116-165 | One turn on the whole game keeps 4 players, an index in 0..3 and every cell in 0..63. Only the current player's cell changes, and names, other players and `finished` are kept. The log keeps its old entries as a prefix and gains one or two. A win happens exactly when the current player's cell after the move is 63, which is exactly when it ends on 63. It names that player as winner and keeps the turn. Otherwise the winner is unchanged and the turn passes to `(i + 1) mod 4`. |
| `Rules.Play` | src/main.rs:107-168 | Repeated turns, stopping at the first win, keep the game well formed. |
| `Rules.PlayStopsAtWin` | src/main.rs:139-145 | Play ends at the first win, as the `break` does: rolls supplied after a winning run change neither the game nor the outcome. |
| `Rules.OvershootKeepsCell` | src/main.rs:123-129 | A roll past 63 logs one overshoot entry reporting `63 - cell` cells still needed. When the cell is not a special cell, the cell is unchanged and that entry is the only one. |
| `Rules.NormalMoveAdvances` | src/main.rs:130-136 | A roll that fits logs that roll as the turn's first entry. `Landing` states that such a roll moves the player exactly `roll` cells. |
| `Rules.WinSkipsEffects` | src/main.rs:139-145 | Landing exactly on 63 logs the roll and the victory and wins. No bonus is applied, although 63 is a multiple of 7. |
| `Rules.SpecialCells` | src/main.rs:147-159 | If there is no win, the player goes back 2 exactly when the landing cell is a multiple of 5. It goes forward 2 exactly when the landing cell is a multiple of 7 but not of 5. A setback entry is logged exactly when the player went back, and a bonus entry exactly when it went forward. A single entry means the player stayed where it landed. A landing cell divisible by neither 5 nor 7 applies no effect: the player stays where it landed and only one entry is logged, and only such a cell does so. At most one effect applies. |
| `Rules.EffectFollowsBoard` | src/main.rs:147-159 | On a turn without a win, the effect applied is the one the board labels on the landing cell: "-Castigo" gives back 2, "-Suerte" gives forward 2. |
| `Rules.RotationAdvances` | src/main.rs:161-165 | After k turns without a win, the index has moved from i to (i + k) mod 4. |
| `Rules.RotationReturns` | src/main.rs:161-165 | Four turns without a win give the turn back to the same player, and so does any multiple of four. |
| `Rules.PlayFrame` | src/main.rs:123-159 | Over any run of turns the log is never truncated or reordered, because the old log is a prefix of the new one. Each turn adds at most two entries, and each turn without a win adds at least one. Player names never change. |
| `Rules.SetbackRests` | src/main.rs:147-152 | A setback from a cell in 1..62 lands on a cell where the player can rest. |
| `Rules.BonusRests` | src/main.rs:153-158 | A bonus from a cell in 1..62 lands on a cell where the player can rest. |
| `Rules.TurnFromResting` | src/main.rs:117-159 | From a resting cell, a turn either wins or ends on a resting cell. An overshoot can start only from 58, 59, 61 or 62. It leaves the cell unchanged for the whole turn and logs only the overshoot. |
| `Rules.DefaultIsResting` | src/main.rs:39-52 | The default game has every player on a resting cell. |
| `Rules.PlayStaysOnBoard` | src/main.rs:107-168 | From the default game (or any resting state), every run of turns stays within 0..63. It either ends with the winner on 63, with the current index naming the winner, or leaves every player on a resting cell short of 63. |
| `Rules.TurnExamples` | src/main.rs:123-159 | Worked turns: 60 + 5 is rejected, but the setback check still sends the player to 58. 59 + 5 is rejected and the player stays. 61 + 2 wins. 8 + 2 reaches 10 and goes back to 8. 5 + 2 reaches 7 and goes on to 9. |
| `Goose.App.constructor` | src/main.rs:39-52 | The new game has J1..J4 on cell 0, index 0, an empty log, `finished` false and no winner. |
| `Goose.App.TakeTurn` | src/main.rs:116-165 | The in-place turn keeps the object invariant. It leaves the object equal to `Rules.Step` of the old state and returns that step's win flag. |
| `Goose.NewGame` | src/main.rs:85-86 | A default game played with any rolls keeps every cell within 0..63. If it ends in a win, the winner stands on 63, is named in `winner`, and still holds the turn. Otherwise every player rests on a cell short of 63. |
| `Goose.RunApp` | src/main.rs:107-168 | The game loop plays the rolls in order and stops at the first win or when the rolls run out. It leaves the object equal to `Rules.Play` of the old state, and `finished` is never set. |

## Left out

- Terminal setup and teardown (raw mode, alternate screen, mouse capture, cursor; src/main.rs:76-102) is terminal I/O.
- Key-event polling and the quit key are terminal I/O (src/main.rs:111-115, 170-180). `RunApp` takes the sequence of die rolls, one per turn-key press. It ends when they run out, which stands for quitting. After a win, the source only waits for the quit key.
- The random die (src/main.rs:117) is a parameter `n` with `1 <= n <= 6`.
- Log messages are `Event` values carrying the name, roll and cells needed. The Spanish text and number formatting are not modelled. The bonus message also says "casillero de castigo" in the source. The cell titles are modelled as index plus suffix, without formatting the number.
- Drawing is not part of this model: block colours and borders (`generate_block`), the layout percentages (`cells_to_percentage`), layout splitting and widgets in `tablero`, the names shown in each cell, the log shown newest-first, and the winner screen. These are presentation over the terminal UI library.
- `App::get_player` (src/main.rs:35-37) is the plain lookup `players[currentIndex]` inside `TakeTurn`. Its `unwrap` cannot fail there because `App.Valid` keeps the index within the four players.
- `Player::get_name` and `init_player` are the field `Player.name` and the datatype constructor `Player`.
- `Rules.OvershootKeepsCell`: for an overshoot from a setback or bonus cell, it does not claim the cell is unchanged. The code applies the effect there, and such a start cell is never reached (`TurnFromResting`).
