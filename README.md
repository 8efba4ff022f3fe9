# Battleship core in Dafny

This project models the core of a small Go Battleship game (alfiehiscox/submarines).
It covers:

- the 10×10 grid and its row-major addressing;
- validation of ship anchors;
- placing ships on a player's fleet board, by hand and by the random fleet placer;
- the per-turn operations of a player: guess, check a hit, record a shot;
- the win check and the text rendering of a board;
- the console game's turn loop.

The packages `pkg/cell`, `pkg/board` and `pkg/player` and the single-file game
`cmd/game/main.go` hold the same logic twice. The game file uses lower-case names.
The model states that logic once, and takes the turn loop from the game file.

Modules:

- `Cells` (`cells.dfy`, from pkg/cell/cell.go):
  - the board constants;
  - `Orientation`, which is a Go string: `Horizontal` and `Vertical` stand for
    "HORIZONTAL" and "VERTICAL", and any other text is carried as
    `Unknown(name)`; a subset type excludes `Unknown` of those two texts, so each
    string is exactly one orientation (`ParseOrientation`, `OrientationName`);
  - `Coordinate` with `ToIndex`;
  - `NewCoordinate` and `VerifyCoordinate`;
  - the random draws, as nondeterministic choice within the source's ranges.
- `Boards` (`boards.dfy`, from pkg/board/board.go):
  - the `Cell` record;
  - `NewBoard`, over an `array<Cell>`;
  - `CheckWinner`, a scanning method proved equal to the predicate `Won`;
  - `String`, a counter loop proved equal to the function `Rendered`.
- `Players` (`players.dfy`, from pkg/player/player.go):
  - placement as functions of the fleet board's value (`Placement`, `Placed`);
  - the class `Player`, with the two board arrays as fields;
  - `PlaceShip`, as scan-then-write loops over the array, and its four size wrappers;
  - the retrying randomiser, and the fleet placer, whose ghost outputs record
    each call of the randomiser (`FleetRun`); `PlaceFleetShip` is one
    `if err := RandomizeShipPlacement(n); err != nil` step of it, with that record;
  - guess, hit check and the two mark operations.
- `Game` (`game.dfy`, from cmd/game/main.go): one turn, the turn loop and `main`.
  The loop returns the turns played as ghost `Position`s (the four boards) and
  shot indices, and `Played` states what each turn did.
- `PlayerScenarios` (`scenarios.dfy`): the fleets, shot lists and tables of
  pkg/player/player_test.go, stated as lemmas and methods. cmd/game/main_test.go
  repeats only its placement and randomiser tests.

## The two quirks of the source, as modelled

1. **The cross axis is bounded with `>`** (pkg/cell/cell.go:67). `VerifyCoordinate`
   accepts x = 10 for a vertical ship and y = 10 for a horizontal one. The
   validator is modelled as written, and the consequences are proved:
   - `VerifyCrossAxisAcceptsEdge`: such anchors pass, although they are off the grid.
   - `VerticalEdgeAnchorWraps`: a vertical carrier at (10, 0) is placed on
     indices 10, 20, …, 50, which is column 0 of rows 1 to 5.
   - `VerticalEdgeAnchorOverruns` and `HorizontalEdgeAnchorOverruns`: a vertical
     destroyer at (10, 8), and any horizontal ship in row 10, reach index 100 or
     beyond.

   In Go that index is a runtime panic. The model makes it the outcome
   `Fail(IndexOutOfRange)`. The scan raises it at the first such cell, before any
   write. A cell that is occupied earlier in the run is reported first, as in the
   source. `PlacementOnGridNeverPanics` shows that an anchor on the grid never
   reaches this outcome.
2. **The attempt limit is checked after each retry, whatever the retry returned**
   (pkg/player/player.go:98-115). `RandomizeShipPlacement` returns the draws it
   made as a ghost sequence. Its postcondition says:
   - the error is `RandomLimitReached` exactly when 1002 draws were made;
   - the board is the result of the last draw, `AfterDraws`, even when that last
     draw fitted.

   So the ship can be committed and the limit error still reported.
   `LimitAfterCommit` exhibits such a run: on a board where only cells 0 to 4 are
   free, 1001 draws of a carrier at (1, 0) fail and the 1002nd, at (0, 0), fits.

## Model

| member | source | states |
|---|---|---|
| Cells.OrientationName | pkg/cell/cell.go:15-19 | the text of an orientation is "HORIZONTAL" or "VERTICAL" exactly when the orientation is one of the two known ones |
| Cells.ParseOrientation | pkg/cell/cell.go:15-19 | every string is the text of the orientation it parses to |
| Cells.OrientationNameRoundTrip | pkg/cell/cell.go:15-19 | parsing the text of an orientation gives the orientation back, so strings and orientations correspond one to one |
| Cells.Coordinate.ToIndex | pkg/cell/cell.go:26-28 | for a coordinate on the grid the index is in [0, 100), its remainder by 10 is x and its quotient is y |
| Cells.CoordinateAt | pkg/cell/cell.go:26-28 | every index in [0, 100) is the index of a grid coordinate (one only, by `Cells.ToIndexInjective`) |
| Cells.ToIndexRoundTrip | pkg/cell/cell.go:26-28 | on the grid, converting a coordinate to its index and back gives the coordinate |
| Cells.ToIndexInjective | pkg/cell/cell.go:26-28 | two grid coordinates have the same index if and only if they are equal |
| Cells.NewCoordinate | pkg/cell/cell.go:30-40 | succeeds if and only if both axes are in [0, 10), and then returns exactly (x, y); otherwise the error names x when x is out of range, else y |
| Cells.VerifyCoordinate | pkg/cell/cell.go:61-83 | passes if and only if both axes are in [0, 10], a horizontal ship has x ≤ 10 − size and a vertical ship has y ≤ 10 − size; every failure is OffBoard |
| Cells.VerifyRejectsNegative | pkg/cell/cell.go:62-65 | a negative x or y is rejected whatever the size and orientation |
| Cells.VerifyAlongAxisBoundary | pkg/cell/cell.go:72-80 | along the ship's axis, anchor 10 − size is accepted and 10 − size + 1 is rejected, in both orientations |
| Cells.VerifyCrossAxisAcceptsEdge | pkg/cell/cell.go:67-70 | a vertical anchor in column 10 and a horizontal anchor in row 10 pass, though neither is on the grid |
| Cells.DrawnAnchorVerifies | pkg/cell/cell.go:55-83 | every anchor the random draw can produce for a ship of size 1 to 9 is on the grid and passes validation in both orientations |
| Cells.GetRandomOrientation | pkg/cell/cell.go:47-53 | the result is horizontal or vertical, never an unknown orientation |
| Cells.GetRandomCoord | pkg/cell/cell.go:55-59 | for a size below 10 both axes lie in [0, 10 − size) |
| Boards.EmptyBoard | pkg/board/board.go:11-18 | the fresh board value has 100 cells, none occupied and none chosen |
| Boards.NewBoard | pkg/board/board.go:11-18 | returns a new array whose contents equal the fresh board value |
| Boards.CountOccupied | pkg/player/player_test.go:241-246 | the number of occupied cells is at most the board's length |
| Boards.CountOccupiedEmpty | pkg/player/player_test.go:241-246 | a board with no occupied cell counts zero |
| Boards.CountOccupiedSet | pkg/player/player.go:59-68 | setting `occupied` on a free cell adds exactly one to the count |
| Boards.MarkChosen | pkg/player/player.go:183-191 | the write of a shot: the cell's `chosen` becomes the hit value, every `occupied` flag and every other cell are unchanged |
| Boards.MarkLastWins | pkg/player/player_test.go:322-364 | marking a cell twice leaves only the second value |
| Boards.MarkKeepsCount | pkg/player/player.go:183-191 | recording a shot never changes the number of ship parts |
| Boards.Won | pkg/board/board.go:43-52 | the win condition: at every index of the enemy board, a ship part is there exactly when the target board records a hit |
| Boards.WonMeansAllPartsHit | pkg/board/board.go:43-52 | a win means every ship part of the enemy is hit and every recorded hit is on a ship part |
| Boards.MismatchIsNoWin | pkg/board/board.go:45-48 | one index where the enemy's `occupied` differs from the target's `chosen` rules out a win |
| Boards.CheckWinner | pkg/board/board.go:44-52 | returns true if and only if, at every index of the enemy board, a ship part is there exactly when the target board records a hit; it reads only |
| Boards.Marker | pkg/board/board.go:26-30 | a cell's text is three characters, a space, "X" for a ship part or "O" otherwise, and a space |
| Boards.Rows | pkg/board/board.go:20-41 | the rows of an n-cell board are 3n + n / 10 characters long |
| Boards.Rendered | pkg/board/board.go:20-41 | the rendering is a newline followed by the rows |
| Boards.RenderedLength | pkg/board/board.go:20-41 | a 100-cell board renders to 311 characters beginning with a newline |
| Boards.RowsMarkerAt | pkg/board/board.go:26-30 | the three characters of cell i sit at offset 3i + i / 10 of the rows and are " X " for a ship part, " O " otherwise |
| Boards.String | pkg/board/board.go:20-41 | the counter loop produces exactly the rendering: a newline, then each cell's marker with a newline after every tenth cell |
| Players.Step | pkg/player/player.go:38-53 | the distance between ship parts is 1 for a horizontal ship and 10 (the board width) for a vertical one |
| Players.ShipCells | pkg/player/player.go:35-53 | a ship covers `size` indices, the k-th being the anchor's index plus k steps |
| Players.FirstBlocked | pkg/player/player.go:37-57 | the scan over the run, first cell first: a failure is an index past the board or an occupied cell |
| Players.FirstBlockedPass | pkg/player/player.go:37-57 | the scan passes if and only if every cell of the run is on the board and free |
| Players.FirstBlockedOverlap | pkg/player/player.go:40-52 | when the whole run is on the board, a failing scan means overlap |
| Players.Occupy | pkg/player/player.go:59-68 | after the writes a cell is occupied exactly when it was before or is in the run; no `chosen` flag changes |
| Players.PlacedCells | pkg/player/player.go:59-68 | a successful placement occupies exactly the old ship parts plus the run, keeps every `chosen` flag and the board's length |
| Players.Placement | pkg/player/player.go:29-57 | place_ship's result for a board value: success needs a validated anchor and a known orientation; the errors are OffBoard, UnknownOrientation, IndexOutOfRange and CellOccupied |
| Players.Placed | pkg/player/player.go:29-71 | place_ship's effect on a board value: it only grows, keeping every ship part and `chosen` flag and the length |
| Players.PlacementPass | pkg/player/player.go:29-71 | placement succeeds if and only if the anchor validates, the orientation is known and every cell of the run is on the board and free |
| Players.PlacementErrors | pkg/player/player.go:29-57 | a failed validation is reported as OffBoard, then an unknown orientation, and only then IndexOutOfRange or CellOccupied from the scan |
| Players.ShipCellsInGrid | pkg/player/player.go:35-53 | for a validated anchor on the grid, the run stays in the anchor's row or column and inside the board |
| Players.PlacementOnGridNeverPanics | pkg/player/player.go:35-66 | on a 100-cell board an anchor on the grid never reaches the out-of-range index |
| Players.VerticalEdgeAnchorWraps | pkg/cell/cell.go:67 | a vertical carrier at (10, 0) validates and is placed on indices 10 to 50, which is column 0 of rows 1 to 5 |
| Players.VerticalEdgeAnchorOverruns | pkg/player/player.go:48 | a vertical destroyer at (10, 8) validates but its run is 90, 100, and placement fails with the out-of-range index |
| Players.HorizontalEdgeAnchorOverruns | pkg/player/player.go:40 | a horizontal ship in row 10 validates but starts at index 100 or beyond, and placement fails with the out-of-range index |
| Players.ShipCellsIncreasing | pkg/player/player.go:39-53 | the run is strictly increasing, so no cell is visited twice |
| Players.OccupyCount | pkg/player/player.go:59-68 | occupying distinct free cells adds one ship part per cell |
| Players.PlacedCount | pkg/player/player.go:29-71 | a successful placement adds exactly `size` ship parts |
| Players.Retried | pkg/player/player.go:73-116 | the draws of one randomiser call: 1 to 1002 of them, each within the drawn ranges, every one but the last failing on the unchanged board |
| Players.AfterDraws | pkg/player/player.go:73-116 | the board after a call is the last draw's placement; it only grows, and it differs from the old board only if the last draw fitted |
| Players.CallOutcome | pkg/player/player.go:111-118 | a call returns an error only when all 1002 draws were used, and that error is the limit |
| Players.FleetSizes | pkg/player/player.go:122-150 | the fleet is placed in the order 5, 4, 3, 3, 2, each a real ship size |
| Players.FleetRun | pkg/player/player.go:122-150 | the calls of the fleet placer: call k is a randomiser call (`CallMade`: `Retried`, the board `AfterDraws`, committed when it succeeded) for ship k of the fleet on the board the earlier calls left, and every call but the last succeeded |
| Players.FleetPlaced | pkg/player/player.go:122-150 | a finished fleet run: at least one call was made, and the run stopped at a failing call or after all five ships |
| Players.FleetRunAt | pkg/player/player.go:122-150 | each call of a run, read off at its index |
| Players.FleetRunNext | pkg/player/player.go:125-147 | a first call, or a call after a successful one, extends the run with the next ship size |
| Players.FleetPrefixTotal | pkg/player/player.go:122-150 | the fleet has 17 ship parts and every prefix of it at most that |
| Players.FleetRunEffect | pkg/player/player.go:122-150 | after the first n calls the board has only grown, by at most the sizes of those ships, and by exactly that when they all succeeded |
| Players.FleetRunNoFit | pkg/player/player.go:125-127 | where no carrier fits, the first call fails and leaves the board unchanged |
| Players.FleetRunTotal | pkg/player/player.go:122-150 | a whole run adds at most 17 ship parts, and exactly 17 when all five calls succeeded |
| Players.NoFitMeansNoCommit | pkg/player/player.go:92-116 | when no drawable placement fits, no retry commits and the board is unchanged |
| Players.RetryEffect | pkg/player/player.go:73-119 | one randomiser call keeps earlier ship parts and `chosen` flags, and adds `size` parts exactly when the last draw fitted |
| Players.PrefilledBoard | pkg/player/player_test.go:256-269 | the test's painted board: cell i is occupied exactly when Painted(i) holds, nothing is chosen |
| Players.PrefilledBoardFitsNoCarrier | pkg/player/player_test.go:253-274 | no carrier fits the painted board at any anchor or orientation the randomiser can draw |
| Players.Player.constructor | pkg/player/player.go:21-27 | a new player has two distinct fresh 100-cell boards and the given name |
| Players.Player.PlaceShip | pkg/player/player.go:29-71 | the result is `Placement` of the old fleet board and the new fleet board is `Placed`: on failure nothing is written, on success exactly the run is occupied; the target board is outside the frame |
| Players.Player.ScanShip | pkg/player/player.go:35-57 | the first loop's outcome is the scan `FirstBlocked` over the run, in visiting order; it reads only |
| Players.Player.OccupyShip | pkg/player/player.go:59-68 | the second loop leaves the fleet board equal to `Occupy` of the run |
| Players.Player.PlaceCarrier | pkg/player/player.go:153-155 | placement with size 5 |
| Players.Player.PlaceBattleship | pkg/player/player.go:158-160 | placement with size 4 |
| Players.Player.PlaceCruiserOrSubmarine | pkg/player/player.go:163-165 | placement with size 3 |
| Players.Player.PlaceDestroyer | pkg/player/player.go:168-170 | placement with size 2 |
| Players.Player.PlaceBySize | pkg/player/player.go:79-90 | the size switch picks the wrapper whose placement has that size |
| Players.Player.RandomizeShipPlacement | pkg/player/player.go:73-119 | an unknown size fails with no write; otherwise the draws are `Retried` (1 to 1002, in range, all but the last failing), the board is the last draw's placement, the limit error is returned exactly when 1002 draws were made (even if the last fitted), a success committed the ship, the count grows by `size` when the ship is committed, and a board where nothing fits ends with the limit error and unchanged |
| Players.Player.PlaceFleetShip | pkg/player/player.go:125-147 | one step of the fleet placer: calls the randomiser for the next ship size and extends the run with that call and its result |
| Players.Player.RandomizePlacement | pkg/player/player.go:122-150 | the calls made form a finished run (`FleetPlaced`) from the old board to the new one, in the order 5, 4, 3, 3, 2; the result is the last call's; success means all five calls ran and adds exactly 17 ship parts; the only error is the limit; earlier ship parts and shots are kept; when no carrier fits, the limit error is returned with the board unchanged |
| Players.Player.GetGuess | pkg/player/player.go:174-176 | the guess is a coordinate on the grid |
| Players.Player.CheckHit | pkg/player/player.go:179-181 | reports whether a ship part is at the coordinate; reads only |
| Players.Player.MarkTargetAttempt | pkg/player/player.go:184-186 | only the target board changes, and only the `chosen` flag of that cell |
| Players.Player.MarkPlayerAttempt | pkg/player/player.go:189-191 | only the fleet board changes, and only the `chosen` flag of that cell |
| Game.Consistent | cmd/game/main.go:328-332 | a target board agrees with the opponent's fleet board: same length, a recorded hit is on a ship part, and both mark the same cells as hit |
| Game.FreshBoardsConsistent | cmd/game/main.go:313-316 | before the first shot, each target board is consistent with the opponent's fleet board |
| Game.ShotKeepsConsistent | cmd/game/main.go:328-332 | one shot recorded with the defender's answer on both boards keeps them consistent and keeps the number of ship parts |
| Game.WinMeansFleetSunk | cmd/game/main.go:349-357 | for consistent boards, the win check holds if and only if every ship part of the defender has been hit |
| Game.Shot | cmd/game/main.go:328-332 | one turn's effect on the four boards: the attacker's target board and the defender's fleet board record the defender's answer at an on-grid index; the other two boards stay |
| Game.Played | cmd/game/main.go:320-341 | the turns played: player 1 takes the even turns and player 2 the odd ones, each turn is a `Shot`, the win check fails after every turn but a winning last one, and without a winner the run is cut off after `maxTurns` turns |
| Game.Turn | cmd/game/main.go:328-337 | one turn marks the same guessed cell on both boards with the defender's `occupied` flag, changes no ship part, keeps the invariant, and reports the win check |
| Game.PlayTurns | cmd/game/main.go:320-341 | the turns played satisfy `Played` from the initial boards to the final ones; a winner is player 1 after an odd number of turns and player 2 after an even one, and the loser then has every ship part hit; ship parts never move |
| Game.RunGame | cmd/game/main.go:312-346 | main: two players with fresh target boards whose fleet boards are what the fleet placer left, starting from an empty board (a finished run, `FleetPlaced`, for each player, cmd/game/main.go:313-316: at least one call, and all five unless one failed), then the loop from those boards; the turns satisfy `Played`, the winner is "player 1" after an odd number of turns and "player 2" after an even one, and has hit every ship part of the other |
| PlayerScenarios.MarkAllHit | pkg/player/player_test.go:377-385 | after a run of true marks, a cell is chosen exactly when it was or is in the run; ship parts are unchanged |
| PlayerScenarios.TestFleetCheckHit | pkg/player/player_test.go:276-320 | carrier at (0,0) horizontal and battleship at (0,1) vertical are both placed; a cell is a ship part exactly when it is one of the nine listed hits |
| PlayerScenarios.TestFleetWon | pkg/player/player_test.go:366-390 | the nine hits against that fleet win |
| PlayerScenarios.OtherFleetPlaced | pkg/player/player_test.go:393-399 | carrier at (0,1) and then battleship at (3,4) are both placed, and leave (0,0) open water |
| PlayerScenarios.OtherFleetNotWon | pkg/player/player_test.go:392-416 | no target board with a hit recorded at (0,0), as the nine test shots have, wins against that fleet |
| PlayerScenarios.FreshHorizontalPlacement | pkg/player/player_test.go:10-27 | on a fresh board a horizontal ship that fits is placed, and its cells are exactly the `size` cells from the anchor rightwards |
| PlayerScenarios.CarrierFailures | pkg/player/player_test.go:29-63 | with a carrier on cells 10 to 14, all ten listed carrier placements fail, the off-board ones with OffBoard and the others with CellOccupied |
| PlayerScenarios.BattleshipFailures | pkg/player/player_test.go:84-119 | the same for the ten battleship placements |
| PlayerScenarios.SubmarineFailures | pkg/player/player_test.go:140-175 | with a size-3 ship on cells 10 to 12, the ten listed placements fail as expected |
| PlayerScenarios.DestroyerFailures | pkg/player/player_test.go:196-230 | with a destroyer on cells 10 and 11, the nine listed placements fail, including x = 10 and y = 10 along the ship's axis |
| PlayerScenarios.PaintStep | pkg/player/player_test.go:257-263 | the test's flag flips on every cell and once more at column 1, which is what Painted says |
| PlayerScenarios.PaintAlternating | pkg/player/player_test.go:256-269 | the test's painting loop leaves the fresh fleet board equal to the painted board |
| PlayerScenarios.LimitAfterCommit | pkg/player/player.go:93-115 | a run of 1002 draws whose last one fits: the ship is committed and the limit error is still returned |
| PlayerScenarios.PrefilledFleetFails | pkg/player/player_test.go:253-274 | on the painted board the fleet randomiser fails with the limit error |
| PlayerScenarios.FreshFleet | pkg/player/player_test.go:232-251 | a fresh player whose randomised placement succeeds has exactly 17 ship parts |
| PlayerScenarios.MarkTrueThenFalse | pkg/player/player_test.go:322-342 | a fresh cell is unchosen; marked true it is chosen; marked false again the board is fresh |

The duplicated definitions in cmd/game/main.go are the same as the package ones, line for line:

- `verify_coordinate` (cmd/game/main.go:161-183) is modelled by `Cells.VerifyCoordinate`.
- `place_ship` (cmd/game/main.go:117-159) is modelled by `Players.Player.PlaceShip`.
- `randomize_ship_placement` and `randomize_placement` (cmd/game/main.go:185-262)
  are modelled by `Players.Player.RandomizeShipPlacement` and `Players.Player.RandomizePlacement`.
- `check_winner` (cmd/game/main.go:349-357) is modelled by `Boards.CheckWinner`.
- The ten tests in cmd/game/main_test.go repeat the eight placement tests and the
  two randomiser tests of pkg/player/player_test.go (lines 10-274). The hit, mark
  and win tests (pkg/player/player_test.go:276-416) have no copy there.

## Left out

- Screen clearing, the one-second pause and the winner's announcement
  (cmd/game/main.go:306-310, 324-326, 340, 343-345) are I/O. A failing screen clear
  panics in the source; the model assumes it succeeds.
- The distribution of `rand.IntN` is not modelled. The draws are nondeterministic
  choices limited to the source's ranges.
- Game.PlayTurns: the source loops until someone wins. `GetGuess` may repeat a
  coordinate, so no termination claim holds. The model stops after `maxTurns`
  turns with no winner, and claims nothing about liveness.
- Game.RunGame: inherits that turn bound. The randomiser's errors are ignored, as in
  the source, so a player may play with an incomplete fleet.
- The error messages built with `fmt.Sprintf` are replaced by the variants of
  `Cells.Error`. The source's text always says "Carrier", whatever the ship.
- The index panic of `place_ship` is modelled as the outcome `Fail(IndexOutOfRange)`,
  not as a crash. Its position in the scan is kept.
- Cells.VerifyCoordinate: Go's 64-bit `int` is not modelled; coordinates and sizes
  are unbounded integers. Anchors cannot overflow, since validation rejects anything
  below 0 or above 10. A size near -2^63 does: `BOARD_WIDTH-size` and
  `BOARD_HEIGHT-size` (pkg/cell/cell.go:72,77) wrap to negative numbers in Go, so Go
  rejects such a ship as off the board. The model accepts it, and `Players.Placement`
  then passes with an empty run. Every caller passes a size from 2 to 5.
- Players.Player.RandomizeShipPlacement: a size of 10 or more panics in the source,
  in `rand.IntN` with an empty range. The model requires `size < 10`. Every caller
  passes 2 to 5.
- Players.Player.CheckHit, MarkTargetAttempt and MarkPlayerAttempt require the index
  to be on the board, where the source would panic. Callers pass on-grid guesses.
- Boards.CheckWinner requires the target board to be at least as long as the enemy
  board, where the source may panic (it returns false without panicking when a
  mismatch comes before the missing index). Both are 100 cells long.
- `Board.String` is also used in test logging (pkg/player/player_test.go:374,400).
  That logging is not modelled.
- The web front end (cmd/site/main.go, pkg/html/html.go, tailwind.config.js) is not
  part of this model.
- cmd/game/test_main.go is not part of this model. It calls placement functions that
  the game file does not define.
