# 2048 rules engine, modelled in Dafny

This project models the rules engine of a TypeScript implementation of the
sliding-tile game 2048. It covers the `Game2048` class in `src/game-2048.ts` and
the `Tile` cell in `src/tile.ts`.

The engine owns a rows × cols board of tiles, a score and two flags (`isGameOver`,
`didPlayerWin`). `makeMove(direction)` works as follows:

- It throws if the game has already ended.
- It clears every cell's merge flag.
- It scans the board in the chosen direction, sliding and merging tiles.
- If any tile moved, it spawns a 2 or a 4 on a random empty cell.
- It then decides whether the game is won (some tile equals the win number) or
  lost (a full board with no two equal neighbours).

Layout:

- `types.dfy` (`Types`): directions, the one error, `Option`, and the outcome of a
  move.
- `tile.dfy` (`Tiles`): the cell record and its setters.
- `grid.dfy` (`Grids`): the board as a value, plus the primitives the engine
  writes through:
  - `#isTileEmpty`, `#canMergeTiles`, `#moveTile`, `#mergeTile`;
  - `#unlockAllTiles`, and the `board` getter.
- `scan.dfy` (`Scans`): one directional scan as functions that follow the
  source's loops:
  - `Advance` is the innermost `for` loop, carrying one tile a cell at a time.
  - `Push` is one source cell.
  - `Progress` covers the first k outer and j inner passes, in the source's exact
    visiting order (`SourceAt`).
  - `Scan` is one `#handleXMovement`.
- `rules.dfy` (`Rules`): `#addNewTile` (the list of empty cells in row-major
  order, then the spawn) and `#checkForGameFinished` with its three tests.
- `sums.dfy` (`Sums`): totals over the board, and the proof that a scan keeps the
  total of every line it pushes along.
- `stuck.dfy` (`Stuck`): the proof that the loss test is exact. On a full board,
  two equal neighbours exist exactly when some direction would still move a tile.
- `engine.dfy` (`Engine`): the whole state (`GameState`), plus the constructor
  (`Start`) and `makeMove` (`Move`) as functions, with what they promise.
- `game.dfy` (`Game`): the class itself.
  - The board is an `array2<Tile>`, updated in place, and the other fields are
    reassigned.
  - Every method is proved against the functions above; a ghost copy of the board
    (`cells`) ties the array to them.
  - The four scan methods keep the source's nested loops. Their loop invariant
    is that the state equals `Progress` at the current loop indices.
- `examples.dfy` (`Worked`): fully evaluated scans and end-of-game checks on
  small boards.

Randomness is made explicit. `randomNumber(0, n - 1)` for the spawn index becomes
a parameter `pick: nat -> nat` with `pick(n) < n`. `randomNumber(0, 1)` for the
spawn value becomes a parameter `coin` (0 gives a 2, anything else a 4).

The code departs from the usual rules of 2048 in two places. The model follows
the code both times:

- **A merged tile does not stop.** In each `#handleXMovement`, a merge is followed
  by `continue`, so the merged tile keeps travelling. `#canMergeTiles` consults
  only the target's flag, so the tile can merge again further along. The column
  2, 2, 4 pushed down becomes 0, 0, 8 with 12 points (`Worked.MergeKeepsTravelling`).
- **The merge flag belongs to the cell, not the value.** `#moveTile` moves only
  the value, so a flag stays on a cell whose value has moved on, and a tile that
  moves into that cell cannot be merged into
  (`Worked.FlagStaysOnCell`).

## Model

| member | source | states |
|---|---|---|
| Tiles.NewTile | src/tile.ts:5-8 | a new tile holds the given value with its merge flag cleared |
| Tiles.Tile.SetValue | src/tile.ts:14-16 | the value setter changes the value and leaves the flag |
| Tiles.Tile.SetWasMerged | src/tile.ts:22-24 | the flag setter changes the flag and leaves the value |
| Tiles.SettersCommute | src/tile.ts:14-24 | the two setters touch disjoint fields: either order gives the same tile |
| Grids.Values | src/game-2048.ts:30-34 | the board getter has the board's shape and holds each cell's value |
| Grids.Unlocked | src/game-2048.ts:281-287 | clearing the flags keeps every row's length |
| Grids.UnlockedSpec | src/game-2048.ts:281-287 | after unlocking no cell is flagged, every value is kept, so the board getter's result is unchanged |
| Grids.SetCell | src/game-2048.ts:266-277 | writing one cell changes that cell and no other |
| Grids.IsTileEmpty | src/game-2048.ts:226-228 | definition: a cell is empty when it holds 0 |
| Grids.CanMergeTiles | src/game-2048.ts:230-239 | definition: false when the target is flagged or holds 0, otherwise whether the two values are equal |
| Grids.CanMergeTilesSpec | src/game-2048.ts:230-239 | a merge is allowed exactly into an occupied, unflagged target of equal value; the source's flag plays no part |
| Grids.MoveCells | src/game-2048.ts:261-268 | the target takes the source's value and keeps its own flag, the source becomes 0 and keeps its flag, nothing else changes |
| Grids.MergeCells | src/game-2048.ts:270-279 | the target holds the sum and is flagged, the source becomes 0 and keeps its flag, nothing else changes |
| Grids.NextSpec | src/game-2048.ts:103-105 | each step towards the edge stays on the line and comes one cell closer; a cell has no next cell exactly when it lies against the edge |
| Scans.Advance | src/game-2048.ts:103-120 | the innermost loop keeps the board's shape, never lowers the score, never clears `tileMoved`, and either changes nothing or sets `tileMoved` |
| Scans.AdvanceMoves | src/game-2048.ts:104-113 | an empty next cell makes the tile move there and go on from it |
| Scans.AdvanceMerges | src/game-2048.ts:105-118 | a mergeable next cell makes the tile merge there, adds the merged value to the score, and go on from it |
| Scans.AdvanceStops | src/game-2048.ts:103-109 | at the edge, or at a cell it can neither enter nor merge with, the tile stops and nothing changes |
| Scans.Push | src/game-2048.ts:99-101 | one source keeps the board's shape (the body skips an empty source and advances any other) |
| Scans.AdvanceStaysOnLine | src/game-2048.ts:103-120 | the innermost loop writes only cells on the pushed tile's own line: a tile never leaves its column (UP, DOWN) or its row (LEFT, RIGHT) |
| Scans.PushStaysOnLine | src/game-2048.ts:99-120 | one source of a scan writes only cells on its own line |
| Scans.SourceAt | src/game-2048.ts:94-224 | every (outer, inner) pass index of a scan names a cell of the board, in the order of the four handlers' loop headers (lines 97-98, 130-131, 163-164 and 196-197) |
| Scans.Progress | src/game-2048.ts:97-122 | a partial scan keeps the board's shape |
| Scans.Scan | src/game-2048.ts:94-125 | a whole scan keeps the board's shape |
| Scans.PushSpec | src/game-2048.ts:99-120 | one source never lowers the score, never clears `tileMoved`, and either changes nothing or sets it |
| Scans.ProgressSpec | src/game-2048.ts:95-122 | the same holds for any prefix of a scan, by induction over the loop passes |
| Scans.ScanUnmoved | src/game-2048.ts:94-125 | a scan never lowers the score, and a scan that reports no move leaves the board, flags included, and the score exactly as they were |
| Rules.EmptyInRowSpec | src/game-2048.ts:244-249 | the inner `forEach` collects exactly the empty cells of its row among those it has visited |
| Rules.EmptyInRowsSpec | src/game-2048.ts:243-250 | the outer `forEach` collects exactly the empty cells of the rows it has visited |
| Rules.EmptyCells | src/game-2048.ts:242-250 | the eligible list holds exactly the empty cells of the board |
| Rules.EmptyCellsWhenEmpty | src/game-2048.ts:252-254 | the eligible list is empty exactly when the board has no empty cell |
| Rules.SpawnValue | src/game-2048.ts:257 | the spawned value is 2 or 4, and it is 2 exactly when the draw is 0 |
| Rules.SpawnShape | src/game-2048.ts:241-259 | a spawn keeps the board's shape |
| Rules.SpawnSpec | src/game-2048.ts:241-259 | on a full board nothing changes; otherwise exactly one formerly empty cell now holds the drawn value, keeps its flag, and every other cell is unchanged |
| Rules.PicksInRange | src/utils.ts:7-9 | definition: the stand-in for the index draw `randomNumber(0, n - 1)` returns a number in [0, n - 1] for every n > 0 |
| Rules.Spawn | src/game-2048.ts:241-259 | #addNewTile with its two draws given: a full board is left as it is, otherwise the drawn cell among the empty cells in row-major order gets the drawn value; its contract keeps the board's shape, and Rules.SpawnSpec states the content |
| Rules.HasEmptyCell | src/game-2048.ts:296 | definition: some cell of the board holds 0 |
| Rules.HasWinningTile | src/game-2048.ts:309-312 | definition: some cell holds exactly the win number |
| Rules.HasValidMoveAt | src/game-2048.ts:316-328 | definition: the cell equals the cell below it (when there is one) or the cell to its right (when there is one) |
| Rules.HasEqualNeighbours | src/game-2048.ts:314-331 | definition: some cell of the board passes Rules.HasValidMoveAt |
| Rules.Finished | src/game-2048.ts:289-307 | the flags #checkForGameFinished leaves: a win sets both, else an empty cell or an equal pair keeps them, else the game is over; its contract states that no flag is ever cleared and that a new win also ends the game |
| Rules.FinishedSpec | src/game-2048.ts:289-307 | the game is over exactly when it was, or a tile equals the win number, or the board is full without equal neighbours; the player has won exactly when they had, or a tile equals the win number; a win always sets both flags; no flag is cleared |
| Sums.MoveKeepsTotals | src/game-2048.ts:261-268 | moving a tile between neighbours on a line keeps the board total and every line total |
| Sums.MergeKeepsTotals | src/game-2048.ts:270-279 | merging a tile into its neighbour on a line keeps the board total and every line total |
| Sums.AdvanceKeepsTotals | src/game-2048.ts:103-120 | the innermost loop keeps the board total and every line total |
| Sums.ProgressKeepsTotals | src/game-2048.ts:97-122 | any prefix of a scan keeps the board total and every line total |
| Sums.ScanKeepsTotals | src/game-2048.ts:94-224 | a scan neither creates nor loses value: the board total is kept, and so is the total of every column (UP, DOWN) or row (LEFT, RIGHT) |
| Sums.UnlockedTotals | src/game-2048.ts:281-287 | clearing the flags keeps the total of values and the number of tiles |
| Sums.SpawnTotals | src/game-2048.ts:241-259 | a spawn on a board with room adds the drawn value to the total and one tile to the count; on a full board it adds nothing |
| Stuck.BlockedNeighbour | src/game-2048.ts:314-331 | on a full board without equal neighbours a tile can neither enter nor merge with its next cell in any direction |
| Stuck.BlockedProgress | src/game-2048.ts:94-224 | on such a board every prefix of every scan leaves the state as it was |
| Stuck.BlockedScan | src/game-2048.ts:94-224 | on such a board every scan leaves the board and score as they were and reports no move |
| Stuck.MovedStays | src/game-2048.ts:95-122 | once a scan has set `tileMoved`, it stays set at every later point of the scan |
| Stuck.SourceMoves | src/game-2048.ts:99-118 | a tile whose next cell is empty or can absorb it moves when its source is visited |
| Stuck.ScanMovesAt | src/game-2048.ts:94-224 | if any source of a scan, on the board the scan starts from, has a tile that can take one step, the scan reports a move |
| Stuck.PairedBoardMoves | src/game-2048.ts:94-125 | a full unflagged board with two equal neighbours moves under DOWN (a pair in a column) or RIGHT (a pair in a row) |
| Stuck.ValidMovesIffSomeScanMoves | src/game-2048.ts:314-331 | on a full board, two equal neighbours exist exactly when some direction's scan would move a tile on the next move |
| Engine.OrDefault | src/game-2048.ts:22-24 | the optional-field default of the constructor: a missing or zero field falls back to the default, any other value is kept |
| Engine.ConfigDefaults | src/game-2048.ts:14-24 | a configuration the model assumes `checkGameConfig` accepts gives sizes in [2, 10] and a win number that is a power of two of at least 4; with no configuration they are 4, 4 and 2048 |
| Engine.BlankGrid | src/game-2048.ts:78-87 | the fresh board has rows × cols cells, each a new tile holding 0 |
| Engine.SpawnKeepsNoFlags | src/game-2048.ts:241-259 | a spawn on an unflagged board leaves it unflagged |
| Engine.FirstSpawnLeavesRoom | src/game-2048.ts:89-92 | on a blank board of at least 2 × 2 the first spawn leaves an empty cell for the second |
| Engine.ValidConfig | src/game-2048.ts:15 | definition: the configurations the model assumes `checkGameConfig` accepts, that is grid sizes in [2, 10] and a win number that is a power of two of at least 4, whenever given |
| Engine.Start | src/game-2048.ts:14-28 | the state the constructor leaves: a blank board seeded by two spawns, score 0 and both flags down; its contract gives the configured shape |
| Engine.Move | src/game-2048.ts:48-60 | makeMove on the state: the move fails, changing nothing, exactly when the game is already over; otherwise the flags are cleared and the board scanned, and only if a tile moved is a tile spawned and the end of the game checked |
| Engine.SpawnKeepsSpawnValues | src/game-2048.ts:241-259 | a spawn writes only a 2 or a 4, so a board of 0s, 2s and 4s stays one |
| Engine.StartCells | src/game-2048.ts:14-28 | the start board has no flags and holds only 0s, 2s and 4s |
| Engine.StartSpec | src/game-2048.ts:14-28 | after construction the board has the configured shape, no flags, only 0s, 2s and 4s, and exactly two tiles, whose values add up to the two drawn values; the score is 0 and both flags are down |
| Engine.MoveWhenOver | src/game-2048.ts:49-51 | a move after the game ended fails with the game-over error and changes nothing |
| Engine.MoveNothingMoved | src/game-2048.ts:53-57 | a move that shifts nothing spawns nothing and keeps every value, the score and the flags; it only clears the merge flags |
| Engine.MoveSpec | src/game-2048.ts:48-60 | a move that does not throw keeps the board's shape, never lowers the score or the win flag, keeps a win ending the game, and raises the board total by the spawned value when a tile moved onto a board with room left, and by nothing otherwise |
| Engine.MoveEndsGame | src/game-2048.ts:58-59 | after a move that shifted something, the player has won exactly when they had or a tile now equals the win number, and the game is over exactly when it is won or the board is full without equal neighbours |
| Engine.LossIsFinal | src/game-2048.ts:296-305 | when a move ends the game without a win, no direction would move a tile on any later move: a loss is never declared too early |
| Game.Game2048.constructor | src/game-2048.ts:14-28 | the sizes and win number are the configured ones or 4, 4, 2048, and the state is the start state built from the two spawns |
| Game.Game2048.CreateGrid | src/game-2048.ts:78-87 | the new array has rows × cols cells, each a new tile holding 0 |
| Game.Game2048.PopulateGrid | src/game-2048.ts:89-92 | the board becomes two successive spawns of the old board |
| Game.Game2048.Board | src/game-2048.ts:30-34 | the getter returns the matrix of values of the board |
| Game.Game2048.MakeMove | src/game-2048.ts:48-60 | the outcome and the new board, score and flags are exactly those of `Move` on the old state |
| Game.Game2048.HandlePlayerInput | src/game-2048.ts:62-76 | the chosen handler leaves the board, score and `tileMoved` of the scan in that direction |
| Game.Game2048.HandleDownMovement | src/game-2048.ts:94-125 | the loops leave the board, score and `tileMoved` of the DOWN scan of the old board |
| Game.Game2048.HandleUpMovement | src/game-2048.ts:127-158 | the loops leave the board, score and `tileMoved` of the UP scan of the old board |
| Game.Game2048.HandleLeftMovement | src/game-2048.ts:160-191 | the loops leave the board, score and `tileMoved` of the LEFT scan of the old board |
| Game.Game2048.HandleRightMovement | src/game-2048.ts:193-224 | the loops leave the board, score and `tileMoved` of the RIGHT scan of the old board |
| Game.Game2048.PushTile | src/game-2048.ts:99-120 | one source on the array: an empty cell is skipped, otherwise the tile is carried as `Scans.Push` says |
| Game.Game2048.AdvanceTile | src/game-2048.ts:103-120 | the innermost loop on the array ends in the state `Scans.Advance` gives |
| Game.Game2048.StepTile | src/game-2048.ts:104-118 | one turn of the innermost loop either moves or merges the tile and leaves the rest of the walk to the next cell, or stops with nothing changed |
| Game.Game2048.IsTileEmptyAt | src/game-2048.ts:226-228 | true exactly when the cell holds 0 |
| Game.Game2048.CanMergeTilesAt | src/game-2048.ts:230-239 | true exactly when the merge test of the two cells holds |
| Game.Game2048.MoveTile | src/game-2048.ts:261-268 | the array becomes the board `MoveCells` gives |
| Game.Game2048.MergeTile | src/game-2048.ts:270-279 | the array becomes the board `MergeCells` gives, and the score grows by the merged value |
| Game.Game2048.UnlockAllTiles | src/game-2048.ts:281-287 | every cell's flag is cleared and nothing else changes |
| Game.Game2048.EligibleTiles | src/game-2048.ts:242-250 | the collected list is exactly the row-major list of empty cells |
| Game.Game2048.AddNewTile | src/game-2048.ts:241-259 | the board becomes the spawn of the old board with the given draws |
| Game.Game2048.CheckIfPlayerWon | src/game-2048.ts:309-312 | true exactly when some tile equals the win number |
| Game.Game2048.AreMovesStillAvailable | src/game-2048.ts:296 | true exactly when some tile holds 0 |
| Game.Game2048.IsAnyValidMovesLeft | src/game-2048.ts:314-331 | true exactly when some cell equals the cell below it or to its right |
| Game.Game2048.CheckForGameFinished | src/game-2048.ts:289-307 | the flags become those `Finished` gives, and the result is true exactly when a tile equals the win number or the board is full without equal neighbours |
| Worked.MergeKeepsTravelling | src/game-2048.ts:94-125 | the column 2, 2, 4 pushed DOWN ends as 0, 0, 8 with 12 points: the merged 4 goes on to merge again |
| Worked.RowOfThreeTwos | src/game-2048.ts:193-224 | the row 2, 2, 2, 0 pushed RIGHT ends as 0, 0, 2, 4 with 4 points |
| Worked.FlagStaysOnCell | src/game-2048.ts:193-224 | the row 4, 4, 2, 2, 4, 0 pushed RIGHT ends as 0, 0, 0, 4, 4, 8 with 12 points: the flag left on an emptied cell stops a later merge into it |
| Worked.LossOnBlockedBoard | src/game-2048.ts:296-306 | the full board 4, 2 / 2, 8 without a win ends the game as a loss |
| Worked.WinBeforeBoardIsFull | src/game-2048.ts:290-295 | a tile equal to the win number wins even with empty cells left |

## Left out

- Randomness: `randomNumber` in `src/utils.ts` becomes the inputs `pick` and
  `coin`. The model holds for every choice of draws in range; it says nothing
  about their distribution.
- `checkGameConfig`: it is called at src/game-2048.ts:15, but its body is not
  part of this model. In its place the constructor requires `Engine.ValidConfig`.
  This is the model's assumption about what `checkGameConfig` accepts: rows and
  cols in [2, 10], and a win number that is a power of two of at least 4, each
  when given. The default 4 × 4 configuration and the 2 × 2 ones in
  tests/game-2048.ts lie inside these ranges. The errors `checkGameConfig` raises for a
  rejected configuration are not modelled.
- The `score`, `isGameOver` and `didPlayerWin` getters are the class's public
  fields, read directly.
- The thrown `Error` becomes the outcome `Fail(InvalidMoveGameIsOver)`. Its
  message is the constant `Types.GameIsOverMessage`.
- Numbers: JavaScript numbers are modelled as unbounded naturals. Floating-point
  precision loss above 2^53 is not modelled; a real game cannot reach it.
- Tile objects: the model stores each tile by value in its cell. The source
  never shares a `Tile` between cells, so no aliasing is lost.
- The value returned by `#checkForGameFinished` is ignored by `makeMove`. The
  method returns it, but `Move` does not.
- The tests in `tests/` are not modelled. The scenarios in `examples.dfy` are
  small boards of their own.
