/** The engine's whole state and what `makeMove` and the constructor do to it
    (src/game-2048.ts:14-28, 48-60), as functions; the class in module Game is
    proved to follow them. */
module Engine {
  import opened Tiles
  import opened Types
  import opened Grids
  import opened Scans
  import opened Rules
  import opened Sums
  import opened Stuck

  // ---------------------------------------------------------------------------
  // Configuration

  /** The optional configuration record the constructor takes. */
  datatype GameConfig = GameConfig(rows: Option<nat>, cols: Option<nat>, numberToReachToWin: Option<nat>)

  /** `config?.field || default`: a missing field, or a 0, falls back to the default. */
  function OrDefault(field: Option<nat>, default: nat): (v: nat)
    ensures field.Some? && field.value != 0 ==> v == field.value
    ensures (field.None? || field.value == 0) ==> v == default
  {
    if field.Some? && field.value != 0 then field.value else default
  }

  function ConfigRows(config: Option<GameConfig>): Option<nat> {
    if config.Some? then config.value.rows else None
  }

  function ConfigCols(config: Option<GameConfig>): Option<nat> {
    if config.Some? then config.value.cols else None
  }

  function ConfigWin(config: Option<GameConfig>): Option<nat> {
    if config.Some? then config.value.numberToReachToWin else None
  }

  predicate IsPowerOfTwo(n: nat)
    decreases n
  {
    n == 1 || (n > 1 && n % 2 == 0 && IsPowerOfTwo(n / 2))
  }

  /** The configurations the model assumes `checkGameConfig` lets through (its
      body is not part of this model): a grid size in [2, 10] and a win number
      that is a power of two of at least 4, whenever they are given. */
  predicate ValidConfig(config: Option<GameConfig>) {
    (ConfigRows(config).Some? ==> 2 <= ConfigRows(config).value <= 10) &&
    (ConfigCols(config).Some? ==> 2 <= ConfigCols(config).value <= 10) &&
    (ConfigWin(config).Some? ==> 4 <= ConfigWin(config).value && IsPowerOfTwo(ConfigWin(config).value))
  }

  /** The sizes and the win number the constructor settles on. */
  lemma ConfigDefaults(config: Option<GameConfig>)
    requires ValidConfig(config)
    ensures 2 <= OrDefault(ConfigRows(config), 4) <= 10
    ensures 2 <= OrDefault(ConfigCols(config), 4) <= 10
    ensures OrDefault(ConfigWin(config), 2048) >= 4 && IsPowerOfTwo(OrDefault(ConfigWin(config), 2048))
    ensures config.None? ==>
      OrDefault(ConfigRows(config), 4) == 4 && OrDefault(ConfigCols(config), 4) == 4 &&
      OrDefault(ConfigWin(config), 2048) == 2048
  {
  }

  /** #createGrid: every cell a new Tile(0). */
  function BlankGrid(rows: nat, cols: nat): (g: Grid)
    ensures |g| == rows && forall r :: 0 <= r < rows ==> |g[r]| == cols
    ensures forall r, c :: 0 <= r < rows && 0 <= c < cols ==> g[r][c] == NewTile(0)
  {
    seq(rows, r => seq(cols, c => NewTile(0)))
  }

  // ---------------------------------------------------------------------------
  // The engine's state

  /** The board, the score and the two flags. */
  datatype GameState = GameState(grid: Grid, score: nat, status: Status)

  /** A win always ends the game. */
  predicate Consistent(st: Status) {
    st.didPlayerWin ==> st.isGameOver
  }

  /** The state the constructor leaves: a blank board seeded by two spawns
      (#populateGrid), a zero score and both flags down. */
  function Start(rows: nat, cols: nat, pick1: nat -> nat, coin1: nat, pick2: nat -> nat, coin2: nat): (s: GameState)
    requires PicksInRange(pick1) && PicksInRange(pick2)
    ensures IsGrid(s.grid) && Rows(s.grid) == rows && (rows > 0 ==> Cols(s.grid) == cols)
  {
    var g0: Grid := BlankGrid(rows, cols);
    SpawnShape(g0, pick1, coin1);
    var g1: Grid := Spawn(g0, pick1, coin1);
    SpawnShape(g1, pick2, coin2);
    GameState(Spawn(g1, pick2, coin2), 0, Status(false, false))
  }

  /** `makeMove(direction)`, with the two draws of #addNewTile supplied: a move
      after the game ended fails and changes nothing; otherwise the flags are
      cleared and the board scanned, and only if a tile moved is a tile spawned
      and the end of the game checked. */
  function Move(s: GameState, d: Direction, win: nat, pick: nat -> nat, coin: nat): (r: (Outcome, GameState))
    requires IsGrid(s.grid) && PicksInRange(pick)
    ensures r.0.Fail? <==> s.status.isGameOver
    ensures r.0.Fail? ==> r.1 == s
  {
    if s.status.isGameOver then (Fail(InvalidMoveGameIsOver), s)
    else
      var t := Scan(d, Unlocked(s.grid), s.score);
      if !t.moved then (Done, GameState(t.grid, t.score, s.status))
      else
        var g := Spawn(t.grid, pick, coin);
        (Done, GameState(g, t.score, Finished(g, win, s.status)))
  }

  // ---------------------------------------------------------------------------
  // What construction and a move promise

  /** A spawn leaves every flag where it was. */
  lemma SpawnKeepsNoFlags(g: Grid, pick: nat -> nat, coin: nat)
    requires IsGrid(g) && PicksInRange(pick) && NoFlags(g)
    ensures NoFlags(Spawn(g, pick, coin))
  {
    SpawnSpec(g, pick, coin);
    if HasEmptyCell(g) {
      var h: Grid := Spawn(g, pick, coin);
      var r, c :| InGrid(g, r, c) && g[r][c].value == 0 && OnlyCellSet(g, h, r, c, SpawnValue(coin));
      forall i, j | InGrid(h, i, j) ensures !h[i][j].wasMerged {
        assert InGrid(g, i, j);
      }
    }
  }

  /** Every cell holds 0, 2 or 4. */
  ghost predicate OnlySpawnValues(g: Grid) {
    forall r, c :: InGrid(g, r, c) ==> g[r][c].value == 0 || g[r][c].value == 2 || g[r][c].value == 4
  }

  /** A spawn writes only 2 or 4, so a board of 0s, 2s and 4s stays one. */
  lemma SpawnKeepsSpawnValues(g: Grid, pick: nat -> nat, coin: nat)
    requires IsGrid(g) && PicksInRange(pick) && OnlySpawnValues(g)
    ensures OnlySpawnValues(Spawn(g, pick, coin))
  {
    SpawnSpec(g, pick, coin);
    if HasEmptyCell(g) {
      var h: Grid := Spawn(g, pick, coin);
      var r, c :| InGrid(g, r, c) && g[r][c].value == 0 && OnlyCellSet(g, h, r, c, SpawnValue(coin));
      forall i, j | InGrid(h, i, j) ensures h[i][j].value == 0 || h[i][j].value == 2 || h[i][j].value == 4 {
        assert InGrid(g, i, j);
      }
    }
  }

  /** On a blank board of at least two cells, the first spawn leaves room for the
      second. */
  lemma FirstSpawnLeavesRoom(rows: nat, cols: nat, pick: nat -> nat, coin: nat)
    requires 2 <= rows && 2 <= cols && PicksInRange(pick)
    ensures IsGrid(Spawn(BlankGrid(rows, cols), pick, coin))
    ensures HasEmptyCell(BlankGrid(rows, cols)) && HasEmptyCell(Spawn(BlankGrid(rows, cols), pick, coin))
  {
    var g0: Grid := BlankGrid(rows, cols);
    assert g0[0][0].value == 0;
    SpawnSpec(g0, pick, coin);
    var g1: Grid := Spawn(g0, pick, coin);
    var r, c :| InGrid(g0, r, c) && g0[r][c].value == 0 && OnlyCellSet(g0, g1, r, c, SpawnValue(coin));
    var r' := if r == 0 then 1 else 0;
    assert g1[r'][0].value == 0;
  }

  /** After construction the board has the configured shape, no flags, exactly
      two tiles, each 2 or 4, the score is 0 and the game is neither won nor
      over. */
  lemma StartSpec(rows: nat, cols: nat, pick1: nat -> nat, coin1: nat, pick2: nat -> nat, coin2: nat)
    requires 2 <= rows && 2 <= cols && PicksInRange(pick1) && PicksInRange(pick2)
    ensures var s := Start(rows, cols, pick1, coin1, pick2, coin2);
      IsGrid(s.grid) && Rows(s.grid) == rows && Cols(s.grid) == cols &&
      NoFlags(s.grid) && OnlySpawnValues(s.grid) && Total(s.grid, Occupied) == 2 &&
      Total(s.grid, Value) == SpawnValue(coin1) + SpawnValue(coin2) &&
      s.score == 0 && s.status == Status(false, false)
  {
    var g0: Grid := BlankGrid(rows, cols);
    var g1: Grid := Spawn(g0, pick1, coin1);
    EmptyBoardTotals(g0);
    FirstSpawnLeavesRoom(rows, cols, pick1, coin1);
    SpawnShape(g0, pick1, coin1);
    SpawnTotals(g0, pick1, coin1);
    SpawnShape(g1, pick2, coin2);
    SpawnTotals(g1, pick2, coin2);
    StartCells(rows, cols, pick1, coin1, pick2, coin2);
  }

  /** The cells of the start board: no flags, and only 0s, 2s and 4s. */
  lemma StartCells(rows: nat, cols: nat, pick1: nat -> nat, coin1: nat, pick2: nat -> nat, coin2: nat)
    requires PicksInRange(pick1) && PicksInRange(pick2)
    ensures NoFlags(Start(rows, cols, pick1, coin1, pick2, coin2).grid)
    ensures OnlySpawnValues(Start(rows, cols, pick1, coin1, pick2, coin2).grid)
  {
    var g0: Grid := BlankGrid(rows, cols);
    var g1: Grid := Spawn(g0, pick1, coin1);
    SpawnShape(g0, pick1, coin1);
    SpawnKeepsNoFlags(g0, pick1, coin1);
    SpawnKeepsNoFlags(g1, pick2, coin2);
    SpawnKeepsSpawnValues(g0, pick1, coin1);
    SpawnKeepsSpawnValues(g1, pick2, coin2);
  }

  /** A move after the game ended throws and leaves everything as it was. */
  lemma MoveWhenOver(s: GameState, d: Direction, win: nat, pick: nat -> nat, coin: nat)
    requires IsGrid(s.grid) && PicksInRange(pick) && s.status.isGameOver
    ensures Move(s, d, win, pick, coin) == (Fail(InvalidMoveGameIsOver), s)
  {
  }

  /** A move that shifts nothing spawns nothing and keeps the values, the score and
      the flags; it still clears every merge flag. */
  lemma MoveNothingMoved(s: GameState, d: Direction, win: nat, pick: nat -> nat, coin: nat)
    requires IsGrid(s.grid) && PicksInRange(pick) && !s.status.isGameOver
    requires !Scan(d, Unlocked(s.grid), s.score).moved
    ensures var (o, s') := Move(s, d, win, pick, coin);
      o == Done && s'.grid == Unlocked(s.grid) && Values(s'.grid) == Values(s.grid) &&
      s'.score == s.score && s'.status == s.status
  {
    ScanUnmoved(d, Unlocked(s.grid), s.score);
    UnlockedSpec(s.grid);
  }

  /** Every move that does not throw keeps the board's shape, never lowers the
      score, never lowers a flag, keeps a win ending the game, and adds to the
      total of the values exactly the spawned tile. The lines the move pushes
      along keep their totals until the spawn. */
  lemma MoveSpec(s: GameState, d: Direction, win: nat, pick: nat -> nat, coin: nat)
    requires IsGrid(s.grid) && PicksInRange(pick) && !s.status.isGameOver
    ensures var (o, s') := Move(s, d, win, pick, coin);
      var t := Scan(d, Unlocked(s.grid), s.score);
      o == Done && SameShape(s'.grid, s.grid) && s'.score >= s.score &&
      (s.status.didPlayerWin ==> s'.status.didPlayerWin) &&
      (Consistent(s.status) ==> Consistent(s'.status)) &&
      Total(s'.grid, Value) ==
        Total(s.grid, Value) + (if t.moved && HasEmptyCell(t.grid) then SpawnValue(coin) else 0)
  {
    var u := Unlocked(s.grid);
    UnlockedSpec(s.grid);
    UnlockedTotals(s.grid);
    ScanUnmoved(d, u, s.score);
    ScanKeepsTotals(d, u, s.score);
    var t := Scan(d, u, s.score);
    if t.moved {
      SpawnSpec(t.grid, pick, coin);
      SpawnTotals(t.grid, pick, coin);
      FinishedSpec(Spawn(t.grid, pick, coin), win, s.status);
    }
  }

  /** After a move that shifted something, the game is won exactly when it was or
      a tile now holds the win number, and over exactly when it is won or the board
      is full with no two equal neighbours. */
  lemma MoveEndsGame(s: GameState, d: Direction, win: nat, pick: nat -> nat, coin: nat)
    requires IsGrid(s.grid) && PicksInRange(pick) && !s.status.isGameOver
    requires Scan(d, Unlocked(s.grid), s.score).moved
    ensures var (_, s') := Move(s, d, win, pick, coin);
      IsGrid(s'.grid) &&
      (s'.status.didPlayerWin <==> s.status.didPlayerWin || HasWinningTile(s'.grid, win)) &&
      (s'.status.isGameOver <==> HasWinningTile(s'.grid, win) || Blocked(s'.grid))
  {
    var t := Scan(d, Unlocked(s.grid), s.score);
    UnlockedSpec(s.grid);
    SpawnSpec(t.grid, pick, coin);
    FinishedSpec(Spawn(t.grid, pick, coin), win, s.status);
  }

  /** When a move ends the game without a win, no direction would move a tile on
      the following move: the loss is never declared too early, and the test on
      neighbours is exactly the test the scans would make. */
  lemma LossIsFinal(s: GameState, d: Direction, win: nat, pick: nat -> nat, coin: nat)
    requires IsGrid(s.grid) && PicksInRange(pick) && !s.status.isGameOver
    requires var (_, s') := Move(s, d, win, pick, coin);
      s'.status.isGameOver && !s'.status.didPlayerWin
    ensures var (_, s') := Move(s, d, win, pick, coin);
      IsGrid(s'.grid) && forall d' :: !Scan(d', Unlocked(s'.grid), s'.score).moved
  {
    var s' := Move(s, d, win, pick, coin).1;
    UnlockedSpec(s.grid);
    ScanUnmoved(d, Unlocked(s.grid), s.score);
    MoveEndsGame(s, d, win, pick, coin);
    ValidMovesIffSomeScanMoves(s'.grid, s'.score);
  }
}
