/** The `Game2048` rules engine (src/game-2048.ts): the board, the score and the
    two status flags, updated in place by `makeMove`. Each method is proved
    against the functions of Grids, Scans and Rules. */
module Game {
  import opened Tiles
  import opened Types
  import opened Grids
  import opened Scans
  import opened Rules
  import opened Engine

  class Game2048 {
    const rows: nat
    const cols: nat
    const numberToReachToWin: nat
    const grid: array2<Tile>
    var score: nat
    var isGameOver: bool
    var didPlayerWin: bool
    /** The board as a value, kept equal to the array cell by cell. */
    ghost var cells: Grid

    ghost predicate Valid()
      reads this, grid
    {
      1 < rows && 1 < cols && grid.Length0 == rows && grid.Length1 == cols &&
      IsGrid(cells) && Rows(cells) == rows && Cols(cells) == cols &&
      (forall r, c :: 0 <= r < rows && 0 <= c < cols ==> cells[r][c] == grid[r, c])
    }

    /** The board and the score a scan works on. */
    ghost function State(moved: bool): ScanState
      reads this
    {
      ScanState(cells, score, moved)
    }

    /** The engine's state as a value. */
    ghost function Snapshot(): GameState
      reads this
    {
      GameState(cells, score, Status(isGameOver, didPlayerWin))
    }

    /** The constructor: sizes and win number from the configuration or their
        defaults, a zero score, both flags down, a blank board (#createGrid)
        seeded with two tiles (#populateGrid). The configuration is taken to have
        passed the configuration check. */
    constructor (config: Option<GameConfig>, pick1: nat -> nat, coin1: nat, pick2: nat -> nat, coin2: nat)
      requires ValidConfig(config) && PicksInRange(pick1) && PicksInRange(pick2)
      ensures Valid() && fresh(grid)
      ensures rows == OrDefault(ConfigRows(config), 4) && cols == OrDefault(ConfigCols(config), 4)
      ensures numberToReachToWin == OrDefault(ConfigWin(config), 2048)
      ensures Snapshot() == Start(rows, cols, pick1, coin1, pick2, coin2)
    {
      score := 0;
      isGameOver := false;
      didPlayerWin := false;
      var c := OrDefault(ConfigCols(config), 4);
      var r := OrDefault(ConfigRows(config), 4);
      cols := c;
      rows := r;
      numberToReachToWin := OrDefault(ConfigWin(config), 2048);
      ConfigDefaults(config);
      var a := CreateGrid(r, c);
      grid := a;
      cells := BlankGrid(r, c);
      new;
      PopulateGrid(pick1, coin1, pick2, coin2);
    }

    /** #createGrid: a rows x cols board of new empty tiles. */
    static method CreateGrid(rows: nat, cols: nat) returns (a: array2<Tile>)
      ensures fresh(a) && a.Length0 == rows && a.Length1 == cols
      ensures forall r, c :: 0 <= r < rows && 0 <= c < cols ==> a[r, c] == NewTile(0)
    {
      a := new Tile[rows, cols];
      var row := 0;
      while row < rows
        invariant 0 <= row <= rows
        invariant forall r, c :: 0 <= r < row && 0 <= c < cols ==> a[r, c] == NewTile(0)
      {
        var col := 0;
        while col < cols
          invariant 0 <= col <= cols
          invariant forall r, c :: 0 <= r < row && 0 <= c < cols ==> a[r, c] == NewTile(0)
          invariant forall c :: 0 <= c < col ==> a[row, c] == NewTile(0)
        {
          a[row, col] := NewTile(0);
          col := col + 1;
        }
        row := row + 1;
      }
    }

    /** #populateGrid: two spawns. */
    method PopulateGrid(pick1: nat -> nat, coin1: nat, pick2: nat -> nat, coin2: nat)
      requires Valid() && PicksInRange(pick1) && PicksInRange(pick2)
      modifies grid, this`cells
      ensures Valid()
      ensures cells == Spawn(Spawn(old(cells), pick1, coin1), pick2, coin2)
    {
      AddNewTile(pick1, coin1);
      AddNewTile(pick2, coin2);
    }

    /** The `board` getter: the values of the cells, row by row. */
    function Board(): (b: seq<seq<nat>>)
      reads this, grid
      requires Valid()
      ensures b == Values(cells)
    {
      var b := seq(rows, r requires 0 <= r < rows reads grid =>
        seq(cols, c requires 0 <= c < cols reads grid => grid[r, c].value));
      assert forall r :: 0 <= r < rows ==> b[r] == Values(cells)[r];
      b
    }

    /** `makeMove(direction)`, with the draws of #addNewTile supplied: it throws
        when the game is over; otherwise it clears the merge flags and scans the
        board, and only when a tile moved spawns a tile and checks for the end of
        the game. */
    method MakeMove(direction: Direction, pick: nat -> nat, coin: nat) returns (outcome: Outcome)
      requires Valid() && PicksInRange(pick)
      modifies grid, this`cells, this`score, this`isGameOver, this`didPlayerWin
      ensures Valid()
      ensures (outcome, Snapshot()) == Move(old(Snapshot()), direction, numberToReachToWin, pick, coin)
    {
      if isGameOver {
        return Fail(InvalidMoveGameIsOver);
      }
      UnlockAllTiles();
      var tileMoved := HandlePlayerInput(direction);
      if !tileMoved {
        return Done;
      }
      AddNewTile(pick, coin);
      var _ := CheckForGameFinished();
      return Done;
    }

    /** #isTileEmpty */
    function IsTileEmptyAt(row: nat, col: nat): (b: bool)
      reads this, grid
      requires Valid() && row < rows && col < cols
      ensures b <==> cells[row][col].value == 0
    {
      IsTileEmpty(grid[row, col])
    }

    /** #canMergeTiles */
    function CanMergeTilesAt(row: nat, col: nat, toRow: nat, toCol: nat): (b: bool)
      reads this, grid
      requires Valid() && row < rows && col < cols && toRow < rows && toCol < cols
      ensures b <==> CanMergeTiles(cells[row][col], cells[toRow][toCol])
    {
      CanMergeTiles(grid[row, col], grid[toRow, toCol])
    }

    /** #moveTile: the target cell takes the source's value and the source becomes
        empty; both cells keep their flags and the score is untouched. */
    method MoveTile(row: nat, col: nat, toRow: nat, toCol: nat)
      requires Valid() && row < rows && col < cols && toRow < rows && toCol < cols
      requires row != toRow || col != toCol
      modifies grid, this`cells
      ensures Valid()
      ensures cells == MoveCells(old(cells), row, col, toRow, toCol)
    {
      grid[toRow, toCol] := grid[toRow, toCol].SetValue(grid[row, col].value);
      grid[row, col] := grid[row, col].SetValue(0);
      cells := MoveCells(cells, row, col, toRow, toCol);
    }

    /** #mergeTile: the target cell holds the sum and is flagged, the source becomes
        empty and keeps its flag, and the score grows by the new target value. */
    method MergeTile(row: nat, col: nat, toRow: nat, toCol: nat)
      requires Valid() && row < rows && col < cols && toRow < rows && toCol < cols
      requires row != toRow || col != toCol
      modifies grid, this`cells, this`score
      ensures Valid()
      ensures cells == MergeCells(old(cells), row, col, toRow, toCol)
      ensures score == old(score) + cells[toRow][toCol].value
    {
      grid[toRow, toCol] := grid[toRow, toCol].SetValue(grid[toRow, toCol].value + grid[row, col].value);
      grid[row, col] := grid[row, col].SetValue(0);
      grid[toRow, toCol] := grid[toRow, toCol].SetWasMerged(true);
      score := score + grid[toRow, toCol].value;
      cells := MergeCells(cells, row, col, toRow, toCol);
    }

    /** One turn of the innermost loop of a scan: the tile at (r, c) moves into the
        next cell (toRow, toCol) when it is empty, merges into it when it can, and
        otherwise the loop ends (`go` false). */
    method StepTile(d: Direction, r: nat, c: nat, toRow: nat, toCol: nat, tileMoved: bool)
      returns (go: bool, nowMoved: bool)
      requires Valid() && r < rows && c < cols && toRow < rows && toCol < cols
      requires (toRow, toCol) == Next(d, r, c)
      modifies grid, this`cells, this`score
      ensures Valid()
      ensures go ==> Advance(d, old(State(tileMoved)), r, c) == Advance(d, State(nowMoved), toRow, toCol)
      ensures !go ==> Advance(d, old(State(tileMoved)), r, c) == old(State(tileMoved)) == State(nowMoved)
    {
      ghost var s := State(tileMoved);
      nowMoved := tileMoved;
      var canMove := IsTileEmptyAt(toRow, toCol);
      var canMerge := CanMergeTilesAt(r, c, toRow, toCol);
      if !canMove && !canMerge {
        AdvanceStops(d, s, r, c);
        return false, nowMoved;
      }
      if canMove {
        AdvanceMoves(d, s, r, c, toRow, toCol);
        MoveTile(r, c, toRow, toCol);
      } else {
        AdvanceMerges(d, s, r, c, toRow, toCol);
        MergeTile(r, c, toRow, toCol);
      }
      return true, true;
    }

    /** The innermost loop of every #handleXMovement: the tile at (row, col) is pushed
        towards the edge a cell at a time, moving into empty cells and merging into
        equal unflagged ones, until it reaches the edge or a cell it can do neither
        with. A merge does not end the loop. */
    method AdvanceTile(d: Direction, row: nat, col: nat, tileMoved: bool) returns (nowMoved: bool)
      requires Valid() && row < rows && col < cols
      modifies grid, this`cells, this`score
      ensures Valid()
      ensures State(nowMoved) == Advance(d, old(State(tileMoved)), row, col)
    {
      ghost var target := Advance(d, State(tileMoved), row, col);
      nowMoved := tileMoved;
      var r: nat, c: nat := row, col;
      var toRow: int, toCol: int := Next(d, r, c).0, Next(d, r, c).1;
      while 0 <= toRow < rows && 0 <= toCol < cols
        invariant Valid() && r < rows && c < cols && (toRow, toCol) == Next(d, r, c)
        invariant Advance(d, State(nowMoved), r, c) == target
        decreases Distance(d, cells, r, c)
      {
        NextSpec(d, cells, r, c);
        var go;
        go, nowMoved := StepTile(d, r, c, toRow, toCol, nowMoved);
        if !go {
          break;
        }
        r, c := toRow, toCol;
        toRow, toCol := Next(d, r, c).0, Next(d, r, c).1;
      }
      if 0 <= toRow < rows && 0 <= toCol < cols {
      } else {
        AdvanceStops(d, State(nowMoved), r, c);
      }
    }

    /** The body of the two outer loops of every #handleXMovement: an empty cell is
        skipped, a tile is advanced. */
    method PushTile(d: Direction, row: nat, col: nat, tileMoved: bool) returns (nowMoved: bool)
      requires Valid() && row < rows && col < cols
      modifies grid, this`cells, this`score
      ensures Valid()
      ensures State(nowMoved) == Push(d, old(State(tileMoved)), row, col)
    {
      nowMoved := tileMoved;
      if IsTileEmptyAt(row, col) {
        return;
      }
      nowMoved := AdvanceTile(d, row, col, tileMoved);
    }

    /** #handleDownMovement: sources by row from rows - 2 up to 0, each row from the
        last column to the first. */
    method HandleDownMovement() returns (tileMoved: bool)
      requires Valid()
      modifies grid, this`cells, this`score
      ensures Valid()
      ensures State(tileMoved) == Scan(Down, old(cells), old(score))
    {
      ghost var s0 := State(false);
      tileMoved := false;
      var row: int := rows - 2;
      while row >= 0
        invariant -1 <= row <= rows - 2 && Valid()
        invariant State(tileMoved) == Progress(Down, s0, rows - 2 - row, 0)
      {
        var col: int := cols - 1;
        while col >= 0
          invariant -1 <= col <= cols - 1 && Valid()
          invariant State(tileMoved) == Progress(Down, s0, rows - 2 - row, cols - 1 - col)
        {
          tileMoved := PushTile(Down, row, col, tileMoved);
          col := col - 1;
        }
        row := row - 1;
      }
    }

    /** #handleUpMovement: sources by row from 1 down to rows - 1, each row from the
        last column to the first. */
    method HandleUpMovement() returns (tileMoved: bool)
      requires Valid()
      modifies grid, this`cells, this`score
      ensures Valid()
      ensures State(tileMoved) == Scan(Up, old(cells), old(score))
    {
      ghost var s0 := State(false);
      tileMoved := false;
      var row := 1;
      while row < rows
        invariant 1 <= row <= rows && Valid()
        invariant State(tileMoved) == Progress(Up, s0, row - 1, 0)
      {
        var col: int := cols - 1;
        while col >= 0
          invariant -1 <= col <= cols - 1 && Valid()
          invariant State(tileMoved) == Progress(Up, s0, row - 1, cols - 1 - col)
        {
          tileMoved := PushTile(Up, row, col, tileMoved);
          col := col - 1;
        }
        row := row + 1;
      }
    }

    /** #handleLeftMovement: sources by column from 1 to cols - 1, each column from
        the last row to the first. */
    method HandleLeftMovement() returns (tileMoved: bool)
      requires Valid()
      modifies grid, this`cells, this`score
      ensures Valid()
      ensures State(tileMoved) == Scan(Left, old(cells), old(score))
    {
      ghost var s0 := State(false);
      tileMoved := false;
      var col := 1;
      while col < cols
        invariant 1 <= col <= cols && Valid()
        invariant State(tileMoved) == Progress(Left, s0, col - 1, 0)
      {
        var row: int := rows - 1;
        while row >= 0
          invariant -1 <= row <= rows - 1 && Valid()
          invariant State(tileMoved) == Progress(Left, s0, col - 1, rows - 1 - row)
        {
          tileMoved := PushTile(Left, row, col, tileMoved);
          row := row - 1;
        }
        col := col + 1;
      }
    }

    /** #handleRightMovement: sources by column from cols - 2 down to 0, each column
        from the last row to the first. */
    method HandleRightMovement() returns (tileMoved: bool)
      requires Valid()
      modifies grid, this`cells, this`score
      ensures Valid()
      ensures State(tileMoved) == Scan(Right, old(cells), old(score))
    {
      ghost var s0 := State(false);
      tileMoved := false;
      var col: int := cols - 2;
      while col >= 0
        invariant -1 <= col <= cols - 2 && Valid()
        invariant State(tileMoved) == Progress(Right, s0, cols - 2 - col, 0)
      {
        var row: int := rows - 1;
        while row >= 0
          invariant -1 <= row <= rows - 1 && Valid()
          invariant State(tileMoved) == Progress(Right, s0, cols - 2 - col, rows - 1 - row)
        {
          tileMoved := PushTile(Right, row, col, tileMoved);
          row := row - 1;
        }
        col := col - 1;
      }
    }

    /** #handlePlayerInput: the scan for the direction pressed. */
    method HandlePlayerInput(direction: Direction) returns (tileMoved: bool)
      requires Valid()
      modifies grid, this`cells, this`score
      ensures Valid()
      ensures State(tileMoved) == Scan(direction, old(cells), old(score))
    {
      match direction
      case Down => tileMoved := HandleDownMovement();
      case Up => tileMoved := HandleUpMovement();
      case Left => tileMoved := HandleLeftMovement();
      case Right => tileMoved := HandleRightMovement();
    }

    /** #unlockAllTiles: every merge flag cleared, row by row. */
    method UnlockAllTiles()
      requires Valid()
      modifies grid, this`cells
      ensures Valid()
      ensures cells == Unlocked(old(cells))
    {
      ghost var g0: Grid := cells;
      var row := 0;
      while row < rows
        invariant 0 <= row <= rows && Valid()
        invariant forall r, c :: 0 <= r < rows && 0 <= c < cols ==>
          cells[r][c] == if r < row then g0[r][c].SetWasMerged(false) else g0[r][c]
      {
        var col := 0;
        while col < cols
          invariant 0 <= col <= cols && Valid()
          invariant forall r, c :: 0 <= r < rows && 0 <= c < cols ==>
            cells[r][c] == if r < row || (r == row && c < col) then g0[r][c].SetWasMerged(false) else g0[r][c]
        {
          grid[row, col] := grid[row, col].SetWasMerged(false);
          cells := SetCell(cells, row, col, cells[row][col].SetWasMerged(false));
          col := col + 1;
        }
        row := row + 1;
      }
      assert forall r :: 0 <= r < rows ==> cells[r] == Unlocked(g0)[r];
    }

    /** `eligibleTiles` of #addNewTile: the empty cells, row by row. */
    method EligibleTiles() returns (eligibleTiles: seq<(nat, nat)>)
      requires Valid()
      ensures eligibleTiles == EmptyCells(cells)
    {
      eligibleTiles := [];
      var row := 0;
      while row < rows
        invariant 0 <= row <= rows && eligibleTiles == EmptyInRows(cells, row)
      {
        var col := 0;
        while col < cols
          invariant 0 <= col <= cols
          invariant eligibleTiles == EmptyInRows(cells, row) + EmptyInRow(cells, row, col)
        {
          if grid[row, col].value == 0 {
            eligibleTiles := eligibleTiles + [(row, col)];
          }
          col := col + 1;
        }
        row := row + 1;
      }
    }

    /** #addNewTile: on a full board nothing happens, otherwise the drawn empty
        cell gets a 2 or a 4. */
    method AddNewTile(pick: nat -> nat, coin: nat)
      requires Valid() && PicksInRange(pick)
      modifies grid, this`cells
      ensures Valid()
      ensures cells == Spawn(old(cells), pick, coin)
    {
      var eligibleTiles := EligibleTiles();
      if |eligibleTiles| == 0 {
        return;
      }
      var randomTileIndex := pick(|eligibleTiles|);
      var randomValue := if coin == 0 then 2 else 4;
      var p := eligibleTiles[randomTileIndex];
      assert p in EmptyCells(cells);
      grid[p.0, p.1] := grid[p.0, p.1].SetValue(randomValue);
      cells := SetCell(cells, p.0, p.1, cells[p.0][p.1].SetValue(randomValue));
    }

    /** #checkIfPlayerWon: some tile holds exactly the win number. */
    method CheckIfPlayerWon() returns (won: bool)
      requires Valid()
      ensures won == HasWinningTile(cells, numberToReachToWin)
    {
      var row := 0;
      while row < rows
        invariant 0 <= row <= rows
        invariant forall r, c :: 0 <= r < row && 0 <= c < cols ==> cells[r][c].value != numberToReachToWin
      {
        var col := 0;
        while col < cols
          invariant 0 <= col <= cols
          invariant forall r, c :: 0 <= r < row && 0 <= c < cols ==> cells[r][c].value != numberToReachToWin
          invariant forall c :: 0 <= c < col ==> cells[row][c].value != numberToReachToWin
        {
          if grid[row, col].value == numberToReachToWin {
            return true;
          }
          col := col + 1;
        }
        row := row + 1;
      }
      return false;
    }

    /** The `some` test for an empty cell in #checkForGameFinished. */
    method AreMovesStillAvailable() returns (available: bool)
      requires Valid()
      ensures available == HasEmptyCell(cells)
    {
      var row := 0;
      while row < rows
        invariant 0 <= row <= rows
        invariant forall r, c :: 0 <= r < row && 0 <= c < cols ==> cells[r][c].value != 0
      {
        var col := 0;
        while col < cols
          invariant 0 <= col <= cols
          invariant forall r, c :: 0 <= r < row && 0 <= c < cols ==> cells[r][c].value != 0
          invariant forall c :: 0 <= c < col ==> cells[row][c].value != 0
        {
          if grid[row, col].value == 0 {
            return true;
          }
          col := col + 1;
        }
        row := row + 1;
      }
      return false;
    }

    /** #isAnyValidMovesLeft: some cell equals the cell below it or the cell to
        its right. */
    method IsAnyValidMovesLeft() returns (left: bool)
      requires Valid()
      ensures left == HasEqualNeighbours(cells)
    {
      var row := 0;
      while row < rows
        invariant 0 <= row <= rows
        invariant forall r: nat, c: nat :: r < row && c < cols ==> !HasValidMoveAt(cells, r, c)
      {
        var col := 0;
        while col < cols
          invariant 0 <= col <= cols
          invariant forall r: nat, c: nat :: r < row && c < cols ==> !HasValidMoveAt(cells, r, c)
          invariant forall c: nat :: c < col ==> !HasValidMoveAt(cells, row, c)
        {
          if row < rows - 1 && grid[row, col].value == grid[row + 1, col].value {
            assert HasValidMoveAt(cells, row, col);
            return true;
          }
          if col < cols - 1 && grid[row, col].value == grid[row, col + 1].value {
            assert HasValidMoveAt(cells, row, col);
            return true;
          }
          col := col + 1;
        }
        row := row + 1;
      }
      return false;
    }

    /** #checkForGameFinished: a tile at the win number wins and ends the game;
        otherwise a full board with no equal neighbours ends it; the result says
        whether the game ended here. */
    method CheckForGameFinished() returns (finished: bool)
      requires Valid()
      modifies this`isGameOver, this`didPlayerWin
      ensures Status(isGameOver, didPlayerWin) ==
        Finished(cells, numberToReachToWin, old(Status(isGameOver, didPlayerWin)))
      ensures finished <==> HasWinningTile(cells, numberToReachToWin) || (!HasEmptyCell(cells) && !HasEqualNeighbours(cells))
    {
      var playerWon := CheckIfPlayerWon();
      if playerWon {
        didPlayerWin := true;
        isGameOver := true;
        return true;
      }
      var areMovesStillAvailable := AreMovesStillAvailable();
      if areMovesStillAvailable {
        return false;
      }
      var areAnyValidMovesLeft := IsAnyValidMovesLeft();
      if areAnyValidMovesLeft {
        return false;
      }
      isGameOver := true;
      return true;
    }
  }
}
