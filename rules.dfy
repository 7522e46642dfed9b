/** Spawning a tile and deciding whether the game has ended
    (src/game-2048.ts:241-259, 289-331), as functions of the board. */
module Rules {
  import opened Tiles
  import opened Types
  import opened Grids

  predicate IsEmptyCell(g: Grid, p: (nat, nat)) {
    p.0 < |g| && p.1 < |g[p.0]| && IsTileEmpty(g[p.0][p.1])
  }

  /** Some tile of the board holds 0. */
  predicate HasEmptyCell(g: Grid) {
    exists r, c :: 0 <= r < |g| && 0 <= c < |g[r]| && g[r][c].value == 0
  }

  // ---------------------------------------------------------------------------
  // #addNewTile

  /** The empty cells among the first n cells of row r, left to right. */
  function EmptyInRow(g: Grid, r: nat, n: nat): seq<(nat, nat)>
    requires r < |g| && n <= |g[r]|
  {
    if n == 0 then []
    else EmptyInRow(g, r, n - 1) + (if IsTileEmpty(g[r][n - 1]) then [(r, n - 1)] else [])
  }

  /** The empty cells among the first n rows, in row-major order. */
  function EmptyInRows(g: Grid, n: nat): seq<(nat, nat)>
    requires n <= |g|
  {
    if n == 0 then [] else EmptyInRows(g, n - 1) + EmptyInRow(g, n - 1, |g[n - 1]|)
  }

  lemma {:induction false} EmptyInRowSpec(g: Grid, r: nat, n: nat)
    requires r < |g| && n <= |g[r]|
    ensures forall p :: p in EmptyInRow(g, r, n) <==> p.0 == r && p.1 < n && IsEmptyCell(g, p)
  {
    if n > 0 {
      EmptyInRowSpec(g, r, n - 1);
    }
  }

  lemma {:induction false} EmptyInRowsSpec(g: Grid, n: nat)
    requires n <= |g|
    ensures forall p :: p in EmptyInRows(g, n) <==> p.0 < n && IsEmptyCell(g, p)
  {
    if n > 0 {
      EmptyInRowsSpec(g, n - 1);
      EmptyInRowSpec(g, n - 1, |g[n - 1]|);
    }
  }

  /** `eligibleTiles`: every empty cell, in the order the two nested `forEach` visit
      them. */
  function EmptyCells(g: Grid): (e: seq<(nat, nat)>)
    ensures forall p :: p in e <==> IsEmptyCell(g, p)
  {
    EmptyInRowsSpec(g, |g|);
    EmptyInRows(g, |g|)
  }

  /** The list of eligible cells is empty exactly when the board is full. */
  lemma EmptyCellsWhenEmpty(g: Grid)
    ensures HasEmptyCell(g) <==> EmptyCells(g) != []
  {
    if HasEmptyCell(g) {
      var r, c :| 0 <= r < |g| && 0 <= c < |g[r]| && g[r][c].value == 0;
      assert (r, c) in EmptyCells(g);
    }
    if EmptyCells(g) != [] {
      assert EmptyCells(g)[0] in EmptyCells(g);
    }
  }

  /** The draw `randomNumber(0, n - 1)` for the index, given as a function of n. */
  ghost predicate PicksInRange(pick: nat -> nat) {
    forall n :: 0 < n ==> pick(n) < n
  }

  /** `randomNumber(0, 1) === 0 ? 2 : 4` */
  function SpawnValue(coin: nat): (v: nat)
    ensures v == 2 || v == 4
    ensures coin == 0 <==> v == 2
  {
    if coin == 0 then 2 else 4
  }

  /** #addNewTile with its two random draws supplied: nothing happens on a full
      board; otherwise the chosen empty cell gets the new value and keeps its flag. */
  function Spawn(g: Grid, pick: nat -> nat, coin: nat): (h: Grid)
    requires PicksInRange(pick)
    ensures |h| == |g| && forall r :: 0 <= r < |g| ==> |h[r]| == |g[r]|
  {
    var e := EmptyCells(g);
    if |e| == 0 then g
    else
      var p := e[pick(|e|)];
      assert p in e;
      SetCell(g, p.0, p.1, g[p.0][p.1].SetValue(SpawnValue(coin)))
  }

  /** h is g with only cell (r, c) changed, to value v with its flag kept. */
  predicate OnlyCellSet(g: Grid, h: Grid, r: nat, c: nat, v: nat)
    requires SameShape(g, h) && r < Rows(g) && c < Cols(g)
  {
    h[r][c] == Tile(v, g[r][c].wasMerged) &&
    forall r', c' :: 0 <= r' < |g| && 0 <= c' < |g[r']| && (r', c') != (r, c) ==> h[r'][c'] == g[r'][c']
  }

  /** A spawn keeps the board's shape. */
  lemma SpawnShape(g: Grid, pick: nat -> nat, coin: nat)
    requires IsGrid(g) && PicksInRange(pick)
    ensures SameShape(Spawn(g, pick, coin), g)
  {
  }

  /** With no empty cell a spawn changes nothing; otherwise exactly one cell that
      was empty now holds 2 or 4, with its flag as it was, and every other cell is
      unchanged. */
  lemma SpawnSpec(g: Grid, pick: nat -> nat, coin: nat)
    requires IsGrid(g) && PicksInRange(pick)
    ensures SameShape(Spawn(g, pick, coin), g)
    ensures !HasEmptyCell(g) ==> Spawn(g, pick, coin) == g
    ensures HasEmptyCell(g) ==>
      exists r, c :: 0 <= r < |g| && 0 <= c < |g[r]| && g[r][c].value == 0 &&
        OnlyCellSet(g, Spawn(g, pick, coin), r, c, SpawnValue(coin))
  {
    EmptyCellsWhenEmpty(g);
    var e := EmptyCells(g);
    if |e| > 0 {
      var p := e[pick(|e|)];
      assert p in e;
      assert IsEmptyCell(g, p);
      assert OnlyCellSet(g, Spawn(g, pick, coin), p.0, p.1, SpawnValue(coin));
    }
  }

  // ---------------------------------------------------------------------------
  // #checkForGameFinished

  /** #checkIfPlayerWon: some tile holds exactly the win number. */
  predicate HasWinningTile(g: Grid, win: nat) {
    exists r, c :: 0 <= r < |g| && 0 <= c < |g[r]| && g[r][c].value == win
  }

  /** Cell (r, c) equals the cell below it or the cell to its right. */
  predicate HasValidMoveAt(g: Grid, r: nat, c: nat)
    requires IsGrid(g) && r < Rows(g) && c < Cols(g)
  {
    (r < Rows(g) - 1 && g[r][c].value == g[r + 1][c].value) ||
    (c < Cols(g) - 1 && g[r][c].value == g[r][c + 1].value)
  }

  /** #isAnyValidMovesLeft: two neighbouring cells hold the same value. */
  predicate HasEqualNeighbours(g: Grid)
    requires IsGrid(g)
  {
    exists r: nat, c: nat :: r < Rows(g) && c < Cols(g) && HasValidMoveAt(g, r, c)
  }

  /** The two status flags of the engine. */
  datatype Status = Status(isGameOver: bool, didPlayerWin: bool)

  /** The flags after #checkForGameFinished. */
  function Finished(g: Grid, win: nat, st: Status): (r: Status)
    requires IsGrid(g)
    ensures st.isGameOver ==> r.isGameOver
    ensures st.didPlayerWin ==> r.didPlayerWin
    ensures r.didPlayerWin && !st.didPlayerWin ==> r.isGameOver
  {
    if HasWinningTile(g, win) then Status(true, true)
    else if HasEmptyCell(g) then st
    else if HasEqualNeighbours(g) then st
    else st.(isGameOver := true)
  }

  /** The game is over after the check exactly when it was already, or a tile
      reached the win number (even with empty cells left), or the board is full
      with no equal neighbours; the player has won exactly when they had already
      or a tile reached the win number. No flag is ever cleared, and a win always
      ends the game. */
  lemma FinishedSpec(g: Grid, win: nat, st: Status)
    requires IsGrid(g)
    ensures Finished(g, win, st).isGameOver <==>
      st.isGameOver || HasWinningTile(g, win) || (!HasEmptyCell(g) && !HasEqualNeighbours(g))
    ensures Finished(g, win, st).didPlayerWin <==> st.didPlayerWin || HasWinningTile(g, win)
    ensures HasWinningTile(g, win) ==> Finished(g, win, st) == Status(true, true)
    ensures (st.didPlayerWin ==> st.isGameOver) ==>
      (Finished(g, win, st).didPlayerWin ==> Finished(g, win, st).isGameOver)
  {
  }
}
