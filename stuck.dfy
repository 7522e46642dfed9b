/** Why the loss test of #checkForGameFinished (src/game-2048.ts:296-305, 314-331)
    is right: on a full board, #isAnyValidMovesLeft finds two equal neighbours
    exactly when some direction would still move a tile on the next move. */
module Stuck {
  import opened Tiles
  import opened Types
  import opened Grids
  import opened Scans
  import opened Rules

  /** Every cell holds a tile and no two neighbours are equal. */
  predicate Blocked(g: Grid)
    requires IsGrid(g)
  {
    !HasEmptyCell(g) && !HasEqualNeighbours(g)
  }

  /** On a blocked board a tile cannot take a single step in any direction: the
      next cell holds a different value. */
  lemma BlockedNeighbour(d: Direction, g: Grid, r: nat, c: nat)
    requires IsGrid(g) && Blocked(g) && InGrid(g, r, c)
    requires InGrid(g, Next(d, r, c).0, Next(d, r, c).1)
    ensures var (tr, tc) := Next(d, r, c);
      !IsTileEmpty(g[tr][tc]) && !CanMergeTiles(g[r][c], g[tr][tc])
  {
    var (tr, tc) := Next(d, r, c);
    assert g[tr][tc].value != 0;
    match d
    case Down => assert !HasValidMoveAt(g, r, c);
    case Up => assert !HasValidMoveAt(g, tr, tc);
    case Left => assert !HasValidMoveAt(g, tr, tc);
    case Right => assert !HasValidMoveAt(g, r, c);
  }

  /** On a blocked board every part of a scan leaves the state exactly as it was. */
  lemma {:induction false} BlockedProgress(d: Direction, s: ScanState, k: nat, j: nat)
    requires IsGrid(s.grid) && Blocked(s.grid) && k <= OuterCount(d, Rows(s.grid), Cols(s.grid))
    requires j <= InnerCount(d, Rows(s.grid), Cols(s.grid))
    requires k == OuterCount(d, Rows(s.grid), Cols(s.grid)) ==> j == 0
    ensures Progress(d, s, k, j) == s
    decreases k, j
  {
    if j > 0 {
      BlockedProgress(d, s, k, j - 1);
      var p := SourceAt(d, Rows(s.grid), Cols(s.grid), k, j - 1);
      if InGrid(s.grid, Next(d, p.0, p.1).0, Next(d, p.0, p.1).1) {
        BlockedNeighbour(d, s.grid, p.0, p.1);
      }
      AdvanceStops(d, s, p.0, p.1);
    } else if k > 0 {
      BlockedProgress(d, s, k - 1, InnerCount(d, Rows(s.grid), Cols(s.grid)));
    }
  }

  /** A blocked board is left exactly as it is, flags included, by a scan in any
      direction, and the scan reports that nothing moved. */
  lemma BlockedScan(d: Direction, g: Grid, score: nat)
    requires IsGrid(g) && Blocked(g)
    ensures Scan(d, g, score) == ScanState(g, score, false)
  {
    BlockedProgress(d, ScanState(g, score, false), OuterCount(d, Rows(g), Cols(g)), 0);
  }

  /** Once a scan has moved a tile, it reports a move at every later point. */
  lemma {:induction false} MovedStays(d: Direction, s: ScanState, k: nat, j: nat, k2: nat, j2: nat)
    requires IsGrid(s.grid) && k2 <= OuterCount(d, Rows(s.grid), Cols(s.grid))
    requires j <= InnerCount(d, Rows(s.grid), Cols(s.grid)) && j2 <= InnerCount(d, Rows(s.grid), Cols(s.grid))
    requires k2 == OuterCount(d, Rows(s.grid), Cols(s.grid)) ==> j2 == 0
    requires k < k2 || (k == k2 && j <= j2)
    requires Progress(d, s, k, j).moved
    ensures Progress(d, s, k2, j2).moved
    decreases k2, j2
  {
    if k == k2 && j == j2 {
    } else if j2 > 0 {
      MovedStays(d, s, k, j, k2, j2 - 1);
      var p := SourceAt(d, Rows(s.grid), Cols(s.grid), k2, j2 - 1);
      PushSpec(d, Progress(d, s, k2, j2 - 1), p.0, p.1);
    } else {
      MovedStays(d, s, k, j, k2 - 1, InnerCount(d, Rows(s.grid), Cols(s.grid)));
    }
  }

  /** A tile whose next cell is empty or can absorb it moves when it is pushed. */
  lemma SourceMoves(d: Direction, s: ScanState, r: nat, c: nat)
    requires IsGrid(s.grid) && InGrid(s.grid, r, c)
    requires var (tr, tc) := Next(d, r, c);
      !IsTileEmpty(s.grid[r][c]) && InGrid(s.grid, tr, tc) &&
      (IsTileEmpty(s.grid[tr][tc]) || CanMergeTiles(s.grid[r][c], s.grid[tr][tc]))
    ensures Push(d, s, r, c).moved
  {
    var (tr, tc) := Next(d, r, c);
    if IsTileEmpty(s.grid[tr][tc]) {
      AdvanceMoves(d, s, r, c, tr, tc);
    } else {
      AdvanceMerges(d, s, r, c, tr, tc);
    }
  }

  /** If the source a scan visits on inner pass j of outer pass k holds a tile whose
      next cell, on the board the scan starts from, is empty or can absorb it, the
      scan moves something: either an earlier source already moved, or the board
      is still untouched when this source's turn comes. */
  lemma ScanMovesAt(d: Direction, g: Grid, score: nat, k: nat, j: nat)
    requires IsGrid(g) && k < OuterCount(d, Rows(g), Cols(g)) && j < InnerCount(d, Rows(g), Cols(g))
    requires var p := SourceAt(d, Rows(g), Cols(g), k, j);
      var (tr, tc) := Next(d, p.0, p.1);
      !IsTileEmpty(g[p.0][p.1]) && InGrid(g, tr, tc) &&
      (IsTileEmpty(g[tr][tc]) || CanMergeTiles(g[p.0][p.1], g[tr][tc]))
    ensures Scan(d, g, score).moved
  {
    var s := ScanState(g, score, false);
    var p := SourceAt(d, Rows(g), Cols(g), k, j);
    ProgressSpec(d, s, k, j);
    var before := Progress(d, s, k, j);
    if !before.moved {
      SourceMoves(d, s, p.0, p.1);
    } else {
      PushSpec(d, before, p.0, p.1);
    }
    assert Progress(d, s, k, j + 1).moved;
    MovedStays(d, s, k, j + 1, OuterCount(d, Rows(g), Cols(g)), 0);
  }

  /** A full board with every flag cleared and two equal neighbours moves under
      DOWN (a pair in a column) or under RIGHT (a pair in a row). */
  lemma PairedBoardMoves(g: Grid, score: nat)
    requires IsGrid(g) && !HasEmptyCell(g) && NoFlags(g) && HasEqualNeighbours(g)
    ensures Scan(Down, g, score).moved || Scan(Right, g, score).moved
  {
    var r: nat, c: nat :| r < Rows(g) && c < Cols(g) && HasValidMoveAt(g, r, c);
    assert g[r][c].value != 0;
    if r < Rows(g) - 1 && g[r][c].value == g[r + 1][c].value {
      assert g[r + 1][c].value != 0 && !g[r + 1][c].wasMerged;
      ScanMovesAt(Down, g, score, Rows(g) - 2 - r, Cols(g) - 1 - c);
    } else {
      assert g[r][c + 1].value != 0 && !g[r][c + 1].wasMerged;
      ScanMovesAt(Right, g, score, Cols(g) - 2 - c, Rows(g) - 1 - r);
    }
  }

  /** On a full board the loss test is exact: #isAnyValidMovesLeft finds a pair
      precisely when some direction would still move a tile on the next move,
      whose scan starts from the board with every flag cleared. */
  lemma ValidMovesIffSomeScanMoves(g: Grid, score: nat)
    requires IsGrid(g) && !HasEmptyCell(g)
    ensures HasEqualNeighbours(g) <==> exists d :: Scan(d, Unlocked(g), score).moved
  {
    var u := Unlocked(g);
    UnlockedSpec(g);
    assert !HasEmptyCell(u);
    assert HasEqualNeighbours(u) == HasEqualNeighbours(g) by {
      forall r: nat, c: nat | r < Rows(g) && c < Cols(g)
        ensures HasValidMoveAt(u, r, c) == HasValidMoveAt(g, r, c)
      {
      }
    }
    if HasEqualNeighbours(g) {
      PairedBoardMoves(u, score);
    } else {
      forall d ensures !Scan(d, u, score).moved {
        BlockedScan(d, u, score);
      }
    }
  }
}
