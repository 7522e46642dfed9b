/** Worked scans on small boards, showing the two behaviours of
    src/game-2048.ts:94-224 that differ from the usual 2048 rules: a merged tile
    keeps travelling and may merge again, and a merge flag stays on its cell
    when the value that earned it moves away. */
module Worked {
  import opened Tiles
  import opened Types
  import opened Grids
  import opened Scans
  import opened Rules

  function T(v: nat): Tile {
    Tile(v, false)
  }

  function F(v: nat): Tile {
    Tile(v, true)
  }

  /** One turn of the innermost loop that moves the tile at (r, c) on into the
      empty cell (tr, tc), leaving the board h. */
  lemma MoveStep(d: Direction, s: ScanState, r: nat, c: nat, tr: nat, tc: nat, h: Grid)
    requires IsGrid(s.grid) && InGrid(s.grid, r, c) && (tr, tc) == Next(d, r, c) && InGrid(s.grid, tr, tc)
    requires IsTileEmpty(s.grid[tr][tc])
    requires |h| == |s.grid| && forall i :: 0 <= i < |h| ==> |h[i]| == |s.grid[i]|
    requires forall i, j :: InGrid(h, i, j) ==> h[i][j] == MoveCells(s.grid, r, c, tr, tc)[i][j]
    ensures Advance(d, s, r, c) == Advance(d, ScanState(h, s.score, true), tr, tc)
  {
    SameCells(MoveCells(s.grid, r, c, tr, tc), h);
    AdvanceMoves(d, s, r, c, tr, tc);
  }

  /** One turn of the innermost loop that merges the tile at (r, c) into (tr, tc),
      leaving the board h and the score grown by the merged value. */
  lemma MergeStep(d: Direction, s: ScanState, r: nat, c: nat, tr: nat, tc: nat, h: Grid)
    requires IsGrid(s.grid) && InGrid(s.grid, r, c) && (tr, tc) == Next(d, r, c) && InGrid(s.grid, tr, tc)
    requires !IsTileEmpty(s.grid[tr][tc]) && CanMergeTiles(s.grid[r][c], s.grid[tr][tc])
    requires |h| == |s.grid| && forall i :: 0 <= i < |h| ==> |h[i]| == |s.grid[i]|
    requires forall i, j :: InGrid(h, i, j) ==> h[i][j] == MergeCells(s.grid, r, c, tr, tc)[i][j]
    ensures Advance(d, s, r, c) == Advance(d, ScanState(h, s.score + h[tr][tc].value, true), tr, tc)
  {
    SameCells(MergeCells(s.grid, r, c, tr, tc), h);
    AdvanceMerges(d, s, r, c, tr, tc);
  }

  /** The column 2, 2, 4 pushed DOWN ends as 0, 0, 8 with 12 points: the lower 2
      cannot pass the 4, then the upper 2 merges into the lower one, and the 4 it
      made goes on to merge with the 4 below. */
  lemma MergeKeepsTravelling()
    ensures Scan(Down, [[T(2)], [T(2)], [T(4)]], 0) == ScanState([[T(0)], [F(0)], [F(8)]], 12, true)
  {
    var s := ScanState([[T(2)], [T(2)], [T(4)]], 0, false);
    AdvanceStops(Down, s, 1, 0);
    assert Progress(Down, s, 1, 0) == s;
    MergeStep(Down, s, 0, 0, 1, 0, [[T(0)], [F(4)], [T(4)]]);
    var s1 := ScanState([[T(0)], [F(4)], [T(4)]], 4, true);
    MergeStep(Down, s1, 1, 0, 2, 0, [[T(0)], [F(0)], [F(8)]]);
    AdvanceStops(Down, ScanState([[T(0)], [F(0)], [F(8)]], 12, true), 2, 0);
  }

  /** The row 2, 2, 2, 0 pushed RIGHT ends as 0, 0, 2, 4 with 4 points. */
  lemma RowOfThreeTwos()
    ensures Scan(Right, [[T(2), T(2), T(2), T(0)]], 0) == ScanState([[T(0), T(0), T(2), F(4)]], 4, true)
  {
    var s0 := ScanState([[T(2), T(2), T(2), T(0)]], 0, false);
    var s1 := ScanState([[T(2), T(2), T(0), T(2)]], 0, true);
    var s3 := ScanState([[T(2), T(0), T(0), F(4)]], 4, true);
    RowFirst(s0);
    RowSecond(s1);
    assert Progress(Right, s0, 2, 0) == s3;
    RowThird(s3);
  }

  lemma RowFirst(s0: ScanState)
    requires s0 == ScanState([[T(2), T(2), T(2), T(0)]], 0, false)
    ensures Progress(Right, s0, 1, 0) == ScanState([[T(2), T(2), T(0), T(2)]], 0, true)
  {
    MoveStep(Right, s0, 0, 2, 0, 3, [[T(2), T(2), T(0), T(2)]]);
    AdvanceStops(Right, ScanState([[T(2), T(2), T(0), T(2)]], 0, true), 0, 3);
  }

  lemma RowSecond(s1: ScanState)
    requires s1 == ScanState([[T(2), T(2), T(0), T(2)]], 0, true)
    ensures Push(Right, s1, 0, 1) == ScanState([[T(2), T(0), T(0), F(4)]], 4, true)
  {
    var s2 := ScanState([[T(2), T(0), T(2), T(2)]], 0, true);
    var s3 := ScanState([[T(2), T(0), T(0), F(4)]], 4, true);
    MoveStep(Right, s1, 0, 1, 0, 2, s2.grid);
    MergeStep(Right, s2, 0, 2, 0, 3, s3.grid);
    AdvanceStops(Right, s3, 0, 3);
  }

  lemma RowThird(s3: ScanState)
    requires s3 == ScanState([[T(2), T(0), T(0), F(4)]], 4, true)
    ensures Push(Right, s3, 0, 0) == ScanState([[T(0), T(0), T(2), F(4)]], 4, true)
  {
    var s4 := ScanState([[T(0), T(2), T(0), F(4)]], 4, true);
    var s5 := ScanState([[T(0), T(0), T(2), F(4)]], 4, true);
    MoveStep(Right, s3, 0, 0, 0, 1, s4.grid);
    MoveStep(Right, s4, 0, 1, 0, 2, s5.grid);
    AdvanceStops(Right, s5, 0, 2);
  }

  /** The row 4, 4, 2, 2, 4, 0 pushed RIGHT ends as 0, 0, 0, 4, 4, 8 with 12
      points: the 2s merge into a 4 that goes on to merge with the last 4, which
      leaves a flag on the emptied fifth cell; the next 4 moves into that cell,
      takes on the flag, and so the last 4 cannot merge with it. */
  lemma FlagStaysOnCell()
    ensures Scan(Right, [[T(4), T(4), T(2), T(2), T(4), T(0)]], 0) ==
      ScanState([[T(0), T(0), T(0), T(4), F(4), F(8)]], 12, true)
  {
    var s0 := ScanState([[T(4), T(4), T(2), T(2), T(4), T(0)]], 0, false);
    var c3 := ScanState([[T(4), T(4), T(0), T(0), F(0), F(8)]], 12, true);
    FlagFirstThree(s0);
    var d3 := ScanState([[T(4), T(0), T(0), T(0), F(4), F(8)]], 12, true);
    FlagFourth(c3);
    assert Progress(Right, s0, 4, 0) == d3;
    FlagFifth(d3);
  }

  lemma FlagFirstThree(s0: ScanState)
    requires s0 == ScanState([[T(4), T(4), T(2), T(2), T(4), T(0)]], 0, false)
    ensures Progress(Right, s0, 3, 0) == ScanState([[T(4), T(4), T(0), T(0), F(0), F(8)]], 12, true)
  {
    var a1 := ScanState([[T(4), T(4), T(2), T(2), T(0), T(4)]], 0, true);
    MoveStep(Right, s0, 0, 4, 0, 5, a1.grid);
    AdvanceStops(Right, a1, 0, 5);
    assert Progress(Right, s0, 1, 0) == a1;
    var b1 := ScanState([[T(4), T(4), T(2), T(0), T(2), T(4)]], 0, true);
    MoveStep(Right, a1, 0, 3, 0, 4, b1.grid);
    AdvanceStops(Right, b1, 0, 4);
    assert Progress(Right, s0, 2, 0) == b1;
    FlagThird(b1);
  }

  lemma FlagThird(b1: ScanState)
    requires b1 == ScanState([[T(4), T(4), T(2), T(0), T(2), T(4)]], 0, true)
    ensures Push(Right, b1, 0, 2) == ScanState([[T(4), T(4), T(0), T(0), F(0), F(8)]], 12, true)
  {
    var c1 := ScanState([[T(4), T(4), T(0), T(2), T(2), T(4)]], 0, true);
    var c2 := ScanState([[T(4), T(4), T(0), T(0), F(4), T(4)]], 4, true);
    var c3 := ScanState([[T(4), T(4), T(0), T(0), F(0), F(8)]], 12, true);
    MoveStep(Right, b1, 0, 2, 0, 3, c1.grid);
    MergeStep(Right, c1, 0, 3, 0, 4, c2.grid);
    MergeStep(Right, c2, 0, 4, 0, 5, c3.grid);
    AdvanceStops(Right, c3, 0, 5);
  }

  lemma FlagFourth(c3: ScanState)
    requires c3 == ScanState([[T(4), T(4), T(0), T(0), F(0), F(8)]], 12, true)
    ensures Push(Right, c3, 0, 1) == ScanState([[T(4), T(0), T(0), T(0), F(4), F(8)]], 12, true)
  {
    var d1 := ScanState([[T(4), T(0), T(4), T(0), F(0), F(8)]], 12, true);
    var d2 := ScanState([[T(4), T(0), T(0), T(4), F(0), F(8)]], 12, true);
    var d3 := ScanState([[T(4), T(0), T(0), T(0), F(4), F(8)]], 12, true);
    MoveStep(Right, c3, 0, 1, 0, 2, d1.grid);
    MoveStep(Right, d1, 0, 2, 0, 3, d2.grid);
    MoveStep(Right, d2, 0, 3, 0, 4, d3.grid);
    AdvanceStops(Right, d3, 0, 4);
  }

  lemma FlagFifth(d3: ScanState)
    requires d3 == ScanState([[T(4), T(0), T(0), T(0), F(4), F(8)]], 12, true)
    ensures Push(Right, d3, 0, 0) == ScanState([[T(0), T(0), T(0), T(4), F(4), F(8)]], 12, true)
  {
    var e1 := ScanState([[T(0), T(4), T(0), T(0), F(4), F(8)]], 12, true);
    var e2 := ScanState([[T(0), T(0), T(4), T(0), F(4), F(8)]], 12, true);
    var e3 := ScanState([[T(0), T(0), T(0), T(4), F(4), F(8)]], 12, true);
    MoveStep(Right, d3, 0, 0, 0, 1, e1.grid);
    MoveStep(Right, e1, 0, 1, 0, 2, e2.grid);
    MoveStep(Right, e2, 0, 2, 0, 3, e3.grid);
    AdvanceStops(Right, e3, 0, 3);
  }

  /** A full 2x2 board with no two equal neighbours ends the game as a loss. */
  lemma LossOnBlockedBoard()
    ensures Finished([[T(4), T(2)], [T(2), T(8)]], 2048, Status(false, false)) == Status(true, false)
  {
    var g: Grid := [[T(4), T(2)], [T(2), T(8)]];
    assert !HasWinningTile(g, 2048);
    assert !HasEmptyCell(g);
    assert !HasEqualNeighbours(g) by {
      forall r: nat, c: nat | r < 2 && c < 2 ensures !HasValidMoveAt(g, r, c) {
      }
    }
  }

  /** Reaching the win number wins even with empty cells left. */
  lemma WinBeforeBoardIsFull()
    ensures Finished([[T(0), T(2)], [T(4), T(8)]], 8, Status(false, false)) == Status(true, true)
  {
    var g: Grid := [[T(0), T(2)], [T(4), T(8)]];
    assert g[1][1].value == 8;
  }
}
