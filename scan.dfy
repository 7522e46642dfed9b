/** One directional scan of the board (src/game-2048.ts:94-224), as functions that
    follow the source's loops: the innermost loop pushes one tile a cell at a time
    towards the edge, and the two outer loops visit the sources in a fixed order.

    Two details are kept as the source has them:
    - after a merge the tile keeps going, so a freshly merged tile may merge again
      further along (#canMergeTiles looks only at the target's flag);
    - the merge flag belongs to the cell: #moveTile moves the value and leaves the
      flags where they are. */
module Scans {
  import opened Tiles
  import opened Types
  import opened Grids

  /** The board, the score and the scan's `tileMoved` flag part-way through a scan. */
  datatype ScanState = ScanState(grid: Grid, score: nat, moved: bool)

  /** The innermost `for` loop of a scan: the tile at (r, c) tries the next cell
      towards the edge. It moves into an empty cell, merges into a cell it can
      merge with, and in both cases goes on from there; it stops at the edge or at
      the first cell it can do neither with. */
  function Advance(d: Direction, s: ScanState, r: int, c: int): (t: ScanState)
    requires IsGrid(s.grid) && InGrid(s.grid, r, c)
    ensures SameShape(t.grid, s.grid)
    ensures t.score >= s.score
    ensures s.moved ==> t.moved
    ensures t == s || t.moved
    decreases Distance(d, s.grid, r, c)
  {
    NextSpec(d, s.grid, r, c);
    var (tr, tc) := Next(d, r, c);
    if !InGrid(s.grid, tr, tc) then s
    else
      var canMove := IsTileEmpty(s.grid[tr][tc]);
      var canMerge := CanMergeTiles(s.grid[r][c], s.grid[tr][tc]);
      if !canMove && !canMerge then s
      else if canMove then
        Advance(d, ScanState(MoveCells(s.grid, r, c, tr, tc), s.score, true), tr, tc)
      else
        var g := MergeCells(s.grid, r, c, tr, tc);
        Advance(d, ScanState(g, s.score + g[tr][tc].value, true), tr, tc)
  }

  /** The three ways one turn of the innermost loop can go. */
  lemma AdvanceMoves(d: Direction, s: ScanState, r: nat, c: nat, tr: nat, tc: nat)
    requires IsGrid(s.grid) && InGrid(s.grid, r, c) && (tr, tc) == Next(d, r, c) && InGrid(s.grid, tr, tc)
    requires IsTileEmpty(s.grid[tr][tc])
    ensures Advance(d, s, r, c) == Advance(d, ScanState(MoveCells(s.grid, r, c, tr, tc), s.score, true), tr, tc)
  {
  }

  lemma AdvanceMerges(d: Direction, s: ScanState, r: nat, c: nat, tr: nat, tc: nat)
    requires IsGrid(s.grid) && InGrid(s.grid, r, c) && (tr, tc) == Next(d, r, c) && InGrid(s.grid, tr, tc)
    requires !IsTileEmpty(s.grid[tr][tc]) && CanMergeTiles(s.grid[r][c], s.grid[tr][tc])
    ensures var g := MergeCells(s.grid, r, c, tr, tc);
      Advance(d, s, r, c) == Advance(d, ScanState(g, s.score + g[tr][tc].value, true), tr, tc)
  {
  }

  lemma AdvanceStops(d: Direction, s: ScanState, r: nat, c: nat)
    requires IsGrid(s.grid) && InGrid(s.grid, r, c)
    requires var (tr, tc) := Next(d, r, c);
      !InGrid(s.grid, tr, tc) || (!IsTileEmpty(s.grid[tr][tc]) && !CanMergeTiles(s.grid[r][c], s.grid[tr][tc]))
    ensures Advance(d, s, r, c) == s
  {
  }

  /** One source of a scan: an empty cell is skipped, a tile is advanced. */
  function Push(d: Direction, s: ScanState, r: int, c: int): (t: ScanState)
    requires IsGrid(s.grid) && InGrid(s.grid, r, c)
    ensures SameShape(t.grid, s.grid)
  {
    if IsTileEmpty(s.grid[r][c]) then s else Advance(d, s, r, c)
  }

  /** Every cell of g off the line through (r, c) in direction d is a cell of h
      holding the same tile. */
  ghost predicate OffLineKept(d: Direction, r: int, c: int, g: Grid, h: Grid) {
    forall i, j :: InGrid(g, i, j) && !OnLine(d, r, c, i, j) ==> InGrid(h, i, j) && h[i][j] == g[i][j]
  }

  /** Moving a tile into its next cell keeps every cell off its line. */
  lemma MoveOffLine(d: Direction, g: Grid, r: nat, c: nat, tr: nat, tc: nat)
    requires InGrid(g, r, c) && InGrid(g, tr, tc) && (tr, tc) == Next(d, r, c)
    ensures OffLineKept(d, r, c, g, MoveCells(g, r, c, tr, tc))
  {
  }

  /** Merging a tile into its next cell keeps every cell off its line. */
  lemma MergeOffLine(d: Direction, g: Grid, r: nat, c: nat, tr: nat, tc: nat)
    requires InGrid(g, r, c) && InGrid(g, tr, tc) && (tr, tc) == Next(d, r, c)
    ensures OffLineKept(d, r, c, g, MergeCells(g, r, c, tr, tc))
  {
  }

  /** What stays off the line through (r, c) and then off the line through the
      next cell stays off the first line: both are the same line. */
  lemma OffLineChain(d: Direction, r: int, c: int, tr: int, tc: int, g: Grid, h: Grid, k: Grid)
    requires (tr, tc) == Next(d, r, c)
    requires OffLineKept(d, r, c, g, h) && OffLineKept(d, tr, tc, h, k)
    ensures OffLineKept(d, r, c, g, k)
  {
    forall i, j | InGrid(g, i, j) && !OnLine(d, r, c, i, j) ensures InGrid(k, i, j) && k[i][j] == g[i][j] {
      assert !OnLine(d, tr, tc, i, j);
    }
  }

  /** The innermost loop writes only cells on the pushed tile's own line: a tile
      never leaves its column (UP, DOWN) or its row (LEFT, RIGHT). */
  lemma {:induction false} AdvanceStaysOnLine(d: Direction, s: ScanState, r: nat, c: nat)
    requires IsGrid(s.grid) && InGrid(s.grid, r, c)
    ensures OffLineKept(d, r, c, s.grid, Advance(d, s, r, c).grid)
    decreases Distance(d, s.grid, r, c), 1
  {
    NextSpec(d, s.grid, r, c);
    var (tr, tc) := Next(d, r, c);
    if !InGrid(s.grid, tr, tc) {
      AdvanceStops(d, s, r, c);
    } else if IsTileEmpty(s.grid[tr][tc]) {
      MoveStaysOnLine(d, s, r, c, tr, tc);
    } else if CanMergeTiles(s.grid[r][c], s.grid[tr][tc]) {
      MergeStaysOnLine(d, s, r, c, tr, tc);
    } else {
      AdvanceStops(d, s, r, c);
    }
  }

  lemma {:induction false} MoveStaysOnLine(d: Direction, s: ScanState, r: nat, c: nat, tr: nat, tc: nat)
    requires IsGrid(s.grid) && InGrid(s.grid, r, c) && (tr, tc) == Next(d, r, c) && InGrid(s.grid, tr, tc)
    requires IsTileEmpty(s.grid[tr][tc])
    ensures OffLineKept(d, r, c, s.grid, Advance(d, s, r, c).grid)
    decreases Distance(d, s.grid, r, c), 0
  {
    NextSpec(d, s.grid, r, c);
    AdvanceMoves(d, s, r, c, tr, tc);
    var t := ScanState(MoveCells(s.grid, r, c, tr, tc), s.score, true);
    MoveOffLine(d, s.grid, r, c, tr, tc);
    AdvanceStaysOnLine(d, t, tr, tc);
    OffLineChain(d, r, c, tr, tc, s.grid, t.grid, Advance(d, t, tr, tc).grid);
  }

  lemma {:induction false} MergeStaysOnLine(d: Direction, s: ScanState, r: nat, c: nat, tr: nat, tc: nat)
    requires IsGrid(s.grid) && InGrid(s.grid, r, c) && (tr, tc) == Next(d, r, c) && InGrid(s.grid, tr, tc)
    requires !IsTileEmpty(s.grid[tr][tc]) && CanMergeTiles(s.grid[r][c], s.grid[tr][tc])
    ensures OffLineKept(d, r, c, s.grid, Advance(d, s, r, c).grid)
    decreases Distance(d, s.grid, r, c), 0
  {
    NextSpec(d, s.grid, r, c);
    AdvanceMerges(d, s, r, c, tr, tc);
    var g: Grid := MergeCells(s.grid, r, c, tr, tc);
    var t := ScanState(g, s.score + g[tr][tc].value, true);
    MergeOffLine(d, s.grid, r, c, tr, tc);
    AdvanceStaysOnLine(d, t, tr, tc);
    OffLineChain(d, r, c, tr, tc, s.grid, t.grid, Advance(d, t, tr, tc).grid);
  }

  /** The same for one source of a scan. */
  lemma PushStaysOnLine(d: Direction, s: ScanState, r: nat, c: nat)
    requires IsGrid(s.grid) && InGrid(s.grid, r, c)
    ensures forall i, j :: InGrid(s.grid, i, j) && !OnLine(d, r, c, i, j) ==>
      Push(d, s, r, c).grid[i][j] == s.grid[i][j]
  {
    if !IsTileEmpty(s.grid[r][c]) {
      AdvanceStaysOnLine(d, s, r, c);
    }
  }

  // ---------------------------------------------------------------------------
  // The order in which a scan visits its sources

  /** How many times the outer loop runs: every row but the one against the edge
      for DOWN and UP, every column but the one against the edge for LEFT and RIGHT. */
  function OuterCount(d: Direction, rows: nat, cols: nat): nat {
    if Vertical(d) then (if rows == 0 then 0 else rows - 1)
    else (if cols == 0 then 0 else cols - 1)
  }

  /** How many times the inner loop runs per outer pass. */
  function InnerCount(d: Direction, rows: nat, cols: nat): nat {
    if Vertical(d) then cols else rows
  }

  /** The source the scan visits on inner pass j of outer pass k:
      DOWN: rows rows-2..0, then columns cols-1..0;
      UP: rows 1..rows-1, then columns cols-1..0;
      LEFT: columns 1..cols-1, then rows rows-1..0;
      RIGHT: columns cols-2..0, then rows rows-1..0. */
  function SourceAt(d: Direction, rows: nat, cols: nat, k: nat, j: nat): (p: (nat, nat))
    requires k < OuterCount(d, rows, cols) && j < InnerCount(d, rows, cols)
    ensures p.0 < rows && p.1 < cols
  {
    match d
    case Down => (rows - 2 - k, cols - 1 - j)
    case Up => (1 + k, cols - 1 - j)
    case Left => (rows - 1 - j, 1 + k)
    case Right => (rows - 1 - j, cols - 2 - k)
  }

  /** The state of a scan from s after the first k outer passes and the first j
      inner passes of pass k: the loop invariant of every #handleXMovement. */
  function Progress(d: Direction, s: ScanState, k: nat, j: nat): (t: ScanState)
    requires IsGrid(s.grid) && k <= OuterCount(d, Rows(s.grid), Cols(s.grid))
    requires j <= InnerCount(d, Rows(s.grid), Cols(s.grid))
    requires k == OuterCount(d, Rows(s.grid), Cols(s.grid)) ==> j == 0
    ensures SameShape(t.grid, s.grid)
    decreases k, j
  {
    if j > 0 then
      var p := SourceAt(d, Rows(s.grid), Cols(s.grid), k, j - 1);
      Push(d, Progress(d, s, k, j - 1), p.0, p.1)
    else if k > 0 then Progress(d, s, k - 1, InnerCount(d, Rows(s.grid), Cols(s.grid)))
    else s
  }

  /** One #handleXMovement: every source pushed in the source's order, starting
      with `tileMoved` false. */
  function Scan(d: Direction, g: Grid, score: nat): (t: ScanState)
    requires IsGrid(g)
    ensures SameShape(t.grid, g)
  {
    Progress(d, ScanState(g, score, false), OuterCount(d, Rows(g), Cols(g)), 0)
  }

  /** Pushing a source never lowers the score and never clears `tileMoved`, and it
      either leaves everything as it was or sets `tileMoved`. */
  lemma PushSpec(d: Direction, s: ScanState, r: int, c: int)
    requires IsGrid(s.grid) && InGrid(s.grid, r, c)
    ensures Push(d, s, r, c).score >= s.score
    ensures s.moved ==> Push(d, s, r, c).moved
    ensures Push(d, s, r, c) == s || Push(d, s, r, c).moved
  {
  }

  /** The same for any part of a scan. */
  lemma {:induction false} ProgressSpec(d: Direction, s: ScanState, k: nat, j: nat)
    requires IsGrid(s.grid) && k <= OuterCount(d, Rows(s.grid), Cols(s.grid))
    requires j <= InnerCount(d, Rows(s.grid), Cols(s.grid))
    requires k == OuterCount(d, Rows(s.grid), Cols(s.grid)) ==> j == 0
    ensures Progress(d, s, k, j).score >= s.score
    ensures s.moved ==> Progress(d, s, k, j).moved
    ensures Progress(d, s, k, j) == s || Progress(d, s, k, j).moved
    decreases k, j
  {
    if j > 0 {
      ProgressSpec(d, s, k, j - 1);
      var p := SourceAt(d, Rows(s.grid), Cols(s.grid), k, j - 1);
      PushSpec(d, Progress(d, s, k, j - 1), p.0, p.1);
    } else if k > 0 {
      ProgressSpec(d, s, k - 1, InnerCount(d, Rows(s.grid), Cols(s.grid)));
    }
  }

  /** A scan never lowers the score, and a scan that reports that nothing moved
      leaves the board, flags included, and the score exactly as they were. */
  lemma ScanUnmoved(d: Direction, g: Grid, score: nat)
    requires IsGrid(g)
    ensures Scan(d, g, score).score >= score
    ensures !Scan(d, g, score).moved ==> Scan(d, g, score) == ScanState(g, score, false)
  {
    ProgressSpec(d, ScanState(g, score, false), OuterCount(d, Rows(g), Cols(g)), 0);
  }
}
