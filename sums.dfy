/** Totals over the board, and what a scan keeps of them (src/game-2048.ts:94-224,
    261-279): a scan writes to the board only through #moveTile into an empty
    cell and #mergeTile, both between two neighbours on the line being pushed, so
    the total of every such line, and of the whole board, stays as it was. */
module Sums {
  import opened Tiles
  import opened Types
  import opened Grids
  import opened Scans
  import opened Rules

  /** The number a cell contributes to a total. */
  function Value(t: Tile): int {
    t.value
  }

  /** 1 for a cell holding a tile, 0 for an empty one. */
  function Occupied(t: Tile): int {
    if t.value == 0 then 0 else 1
  }

  /** The total of w over a row. */
  function RowTotal(row: seq<Tile>, w: Tile -> int): int {
    if |row| == 0 then 0 else RowTotal(row[..|row| - 1], w) + w(row[|row| - 1])
  }

  /** The total of w over the whole board, row by row. */
  function Total(g: Grid, w: Tile -> int): int {
    if |g| == 0 then 0 else Total(g[..|g| - 1], w) + RowTotal(g[|g| - 1], w)
  }

  /** The total of w over column c. */
  function ColumnTotal(g: Grid, c: nat, w: Tile -> int): int
    requires forall r :: 0 <= r < |g| ==> c < |g[r]|
  {
    if |g| == 0 then 0 else ColumnTotal(g[..|g| - 1], c, w) + w(g[|g| - 1][c])
  }

  /** The lines a scan in direction d pushes along: columns for UP and DOWN,
      rows for LEFT and RIGHT. */
  function LineCount(d: Direction, g: Grid): nat {
    if Vertical(d) then Cols(g) else Rows(g)
  }

  function LineTotal(d: Direction, g: Grid, l: nat, w: Tile -> int): int
    requires IsGrid(g) && l < LineCount(d, g)
  {
    if Vertical(d) then ColumnTotal(g, l, w) else RowTotal(g[l], w)
  }

  /** h has the shape of g and the same total of values on every line of d and
      on the whole board. */
  predicate KeepsTotals(d: Direction, g: Grid, h: Grid) {
    SameShape(g, h) && Total(h, Value) == Total(g, Value) &&
    forall l: nat :: l < LineCount(d, g) ==> LineTotal(d, h, l, Value) == LineTotal(d, g, l, Value)
  }

  // ---------------------------------------------------------------------------
  // One cell changed

  lemma {:induction false} RowTotalUpdate(row: seq<Tile>, i: nat, t: Tile, w: Tile -> int)
    requires i < |row|
    ensures RowTotal(row[i := t], w) == RowTotal(row, w) - w(row[i]) + w(t)
    decreases |row|
  {
    var n := |row| - 1;
    if i < n {
      RowTotalUpdate(row[..n], i, t, w);
      assert row[i := t][..n] == row[..n][i := t];
    } else {
      assert row[i := t][..n] == row[..n];
    }
  }

  lemma {:induction false} TotalSetCell(g: Grid, r: nat, c: nat, t: Tile, w: Tile -> int)
    requires InGrid(g, r, c)
    ensures Total(SetCell(g, r, c, t), w) == Total(g, w) - w(g[r][c]) + w(t)
    decreases |g|
  {
    var n := |g| - 1;
    var h := SetCell(g, r, c, t);
    if r < n {
      TotalSetCell(g[..n], r, c, t, w);
      assert h[..n] == SetCell(g[..n], r, c, t);
    } else {
      assert h[..n] == g[..n];
      RowTotalUpdate(g[r], c, t, w);
    }
  }

  lemma {:induction false} ColumnSetCell(g: Grid, r: nat, c: nat, t: Tile, w: Tile -> int, c': nat)
    requires IsGrid(g) && InGrid(g, r, c) && c' < Cols(g)
    ensures IsGrid(SetCell(g, r, c, t))
    ensures ColumnTotal(SetCell(g, r, c, t), c', w) ==
      ColumnTotal(g, c', w) + (if c' == c then w(t) - w(g[r][c]) else 0)
    decreases |g|
  {
    var n := |g| - 1;
    var h := SetCell(g, r, c, t);
    if r < n {
      ColumnSetCell(g[..n], r, c, t, w, c');
      assert h[..n] == SetCell(g[..n], r, c, t);
    } else {
      assert h[..n] == g[..n];
    }
  }

  /** Writing t into cell (r, c) changes the total of w over the board, over row r
      and over column c by w(t) - w(old cell), and no other row or column total. */
  lemma SetCellTotals(d: Direction, g: Grid, r: nat, c: nat, t: Tile, w: Tile -> int)
    requires IsGrid(g) && InGrid(g, r, c)
    ensures SameShape(g, SetCell(g, r, c, t))
    ensures Total(SetCell(g, r, c, t), w) == Total(g, w) + w(t) - w(g[r][c])
    ensures forall l: nat :: l < LineCount(d, g) ==>
      LineTotal(d, SetCell(g, r, c, t), l, w) ==
      LineTotal(d, g, l, w) + (if l == (if Vertical(d) then c else r) then w(t) - w(g[r][c]) else 0)
  {
    var h := SetCell(g, r, c, t);
    TotalSetCell(g, r, c, t, w);
    forall l: nat | l < LineCount(d, g)
      ensures LineTotal(d, h, l, w) ==
        LineTotal(d, g, l, w) + (if l == (if Vertical(d) then c else r) then w(t) - w(g[r][c]) else 0)
    {
      if Vertical(d) {
        ColumnSetCell(g, r, c, t, w, l);
      } else if l == r {
        RowTotalUpdate(g[r], c, t, w);
      }
    }
  }

  // ---------------------------------------------------------------------------
  // #moveTile and #mergeTile keep the totals

  /** Rewriting two neighbours on a line of d without changing the sum of their
      values keeps every total. */
  lemma PairKeepsTotals(d: Direction, g: Grid, r: nat, c: nat, tr: nat, tc: nat, a: Tile, b: Tile)
    requires IsGrid(g) && InGrid(g, r, c) && InGrid(g, tr, tc) && (tr, tc) == Next(d, r, c)
    requires a.value + b.value == g[tr][tc].value + g[r][c].value
    ensures KeepsTotals(d, g, SetCell(SetCell(g, tr, tc, a), r, c, b))
  {
    var h1: Grid := SetCell(g, tr, tc, a);
    SetCellTotals(d, g, tr, tc, a, Value);
    SetCellTotals(d, h1, r, c, b, Value);
  }

  /** Rewriting a cell's flag keeps every total. */
  lemma FlagKeepsTotals(d: Direction, g: Grid, r: nat, c: nat, b: bool)
    requires IsGrid(g) && InGrid(g, r, c)
    ensures KeepsTotals(d, g, SetCell(g, r, c, g[r][c].SetWasMerged(b)))
  {
    SetCellTotals(d, g, r, c, g[r][c].SetWasMerged(b), Value);
  }

  /** Moving a tile one cell towards the edge, into an empty cell, keeps every total. */
  lemma MoveKeepsTotals(d: Direction, g: Grid, r: nat, c: nat, tr: nat, tc: nat)
    requires IsGrid(g) && InGrid(g, r, c) && InGrid(g, tr, tc) && (tr, tc) == Next(d, r, c)
    requires IsTileEmpty(g[tr][tc])
    ensures KeepsTotals(d, g, MoveCells(g, r, c, tr, tc))
  {
    var h1: Grid := SetCell(g, tr, tc, g[tr][tc].SetValue(g[r][c].value));
    PairKeepsTotals(d, g, r, c, tr, tc, g[tr][tc].SetValue(g[r][c].value), h1[r][c].SetValue(0));
  }

  /** Merging a tile into its neighbour towards the edge keeps every total. */
  lemma MergeKeepsTotals(d: Direction, g: Grid, r: nat, c: nat, tr: nat, tc: nat)
    requires IsGrid(g) && InGrid(g, r, c) && InGrid(g, tr, tc) && (tr, tc) == Next(d, r, c)
    ensures KeepsTotals(d, g, MergeCells(g, r, c, tr, tc))
  {
    var h1: Grid := SetCell(g, tr, tc, g[tr][tc].SetValue(g[tr][tc].value + g[r][c].value));
    var h2: Grid := SetCell(h1, r, c, h1[r][c].SetValue(0));
    PairKeepsTotals(d, g, r, c, tr, tc, g[tr][tc].SetValue(g[tr][tc].value + g[r][c].value), h1[r][c].SetValue(0));
    FlagKeepsTotals(d, h2, tr, tc, true);
    KeepsTotalsTrans(d, g, h2, MergeCells(g, r, c, tr, tc));
  }

  lemma KeepsTotalsTrans(d: Direction, a: Grid, b: Grid, c: Grid)
    requires KeepsTotals(d, a, b) && KeepsTotals(d, b, c)
    ensures KeepsTotals(d, a, c)
  {
  }

  // ---------------------------------------------------------------------------
  // ... and so does every part of a scan

  lemma {:induction false} AdvanceKeepsTotals(d: Direction, s: ScanState, r: nat, c: nat)
    requires IsGrid(s.grid) && InGrid(s.grid, r, c)
    ensures KeepsTotals(d, s.grid, Advance(d, s, r, c).grid)
    decreases Distance(d, s.grid, r, c), 1
  {
    NextSpec(d, s.grid, r, c);
    var (tr, tc) := Next(d, r, c);
    if !InGrid(s.grid, tr, tc) {
      AdvanceStops(d, s, r, c);
    } else if IsTileEmpty(s.grid[tr][tc]) {
      MoveThenAdvance(d, s, r, c, tr, tc);
    } else if CanMergeTiles(s.grid[r][c], s.grid[tr][tc]) {
      MergeThenAdvance(d, s, r, c, tr, tc);
    } else {
      AdvanceStops(d, s, r, c);
    }
  }

  lemma {:induction false} MoveThenAdvance(d: Direction, s: ScanState, r: nat, c: nat, tr: nat, tc: nat)
    requires IsGrid(s.grid) && InGrid(s.grid, r, c) && (tr, tc) == Next(d, r, c) && InGrid(s.grid, tr, tc)
    requires IsTileEmpty(s.grid[tr][tc])
    ensures KeepsTotals(d, s.grid, Advance(d, s, r, c).grid)
    decreases Distance(d, s.grid, r, c), 0
  {
    NextSpec(d, s.grid, r, c);
    AdvanceMoves(d, s, r, c, tr, tc);
    var s' := ScanState(MoveCells(s.grid, r, c, tr, tc), s.score, true);
    MoveKeepsTotals(d, s.grid, r, c, tr, tc);
    AdvanceKeepsTotals(d, s', tr, tc);
    KeepsTotalsTrans(d, s.grid, s'.grid, Advance(d, s', tr, tc).grid);
  }

  lemma {:induction false} MergeThenAdvance(d: Direction, s: ScanState, r: nat, c: nat, tr: nat, tc: nat)
    requires IsGrid(s.grid) && InGrid(s.grid, r, c) && (tr, tc) == Next(d, r, c) && InGrid(s.grid, tr, tc)
    requires !IsTileEmpty(s.grid[tr][tc]) && CanMergeTiles(s.grid[r][c], s.grid[tr][tc])
    ensures KeepsTotals(d, s.grid, Advance(d, s, r, c).grid)
    decreases Distance(d, s.grid, r, c), 0
  {
    NextSpec(d, s.grid, r, c);
    AdvanceMerges(d, s, r, c, tr, tc);
    var g: Grid := MergeCells(s.grid, r, c, tr, tc);
    var s' := ScanState(g, s.score + g[tr][tc].value, true);
    MergeKeepsTotals(d, s.grid, r, c, tr, tc);
    AdvanceKeepsTotals(d, s', tr, tc);
    KeepsTotalsTrans(d, s.grid, s'.grid, Advance(d, s', tr, tc).grid);
  }

  lemma {:induction false} ProgressKeepsTotals(d: Direction, s: ScanState, k: nat, j: nat)
    requires IsGrid(s.grid) && k <= OuterCount(d, Rows(s.grid), Cols(s.grid))
    requires j <= InnerCount(d, Rows(s.grid), Cols(s.grid))
    requires k == OuterCount(d, Rows(s.grid), Cols(s.grid)) ==> j == 0
    ensures KeepsTotals(d, s.grid, Progress(d, s, k, j).grid)
    decreases k, j
  {
    if j > 0 {
      ProgressKeepsTotals(d, s, k, j - 1);
      var p := SourceAt(d, Rows(s.grid), Cols(s.grid), k, j - 1);
      var mid := Progress(d, s, k, j - 1);
      if !IsTileEmpty(mid.grid[p.0][p.1]) {
        AdvanceKeepsTotals(d, mid, p.0, p.1);
        KeepsTotalsTrans(d, s.grid, mid.grid, Push(d, mid, p.0, p.1).grid);
      }
    } else if k > 0 {
      ProgressKeepsTotals(d, s, k - 1, InnerCount(d, Rows(s.grid), Cols(s.grid)));
    }
  }

  /** A scan keeps the total of the values on the board and on each line it
      pushes along: no value is created or lost, and in total no value passes
      from one line to another. (That each single push writes only its own line
      is Scans.PushStaysOnLine.) */
  lemma ScanKeepsTotals(d: Direction, g: Grid, score: nat)
    requires IsGrid(g)
    ensures Total(Scan(d, g, score).grid, Value) == Total(g, Value)
    ensures forall l: nat :: l < LineCount(d, g) ==>
      LineTotal(d, Scan(d, g, score).grid, l, Value) == LineTotal(d, g, l, Value)
  {
    ProgressKeepsTotals(d, ScanState(g, score, false), OuterCount(d, Rows(g), Cols(g)), 0);
  }

  // ---------------------------------------------------------------------------
  // Clearing flags and spawning

  /** Two boards of the same shape whose cells agree under w have the same total. */
  lemma {:induction false} TotalsAgree(g: Grid, h: Grid, w: Tile -> int)
    requires |g| == |h| && forall r :: 0 <= r < |g| ==> |g[r]| == |h[r]|
    requires forall r, c :: InGrid(g, r, c) ==> w(g[r][c]) == w(h[r][c])
    ensures Total(g, w) == Total(h, w)
    decreases |g|
  {
    if |g| > 0 {
      var n := |g| - 1;
      TotalsAgree(g[..n], h[..n], w);
      RowTotalsAgree(g[n], h[n], w);
    }
  }

  lemma {:induction false} RowTotalsAgree(a: seq<Tile>, b: seq<Tile>, w: Tile -> int)
    requires |a| == |b| && forall i :: 0 <= i < |a| ==> w(a[i]) == w(b[i])
    ensures RowTotal(a, w) == RowTotal(b, w)
    decreases |a|
  {
    if |a| > 0 {
      RowTotalsAgree(a[..|a| - 1], b[..|b| - 1], w);
    }
  }

  /** A board of empty cells holds no value and no tile. */
  lemma EmptyBoardTotals(g: Grid)
    requires forall r, c :: InGrid(g, r, c) ==> g[r][c].value == 0
    ensures Total(g, Value) == 0 && Total(g, Occupied) == 0
  {
    var z := seq(|g|, r requires 0 <= r < |g| => seq(|g[r]|, c => Tile(0, false)));
    TotalsAgree(g, z, Value);
    TotalsAgree(g, z, Occupied);
    ZeroTotal(z, Value);
    ZeroTotal(z, Occupied);
  }

  lemma {:induction false} ZeroTotal(g: Grid, w: Tile -> int)
    requires forall r, c :: InGrid(g, r, c) ==> w(g[r][c]) == 0
    ensures Total(g, w) == 0
    decreases |g|
  {
    if |g| > 0 {
      var n := |g| - 1;
      ZeroTotal(g[..n], w);
      ZeroRowTotal(g[n], w);
    }
  }

  lemma {:induction false} ZeroRowTotal(a: seq<Tile>, w: Tile -> int)
    requires forall i :: 0 <= i < |a| ==> w(a[i]) == 0
    ensures RowTotal(a, w) == 0
    decreases |a|
  {
    if |a| > 0 {
      ZeroRowTotal(a[..|a| - 1], w);
    }
  }

  /** Clearing the flags changes no total of values. */
  lemma UnlockedTotals(g: Grid)
    ensures Total(Unlocked(g), Value) == Total(g, Value)
    ensures Total(Unlocked(g), Occupied) == Total(g, Occupied)
  {
    TotalsAgree(Unlocked(g), g, Value);
    TotalsAgree(Unlocked(g), g, Occupied);
  }

  /** A spawn on a board with an empty cell adds the new value to the total and
      one tile to the count of tiles; on a full board it adds nothing. */
  lemma SpawnTotals(g: Grid, pick: nat -> nat, coin: nat)
    requires IsGrid(g) && PicksInRange(pick)
    ensures Total(Spawn(g, pick, coin), Value) ==
      Total(g, Value) + (if HasEmptyCell(g) then SpawnValue(coin) else 0)
    ensures Total(Spawn(g, pick, coin), Occupied) ==
      Total(g, Occupied) + (if HasEmptyCell(g) then 1 else 0)
  {
    EmptyCellsWhenEmpty(g);
    var e := EmptyCells(g);
    if |e| > 0 {
      var p := e[pick(|e|)];
      assert p in e;
      var t := g[p.0][p.1].SetValue(SpawnValue(coin));
      TotalSetCell(g, p.0, p.1, t, Value);
      TotalSetCell(g, p.0, p.1, t, Occupied);
    }
  }
}
