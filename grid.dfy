/** The board as a value (src/game-2048.ts:9, 30-34, 226-287): a rows x cols
    matrix of cells, the primitives that write to it, and the geometry of the
    four directions. The engine's array is proved against these functions. */
module Grids {
  import opened Tiles
  import opened Types

  /** Row-major: g[row][col]. */
  type Grid = seq<seq<Tile>>

  function Rows(g: Grid): nat {
    |g|
  }

  function Cols(g: Grid): nat {
    if |g| == 0 then 0 else |g[0]|
  }

  /** A rectangle: every row as long as the first. */
  predicate IsGrid(g: Grid) {
    forall r :: 0 <= r < |g| ==> |g[r]| == Cols(g)
  }

  predicate SameShape(a: Grid, b: Grid) {
    IsGrid(a) && IsGrid(b) && Rows(a) == Rows(b) && Cols(a) == Cols(b)
  }

  /** (r, c) is a cell of g. */
  predicate InGrid(g: Grid, r: int, c: int) {
    0 <= r < |g| && 0 <= c < |g[r]|
  }

  /** The `board` getter: the matrix of values. */
  function Values(g: Grid): (b: seq<seq<nat>>)
    ensures |b| == |g|
    ensures forall r :: 0 <= r < |g| ==> |b[r]| == |g[r]|
    ensures forall r, c :: InGrid(g, r, c) ==> b[r][c] == g[r][c].value
  {
    seq(|g|, r requires 0 <= r < |g| => seq(|g[r]|, c requires 0 <= c < |g[r]| => g[r][c].value))
  }

  /** The board #unlockAllTiles leaves. */
  function Unlocked(g: Grid): (u: Grid)
    ensures |u| == |g| && forall r :: 0 <= r < |g| ==> |u[r]| == |g[r]|
  {
    seq(|g|, r requires 0 <= r < |g| => seq(|g[r]|, c requires 0 <= c < |g[r]| => g[r][c].SetWasMerged(false)))
  }

  ghost predicate NoFlags(g: Grid) {
    forall r, c :: InGrid(g, r, c) ==> !g[r][c].wasMerged
  }

  /** Unlocking clears every flag and keeps every value, so the board the player
      sees does not change. */
  lemma UnlockedSpec(g: Grid)
    ensures NoFlags(Unlocked(g))
    ensures forall r, c :: InGrid(g, r, c) ==> Unlocked(g)[r][c].value == g[r][c].value
    ensures Values(Unlocked(g)) == Values(g)
    ensures IsGrid(g) ==> SameShape(g, Unlocked(g))
  {
    var u := Unlocked(g);
    forall r | 0 <= r < |g| ensures Values(u)[r] == Values(g)[r] {
    }
  }

  /** g with cell (r, c) replaced by t. */
  function SetCell(g: Grid, r: nat, c: nat, t: Tile): (h: Grid)
    requires InGrid(g, r, c)
    ensures |h| == |g| && forall i :: 0 <= i < |g| ==> |h[i]| == |g[i]|
    ensures h[r][c] == t
    ensures forall i, j :: InGrid(g, i, j) && (i != r || j != c) ==> h[i][j] == g[i][j]
  {
    g[r := g[r][c := t]]
  }

  /** Two boards with the same rows lengths and the same cells are equal. */
  lemma SameCells(a: Grid, b: Grid)
    requires |a| == |b| && forall r :: 0 <= r < |a| ==> |a[r]| == |b[r]|
    requires forall r, c :: InGrid(a, r, c) ==> a[r][c] == b[r][c]
    ensures a == b
  {
    forall r | 0 <= r < |a| ensures a[r] == b[r] {
    }
  }

  // ---------------------------------------------------------------------------
  // #isTileEmpty, #canMergeTiles, #moveTile, #mergeTile

  /** #isTileEmpty */
  predicate IsTileEmpty(t: Tile) {
    t.value == 0
  }

  /** #canMergeTiles: only the target's flag is consulted. */
  predicate CanMergeTiles(source: Tile, target: Tile) {
    if target.wasMerged || target.value == 0 then false else source.value == target.value
  }

  /** A merge is allowed exactly into an occupied, unflagged target of the same
      value as the source; the source's own flag plays no part. */
  lemma CanMergeTilesSpec(source: Tile, target: Tile)
    ensures CanMergeTiles(source, target) <==>
      target.value != 0 && !target.wasMerged && source.value == target.value
    ensures CanMergeTiles(source, target) == CanMergeTiles(source.SetWasMerged(true), target)
  {
  }

  /** #moveTile from (r, c) to (tr, tc): only values move; both cells keep their flags. */
  function MoveCells(g: Grid, r: nat, c: nat, tr: nat, tc: nat): (h: Grid)
    requires InGrid(g, r, c) && InGrid(g, tr, tc) && (r != tr || c != tc)
    ensures |h| == |g| && forall i :: 0 <= i < |g| ==> |h[i]| == |g[i]|
    ensures h[tr][tc] == Tile(g[r][c].value, g[tr][tc].wasMerged)
    ensures h[r][c] == Tile(0, g[r][c].wasMerged)
    ensures forall i, j :: InGrid(g, i, j) && (i != r || j != c) && (i != tr || j != tc) ==> h[i][j] == g[i][j]
  {
    var h := SetCell(g, tr, tc, g[tr][tc].SetValue(g[r][c].value));
    SetCell(h, r, c, h[r][c].SetValue(0))
  }

  /** #mergeTile from (r, c) into (tr, tc): the target holds the sum and is flagged,
      the source is emptied and keeps its flag. The score gain is the new target value. */
  function MergeCells(g: Grid, r: nat, c: nat, tr: nat, tc: nat): (h: Grid)
    requires InGrid(g, r, c) && InGrid(g, tr, tc) && (r != tr || c != tc)
    ensures |h| == |g| && forall i :: 0 <= i < |g| ==> |h[i]| == |g[i]|
    ensures h[tr][tc] == Tile(g[tr][tc].value + g[r][c].value, true)
    ensures h[r][c] == Tile(0, g[r][c].wasMerged)
    ensures forall i, j :: InGrid(g, i, j) && (i != r || j != c) && (i != tr || j != tc) ==> h[i][j] == g[i][j]
  {
    var h := SetCell(g, tr, tc, g[tr][tc].SetValue(g[tr][tc].value + g[r][c].value));
    var h' := SetCell(h, r, c, h[r][c].SetValue(0));
    SetCell(h', tr, tc, h'[tr][tc].SetWasMerged(true))
  }

  // ---------------------------------------------------------------------------
  // Directions

  predicate Vertical(d: Direction) {
    d == Up || d == Down
  }

  /** The cell a tile at (r, c) tries next when pushed in direction d. */
  function Next(d: Direction, r: int, c: int): (int, int) {
    match d
    case Down => (r + 1, c)
    case Up => (r - 1, c)
    case Left => (r, c - 1)
    case Right => (r, c + 1)
  }

  /** Cell (i, j) lies on the line a push in direction d along (r, c) travels:
      the same column for UP and DOWN, the same row for LEFT and RIGHT. */
  predicate OnLine(d: Direction, r: int, c: int, i: int, j: int) {
    if Vertical(d) then j == c else i == r
  }

  /** How many cells lie between (r, c) and the edge d pushes towards. */
  function Distance(d: Direction, g: Grid, r: int, c: int): int {
    match d
    case Down => Rows(g) - 1 - r
    case Up => r
    case Left => c
    case Right => Cols(g) - 1 - c
  }

  /** Each step towards the edge stays on the same line and comes one cell closer
      to the edge; a cell with no next cell on the board lies against the edge. */
  lemma NextSpec(d: Direction, g: Grid, r: int, c: int)
    requires IsGrid(g) && InGrid(g, r, c)
    ensures Vertical(d) ==> Next(d, r, c).1 == c
    ensures !Vertical(d) ==> Next(d, r, c).0 == r
    ensures Distance(d, g, r, c) >= 0
    ensures InGrid(g, Next(d, r, c).0, Next(d, r, c).1) ==>
      Distance(d, g, Next(d, r, c).0, Next(d, r, c).1) == Distance(d, g, r, c) - 1
    ensures !InGrid(g, Next(d, r, c).0, Next(d, r, c).1) <==> Distance(d, g, r, c) == 0
  {
  }
}
