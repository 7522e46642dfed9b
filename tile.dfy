/** One cell of the board (src/tile.ts): a value, 0 meaning empty, and a flag
    telling whether the cell has absorbed another tile during the current move.
    The source keeps one mutable Tile object per cell for the whole game and never
    shares it between cells, so the model stores the record by value in the grid
    and writes it back after each change. */
module Tiles {

  datatype Tile = Tile(value: nat, wasMerged: bool) {

    /** The `value` setter: only the value changes. */
    function SetValue(v: nat): (t: Tile)
      ensures t.value == v
      ensures t.wasMerged == wasMerged
    {
      this.(value := v)
    }

    /** The `wasMerged` setter: only the flag changes. */
    function SetWasMerged(b: bool): (t: Tile)
      ensures t.wasMerged == b
      ensures t.value == value
    {
      this.(wasMerged := b)
    }
  }

  /** `new Tile(value)`: the flag starts cleared. */
  function NewTile(v: nat): (t: Tile)
    ensures t.value == v && !t.wasMerged
  {
    Tile(v, false)
  }

  /** Setting the value and then the flag gives the same record as the other order:
      the two setters touch disjoint fields. */
  lemma SettersCommute(t: Tile, v: nat, b: bool)
    ensures t.SetValue(v).SetWasMerged(b) == t.SetWasMerged(b).SetValue(v)
    ensures t.SetValue(v).SetWasMerged(b) == Tile(v, b)
  {
  }
}
