/** Shared declarations of the engine (src/types/index.ts). */
module Types {

  /** The four directions a player can push the tiles. */
  datatype Direction = Up | Down | Left | Right

  /** The one run-time failure of the engine: a move after the game ended. */
  datatype GameError = InvalidMoveGameIsOver

  const GameIsOverMessage: string := "Game has already ended, please reset the game."

  datatype Option<T> = None | Some(value: T)

  /** The outcome of `makeMove`: it either returns normally or throws. */
  datatype Outcome = Done | Fail(error: GameError)
}
