/** Option, Result and the error kinds the rules engine raises. */
module Wrappers {

  datatype Option<+T> = None | Some(value: T)

  /** The reasons for which an operation of the engine throws. */
  datatype Error =
    | CoordOutOfRange      // a coordinate outside 0..7
    | IndexOutOfRange      // a field index outside 0..63
    | RootsUnordered       // getPossiblePieces called with the larger index first
    | NotASquare           // a square built from four fields that do not form one
    | SamePlayer           // both players (or both strategies) are the same player
    | SameName             // the board's two players share a name
    | EmptyName            // a player without a name
    | PlayersMismatch      // strategy players differ from the board's players
    | NotCallable          // a property getter invoked as if it were a method
    | InvalidThreshold     // a game-over threshold below 1
    | UnknownPlayer        // a player that is neither of the two
    | FieldOccupied        // a piece placed on a field that already holds one
    | GameNotStarted       // a move before the game was started

  datatype Result<+T> = Ok(value: T) | Err(error: Error)

  datatype Outcome = Pass | Fail(error: Error)
}
