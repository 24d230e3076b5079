/**
 * The player logic behind a user interface: a latch that is opened when the
 * game asks for a move and closed by the one move the user places.
 */
module Humans {
  import opened Wrappers
  import opened GameBoardUtils
  import opened Players

  /** The logic of a human player; C is the type of the game's move callback. */
  class HumanPlayerLogic<C> {
    const player: Player
    /** True while the game waits for this player's move. */
    var playerActive: bool
    /** The callback of the last move request. */
    var logicCallback: Option<C>

    /** An active player always has a callback to forward the move to. */
    ghost predicate Valid()
      reads this
    {
      playerActive ==> logicCallback.Some?
    }

    /** The player is inactive after construction. */
    constructor (player: Player)
      ensures Valid() && this.player == player
      ensures !playerActive && logicCallback == None
    {
      this.player := player;
      playerActive := false;
      logicCallback := None;
    }

    /** requestMove: the callback is kept and the player becomes active. */
    method RequestMove(callback: C)
      modifies this
      ensures Valid() && playerActive && logicCallback == Some(callback)
    {
      logicCallback := Some(callback);
      playerActive := true;
    }

    /** isPlayerActive. */
    function IsPlayerActive(): bool
      reads this
    {
      playerActive
    }

    /**
     * placePiece: an index outside 0..63 fails and an inactive player
     * forwards nothing (Ok(None), the source's false); an active player
     * becomes inactive and the index goes to the callback it returns.
     */
    method PlacePiece(index: int) returns (r: Result<Option<C>>)
      requires Valid()
      modifies this
      ensures Valid() && logicCallback == old(logicCallback)
      ensures !IsIndex(index) ==> r == Err(IndexOutOfRange) && playerActive == old(playerActive)
      ensures IsIndex(index) && !old(playerActive) ==> r == Ok(None) && !playerActive
      ensures IsIndex(index) && old(playerActive) ==> r == Ok(old(logicCallback)) && r.value.Some? && !playerActive
    {
      var check := AssertIndex(index);
      if check.Fail? {
        return Err(check.error);
      }
      if !IsPlayerActive() {
        return Ok(None);
      }
      playerActive := false;
      r := Ok(logicCallback);
    }
  }

  /**
   * One request lets exactly one move through: after the request the first
   * valid placePiece forwards the index and a second one forwards nothing.
   */
  method OneMovePerRequest<C>(human: HumanPlayerLogic<C>, callback: C, first: Index, second: int)
    returns (r1: Result<Option<C>>, r2: Result<Option<C>>)
    modifies human
    ensures r1 == Ok(Some(callback))
    ensures r2 == (if IsIndex(second) then Ok(None) else Err(IndexOutOfRange))
  {
    human.RequestMove(callback);
    r1 := human.PlacePiece(first);
    r2 := human.PlacePiece(second);
  }
}
