/**
 * One turn of each kind of player: the game asks a logic to move, and the
 * logic answers through the game's makeMove callback. A turn is one step;
 * the request the game makes next is in its log of requests.
 */
module Play {
  import opened Wrappers
  import opened GameBoardUtils
  import opened Board
  import opened Bots
  import opened Humans
  import opened Games

  /**
   * The bot's turn: requestMove picks a move on the game's board and hands
   * it to makeMove, once. On a board with an empty field the move is one of
   * the best fields for the bot and lands.
   */
  method BotTurn(game: GameLogic, bot: BotPlayerLogic, draws: seq<nat>) returns (move: Result<Index>, r: Result<bool>)
    requires game.Valid() && game.isStarted && |draws| == 64
    modifies game, game.squareCollector.squares
    ensures game.Valid()
    ensures move.Ok? <==> exists k | 0 <= k < 64 :: old(game.gameBoard).cells[k] == None
    ensures move.Ok? ==> IsBestMove(old(game.gameBoard), HeatMapsOf(old(game.gameBoard), bot.player, bot.strategy), move.value)
    ensures move.Ok? ==> r == Ok(true) && (r, game.Snapshot()) == Moved(game.Setup(), old(game.Snapshot()), move.value)
    ensures move.Err? ==> r == Err(move.error) && game.Snapshot() == old(game.Snapshot())
  {
    move := bot.RequestMove(game.GetGameBoard(), draws);
    if move.Err? {
      r := Err(move.error);
      return;
    }
    r := game.MakeMove(move.value);
  }

  /**
   * The user places a piece: an index outside 0..63 fails, an inactive
   * player's piece is refused, and an active player's index goes to the
   * game's makeMove, whose result is returned.
   */
  method HumanPlacePiece(game: GameLogic, human: HumanPlayerLogic<GameLogic>, index: int) returns (r: Result<bool>)
    requires game.Valid() && human.Valid() && (human.logicCallback.Some? ==> human.logicCallback.value == game)
    modifies game, game.squareCollector.squares, human
    ensures game.Valid() && human.Valid()
    ensures !IsIndex(index) ==> r == Err(IndexOutOfRange) && game.Snapshot() == old(game.Snapshot())
                                && human.playerActive == old(human.playerActive)
    ensures IsIndex(index) ==> !human.playerActive
    ensures IsIndex(index) && !old(human.playerActive) ==> r == Ok(false) && game.Snapshot() == old(game.Snapshot())
    ensures IsIndex(index) && old(human.playerActive) ==> (r, game.Snapshot()) == Moved(game.Setup(), old(game.Snapshot()), index)
  {
    var forward := human.PlacePiece(index);
    match forward
    case Err(e) =>
      r := Err(e);
    case Ok(None) =>
      r := Ok(false);
    case Ok(Some(callback)) =>
      r := callback.MakeMove(index);
  }
}
