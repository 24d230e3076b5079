/**
 * The turn engine: it starts a game, accepts the active player's moves,
 * collects the squares they complete, decides when the game is over and
 * hands the turn to the other player. Listener calls are an event log of
 * deliveries, and the move requests it sends to the player logics are a
 * log of the logics asked to move.
 */
module Games {
  import opened Wrappers
  import opened GameBoardUtils
  import opened Players
  import opened Board
  import opened Squares
  import opened Collector
  import opened GameOver

  /** The identity of a listener object. */
  type Listener = nat

  /** The four notifications of a game logic listener. */
  datatype Event =
    | OnGameStarted(activePlayer: Player)
    | OnActivePlayerChanged(activePlayer: Player)
    | OnNewSquaresFound(player: Player, squares: seq<Square>)
    | OnGameOver(winner: Option<Player>)

  /** One listener called with one event. */
  datatype Delivery = Delivery(listener: Listener, event: Event)

  /** A player logic: the identity of the logic object and the player it plays for. */
  datatype PlayerLogic = PlayerLogic(id: nat, player: Player)

  /** The event delivered to each listener in turn. */
  function Notify(listeners: seq<Listener>, e: Event): seq<Delivery>
  {
    if listeners == [] then []
    else Notify(listeners[..|listeners| - 1], e) + [Delivery(listeners[|listeners| - 1], e)]
  }

  /** The parts of a game logic fixed at construction. */
  datatype Config = Config(playerLogic1: PlayerLogic, playerLogic2: PlayerLogic, verifier: GameOverVerifier)

  /** The parts of a game logic that change: board, stored squares, listeners, turn and the two logs. */
  datatype State = State(
    board: GameBoard,
    stored: map<seq<int>, Square>,
    listeners: seq<Listener>,
    active: Option<PlayerLogic>,
    started: bool,
    delivered: seq<Delivery>,
    requests: seq<PlayerLogic>)

  /**
   * The board belongs to the two logics' players, which differ; a game is
   * started exactly when a logic is active, and the active logic is one of
   * the two.
   */
  predicate Consistent(c: Config, s: State)
  {
    && WellFormed(s.board)
    && s.board.player1 == c.playerLogic1.player && s.board.player2 == c.playerLogic2.player
    && c.playerLogic1.player != c.playerLogic2.player
    && c.verifier.minDifference >= 1
    && (s.started <==> s.active.Some?)
    && (s.active.Some? ==> s.active.value == c.playerLogic1 || s.active.value == c.playerLogic2)
  }

  /** checkPlayers as written: the board's getter is called as a method, which throws whenever the check gets that far. */
  function CheckPlayersAsWritten(b: GameBoard, player1: Player, player2: Player): Outcome
  {
    if player1 == player2 then Fail(SamePlayer) else Fail(NotCallable)
  }

  /** No pair of players gets past checkPlayers as written. */
  lemma CheckPlayersAsWrittenRejectsAll(b: GameBoard, player1: Player, player2: Player)
    ensures CheckPlayersAsWritten(b, player1, player2).Fail?
  {
  }

  /** The board of two distinct named players, with those players in order, passes the intended check and not the written one. */
  lemma CheckPlayersAsWrittenRejectsMatchingPlayers(b: GameBoard)
    requires b.player1 == Player(1, "player 1") && b.player2 == Player(2, "player 2")
    ensures CheckPlayers(b, b.player1, b.player2) == Pass
    ensures CheckPlayersAsWritten(b, b.player1, b.player2) == Fail(NotCallable)
  {
  }

  /** checkPlayers as intended: distinct players, equal to the board's player1 and player2. */
  function CheckPlayers(b: GameBoard, player1: Player, player2: Player): (r: Outcome)
    ensures r == Pass <==> player1 != player2 && player1 == b.player1 && player2 == b.player2
    ensures player1 == player2 ==> r == Fail(SamePlayer)
    ensures player1 != player2 && (player1 != b.player1 || player2 != b.player2) ==> r == Fail(PlayersMismatch)
  {
    if player1 == player2 then Fail(SamePlayer)
    else if player1 != b.player1 || player2 != b.player2 then Fail(PlayersMismatch)
    else Pass
  }

  /** fireOn...: the event goes to every listener, in the order they were added. */
  function Fired(s: State, e: Event): State
  {
    s.(delivered := s.delivered + Notify(s.listeners, e))
  }

  /** setActivePlayerLogicTo: the logic becomes active, the listeners hear of it, and the logic is asked to move. */
  function Activated(s: State, l: PlayerLogic): State
  {
    var s' := Fired(s.(active := Some(l)), OnActivePlayerChanged(l.player));
    s'.(requests := s'.requests + [l])
  }

  /** The logic that is not l. */
  function OtherLogic(c: Config, l: Option<PlayerLogic>): PlayerLogic
  {
    if l == Some(c.playerLogic1) then c.playerLogic2 else c.playerLogic1
  }

  /** The winner announced for a verdict: none for a draw. */
  function Winner(c: Config, state: GameOverState): Option<Player>
  {
    match state
    case Player1Won => Some(c.playerLogic1.player)
    case Player2Won => Some(c.playerLogic2.player)
    case _ => None
  }

  /** The verdict of the game over verifier on a state. */
  ghost function Verdict(c: Config, s: State): GameOverState
    requires Consistent(c, s)
  {
    GameOverStateOf(c.verifier, Tally(s.stored, s.board.player1, ScoreSum),
                    Tally(s.stored, s.board.player2, ScoreSum), PossibleMovesOf(s.board))
  }

  /** The state after startGame(p), and its outcome. */
  function Started(c: Config, s: State, p: Player): (Outcome, State)
  {
    if p != c.playerLogic1.player && p != c.playerLogic2.player then (Fail(UnknownPlayer), s)
    else
      var s1 := s.(board := ClearAllFields(s.board), stored := map[], started := true);
      var s2 := Fired(s1, OnGameStarted(p));
      (Pass, Activated(s2, if p == c.playerLogic1.player then c.playerLogic1 else c.playerLogic2))
  }

  /** The state after the active player's move on index, and the callback's result. */
  ghost function Moved(c: Config, s: State, index: int): (Result<bool>, State)
    requires Consistent(c, s)
  {
    if !s.started then (Err(GameNotStarted), s)
    else if !IsIndex(index) then (Err(IndexOutOfRange), s)
    else if s.board.cells[index] != None then (Ok(false), s)
    else
      var mover := s.active.value.player;
      var board := PlacePieceOnField(s.board, index, mover).value;
      var found := NewSquares(s.stored, board, mover);
      var s1 := s.(board := board, stored := AddAll(s.stored, found));
      var s2 := if found == [] then s1 else Fired(s1, OnNewSquaresFound(mover, found));
      var verdict := Verdict(c, s2);
      if verdict == NotOver then (Ok(true), Activated(s2, OtherLogic(c, s.active)))
      else (Ok(true), Fired(s2, OnGameOver(Winner(c, verdict))))
  }

  /** removeGameLogicListener: the listeners other than l, in their order. */
  function Without(listeners: seq<Listener>, l: Listener): seq<Listener>
  {
    if listeners == [] then []
    else Without(listeners[..|listeners| - 1], l) + (if listeners[|listeners| - 1] == l then [] else [listeners[|listeners| - 1]])
  }

  /** Removing a listener drops every occurrence of it and keeps every other one as often as before. */
  lemma {:induction false} WithoutRemovesAll(listeners: seq<Listener>, l: Listener)
    ensures l !in Without(listeners, l)
    ensures forall x | x != l :: multiset(Without(listeners, l))[x] == multiset(listeners)[x]
    ensures multiset(Without(listeners, l))[l] == 0
    decreases |listeners|
  {
    if listeners != [] {
      var init := listeners[..|listeners| - 1];
      WithoutRemovesAll(init, l);
      assert listeners == init + [listeners[|listeners| - 1]];
    }
  }

  /** Removal keeps the order: it acts on each part of a listener list separately. */
  lemma {:induction false} WithoutKeepsOrder(a: seq<Listener>, b: seq<Listener>, l: Listener)
    ensures Without(a + b, l) == Without(a, l) + Without(b, l)
    decreases |b|
  {
    if b == [] {
      assert a + b == a;
    } else {
      var b' := b[..|b| - 1];
      WithoutKeepsOrder(a, b', l);
      assert (a + b)[..|a + b| - 1] == a + b';
    }
  }

  /** A list without l is left as it is. */
  lemma {:induction false} WithoutAbsent(listeners: seq<Listener>, l: Listener)
    requires l !in listeners
    ensures Without(listeners, l) == listeners
    decreases |listeners|
  {
    if listeners != [] {
      var init := listeners[..|listeners| - 1];
      assert l !in init by {
        assert forall x | x in init :: x in listeners;
      }
      WithoutAbsent(init, l);
    }
  }

  lemma {:induction false} NotifyAt(listeners: seq<Listener>, e: Event)
    ensures |Notify(listeners, e)| == |listeners|
    ensures forall k | 0 <= k < |listeners| :: Notify(listeners, e)[k] == Delivery(listeners[k], e)
    decreases |listeners|
  {
    if listeners != [] {
      NotifyAt(listeners[..|listeners| - 1], e);
    }
  }

  /** startGame refuses a player of neither logic and then changes nothing. */
  lemma {:induction false} StartGameRejectsStranger(c: Config, s: State, p: Player)
    requires p != c.playerLogic1.player && p != c.playerLogic2.player
    ensures Started(c, s, p) == (Fail(UnknownPlayer), s)
  {
  }

  /**
   * startGame(p) for a player of the game: the board and the squares are
   * empty, the game is started, p's logic is active and asked to move, and
   * every listener hears first that the game started and then that p is
   * active.
   */
  lemma {:induction false} StartGameAnnouncesStartFirst(c: Config, s: State, p: Player)
    requires Consistent(c, s) && (p == c.playerLogic1.player || p == c.playerLogic2.player)
    ensures var (r, s') := Started(c, s, p);
            && r == Pass && Consistent(c, s')
            && AllEmpty(s'.board) && s'.stored == map[] && s'.started
            && s'.active.value.player == p && s'.requests == s.requests + [s'.active.value]
            && s'.listeners == s.listeners
            && |s'.delivered| == |s.delivered| + 2 * |s.listeners|
            && s'.delivered[..|s.delivered|] == s.delivered
            && (forall k | 0 <= k < |s.listeners| ::
                  && s'.delivered[|s.delivered| + k] == Delivery(s.listeners[k], OnGameStarted(p))
                  && s'.delivered[|s.delivered| + |s.listeners| + k] == Delivery(s.listeners[k], OnActivePlayerChanged(p)))
  {
    NotifyAt(s.listeners, OnGameStarted(p));
    NotifyAt(s.listeners, OnActivePlayerChanged(p));
  }

  /** A move that is refused, or lands on an occupied field, changes nothing. */
  lemma {:induction false} RejectedMoveChangesNothing(c: Config, s: State, index: int)
    requires Consistent(c, s)
    requires !s.started || !IsIndex(index) || s.board.cells[index] != None
    ensures Moved(c, s, index).1 == s
    ensures Moved(c, s, index).0 == (if !s.started then Err(GameNotStarted) else if !IsIndex(index) then Err(IndexOutOfRange) else Ok(false))
  {
  }

  /**
   * A move on an empty field of a started game puts the active player's
   * piece there, leaves the other fields alone, keeps every stored square
   * and stores every square it completes for the mover.
   */
  lemma {:induction false} MovePlacesPiece(c: Config, s: State, index: Index)
    requires Consistent(c, s) && s.started && s.board.cells[index] == None
    ensures var (r, s') := Moved(c, s, index);
            && r == Ok(true)
            && s'.board.cells[index] == Some(s.active.value.player)
            && (forall k | 0 <= k < 64 && k != index :: s'.board.cells[k] == s.board.cells[k])
            && (forall k | k in s.stored :: k in s'.stored && s'.stored[k] == s.stored[k])
            && (forall x | x in NewSquares(s.stored, s'.board, s.active.value.player) ::
                  Key(x) in s'.stored && x.player == s.active.value.player && Owned(s'.board, x, x.player))
  {
    var mover := s.active.value.player;
    var board := PlacePieceOnField(s.board, index, mover).value;
    MovedParts(c, s, index);
    StoreScan(s.stored, board, mover);
  }

  /** A move that lands leaves the board with the piece placed and the store with the squares it completes. */
  lemma {:induction false} MovedParts(c: Config, s: State, index: Index)
    requires Consistent(c, s) && s.started && s.board.cells[index] == None
    ensures var mover := s.active.value.player;
            var board := PlacePieceOnField(s.board, index, mover).value;
            var (r, s') := Moved(c, s, index);
            && r == Ok(true) && s'.board == board
            && s'.stored == AddAll(s.stored, NewSquares(s.stored, board, mover))
  {
    var mover := s.active.value.player;
    var board := PlacePieceOnField(s.board, index, mover).value;
    var found := NewSquares(s.stored, board, mover);
    var s1 := s.(board := board, stored := AddAll(s.stored, found));
    var s2 := if found == [] then s1 else Fired(s1, OnNewSquaresFound(mover, found));
    assert s2.board == board && s2.stored == s1.stored;
  }

  /**
   * After a move on an empty field, either the game goes on and the turn
   * passes to the other logic, which is asked to move, or the game is over,
   * the turn stays, nobody is asked to move, and the listeners hear the
   * verdict last.
   */
  lemma {:induction false} MoveHandsTurnOver(c: Config, s: State, index: Index)
    requires Consistent(c, s) && s.started && s.board.cells[index] == None
    ensures var s' := Moved(c, s, index).1;
            && Consistent(c, s')
            && s'.listeners == s.listeners
            && ((&& s'.active.Some? && s'.active != s.active
                 && s'.requests == s.requests + [s'.active.value]
                 && (s.listeners != [] ==> s'.delivered[|s'.delivered| - 1] == Delivery(s.listeners[|s.listeners| - 1], OnActivePlayerChanged(s'.active.value.player))))
                || (&& s'.active == s.active && s'.requests == s.requests
                    && (s.listeners != [] ==> s'.delivered[|s'.delivered| - 1].event.OnGameOver?)))
  {
    var mover := s.active.value.player;
    var board := PlacePieceOnField(s.board, index, mover).value;
    var found := NewSquares(s.stored, board, mover);
    var s1 := s.(board := board, stored := AddAll(s.stored, found));
    var s2 := if found == [] then s1 else Fired(s1, OnNewSquaresFound(mover, found));
    assert Consistent(c, s2);
    var verdict := Verdict(c, s2);
    if verdict == NotOver {
      NotifyAt(s.listeners, OnActivePlayerChanged(OtherLogic(c, s.active).player));
    } else {
      NotifyAt(s.listeners, OnGameOver(Winner(c, verdict)));
    }
  }

  /** Every step keeps the state consistent. */
  lemma {:induction false} StepsKeepConsistent(c: Config, s: State, p: Player, index: int)
    requires Consistent(c, s)
    ensures Consistent(c, Started(c, s, p).1)
    ensures Consistent(c, Moved(c, s, index).1)
  {
    if IsIndex(index) && s.started && s.board.cells[index] == None {
      MoveHandsTurnOver(c, s, index);
    }
  }

  /** Every step keeps the store sound for the board: each stored square lies on its player's pieces. */
  lemma {:induction false} StepsKeepStoreOwned(c: Config, s: State, p: Player, index: int)
    requires Consistent(c, s) && StoreOwned(s.stored, s.board)
    ensures var s' := Started(c, s, p).1; WellFormed(s'.board) && StoreOwned(s'.stored, s'.board)
    ensures var s' := Moved(c, s, index).1; WellFormed(s'.board) && StoreOwned(s'.stored, s'.board)
  {
    StepsKeepConsistent(c, s, p, index);
    if IsIndex(index) && s.started && s.board.cells[index] == None {
      var mover := s.active.value.player;
      MovedParts(c, s, index);
      PlaceKeepsOwned(s.stored, s.board, index, mover);
      ScanKeepsOwned(s.stored, PlacePieceOnField(s.board, index, mover).value, mover);
    }
  }

  /**
   * With a sound store, after a move every square the mover holds on the
   * new board is stored as itself: no square of the other player stored on
   * the same fields can stand in for it.
   */
  lemma {:induction false} MoveStoresOwnedSquares(c: Config, s: State, index: Index, sq: Square)
    requires Consistent(c, s) && StoreOwned(s.stored, s.board) && s.started && s.board.cells[index] == None
    requires var s' := Moved(c, s, index).1;
             ValidSquare(sq) && sq.player == s.active.value.player && Owned(s'.board, sq, sq.player)
    ensures var s' := Moved(c, s, index).1; Key(sq) in s'.stored && s'.stored[Key(sq)] == sq
  {
    var mover := s.active.value.player;
    var board := PlacePieceOnField(s.board, index, mover).value;
    var found := NewSquares(s.stored, board, mover);
    MovedParts(c, s, index);
    PlaceKeepsOwned(s.stored, s.board, index, mover);
    OwnedSquareFoundOrStored(s.stored, board, mover, sq);
    StoreScan(s.stored, board, mover);
    if sq in found {
      NewSquaresSound(s.stored, board, mover);
      AddAllStores(s.stored, found, mover);
      var i :| 0 <= i < |found| && found[i] == sq;
    }
  }

  /** A game over is announced with the winner's player, and with none exactly for a draw. */
  lemma {:induction false} WinnerMatchesVerdict(c: Config, state: GameOverState)
    ensures Winner(c, state) == Some(c.playerLogic1.player) <== state == Player1Won
    ensures Winner(c, state) == Some(c.playerLogic2.player) <== state == Player2Won
    ensures Winner(c, state).None? <==> state == GameDraw || state == NotOver
  {
  }

  class GameLogic {
    var gameBoard: GameBoard
    const playerLogic1: PlayerLogic
    const playerLogic2: PlayerLogic
    const player1: Player
    const player2: Player
    var listeners: seq<Listener>
    var activePlayerLogic: Option<PlayerLogic>
    var isStarted: bool
    const squareCollector: SquareCollector
    const gameOverVerifier: GameOverVerifier
    /** Every listener call made so far, in order. */
    var delivered: seq<Delivery>
    /** Every requestMove made so far: the logic asked to move. */
    var requests: seq<PlayerLogic>

    function Setup(): Config
    {
      Config(playerLogic1, playerLogic2, gameOverVerifier)
    }

    ghost function Snapshot(): State
      reads this, squareCollector, squareCollector.squares
    {
      State(gameBoard, squareCollector.Stored(), listeners, activePlayerLogic, isStarted, delivered, requests)
    }

    ghost predicate Valid()
      reads this, squareCollector, squareCollector.squares
    {
      && squareCollector.Valid()
      && Consistent(Setup(), Snapshot())
      && StoreOwned(squareCollector.Stored(), gameBoard)
      && player1 == playerLogic1.player && player2 == playerLogic2.player
    }

    /** The constructor, for logics that pass the intended checkPlayers. */
    constructor (gameBoard: GameBoard, playerLogic1: PlayerLogic, playerLogic2: PlayerLogic)
      requires WellFormed(gameBoard) && CheckPlayers(gameBoard, playerLogic1.player, playerLogic2.player) == Pass
      ensures Valid() && fresh(squareCollector) && fresh(squareCollector.squares)
      ensures Setup() == Config(playerLogic1, playerLogic2, GameOverVerifier(150, 15))
      ensures Snapshot() == State(gameBoard, map[], [], None, false, [], [])
    {
      this.gameBoard := gameBoard;
      this.playerLogic1 := playerLogic1;
      this.playerLogic2 := playerLogic2;
      player1 := playerLogic1.player;
      player2 := playerLogic2.player;
      listeners := [];
      activePlayerLogic := None;
      isStarted := false;
      squareCollector := new SquareCollector();
      gameOverVerifier := GameOverVerifier(150, 15);
      delivered := [];
      requests := [];
    }

    /** new GameLogic(...): fails as checkPlayers does; a new game is not started and has no active player. */
    static method Create(gameBoard: GameBoard, playerLogic1: PlayerLogic, playerLogic2: PlayerLogic)
      returns (r: Result<GameLogic>)
      requires WellFormed(gameBoard)
      ensures r.Err? <==> CheckPlayers(gameBoard, playerLogic1.player, playerLogic2.player).Fail?
      ensures r.Err? ==> r.error == CheckPlayers(gameBoard, playerLogic1.player, playerLogic2.player).error
      ensures r.Ok? ==> fresh(r.value) && fresh(r.value.squareCollector) && fresh(r.value.squareCollector.squares)
      ensures r.Ok? ==> r.value.Valid() && !r.value.IsGameStarted() && r.value.GetActivePlayer() == None
      ensures r.Ok? ==> r.value.Snapshot() == State(gameBoard, map[], [], None, false, [], [])
    {
      var check := CheckPlayers(gameBoard, playerLogic1.player, playerLogic2.player);
      if check.Fail? {
        return Err(check.error);
      }
      var g := new GameLogic(gameBoard, playerLogic1, playerLogic2);
      r := Ok(g);
    }

    /** The fireOn... loops: e goes to each listener in turn. */
    method Fire(e: Event)
      requires Valid()
      modifies this
      ensures Valid() && Snapshot() == Fired(old(Snapshot()), e)
    {
      var k := 0;
      ghost var before := delivered;
      while k < |listeners|
        invariant 0 <= k <= |listeners|
        invariant delivered == before + Notify(listeners[..k], e)
        invariant Valid() && Snapshot() == old(Snapshot()).(delivered := delivered)
      {
        assert listeners[..k + 1][..k] == listeners[..k];
        delivered := delivered + [Delivery(listeners[k], e)];
        k := k + 1;
      }
      assert listeners[..k] == listeners;
    }

    /** setActivePlayerLogicTo. */
    method SetActivePlayerLogicTo(l: PlayerLogic)
      requires Valid() && isStarted && (l == playerLogic1 || l == playerLogic2)
      modifies this
      ensures Valid() && Snapshot() == Activated(old(Snapshot()), l)
    {
      activePlayerLogic := Some(l);
      Fire(OnActivePlayerChanged(l.player));
      requests := requests + [l];
    }

    /** switchActivePlayer. */
    method SwitchActivePlayer()
      requires Valid() && isStarted
      modifies this
      ensures Valid() && Snapshot() == Activated(old(Snapshot()), OtherLogic(Setup(), old(activePlayerLogic)))
    {
      if activePlayerLogic == Some(playerLogic1) {
        SetActivePlayerLogicTo(playerLogic2);
      } else {
        SetActivePlayerLogicTo(playerLogic1);
      }
    }

    /** startGame(p). */
    method StartGame(p: Player) returns (r: Outcome)
      requires Valid()
      modifies this, squareCollector.squares
      ensures Valid() && (r, Snapshot()) == Started(Setup(), old(Snapshot()), p)
    {
      if p != player1 && p != player2 {
        return Fail(UnknownPlayer);
      }
      gameBoard := ClearAllFields(gameBoard);
      squareCollector.Reset();
      isStarted := true;
      // set again by setActivePlayerLogicTo below; set here so that a started game always has an active logic
      activePlayerLogic := Some(if p == player1 then playerLogic1 else playerLogic2);
      Fire(OnGameStarted(p));
      if p == player1 {
        SetActivePlayerLogicTo(playerLogic1);
      } else {
        SetActivePlayerLogicTo(playerLogic2);
      }
      r := Pass;
    }

    /** checkGameBoardForSquares: detect the mover's new squares and announce them if there are any. */
    method CheckGameBoardForSquares(p: Player)
      requires Valid()
      modifies this, squareCollector.squares
      ensures Valid()
      ensures var found := NewSquares(old(squareCollector.Stored()), gameBoard, p);
              var s1 := old(Snapshot()).(stored := AddAll(old(squareCollector.Stored()), found));
              Snapshot() == if found == [] then s1 else Fired(s1, OnNewSquaresFound(p, found))
    {
      ScanKeepsOwned(squareCollector.Stored(), gameBoard, p);
      var foundSquares := squareCollector.DetectNewSquares(gameBoard, p);
      if |foundSquares| == 0 {
        return;
      }
      Fire(OnNewSquaresFound(p, foundSquares));
    }

    /** checkIfGameIsOver: a verdict other than NOT_OVER is announced with its winner. */
    method CheckIfGameIsOver() returns (over: bool)
      requires Valid()
      modifies this
      ensures Valid()
      ensures over <==> Verdict(Setup(), old(Snapshot())) != NotOver
      ensures Snapshot() == if over then Fired(old(Snapshot()), OnGameOver(Winner(Setup(), Verdict(Setup(), old(Snapshot())))))
                            else old(Snapshot())
    {
      var state := IsGameOver(gameOverVerifier, gameBoard, squareCollector);
      match state
      case NotOver =>
        return false;
      case Player1Won =>
        Fire(OnGameOver(Some(player1)));
        return true;
      case Player2Won =>
        Fire(OnGameOver(Some(player2)));
        return true;
      case GameDraw =>
        Fire(OnGameOver(None));
        return true;
    }

    /** The makeMove callback: the active player's move on index. */
    method MakeMove(index: int) returns (r: Result<bool>)
      requires Valid()
      modifies this, squareCollector.squares
      ensures Valid() && (r, Snapshot()) == Moved(Setup(), old(Snapshot()), index)
    {
      if !isStarted {
        return Err(GameNotStarted);
      }
      var check := AssertIndex(index);
      if check.Fail? {
        return Err(check.error);
      }
      if !IsFieldEmpty(gameBoard, index).value {
        return Ok(false);
      }
      var mover := activePlayerLogic.value.player;
      PlaceKeepsOwned(squareCollector.Stored(), gameBoard, index, mover);
      gameBoard := PlacePieceOnField(gameBoard, index, mover).value;
      CheckGameBoardForSquares(mover);
      var over := CheckIfGameIsOver();
      if !over {
        SwitchActivePlayer();
      }
      r := Ok(true);
    }

    /** getActivePlayer: none before the first startGame. */
    function GetActivePlayer(): (r: Option<Player>)
      reads this
      ensures r.Some? <==> activePlayerLogic.Some?
      ensures r.Some? ==> r.value == activePlayerLogic.value.player
    {
      match activePlayerLogic
      case None => None
      case Some(l) => Some(l.player)
    }

    /** isGameStarted. */
    function IsGameStarted(): bool
      reads this
    {
      isStarted
    }

    /** getGameBoard. */
    function GetGameBoard(): GameBoard
      reads this
    {
      gameBoard
    }

    /** getSquares: every stored square once. */
    method GetSquares() returns (r: seq<Square>)
      requires Valid()
      ensures |r| == |squareCollector.Stored().Keys|
      ensures forall k | k in squareCollector.Stored() :: squareCollector.Stored()[k] in r
      ensures forall x | x in r :: Key(x) in squareCollector.Stored() && squareCollector.Stored()[Key(x)] == x
    {
      r := squareCollector.GetDetectedSquares();
    }

    /** getScore: the sum of the scores of p's stored squares. */
    method GetScore(p: Player) returns (score: int)
      requires Valid()
      ensures score == Tally(squareCollector.Stored(), p, ScoreSum)
    {
      score := squareCollector.GetScore(p);
    }

    /** getSquareCount: the number of p's stored squares. */
    method GetSquareCount(p: Player) returns (count: int)
      requires Valid()
      ensures count == Tally(squareCollector.Stored(), p, SquareCount)
    {
      count := squareCollector.GetSquareCount(p);
    }

    /** addGameLogicListener: l hears every later event, after the listeners added before it. */
    method AddGameLogicListener(l: Listener)
      requires Valid()
      modifies this
      ensures Valid() && Snapshot() == old(Snapshot()).(listeners := old(listeners) + [l])
    {
      listeners := listeners + [l];
    }

    /** removeGameLogicListener. */
    method RemoveGameLogicListener(l: Listener)
      requires Valid()
      modifies this
      ensures Valid() && Snapshot() == old(Snapshot()).(listeners := Without(old(listeners), l))
    {
      listeners := Without(listeners, l);
    }
  }
}
