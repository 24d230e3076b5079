/**
 * The game over verifier: a score threshold and lead decide the game
 * first; otherwise a scan of every quadruple of the board tells which
 * players can still complete a square, and that decides.
 */
module GameOver {
  import opened Wrappers
  import opened GameBoardUtils
  import opened SquareUtils
  import opened Players
  import opened Board
  import opened Collector

  datatype GameOverState = NotOver | Player1Won | Player2Won | GameDraw

  datatype PossibleMoves = BothPlayers | OnlyPlayer1 | OnlyPlayer2 | NoPlayer

  /** The minimum score to win and the minimum lead over the other player. */
  datatype GameOverVerifier = GameOverVerifier(minScore: int, minDifference: int)

  /** The constructor: both thresholds must be at least 1. */
  function NewGameOverVerifier(minScore: int, minDifference: int): (r: Result<GameOverVerifier>)
    ensures r.Ok? <==> minScore >= 1 && minDifference >= 1
    ensures r.Err? ==> r.error == InvalidThreshold
    ensures r.Ok? ==> r.value.minScore == minScore && r.value.minDifference == minDifference
  {
    if minScore < 1 then Err(InvalidThreshold)
    else if minDifference < 1 then Err(InvalidThreshold)
    else Ok(GameOverVerifier(minScore, minDifference))
  }

  /** The thresholds the tests reject. */
  lemma NewGameOverVerifierExamples()
    ensures NewGameOverVerifier(-1, 15).Err? && NewGameOverVerifier(0, 15).Err?
    ensures NewGameOverVerifier(150, -1).Err? && NewGameOverVerifier(150, 0).Err?
    ensures NewGameOverVerifier(150, 15) == Ok(GameOverVerifier(150, 15))
  {
  }

  /** What the four fields of a quadruple hold: pieces of player 1, of anyone else, empty fields. */
  datatype Flags = Flags(hasPlayer1: bool, hasPlayer2: bool, hasEmpty: bool)

  ghost function FlagsOf(pieces: seq<Option<Player>>, player1: Player): Flags
  {
    Flags(
      exists m | 0 <= m < |pieces| :: pieces[m] == Some(player1),
      exists m | 0 <= m < |pieces| :: pieces[m].Some? && pieces[m] != Some(player1),
      exists m | 0 <= m < |pieces| :: pieces[m] == None)
  }

  /**
   * The kind of a quadruple: one player can still complete it (it holds
   * that player's pieces and an empty field, and none of the other's),
   * either can (it is all empty), or nobody can.
   */
  datatype Kind = NoSquare | Player1Open | Player2Open | Free | Closed

  function KindOf(f: Flags): Kind
  {
    if f.hasPlayer1 && !f.hasPlayer2 && f.hasEmpty then Player1Open
    else if f.hasPlayer2 && !f.hasPlayer1 && f.hasEmpty then Player2Open
    else if !f.hasPlayer1 && !f.hasPlayer2 && f.hasEmpty then Free
    else Closed
  }

  /** The pieces on the roots i, j and their companions c, d. */
  function Pieces(b: GameBoard, i: Index, j: Index, c: Index, d: Index): seq<Option<Player>>
    requires WellFormed(b)
  {
    [b.cells[i], b.cells[j], b.cells[c], b.cells[d]]
  }

  /** The kind of the quadruple over the roots i < j. */
  ghost function KindAt(b: GameBoard, i: Index, j: Index): Kind
    requires WellFormed(b) && i < j
  {
    match Companions(i, j)
    case None => NoSquare
    case Some((c, d)) => KindOf(FlagsOf(Pieces(b, i, j, c, d), b.player1))
  }

  /** Some quadruple with first root below i has kind k. */
  ghost predicate SeenBefore(b: GameBoard, k: Kind, i: int)
    requires WellFormed(b) && i <= 55
  {
    exists i', j' | 0 <= i' < i && i' < j' < 64 :: KindAt(b, i', j') == k
  }

  /** Some quadruple over the roots i and j' with j' below j has kind k. */
  ghost predicate SeenInRow(b: GameBoard, k: Kind, i: Index, j: int)
    requires WellFormed(b)
  {
    exists j' | i < j' < j && j' < 64 :: KindAt(b, i, j') == k
  }

  /** Some quadruple of the board has kind k. */
  ghost predicate AnyQuad(b: GameBoard, k: Kind)
    requires WellFormed(b)
  {
    SeenBefore(b, k, 55)
  }

  /**
   * Which players can still complete a square: both when some quadruple is
   * all empty or each player has an open one, otherwise the players that
   * have an open quadruple.
   */
  ghost function PossibleMovesOf(b: GameBoard): PossibleMoves
    requires WellFormed(b)
  {
    if AnyQuad(b, Free) || (AnyQuad(b, Player1Open) && AnyQuad(b, Player2Open)) then BothPlayers
    else if AnyQuad(b, Player1Open) then OnlyPlayer1
    else if AnyQuad(b, Player2Open) then OnlyPlayer2
    else NoPlayer
  }

  /** getGameDrawState: the higher score wins, equal scores draw. */
  function GetGameDrawState(s1: int, s2: int): (r: GameOverState)
    ensures r == Player1Won <==> s1 > s2
    ensures r == Player2Won <==> s2 > s1
    ensures r == GameDraw <==> s1 == s2
  {
    if s1 > s2 then Player1Won
    else if s2 > s1 then Player2Won
    else GameDraw
  }

  /** Whether the scores decide the game on their own: a threshold reached and a lead of minDifference. */
  predicate ThresholdDecides(v: GameOverVerifier, s1: int, s2: int)
  {
    (s1 >= v.minScore || s2 >= v.minScore) && (s1 - s2 >= v.minDifference || s1 - s2 <= -v.minDifference)
  }

  /** The verdict of isGameOver for the scores s1, s2 and the moves still possible. */
  function GameOverStateOf(v: GameOverVerifier, s1: int, s2: int, moves: PossibleMoves): (r: GameOverState)
    requires v.minDifference >= 1
    ensures (s1 >= v.minScore || s2 >= v.minScore) && s1 - s2 >= v.minDifference ==> r == Player1Won
    ensures (s1 >= v.minScore || s2 >= v.minScore) && s1 - s2 <= -v.minDifference ==> r == Player2Won
    ensures !ThresholdDecides(v, s1, s2) ==>
              && (moves == BothPlayers ==> r == NotOver)
              && (moves == NoPlayer ==> r == GetGameDrawState(s1, s2))
              && (moves == OnlyPlayer1 ==> (r == Player1Won <==> s1 > s2) && (r == NotOver <==> s1 <= s2))
              && (moves == OnlyPlayer2 ==> (r == Player2Won <==> s2 > s1) && (r == NotOver <==> s2 <= s1))
  {
    if (s1 >= v.minScore || s2 >= v.minScore) && s1 - s2 >= v.minDifference then Player1Won
    else if (s1 >= v.minScore || s2 >= v.minScore) && s1 - s2 <= -v.minDifference then Player2Won
    else match moves
      case BothPlayers => NotOver
      case NoPlayer => GetGameDrawState(s1, s2)
      case OnlyPlayer1 => if s1 > s2 then Player1Won else NotOver
      case OnlyPlayer2 => if s2 > s1 then Player2Won else NotOver
  }

  /** The inner loop over the four pieces of a quadruple: which kinds of field it holds. */
  method ClassifyPieces(pieces: seq<Option<Player>>, player1: Player) returns (hasPlayer1: bool, hasPlayer2: bool, hasEmpty: bool)
    ensures Flags(hasPlayer1, hasPlayer2, hasEmpty) == FlagsOf(pieces, player1)
  {
    hasPlayer1, hasPlayer2, hasEmpty := false, false, false;
    for m := 0 to |pieces|
      invariant hasPlayer1 == exists m' | 0 <= m' < m :: pieces[m'] == Some(player1)
      invariant hasPlayer2 == exists m' | 0 <= m' < m :: pieces[m'].Some? && pieces[m'] != Some(player1)
      invariant hasEmpty == exists m' | 0 <= m' < m :: pieces[m'] == None
    {
      if pieces[m] == None {
        hasEmpty := true;
      } else if pieces[m] == Some(player1) {
        hasPlayer1 := true;
      } else {
        hasPlayer2 := true;
      }
    }
  }

  lemma {:induction false} SeenInRowStep(b: GameBoard, k: Kind, i: Index, j: Index)
    requires WellFormed(b) && i < j
    ensures SeenInRow(b, k, i, j + 1) <==> SeenInRow(b, k, i, j) || KindAt(b, i, j) == k
  {
    if SeenInRow(b, k, i, j + 1) && KindAt(b, i, j) != k {
      var j' :| i < j' < j + 1 && j' < 64 && KindAt(b, i, j') == k;
      assert j' != j;
    }
  }

  lemma {:induction false} SeenBeforeStep(b: GameBoard, k: Kind, i: Index)
    requires WellFormed(b) && i < 55
    ensures SeenBefore(b, k, i + 1) <==> SeenBefore(b, k, i) || SeenInRow(b, k, i, 64)
  {
    if SeenBefore(b, k, i + 1) && !SeenBefore(b, k, i) {
      var i', j' :| 0 <= i' < i + 1 && i' < j' < 64 && KindAt(b, i', j') == k;
      assert i' == i;
    }
    if SeenInRow(b, k, i, 64) {
      var j' :| i < j' < 64 && KindAt(b, i, j') == k;
      assert 0 <= i < i + 1 && i < j' < 64;
    }
    if SeenBefore(b, k, i) {
      var i', j' :| 0 <= i' < i && i' < j' < 64 && KindAt(b, i', j') == k;
      assert 0 <= i' < i + 1;
    }
  }

  lemma {:induction false} WitnessAny(b: GameBoard, k: Kind, i: Index, j: Index)
    requires WellFormed(b) && i < 55 && i < j && KindAt(b, i, j) == k
    ensures AnyQuad(b, k)
  {
    assert 0 <= i < 55 && i < j < 64;
  }

  /**
   * canPlayersDoMoreSquares: the scan over all root pairs, stopping as soon
   * as an all-empty quadruple is met or both players are known to have an
   * open one.
   */
  method CanPlayersDoMoreSquares(b: GameBoard) returns (r: PossibleMoves)
    requires WellFormed(b)
    ensures r == PossibleMovesOf(b)
  {
    var player1 := b.player1;
    var player1CanDoMoreSquares, player2CanDoMoreSquares := false, false;
    for i := 0 to 55
      invariant player1CanDoMoreSquares == SeenBefore(b, Player1Open, i)
      invariant player2CanDoMoreSquares == SeenBefore(b, Player2Open, i)
      invariant !SeenBefore(b, Free, i)
      invariant !(player1CanDoMoreSquares && player2CanDoMoreSquares)
    {
      var piece0 := GetPieceFromField(b, i).value;
      for j := i + 1 to 64
        invariant player1CanDoMoreSquares == (SeenBefore(b, Player1Open, i) || SeenInRow(b, Player1Open, i, j))
        invariant player2CanDoMoreSquares == (SeenBefore(b, Player2Open, i) || SeenInRow(b, Player2Open, i, j))
        invariant !SeenBefore(b, Free, i) && !SeenInRow(b, Free, i, j)
        invariant !(player1CanDoMoreSquares && player2CanDoMoreSquares)
      {
        SeenInRowStep(b, Player1Open, i, j);
        SeenInRowStep(b, Player2Open, i, j);
        SeenInRowStep(b, Free, i, j);
        var piece1 := GetPieceFromField(b, j).value;
        var possible := GetPossiblePieces(i, j);
        if possible.Ok? && possible.value.Some? {
          var (c, d) := possible.value.value;
          var pieces := [piece0, piece1, GetPieceFromField(b, c).value, GetPieceFromField(b, d).value];
          assert pieces == Pieces(b, i, j, c, d);
          var hasPlayer1, hasPlayer2, hasEmpty := ClassifyPieces(pieces, player1);
          assert KindAt(b, i, j) == KindOf(Flags(hasPlayer1, hasPlayer2, hasEmpty));
          if hasPlayer1 && !hasPlayer2 && hasEmpty {
            player1CanDoMoreSquares := true;
          } else if hasPlayer2 && !hasPlayer1 && hasEmpty {
            player2CanDoMoreSquares := true;
          } else if !hasPlayer1 && !hasPlayer2 && hasEmpty {
            WitnessAny(b, Free, i, j);
            return BothPlayers;
          }
          if player1CanDoMoreSquares && player2CanDoMoreSquares {
            SeenSoFarInAny(b, Player1Open, i, j);
            SeenSoFarInAny(b, Player2Open, i, j);
            return BothPlayers;
          }
        }
      }
      SeenBeforeStep(b, Player1Open, i);
      SeenBeforeStep(b, Player2Open, i);
      SeenBeforeStep(b, Free, i);
    }
    if player1CanDoMoreSquares {
      return OnlyPlayer1;
    } else if player2CanDoMoreSquares {
      return OnlyPlayer2;
    }
    return NoPlayer;
  }

  lemma {:induction false} SeenSoFarInAny(b: GameBoard, k: Kind, i: Index, j: Index)
    requires WellFormed(b) && i < 55 && i < j
    requires SeenBefore(b, k, i) || SeenInRow(b, k, i, j + 1)
    ensures AnyQuad(b, k)
  {
    if SeenBefore(b, k, i) {
      SeenBeforeMonotone(b, k, i);
    } else {
      SeenInRowInAny(b, k, i, j + 1);
    }
  }

  lemma {:induction false} SeenBeforeMonotone(b: GameBoard, k: Kind, i: int)
    requires WellFormed(b) && 0 <= i <= 55 && SeenBefore(b, k, i)
    ensures AnyQuad(b, k)
  {
    var i', j' :| 0 <= i' < i && i' < j' < 64 && KindAt(b, i', j') == k;
    assert 0 <= i' < 55;
  }

  lemma {:induction false} SeenInRowInAny(b: GameBoard, k: Kind, i: Index, j: int)
    requires WellFormed(b) && i < 55 && SeenInRow(b, k, i, j)
    ensures AnyQuad(b, k)
  {
    var j' :| i < j' < j && j' < 64 && KindAt(b, i, j') == k;
    WitnessAny(b, k, i, j');
  }

  /**
   * isGameOver: the scores of both players from the collector, then the
   * threshold rule, then, if that does not decide, the scan of the board.
   * Neither the board nor the collector changes.
   */
  method IsGameOver(v: GameOverVerifier, b: GameBoard, collector: SquareCollector) returns (r: GameOverState)
    requires v.minDifference >= 1 && WellFormed(b) && collector.Valid()
    ensures r == GameOverStateOf(v, Tally(collector.Stored(), b.player1, ScoreSum),
                                 Tally(collector.Stored(), b.player2, ScoreSum), PossibleMovesOf(b))
  {
    var scorePlayer1 := collector.GetScore(b.player1);
    var scorePlayer2 := collector.GetScore(b.player2);
    if scorePlayer1 >= v.minScore || scorePlayer2 >= v.minScore {
      var dif := scorePlayer1 - scorePlayer2;
      if dif >= v.minDifference {
        return Player1Won;
      } else if dif <= -v.minDifference {
        return Player2Won;
      }
    }
    var moves := CanPlayersDoMoreSquares(b);
    match moves
    case BothPlayers => r := NotOver;
    case NoPlayer => r := GetGameDrawState(scorePlayer1, scorePlayer2);
    case OnlyPlayer1 => r := if scorePlayer1 > scorePlayer2 then Player1Won else NotOver;
    case OnlyPlayer2 => r := if scorePlayer2 > scorePlayer1 then Player2Won else NotOver;
  }

  /** On an empty board both players can still complete a square: the quadruple 0, 1, 8, 9 is all empty. */
  lemma EmptyBoardBothPlayers(b: GameBoard)
    requires WellFormed(b) && AllEmpty(b)
    ensures PossibleMovesOf(b) == BothPlayers
  {
    CompanionsExample();
    FreeQuad(b, 0, 1, 8, 9);
    WitnessAny(b, Free, 0, 1);
  }

  /** A quadruple whose four fields are empty is all empty. */
  lemma {:induction false} FreeQuad(b: GameBoard, i: Index, j: Index, c: Index, d: Index)
    requires WellFormed(b) && i < j && Companions(i, j) == Some((c, d))
    requires b.cells[i] == None && b.cells[j] == None && b.cells[c] == None && b.cells[d] == None
    ensures KindAt(b, i, j) == Free
  {
    var pieces := Pieces(b, i, j, c, d);
    assert pieces[0] == None;
    assert FlagsOf(pieces, b.player1) == Flags(false, false, true);
  }

  /** On a board without an empty field nobody can complete another square. */
  lemma FullBoardNoPlayer(b: GameBoard)
    requires WellFormed(b) && forall i | 0 <= i < 64 :: b.cells[i].Some?
    ensures PossibleMovesOf(b) == NoPlayer
  {
    forall i, j | 0 <= i < 55 && i < j < 64
      ensures KindAt(b, i, j) == NoSquare || KindAt(b, i, j) == Closed
    {
      if Companions(i, j).Some? {
        var (c, d) := Companions(i, j).value;
        assert !FlagsOf(Pieces(b, i, j, c, d), b.player1).hasEmpty;
      }
    }
  }

  /**
   * A board full of player 1's pieces but for field 10: only player 1 can
   * still complete a square, for example 2, 3, 10, 11.
   */
  lemma OneGapOnlyPlayer1(b: GameBoard)
    requires WellFormed(b) && b.cells[10] == None
    requires forall i | 0 <= i < 64 && i != 10 :: b.cells[i] == Some(b.player1)
    ensures PossibleMovesOf(b) == OnlyPlayer1
  {
    OneGapOpenQuad(b, b.player1);
    WitnessAny(b, Player1Open, 2, 10);
    forall i, j | 0 <= i < 55 && i < j < 64
      ensures KindAt(b, i, j) != Player2Open && KindAt(b, i, j) != Free
    {
      OneGapQuad(b, b.player1, i, j);
    }
  }

  /**
   * A board full of player 2's pieces but for field 10: only player 2 can
   * still complete a square.
   */
  lemma OneGapOnlyPlayer2(b: GameBoard)
    requires WellFormed(b) && b.cells[10] == None && b.player1 != b.player2
    requires forall i | 0 <= i < 64 && i != 10 :: b.cells[i] == Some(b.player2)
    ensures PossibleMovesOf(b) == OnlyPlayer2
  {
    OneGapOpenQuad(b, b.player2);
    WitnessAny(b, Player2Open, 2, 10);
    forall i, j | 0 <= i < 55 && i < j < 64
      ensures KindAt(b, i, j) != Player1Open && KindAt(b, i, j) != Free
    {
      OneGapQuad(b, b.player2, i, j);
    }
  }

  /** On a board full of q's pieces but for field 10, the quadruple 2, 10, 3, 11 is open for q. */
  lemma OneGapOpenQuad(b: GameBoard, q: Player)
    requires WellFormed(b) && b.cells[10] == None && (q == b.player1 || b.player1 != b.player2)
    requires forall i | 0 <= i < 64 && i != 10 :: b.cells[i] == Some(q)
    ensures KindAt(b, 2, 10) == if q == b.player1 then Player1Open else Player2Open
  {
    assert Companions(2, 10) == Some((3, 11)) by {
      assert Col(2) == 2 && Row(2) == 0 && Col(10) == 2 && Row(10) == 1;
      assert Offset(0, 1) == (1, 0);
      assert IndexOf(3, 0) == 3 && IndexOf(3, 1) == 11;
    }
    var pieces := Pieces(b, 2, 10, 3, 11);
    assert pieces[0] == Some(q) && pieces[1] == None;
    assert FlagsOf(pieces, b.player1) == Flags(q == b.player1, q != b.player1, true);
  }

  /** On a board full of q's pieces but for field 10, every quadruple holds a piece of q and none of the other player. */
  lemma {:induction false} OneGapQuad(b: GameBoard, q: Player, i: Index, j: Index)
    requires WellFormed(b) && b.cells[10] == None && i < j
    requires forall i | 0 <= i < 64 && i != 10 :: b.cells[i] == Some(q)
    ensures KindAt(b, i, j) != Free
    ensures q == b.player1 ==> KindAt(b, i, j) != Player2Open
    ensures q != b.player1 ==> KindAt(b, i, j) != Player1Open
  {
    if Companions(i, j).Some? {
      var (c, d) := Companions(i, j).value;
      IndexInjective(i, j);
      var pieces := Pieces(b, i, j, c, d);
      var f := FlagsOf(pieces, b.player1);
      assert pieces[0] == Some(q) || pieces[1] == Some(q) by {
        if i != 10 { assert pieces[0] == Some(q); }
        else { assert pieces[1] == Some(q); }
      }
      if q == b.player1 {
        assert !f.hasPlayer2 && f.hasPlayer1;
      } else {
        assert !f.hasPlayer1 && f.hasPlayer2;
      }
    }
  }

  /** The verdicts the tests pin down for the thresholds 150 and 15. */
  lemma GameOverStateExamples(moves: PossibleMoves)
    ensures var v := GameOverVerifier(150, 15);
            && GameOverStateOf(v, 150, 135, moves) == Player1Won
            && GameOverStateOf(v, 165, 150, moves) == Player1Won
            && GameOverStateOf(v, 135, 150, moves) == Player2Won
            && GameOverStateOf(v, 150, 165, moves) == Player2Won
            && GameOverStateOf(v, 150, 150, BothPlayers) == NotOver
            && GameOverStateOf(v, 30, 60, BothPlayers) == NotOver
            && GameOverStateOf(v, 60, 30, NoPlayer) == Player1Won
            && GameOverStateOf(v, 30, 60, NoPlayer) == Player2Won
            && GameOverStateOf(v, 30, 30, NoPlayer) == GameDraw
            && GameOverStateOf(v, 60, 30, OnlyPlayer1) == Player1Won
            && GameOverStateOf(v, 30, 60, OnlyPlayer1) == NotOver
            && GameOverStateOf(v, 30, 60, OnlyPlayer2) == Player2Won
            && GameOverStateOf(v, 60, 30, OnlyPlayer2) == NotOver
            && GameOverStateOf(v, 60, 60, OnlyPlayer1) == NotOver
            && GameOverStateOf(v, 60, 60, OnlyPlayer2) == NotOver
  {
  }
}
