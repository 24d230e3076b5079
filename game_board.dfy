/**
 * The 64-field board the rules engine plays on: its two players and, for
 * each field, the player whose piece it holds, if any.
 */
module Board {
  import opened Wrappers
  import opened GameBoardUtils
  import opened Players

  datatype GameBoard = GameBoard(player1: Player, player2: Player, cells: seq<Option<Player>>)

  /** Whether p is one of the two players of the board. */
  predicate IsPlayerOf(b: GameBoard, p: Player)
  {
    p == b.player1 || p == b.player2
  }

  /** 64 fields, each empty or holding a piece of one of the two players. */
  predicate WellFormed(b: GameBoard)
  {
    && |b.cells| == 64
    && forall i | 0 <= i < 64 :: b.cells[i].Some? ==> IsPlayerOf(b, b.cells[i].value)
  }

  /** Whether every field of the board is empty. */
  predicate AllEmpty(b: GameBoard)
    requires WellFormed(b)
  {
    forall i | 0 <= i < 64 :: b.cells[i].None?
  }

  /** The board constructor: the players must differ, both as objects and by name. */
  function NewGameBoard(p1: Player, p2: Player): (r: Result<GameBoard>)
    ensures r.Ok? <==> p1 != p2 && p1.name != p2.name
    ensures p1 == p2 ==> r == Err(SamePlayer)
    ensures p1 != p2 && p1.name == p2.name ==> r == Err(SameName)
    ensures r.Ok? ==> WellFormed(r.value) && AllEmpty(r.value)
    ensures r.Ok? ==> r.value.player1 == p1 && r.value.player2 == p2
  {
    if p1 == p2 then Err(SamePlayer)
    else if p1.name == p2.name then Err(SameName)
    else Ok(GameBoard(p1, p2, seq(64, _ => None)))
  }

  /** isFieldEmpty: fails outside 0..63. */
  function IsFieldEmpty(b: GameBoard, i: int): (r: Result<bool>)
    requires WellFormed(b)
    ensures r.Ok? <==> IsIndex(i)
    ensures r.Err? ==> r.error == IndexOutOfRange
    ensures r.Ok? ==> (r.value <==> b.cells[i] == None)
  {
    if !IsIndex(i) then Err(IndexOutOfRange)
    else if b.cells[i] == None then Ok(true)
    else Ok(false)
  }

  /** getPieceFromField: the owner of the piece on a field, fails outside 0..63. */
  function GetPieceFromField(b: GameBoard, i: int): (r: Result<Option<Player>>)
    requires WellFormed(b)
    ensures r.Ok? <==> IsIndex(i)
    ensures r.Err? ==> r.error == IndexOutOfRange
    ensures r.Ok? ==> r.value == b.cells[i]
    ensures r.Ok? && r.value.Some? ==> IsPlayerOf(b, r.value.value)
  {
    if !IsIndex(i) then Err(IndexOutOfRange) else Ok(b.cells[i])
  }

  /**
   * placePieceOnField: fails for a field outside 0..63, for a player that is
   * neither of the two, and for a field that already holds a piece.
   */
  function PlacePieceOnField(b: GameBoard, i: int, p: Player): (r: Result<GameBoard>)
    requires WellFormed(b)
    ensures r.Ok? <==> IsIndex(i) && IsPlayerOf(b, p) && b.cells[i] == None
    ensures !IsIndex(i) ==> r == Err(IndexOutOfRange)
    ensures IsIndex(i) && !IsPlayerOf(b, p) ==> r == Err(UnknownPlayer)
    ensures IsIndex(i) && IsPlayerOf(b, p) && b.cells[i] != None ==> r == Err(FieldOccupied)
    ensures r.Ok? ==> WellFormed(r.value)
  {
    if !IsIndex(i) then Err(IndexOutOfRange)
    else if !IsPlayerOf(b, p) then Err(UnknownPlayer)
    else if b.cells[i] != None then Err(FieldOccupied)
    else Ok(b.(cells := b.cells[i := Some(p)]))
  }

  /** clearAllFields: every field empty again, the players kept. */
  function ClearAllFields(b: GameBoard): (r: GameBoard)
    ensures WellFormed(r) && AllEmpty(r)
    ensures r.player1 == b.player1 && r.player2 == b.player2
  {
    b.(cells := seq(64, _ => None))
  }

  /** A placed piece is read back from its field, and no other field changes. */
  lemma {:induction false} PlaceThenGet(b: GameBoard, i: int, p: Player, j: int)
    requires WellFormed(b) && PlacePieceOnField(b, i, p).Ok? && IsIndex(j)
    ensures var b' := PlacePieceOnField(b, i, p).value;
            && GetPieceFromField(b', j) == (if j == i then Ok(Some(p)) else GetPieceFromField(b, j))
            && IsFieldEmpty(b', i) == Ok(false)
            && b'.player1 == b.player1 && b'.player2 == b.player2
  {
  }

  /** A second piece on the same field is refused. */
  lemma {:induction false} PlaceTwiceFails(b: GameBoard, i: int, p: Player, q: Player)
    requires WellFormed(b) && PlacePieceOnField(b, i, p).Ok?
    ensures PlacePieceOnField(PlacePieceOnField(b, i, p).value, i, q).Err?
  {
  }
}
