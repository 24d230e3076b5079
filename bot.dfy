/**
 * The bot strategy: two heat maps, one for the bot's own chances and one
 * for the opponent's, built over every quadruple of the board, and the
 * empty field with the hottest value chosen as the move.
 */
module Bots {
  import opened Wrappers
  import opened GameBoardUtils
  import opened SquareUtils
  import opened Players
  import opened Board

  /** LONG_TERM adds up every contribution to a field, SHORT_TERM keeps the best one. */
  datatype Strategy = LongTerm | ShortTerm

  /** calculateNewScore: the merge of a contribution into a heat map value. */
  function CalculateNewScore(strategy: Strategy, heatMapValue: int, currentScore: int): (r: int)
    ensures strategy == LongTerm ==> r - heatMapValue == currentScore
    ensures strategy == ShortTerm ==> r >= heatMapValue && r >= currentScore && (r == heatMapValue || r == currentScore)
    ensures currentScore >= 0 ==> r >= heatMapValue
  {
    match strategy
    case LongTerm => heatMapValue + currentScore
    case ShortTerm => if currentScore > heatMapValue then currentScore else heatMapValue
  }

  /** The bot's heat map and the opponent's, one value per field. */
  datatype HeatMaps = HeatMaps(player: seq<int>, opponent: seq<int>)

  predicate Sized(h: HeatMaps) { |h.player| == 64 && |h.opponent| == 64 }

  /** Both maps start as 64 zeros. */
  function Zeros(): (h: HeatMaps)
    ensures Sized(h) && forall k | 0 <= k < 64 :: h.player[k] == 0 && h.opponent[k] == 0
  {
    HeatMaps(seq(64, _ => 0), seq(64, _ => 0))
  }

  /** updateHeatMap: the contribution merged into the value of field k. */
  function Merge(m: seq<int>, k: Index, score: int, s: Strategy): (r: seq<int>)
    requires |m| == 64
    ensures |r| == 64
  {
    m[k := CalculateNewScore(s, m[k], score)]
  }

  /** The contribution merged into the four fields of a quadruple, in the order the source updates them. */
  function Spread(m: seq<int>, i: Index, j: Index, c: Index, d: Index, score: int, s: Strategy): (r: seq<int>)
    requires |m| == 64
    ensures |r| == 64
  {
    Merge(Merge(Merge(Merge(m, i, score, s), j, score, s), c, score, s), d, score, s)
  }

  /** The number of the bot's pieces among the first |pieces| pieces. */
  function CountOwn(pieces: seq<Option<Player>>, me: Player): nat
  {
    if pieces == [] then 0
    else CountOwn(pieces[..|pieces| - 1], me) + (if pieces[|pieces| - 1] == Some(me) then 1 else 0)
  }

  /** The number of pieces of anyone but the bot. */
  function CountOpponent(pieces: seq<Option<Player>>, me: Player): nat
  {
    if pieces == [] then 0
    else CountOpponent(pieces[..|pieces| - 1], me) + (if pieces[|pieces| - 1].Some? && pieces[|pieces| - 1] != Some(me) then 1 else 0)
  }

  /** The contribution of a quadruple: its score times one more than the pieces already in it. */
  function Contribution(score: int, count: nat): (r: int)
    requires score >= 1
    ensures r >= score
    ensures count == 0 ==> r == score
  {
    score * (count + 1)
  }

  /**
   * The effect of the quadruple over the roots i < j on the heat maps: a
   * quadruple the opponent has entered and the bot has not heats the
   * opponent's map, one the opponent has not entered heats the bot's map,
   * and one both have entered changes nothing.
   */
  function PairUpdate(h: HeatMaps, b: GameBoard, me: Player, s: Strategy, i: Index, j: Index): (r: HeatMaps)
    requires WellFormed(b) && Sized(h) && i < j
    ensures Sized(r)
  {
    match Companions(i, j)
    case None => h
    case Some((c, d)) =>
      var pieces := [b.cells[i], b.cells[j], b.cells[c], b.cells[d]];
      var own, opp := CountOwn(pieces, me), CountOpponent(pieces, me);
      var score := ScoreOf([i, j, c, d]);
      if opp > 0 && own == 0 then h.(opponent := Spread(h.opponent, i, j, c, d, Contribution(score, opp), s))
      else if opp == 0 then h.(player := Spread(h.player, i, j, c, d, Contribution(score, own), s))
      else h
  }

  /** The heat maps h after the root pairs (i, i + 1) ... (i, j - 1). */
  function RowHeat(h: HeatMaps, b: GameBoard, me: Player, s: Strategy, i: Index, j: int): (r: HeatMaps)
    requires WellFormed(b) && Sized(h) && i < j <= 64
    ensures Sized(r)
    decreases j
  {
    if j == i + 1 then h else PairUpdate(RowHeat(h, b, me, s, i, j - 1), b, me, s, i, j - 1)
  }

  /** The heat maps after every root pair whose first root is below i. */
  function BoardHeat(b: GameBoard, me: Player, s: Strategy, i: int): (r: HeatMaps)
    requires WellFormed(b) && 0 <= i <= 55
    ensures Sized(r)
  {
    if i == 0 then Zeros() else RowHeat(BoardHeat(b, me, s, i - 1), b, me, s, i - 1, 64)
  }

  /** The heat maps the bot builds for b: every root pair i < j with i below 55. */
  function HeatMapsOf(b: GameBoard, me: Player, s: Strategy): (r: HeatMaps)
    requires WellFormed(b)
    ensures Sized(r)
  {
    BoardHeat(b, me, s, 55)
  }

  /** The value of a field: the higher of the two maps. */
  function Candidate(h: HeatMaps, k: Index): int
    requires Sized(h)
  {
    if h.player[k] >= h.opponent[k] then h.player[k] else h.opponent[k]
  }

  /** k is an empty field whose value no empty field exceeds. */
  predicate IsBestMove(b: GameBoard, h: HeatMaps, k: int)
    requires WellFormed(b) && Sized(h)
  {
    && IsIndex(k) && b.cells[k] == None
    && forall k' | 0 <= k' < 64 && b.cells[k'] == None :: Candidate(h, k') <= Candidate(h, k)
  }

  /** k is the lowest of the best moves. */
  predicate IsFirstBestMove(b: GameBoard, h: HeatMaps, k: int)
    requires WellFormed(b) && Sized(h)
  {
    && IsBestMove(b, h, k)
    && forall k' | 0 <= k' < k && b.cells[k'] == None :: Candidate(h, k') < Candidate(h, k)
  }

  /** Every value of h is at most the one of h'. */
  predicate Below(h: HeatMaps, h': HeatMaps)
    requires Sized(h) && Sized(h')
  {
    forall k | 0 <= k < 64 :: h.player[k] <= h'.player[k] && h.opponent[k] <= h'.opponent[k]
  }

  /** The inner loop over the four pieces: the bot's pieces and the opponent's. */
  method CountPieces(pieces: seq<Option<Player>>, me: Player) returns (own: nat, opp: nat)
    ensures own == CountOwn(pieces, me) && opp == CountOpponent(pieces, me)
  {
    own, opp := 0, 0;
    for p := 0 to |pieces|
      invariant own == CountOwn(pieces[..p], me) && opp == CountOpponent(pieces[..p], me)
    {
      assert pieces[..p + 1][..p] == pieces[..p];
      if pieces[p] == Some(me) {
        own := own + 1;
      } else if pieces[p] != None {
        opp := opp + 1;
      }
    }
    assert pieces[..|pieces|] == pieces;
  }

  lemma {:induction false} MergeGrows(m: seq<int>, k: Index, score: int, s: Strategy)
    requires |m| == 64 && score >= 0
    ensures forall k' | 0 <= k' < 64 :: m[k'] <= Merge(m, k, score, s)[k']
  {
  }

  lemma {:induction false} SpreadGrows(m: seq<int>, i: Index, j: Index, c: Index, d: Index, score: int, s: Strategy)
    requires |m| == 64 && score >= 0
    ensures forall k' | 0 <= k' < 64 :: m[k'] <= Spread(m, i, j, c, d, score, s)[k']
  {
    var m1 := Merge(m, i, score, s);
    var m2 := Merge(m1, j, score, s);
    var m3 := Merge(m2, c, score, s);
    MergeGrows(m, i, score, s);
    MergeGrows(m1, j, score, s);
    MergeGrows(m2, c, score, s);
    MergeGrows(m3, d, score, s);
  }

  /** A quadruple never cools a field: every contribution is positive and both merges keep or raise the value. */
  lemma {:induction false} PairUpdateGrows(h: HeatMaps, b: GameBoard, me: Player, s: Strategy, i: Index, j: Index)
    requires WellFormed(b) && Sized(h) && i < j
    ensures Below(h, PairUpdate(h, b, me, s, i, j))
  {
    match Companions(i, j)
    case None =>
    case Some((c, d)) =>
      var pieces := [b.cells[i], b.cells[j], b.cells[c], b.cells[d]];
      var own, opp := CountOwn(pieces, me), CountOpponent(pieces, me);
      var score := ScoreOf([i, j, c, d]);
      if opp > 0 && own == 0 {
        SpreadGrows(h.opponent, i, j, c, d, Contribution(score, opp), s);
      } else if opp == 0 {
        SpreadGrows(h.player, i, j, c, d, Contribution(score, own), s);
      }
  }

  /** A quadruple holding pieces of both players leaves both maps as they are. */
  lemma {:induction false} BlockedQuadruple(h: HeatMaps, b: GameBoard, me: Player, s: Strategy, i: Index, j: Index)
    requires WellFormed(b) && Sized(h) && i < j && Companions(i, j).Some?
    requires var (c, d) := Companions(i, j).value;
             var pieces := [b.cells[i], b.cells[j], b.cells[c], b.cells[d]];
             CountOwn(pieces, me) > 0 && CountOpponent(pieces, me) > 0
    ensures PairUpdate(h, b, me, s, i, j) == h
  {
  }

  lemma {:induction false} BelowTrans(h1: HeatMaps, h2: HeatMaps, h3: HeatMaps)
    requires Sized(h1) && Sized(h2) && Sized(h3) && Below(h1, h2) && Below(h2, h3)
    ensures Below(h1, h3)
  {
  }

  /** Later root pairs of a row only raise the values. */
  lemma {:induction false} RowHeatGrows(h: HeatMaps, b: GameBoard, me: Player, s: Strategy, i: Index, j1: int, j2: int)
    requires WellFormed(b) && Sized(h) && i < j1 <= j2 <= 64
    ensures Below(RowHeat(h, b, me, s, i, j1), RowHeat(h, b, me, s, i, j2))
    decreases j2
  {
    if j1 < j2 {
      RowHeatGrows(h, b, me, s, i, j1, j2 - 1);
      var before := RowHeat(h, b, me, s, i, j2 - 1);
      PairUpdateGrows(before, b, me, s, i, j2 - 1);
      BelowTrans(RowHeat(h, b, me, s, i, j1), before, PairUpdate(before, b, me, s, i, j2 - 1));
    }
  }

  /** Later rows only raise the values: the heat maps never cool down while they are built. */
  lemma {:induction false} BoardHeatGrows(b: GameBoard, me: Player, s: Strategy, i1: int, i2: int)
    requires WellFormed(b) && 0 <= i1 <= i2 <= 55
    ensures Below(BoardHeat(b, me, s, i1), BoardHeat(b, me, s, i2))
    decreases i2
  {
    if i1 < i2 {
      BoardHeatGrows(b, me, s, i1, i2 - 1);
      var h := BoardHeat(b, me, s, i2 - 1);
      RowHeatGrows(h, b, me, s, i2 - 1, i2, 64);
      BelowTrans(BoardHeat(b, me, s, i1), h, BoardHeat(b, me, s, i2));
    }
  }

  /** Every value of the finished heat maps is at least 0. */
  lemma {:induction false} HeatMapsNonNegative(b: GameBoard, me: Player, s: Strategy)
    requires WellFormed(b)
    ensures forall k | 0 <= k < 64 :: HeatMapsOf(b, me, s).player[k] >= 0 && HeatMapsOf(b, me, s).opponent[k] >= 0
  {
    BoardHeatGrows(b, me, s, 0, 55);
  }

  /** Math.random() yields n / 2^53 for some draw 0 <= n < 2^53. */
  const DrawRange: nat := 0x20_0000_0000_0000

  predicate IsDraw(draw: nat) { draw < DrawRange }

  /** The value of Math.random() for a draw. */
  function Random(draw: nat): (x: real)
    requires IsDraw(draw)
    ensures 0.0 <= x < 1.0
  {
    draw as real / DrawRange as real
  }

  /** The floating-point remainder x % y of JavaScript for x >= 0 and y > 0. */
  function FloatRem(x: real, y: real): real
    requires x >= 0.0 && y > 0.0
  {
    x - y * ((x / y).Floor as real)
  }

  /** doRandomization as written: Math.random() % 2 == 0. */
  predicate DoRandomizationAsWritten(randomizeMoves: bool, draw: nat)
    requires IsDraw(draw)
  {
    randomizeMoves && FloatRem(Random(draw), 2.0) == 0.0
  }

  /** As written, a tie is broken in favour of the later field only when the draw is exactly 0. */
  lemma DoRandomizationAsWrittenOnlyAtZero(randomizeMoves: bool, draw: nat)
    requires IsDraw(draw)
    ensures DoRandomizationAsWritten(randomizeMoves, draw) <==> randomizeMoves && draw == 0
  {
    var x := Random(draw);
    assert (x / 2.0).Floor == 0;
  }

  /** doRandomization as intended: a fair coin on the draw. */
  predicate DoRandomization(randomizeMoves: bool, draw: nat)
  {
    randomizeMoves && draw % 2 == 0
  }

  /** The intended coin lands either way on neighbouring draws, so each outcome has half of the draws. */
  lemma DoRandomizationIsFair(draw: nat)
    ensures DoRandomization(true, draw) != DoRandomization(true, draw + 1)
    ensures !DoRandomization(false, draw)
  {
  }

  class BotPlayerLogic {
    /** The player the bot plays for. */
    const player: Player
    const strategy: Strategy
    /** Whether ties are broken at random. */
    var randomizeMoves: bool

    constructor (player: Player, strategy: Strategy)
      ensures this.player == player && this.strategy == strategy && randomizeMoves
    {
      this.player := player;
      this.strategy := strategy;
      randomizeMoves := true;
    }

    /** setRandomizeMoves. */
    method SetRandomizeMoves(randomize: bool)
      modifies this
      ensures randomizeMoves == randomize
    {
      randomizeMoves := randomize;
    }

    /** updateHeatMap: the contribution merged into field index of heatMap. */
    method UpdateHeatMap(heatMap: array<int>, index: Index, score: int)
      requires heatMap.Length == 64
      modifies heatMap
      ensures heatMap[..] == Merge(old(heatMap[..]), index, score, strategy)
    {
      heatMap[index] := CalculateNewScore(strategy, heatMap[index], score);
    }

    /** The body of the inner loop of requestMove: the quadruple over the roots i < j merged into the maps. */
    method HeatPair(b: GameBoard, i: Index, j: Index, playerHeatMap: array<int>, opponentHeatMap: array<int>)
      requires WellFormed(b) && i < j
      requires playerHeatMap.Length == 64 && opponentHeatMap.Length == 64 && playerHeatMap != opponentHeatMap
      modifies playerHeatMap, opponentHeatMap
      ensures HeatMaps(playerHeatMap[..], opponentHeatMap[..])
              == PairUpdate(HeatMaps(old(playerHeatMap[..]), old(opponentHeatMap[..])), b, player, strategy, i, j)
    {
      var possible := GetPossiblePieces(i, j);
      if possible.Err? || possible.value.None? {
        return;
      }
      var (c, d) := possible.value.value;
      var pieces := [b.cells[i], b.cells[j], GetPieceFromField(b, c).value, GetPieceFromField(b, d).value];
      var numberOfPlayerPieces, numberOfOpponentPieces := CountPieces(pieces, player);
      var scoreForSquare := Score([i, j, c, d]).value;
      if numberOfOpponentPieces > 0 && numberOfPlayerPieces == 0 {
        var opponentScore := Contribution(scoreForSquare, numberOfOpponentPieces);
        UpdateHeatMap(opponentHeatMap, i, opponentScore);
        UpdateHeatMap(opponentHeatMap, j, opponentScore);
        UpdateHeatMap(opponentHeatMap, c, opponentScore);
        UpdateHeatMap(opponentHeatMap, d, opponentScore);
      } else if numberOfOpponentPieces == 0 {
        var playerScore := Contribution(scoreForSquare, numberOfPlayerPieces);
        UpdateHeatMap(playerHeatMap, i, playerScore);
        UpdateHeatMap(playerHeatMap, j, playerScore);
        UpdateHeatMap(playerHeatMap, c, playerScore);
        UpdateHeatMap(playerHeatMap, d, playerScore);
      }
    }

    /** The two heat map loops of requestMove. */
    method BuildHeatMaps(b: GameBoard) returns (playerHeatMap: array<int>, opponentHeatMap: array<int>)
      requires WellFormed(b)
      ensures fresh(playerHeatMap) && fresh(opponentHeatMap)
      ensures HeatMaps(playerHeatMap[..], opponentHeatMap[..]) == HeatMapsOf(b, player, strategy)
    {
      playerHeatMap := new int[64](_ => 0);
      opponentHeatMap := new int[64](_ => 0);
      assert HeatMaps(playerHeatMap[..], opponentHeatMap[..]) == Zeros();
      for i := 0 to 55
        invariant playerHeatMap.Length == 64 && opponentHeatMap.Length == 64
        invariant HeatMaps(playerHeatMap[..], opponentHeatMap[..]) == BoardHeat(b, player, strategy, i)
      {
        for j := i + 1 to 64
          invariant HeatMaps(playerHeatMap[..], opponentHeatMap[..])
                    == RowHeat(BoardHeat(b, player, strategy, i), b, player, strategy, i, j)
        {
          HeatPair(b, i, j, playerHeatMap, opponentHeatMap);
        }
      }
    }

    /** The last loop of requestMove: the empty field of the highest value, -1 when there is none. */
    method PickMove(b: GameBoard, ghost h: HeatMaps, playerHeatMap: array<int>, opponentHeatMap: array<int>, draws: seq<nat>)
      returns (indexWithMaxValue: int)
      requires WellFormed(b) && |draws| == 64 && HeatMaps(playerHeatMap[..], opponentHeatMap[..]) == h && Sized(h)
      requires forall k | 0 <= k < 64 :: h.player[k] >= 0
      ensures indexWithMaxValue == -1 <==> forall k | 0 <= k < 64 :: b.cells[k] != None
      ensures indexWithMaxValue != -1 ==> IsBestMove(b, h, indexWithMaxValue)
      ensures indexWithMaxValue != -1 && !randomizeMoves ==> IsFirstBestMove(b, h, indexWithMaxValue)
    {
      var maxValue := -1;
      indexWithMaxValue := -1;
      for i := 0 to 64
        invariant -1 <= indexWithMaxValue < i
        invariant indexWithMaxValue == -1 <==> forall k | 0 <= k < i :: b.cells[k] != None
        invariant indexWithMaxValue == -1 ==> maxValue == -1
        invariant indexWithMaxValue >= 0 ==> b.cells[indexWithMaxValue] == None && maxValue == Candidate(h, indexWithMaxValue)
        invariant forall k | 0 <= k < i && b.cells[k] == None :: Candidate(h, k) <= maxValue
        invariant !randomizeMoves ==> forall k | 0 <= k < indexWithMaxValue && b.cells[k] == None :: Candidate(h, k) < maxValue
      {
        if !IsFieldEmpty(b, i).value {
          continue;
        }
        var value;
        if playerHeatMap[i] >= opponentHeatMap[i] {
          value := playerHeatMap[i];
        } else {
          value := opponentHeatMap[i];
        }
        assert value == Candidate(h, i);
        if value > maxValue || (value == maxValue && DoRandomization(randomizeMoves, draws[i])) {
          maxValue := value;
          indexWithMaxValue := i;
        }
      }
    }

    /**
     * requestMove: the move the bot hands to the callback, an empty field
     * of the highest value; without randomisation the lowest such field.
     * It fails when no field is empty, and changes nothing.
     */
    method RequestMove(b: GameBoard, draws: seq<nat>) returns (r: Result<Index>)
      requires WellFormed(b) && |draws| == 64
      ensures r.Ok? <==> exists k | 0 <= k < 64 :: b.cells[k] == None
      ensures r.Err? ==> r.error == IndexOutOfRange
      ensures r.Ok? ==> IsBestMove(b, HeatMapsOf(b, player, strategy), r.value)
      ensures r.Ok? && !randomizeMoves ==> IsFirstBestMove(b, HeatMapsOf(b, player, strategy), r.value)
    {
      var playerHeatMap, opponentHeatMap := BuildHeatMaps(b);
      HeatMapsNonNegative(b, player, strategy);
      var indexWithMaxValue := PickMove(b, HeatMapsOf(b, player, strategy), playerHeatMap, opponentHeatMap, draws);
      match AssertIndex(indexWithMaxValue)
      case Fail(e) => r := Err(e);
      case Pass => r := Ok(indexWithMaxValue);
    }
  }

  /** Every value of the heat maps for an empty board in SHORT_TERM is at most 64, and the opponent map stays 0. */
  predicate Capped(h: HeatMaps)
    requires Sized(h)
  {
    forall k | 0 <= k < 64 :: h.player[k] <= 64 && h.opponent[k] == 0
  }

  /** Empty fields hold no piece of either player. */
  lemma {:induction false} CountEmpty(pieces: seq<Option<Player>>, me: Player)
    requires forall k | 0 <= k < |pieces| :: pieces[k] == None
    ensures CountOwn(pieces, me) == 0 && CountOpponent(pieces, me) == 0
    decreases |pieces|
  {
    if pieces != [] {
      CountEmpty(pieces[..|pieces| - 1], me);
    }
  }

  lemma {:induction false} PairUpdateCapped(h: HeatMaps, b: GameBoard, me: Player, i: Index, j: Index)
    requires WellFormed(b) && AllEmpty(b) && Sized(h) && Capped(h) && i < j
    ensures Capped(PairUpdate(h, b, me, ShortTerm, i, j))
  {
    match Companions(i, j)
    case None =>
    case Some((c, d)) =>
      CountEmpty([b.cells[i], b.cells[j], b.cells[c], b.cells[d]], me);
  }

  lemma {:induction false} RowHeatCapped(h: HeatMaps, b: GameBoard, me: Player, i: Index, j: int)
    requires WellFormed(b) && AllEmpty(b) && Sized(h) && Capped(h) && i < j <= 64
    ensures Capped(RowHeat(h, b, me, ShortTerm, i, j))
    decreases j
  {
    if j > i + 1 {
      RowHeatCapped(h, b, me, i, j - 1);
      PairUpdateCapped(RowHeat(h, b, me, ShortTerm, i, j - 1), b, me, i, j - 1);
    }
  }

  lemma {:induction false} BoardHeatCapped(b: GameBoard, me: Player, i: int)
    requires WellFormed(b) && AllEmpty(b) && 0 <= i <= 55
    ensures Capped(BoardHeat(b, me, ShortTerm, i))
    decreases i
  {
    if i > 0 {
      BoardHeatCapped(b, me, i - 1);
      RowHeatCapped(BoardHeat(b, me, ShortTerm, i - 1), b, me, i - 1, 64);
    }
  }

  /** On an empty board a quadruple heats the bot's map at its first root to at least its score. */
  lemma {:induction false} EmptyQuadrupleHeats(h: HeatMaps, b: GameBoard, me: Player, s: Strategy, i: Index, j: Index)
    requires WellFormed(b) && AllEmpty(b) && Sized(h) && i < j && Companions(i, j).Some? && h.player[i] >= 0
    ensures var (c, d) := Companions(i, j).value;
            PairUpdate(h, b, me, s, i, j).player[i] >= ScoreOf([i, j, c, d])
  {
    var (c, d) := Companions(i, j).value;
    CountEmpty([b.cells[i], b.cells[j], b.cells[c], b.cells[d]], me);
    var score := ScoreOf([i, j, c, d]);
    var m1 := Merge(h.player, i, score, s);
    var m2 := Merge(m1, j, score, s);
    var m3 := Merge(m2, c, score, s);
    MergeGrows(m1, j, score, s);
    MergeGrows(m2, c, score, s);
    MergeGrows(m3, d, score, s);
  }

  /** The corner square: 56 and 63 complete 0 and 7, and it spans all eight rows. */
  lemma CornerSquare()
    ensures Companions(0, 7) == Some((56, 63)) && ScoreOf([0, 7, 56, 63]) == 64
  {
    assert Col(7) == 7 && Row(7) == 0;
    assert IndexOf(0, 7) == 56 && IndexOf(7, 7) == 63;
    ScoreOfRoots(0, 7, 56, 63);
  }

  /** On an empty board the corner square heats field 0 of the bot's map to 64 or more. */
  lemma {:induction false} CornerHeat(b: GameBoard, me: Player, s: Strategy)
    requires WellFormed(b) && AllEmpty(b)
    ensures HeatMapsOf(b, me, s).player[0] >= 64
  {
    CornerSquare();
    var h7 := RowHeat(Zeros(), b, me, s, 0, 7);
    RowHeatGrows(Zeros(), b, me, s, 0, 1, 7);
    EmptyQuadrupleHeats(h7, b, me, s, 0, 7);
    assert RowHeat(Zeros(), b, me, s, 0, 8) == PairUpdate(h7, b, me, s, 0, 7);
    RowHeatGrows(Zeros(), b, me, s, 0, 8, 64);
    assert BoardHeat(b, me, s, 1) == RowHeat(Zeros(), b, me, s, 0, 64);
    BoardHeatGrows(b, me, s, 1, 55);
  }

  /** On an empty board a SHORT_TERM bot without randomisation plays field 0, and only field 0. */
  lemma {:induction false} ShortTermEmptyBoardPicksZero(b: GameBoard, me: Player, k: int)
    requires WellFormed(b) && AllEmpty(b)
    ensures IsFirstBestMove(b, HeatMapsOf(b, me, ShortTerm), k) <==> k == 0
  {
    var h := HeatMapsOf(b, me, ShortTerm);
    BoardHeatCapped(b, me, 55);
    CornerHeat(b, me, ShortTerm);
    assert Candidate(h, 0) == 64;
  }
}
