# Quadratum rules engine, modelled in Dafny

Quadratum is a two-player board game on an 8×8 board. Players take turns
placing pieces. Four pieces of one player that form a square (upright or
tilted) score (rows spanned)², between 4 and 64. The game ends when a
score threshold is reached with a large enough lead; when only one
player can still complete a square and that player already leads; or
when the board leaves no square to complete for either player.

This project models the rules engine of the TypeScript library:

- the board geometry:
  - index ↔ coordinates (`GameBoardUtils`);
  - the two fields that complete a square over two given fields, the square test and the score (`SquareUtils`);
- the `Square` value and the hash-keyed `HashSet` it is stored in;
- the `SquareCollector`, which scans the board for newly completed squares and sums scores and counts per player;
- the `GameOverVerifier`: the score threshold rule, then a scan asking whether either player can still complete a square;
- the two player logics:
  - the bot's heat-map move chooser;
  - the human player's active/inactive latch;
- the `GameLogic` turn engine: start, the `makeMove` callback, turn hand-over, listeners.

Module layout, one file each:

- `Wrappers`: Option, Result, Outcome, error kinds.
- `Players`: players.
- `GameBoardUtils`: board geometry.
- `Board`: the 64-field board.
- `Sorting`: numeric and JavaScript string sorts.
- `SquareUtils`: square geometry.
- `Squares`: the `Square` value.
- `HashSets`: the `HashSet` class.
- `Collector`: the `SquareCollector` class and its specification functions.
- `GameOver`: the game over verifier.
- `Bots`: the `BotPlayerLogic` class and its heat-map specification.
- `Humans`: the `HumanPlayerLogic` class.
- `Games`: the `GameLogic` class and its specification as a state machine.
- `Play`: one turn of each kind of player against the game.

Modelling choices:

- **Errors.** Thrown errors become `Result`/`Outcome` values with an `Error` kind.
- **The board.** `src/model/GameBoard.ts` is an unfinished stub: its `placePiece` only logs, and it lacks the field operations the logic calls. The board is therefore a value `GameBoard(player1, player2, cells)` whose operations follow `tests/model/GameBoard.test.ts`. The game logic holds it in a field and reassigns it.
- **The square.** `src/model/Square.ts` is also unfinished:
  - its score is always 0;
  - `getSortedFields` does not sort;
  - it has no `hashCode`.

  `Square` follows `tests/model/Square.test.ts` instead:
  - the constructor checks the range and the square shape;
  - it keeps the fields in ascending order;
  - the score is `SquareUtils.score`.

  Squares are stored under their sorted fields, without the owner. Two valid squares of one player with the same fields are the same square (`Squares.KeyDeterminesSquare`). The game keeps every stored square on its own player's pieces (`Collector.StoreOwned`, part of the game logic's `Valid()` and kept by every step), so a square of one player never hides another player's square on the same fields.
- **Missing helpers.** `distX`, `distY` and `assertIndex` are called but not defined in `src/utils/GameBoardUtils.ts`. They are defined from their tests: coordinate differences with range checks.
- **Misnamed score function.** The bot calls `SquareUtils.getScore` (`src/logic/players/BotPlayerLogic.ts:96`), but `SquareUtils` names the function `score`. The model uses the one score function.
- **Listeners and move requests.**
  - Listener calls are appended to an event log of deliveries.
  - A move request is appended to a log of the logics asked to move.
  - A turn (`Play.BotTurn`, `Play.HumanPlacePiece`) is one step. The game's own `makeMove` does not call the next player back.
- **Randomness.** `Math.random()` becomes draw parameters, one per field.
- **Identity.** Player identity, the source's `==` on objects, is datatype equality. Listener identity is a number.
- **Heat maps.** The two heat maps are local `array<int>`s that `BuildHeatMaps` allocates and fills in place. They are specified by functions on sequences.

In three places the code does not do what was evidently intended. The model's members follow the intended behaviour, and each place is stated as a finding below, with a member modelling the code as written beside it:

- the string sort in `isSquare`: `Squares.NewSquare` and the scans use the numeric `SquareUtils.IsSquare`; `SquareUtils.IsSquareAsWritten` is the code as written;
- the getter called as a method in `checkPlayers`: the constructor and `Create` use `Games.CheckPlayers`; `Games.CheckPlayersAsWritten` is the code as written;
- the coin in `doRandomization`: `PickMove` breaks ties with `Bots.DoRandomization`, true on every even draw; `Bots.DoRandomizationAsWritten` is the code as written, true only at draw 0.

One case follows the code against the tests. `placePiece` of an inactive human player returns false. The test at `tests/logic/players/HumanPlayerLogic.test.ts:53-59` expects a throw.

## Model

| member | source | states |
|---|---|---|
| Players.NewPlayer | src/model/Player.ts:17-20 | a player needs a non-empty name; otherwise it keeps its id and name |
| GameBoardUtils.Row | src/utils/GameBoardUtils.ts:31-34 | the row of a field lies in 0..7 and the field lies in that row's span of 8 |
| GameBoardUtils.Col | src/utils/GameBoardUtils.ts:31-34 | the column lies in 0..7 and the field is 8·row + column |
| GameBoardUtils.IndexOfCoords | src/utils/GameBoardUtils.ts:19-23 | the field at column x and row y has column x and row y |
| GameBoardUtils.IndexInjective | src/utils/GameBoardUtils.ts:19-23 | two fields are equal exactly when their columns and rows are |
| GameBoardUtils.ToIndex | src/utils/GameBoardUtils.ts:19-23 | succeeds exactly for x, y in 0..7; the error kind; the result has column x and row y |
| GameBoardUtils.ToCoords | src/utils/GameBoardUtils.ts:31-34 | succeeds exactly for 0..63; the error kind; the pair is on the grid and y·8 + x is the index |
| GameBoardUtils.ToCoordsIsColRow | src/utils/GameBoardUtils.ts:31-34 | toCoords(i) is (i mod 8, i div 8) |
| GameBoardUtils.CoordsRoundTrip | src/utils/GameBoardUtils.ts:19-34 | toCoords(toIndex(x, y)) == (x, y) for every pair on the grid |
| GameBoardUtils.IndexRoundTrip | src/utils/GameBoardUtils.ts:19-34 | toIndex(toCoords(i)) == i for every field |
| GameBoardUtils.AssertIndex | src/logic/GameLogic.ts:80 | passes exactly for 0..63, otherwise fails with IndexOutOfRange |
| GameBoardUtils.DistX | tests/utils/GameBoardUtils.test.ts:150-203 | fails exactly when a field is out of range; otherwise the column of the first plus the result is the column of the second, within -7..7 |
| GameBoardUtils.DistY | tests/utils/GameBoardUtils.test.ts:208-256 | the same for rows |
| GameBoardUtils.RowMonotone | src/utils/GameBoardUtils.ts:31-34 | the row never decreases as the index grows |
| GameBoardUtils.ToIndexExamples | tests/utils/GameBoardUtils.test.ts:34-52 | toIndex(0,0)=0, (7,7)=63, (3,4)=35, (4,3)=28 |
| GameBoardUtils.ToIndexErrorExamples | tests/utils/GameBoardUtils.test.ts:74-92 | toIndex fails for -1 and 8 in either coordinate |
| GameBoardUtils.ToCoordsExamples | tests/utils/GameBoardUtils.test.ts:97-145 | the coordinates of 0, 63, 28, 35, 16; toCoords fails for -1 and 64 |
| GameBoardUtils.DistExamples | tests/utils/GameBoardUtils.test.ts:150-256 | distX(9,20)=3, distX(9,17)=0, distY(9,17)=1, distY(9,36)=3 and the others tested; both fail outside 0..63 |
| Board.NewGameBoard | tests/model/GameBoard.test.ts:21-42 | succeeds exactly for distinct players with distinct names; which error otherwise; a new board is empty and keeps the players in order |
| Board.IsFieldEmpty | tests/model/GameBoard.test.ts:141-169 | fails exactly outside 0..63; otherwise true exactly when the field holds no piece |
| Board.GetPieceFromField | tests/model/GameBoard.test.ts:109-136 | fails exactly outside 0..63; otherwise returns what the field holds, and a piece found belongs to one of the board's players |
| Board.PlacePieceOnField | tests/model/GameBoard.test.ts:63-104 | succeeds exactly for an index in range, a player of the board and an empty field; the error for each other case; the board stays well formed |
| Board.ClearAllFields | tests/model/GameBoard.test.ts:171-177 | every field is empty and the players are kept |
| Board.PlaceThenGet | tests/model/GameBoard.test.ts:63-76 | a placed piece is read back from its field and no other field changes |
| Board.PlaceTwiceFails | tests/model/GameBoard.test.ts:78-83 | a second piece on the same field is refused |
| Sorting.InsertPermutes | src/utils/SquareUtils.ts:22 | inserting adds exactly one element, whatever the comparison |
| Sorting.SortByPermutes | src/utils/SquareUtils.ts:22 | sorting is a permutation of its input, whatever the comparison |
| Sorting.NumericSortSorted | src/utils/SquareUtils.ts:22 | the numeric sort returns an ascending sequence |
| Sorting.SortedUnique | src/utils/SquareUtils.ts:22 | two ascending sequences with the same elements are equal |
| Sorting.NumericSortPermutation | src/utils/SquareUtils.ts:22 | the numeric sort depends only on the multiset of its input |
| Sorting.NumericSortIs | src/utils/SquareUtils.ts:22 | the numeric sort of a permutation of an ascending sequence is that sequence |
| Sorting.NumericSortOfSorted | src/utils/SquareUtils.ts:22 | an ascending sequence is left as it is |
| SquareUtils.GetPossiblePieces | src/utils/SquareUtils.ts:43-67 | fails with RootsUnordered when the first root is greater; otherwise succeeds exactly for roots in range; the companions, when there are any |
| SquareUtils.OffsetPerpendicular | src/utils/SquareUtils.ts:58-59 | the offset is perpendicular to (dx, dy), equally long, and zero only for (0, 0) |
| SquareUtils.CompanionsAreShifted | src/utils/SquareUtils.ts:58-59 | both companions are shifted from their roots by the same offset, the turned root vector |
| SquareUtils.CompanionsPerpendicular | src/utils/SquareUtils.ts:58-59 | the shift is perpendicular to the root vector, as long as it, and not zero |
| SquareUtils.CompanionsNoneIff | src/utils/SquareUtils.ts:51-63 | there are no companions exactly when the roots coincide or a companion falls off the grid |
| SquareUtils.CompanionsDistinct | src/utils/SquareUtils.ts:51-59 | the roots and companions are four distinct fields |
| SquareUtils.IndexOrder | src/utils/GameBoardUtils.ts:19-23 | fields are ordered by row, then by column |
| SquareUtils.NoCompanionsFrom55 | src/logic/SquareCollector.ts:44 | no root pair from 55 upward has companions, so the scans may stop there |
| SquareUtils.Min4 | src/utils/SquareUtils.ts:77 | the least of four values: one of them and below each |
| SquareUtils.Max4 | src/utils/SquareUtils.ts:78 | the greatest of four values: one of them and above each |
| SquareUtils.Score | src/utils/SquareUtils.ts:76-81 | succeeds exactly for four fields in range; the score is (rows from least to greatest field + 1)², between 1 and 64 |
| SquareUtils.ScoreOf | src/utils/SquareUtils.ts:76-81 | the score of four fields in range, between 1 and 64 |
| SquareUtils.SquareBounds | src/utils/SquareUtils.ts:74-81 | a square spanning 1 to 8 rows scores between 1 and 64 |
| SquareUtils.MinMaxOfPermutation | src/utils/SquareUtils.ts:77-78 | the least and greatest of four values do not depend on their order |
| SquareUtils.ScorePermutation | src/utils/SquareUtils.ts:76-81 | the score does not depend on the order of the fields |
| SquareUtils.IsSquare | src/utils/SquareUtils.ts:21-31 | isSquare with the fields sorted numerically, as intended; IsSquareIff and IsSquarePermutation state what it decides |
| SquareUtils.IsSquareAsWritten | src/utils/SquareUtils.ts:21-31 | isSquare as written, with JavaScript's string sort; IsSquareAsWrittenRejectsSquare shows a square it rejects |
| SquareUtils.IsSquareIff | src/utils/SquareUtils.ts:21-31 | isSquare fails exactly when one of the two smallest fields is out of range, and holds exactly when their companions are the other two, in either order |
| SquareUtils.IsSquarePermutation | src/utils/SquareUtils.ts:21-31 | isSquare does not depend on the order of its input |
| SquareUtils.CompletesWith | src/utils/SquareUtils.ts:29-31 | the companions in either order complete the square |
| SquareUtils.CompletesWithout | src/utils/SquareUtils.ts:29-31 | any other pair of fields does not |
| SquareUtils.CompanionsOrder | src/utils/SquareUtils.ts:58-59 | the four fields of a found square lie in the order a < b < c < d, or a < c < b < d, and then a and c are roots of the same square |
| SquareUtils.CompanionsFormSquare | src/utils/SquareUtils.ts:21-67 | every root pair with companions spans a square that isSquare accepts, and they sort as CompanionsOrder says |
| SquareUtils.SortRoots | src/utils/SquareUtils.ts:22 | the sorted fields of a found square: the roots first, unless the first companion lies between them |
| SquareUtils.ScoreOfRoots | src/utils/SquareUtils.ts:76-81 | four fields with least a and greatest d score by the rows from a to d |
| SquareUtils.StringOrderExample | src/utils/SquareUtils.ts:22 | as strings, 9 sorts after 19, 24 and 34 |
| SquareUtils.StringSortExample | src/utils/SquareUtils.ts:22 | JavaScript's default sort orders [9, 19, 24, 34] as [19, 24, 34, 9] |
| SquareUtils.IsSquareAsWrittenRejectsSquare | tests/utils/SquareUtils.test.ts:31-33 | isSquare as written rejects the tested square [9, 19, 24, 34], which the numeric reading accepts |
| SquareUtils.TiltedSquareExample | tests/utils/SquareUtils.test.ts:69-71 | the companions of 9 and 19 are 24 and 34, and isSquare accepts the four |
| SquareUtils.GetPossiblePiecesExamples | tests/utils/SquareUtils.test.ts:64-81 | [1,8] → [10,17], [9,19] → [24,34], [0,9] → none, [19,9] fails |
| SquareUtils.SquareFromCompanions | src/utils/SquareUtils.ts:21-31 | two roots and their companions pass isSquare |
| SquareUtils.CompanionsExample | tests/utils/SquareUtils.test.ts:16-18 | the companions of 0 and 1 are 8 and 9 |
| SquareUtils.IsSquareExample | tests/utils/SquareUtils.test.ts:16-18 | isSquare accepts [0, 1, 8, 9] |
| SquareUtils.IsSquareUnsortedExample | tests/utils/SquareUtils.test.ts:21-23 | isSquare accepts [9, 1, 8, 0] |
| SquareUtils.IsSquareRejectExample | tests/utils/SquareUtils.test.ts:56-58 | isSquare rejects [1, 3, 10, 17] |
| SquareUtils.IsSquareRejectRowExample | tests/model/Square.test.ts:26-28 | isSquare rejects four fields in one row |
| SquareUtils.ScoreSmallExamples | tests/model/Square.test.ts:58-91 | the scores 4, 9, 16 and 16 the tests pin down |
| SquareUtils.ScoreLargeExamples | tests/utils/SquareUtils.test.ts:87-114 | the scores 25, 49, 64, 64 and 64 the tests pin down |
| Squares.NewSquare | tests/model/Square.test.ts:16-28 | succeeds exactly for four fields in range that form a square; IndexOutOfRange or NotASquare otherwise; the square is valid, holds the same fields, the given player and their score |
| Squares.NewSquareValid | src/model/Square.ts:31-35 | the sorted copy of valid fields is in range, ascending, a square, and scores the same |
| Squares.GetSortedFields | src/model/Square.ts:43-45 | four ascending fields that form a square |
| Squares.GetScore | src/model/Square.ts:53-55 | the score of the fields, between 1 and 64 |
| Squares.NewSquareGetters | tests/model/Square.test.ts:34-52 | a new square returns its player, its sorted fields and the score of the fields |
| Squares.NewSquareCanonical | src/model/Square.ts:31-35 | the same fields in any order give the same square |
| Squares.Key | src/utils/HashSet.ts:26-31 | the key a square is stored under: its sorted fields, without the owner; StoredSquareIsSelf shows why that is enough |
| Squares.GetPlayer | src/model/Square.ts:63-65 | the player who scored the square; NewSquareGetters states it for a new square |
| Squares.KeyDeterminesSquare | src/utils/HashSet.ts:26-31 | two valid squares of one player with the same key are the same square |
| Squares.NewSquareOf | src/model/Square.ts:31-35 | the constructor on valid fields builds their sorted copy and their score |
| Squares.RootsFacts | src/logic/SquareCollector.ts:56-63 | two roots and their companions form a square, sort as RootsSquare says and score by their height |
| Squares.NewSquareFromRoots | src/logic/SquareCollector.ts:63 | the constructor builds RootsSquare from two roots and their companions |
| Squares.NewSquareSortsExample | tests/model/Square.test.ts:40-43 | [9, 1, 0, 8] becomes a square with fields [0, 1, 8, 9] |
| Squares.NewSquareRejectsNegativeExample | tests/model/Square.test.ts:21-23 | a negative field is refused with IndexOutOfRange |
| Squares.NewSquareRejectsRowExample | tests/model/Square.test.ts:26-28 | [0, 1, 2, 3] is refused with NotASquare |
| Squares.NewSquareRejects | tests/model/Square.test.ts:26-28 | fields in range that isSquare rejects are refused with NotASquare |
| Squares.GetScoreExample | tests/model/Square.test.ts:70-74 | the square [0, 1, 8, 9] scores 4 |
| HashSets.HashSet.constructor | src/utils/HashSet.ts:28 | a new set is empty |
| HashSets.HashSet.Contains | src/utils/HashSet.ts:38-40 | true exactly when a value with the same hash code is stored |
| HashSets.HashSet.Size | src/utils/HashSet.ts:56-58 | the number of stored hash codes |
| HashSets.HashSet.Push | src/utils/HashSet.ts:30-32 | v is stored under its hash code and contained; other entries are kept; the size grows by one exactly when the hash code was new |
| HashSets.HashSet.Remove | src/utils/HashSet.ts:34-36 | the entry under v's hash code is dropped, so v is not contained; other entries are kept |
| HashSets.HashSet.Clear | src/utils/HashSet.ts:52-54 | nothing is stored, the size is 0 and nothing is contained |
| HashSets.HashSet.Values | src/utils/HashSet.ts:46-50 | every stored value exactly once: as long as the size, each listed value is stored under its hash code, every stored value is listed, no hash code twice |
| HashSets.ListValues | src/utils/HashSet.ts:47-49 | the loop of values over a map: each value once |
| HashSets.ListedStep | src/utils/HashSet.ts:48 | listing the value under one more key keeps every value listed once |
| Collector.RawHitIsNewSquare | src/logic/SquareCollector.ts:56-63 | a hit is the square the constructor builds from the roots and their companions |
| Collector.RootsSquareOwned | src/logic/SquareCollector.ts:47-61 | a square on four fields holding p's pieces lies on p's fields |
| Collector.RowScanMembers | src/logic/SquareCollector.ts:50-71 | the inner loop finds exactly the unknown hits over the root i and a later root |
| Collector.NoHitsFrom55 | src/logic/SquareCollector.ts:44 | no hit has a first root at 55 or beyond |
| Collector.ScanMembers | src/logic/SquareCollector.ts:44-72 | the outer loop finds exactly the unknown hits over root pairs from i upward |
| Collector.NewSquaresSound | src/logic/SquareCollector.ts:47-69 | every square found is a valid square of p, on p's fields, and not stored before |
| Collector.StoreOwned | src/logic/SquareCollector.ts:26-36 | the store is sound: each stored square is valid, stored under its key, on its own player's pieces |
| Collector.PlaceKeepsOwned | src/logic/GameLogic.ts:85 | placing a piece on an empty field keeps the store sound |
| Collector.ScanKeepsOwned | src/logic/SquareCollector.ts:26-36 | storing what a scan of the same board found keeps the store sound |
| Collector.StoredSquareIsSelf | src/utils/HashSet.ts:26-31 | in a sound store, a square on its player's pieces is the very square stored under its key: another player's square cannot hide it |
| Collector.OwnedSquareFoundOrStored | src/logic/SquareCollector.ts:44-72 | in a sound store, every square of p on p's fields is stored as itself already or found by the scan |
| Collector.NewSquaresComplete | src/logic/SquareCollector.ts:44-72 | every valid square of p on p's fields that is not stored yet is found |
| Collector.SquareIsRawHit | src/logic/SquareCollector.ts:44-63 | a valid square of p on p's fields is the hit at its two smallest fields |
| Collector.HitIsSquare | src/logic/SquareCollector.ts:63 | sorting the roots and companions of a sorted square gives back the square |
| Collector.AddAllKeys | src/logic/SquareCollector.ts:33 | pushing keeps every stored key, adds the key of each pushed square and no other key, and leaves the entries under other keys alone |
| Collector.AddAllStep | src/logic/SquareCollector.ts:33 | pushing one more square stores it under its key |
| Collector.AddAllStores | src/logic/SquareCollector.ts:33 | after pushing valid squares of one player, each is stored under its key |
| Collector.AddAllStoresKeyed | src/logic/SquareCollector.ts:33 | pushing squares that agree wherever their keys agree stores each under its key |
| Collector.StoreScan | src/logic/SquareCollector.ts:26-36 | storing what a scan found keeps every stored square, and stores each found one: a square of the mover on the mover's fields |
| Collector.RescanMisses | src/logic/SquareCollector.ts:66-67 | after storing a scan's result, no root pair gives a new square |
| Collector.RescanFindsNothing | src/logic/SquareCollector.ts:26-36 | a second scan of the same board for the same player finds nothing |
| Collector.RowScanStep | src/logic/SquareCollector.ts:50-71 | one round of the inner loop moves its hit from the scan still to do to the result |
| Collector.PickKey | src/logic/SquareCollector.ts:96 | a key of a non-empty key set |
| Collector.SumSeqStep | src/logic/SquareCollector.ts:96-99 | summing one more square adds its weight |
| Collector.TallyRemove | src/logic/SquareCollector.ts:94-117 | the tally is the weight of any one stored square plus the tally of the others, so the visiting order does not matter |
| Collector.TallyAdd | src/logic/SquareCollector.ts:94-117 | storing a square under a new key adds its weight to the tally |
| Collector.TallyOfValues | src/logic/SquareCollector.ts:94-117 | summing a list that holds every stored square once gives the tally of the store |
| Collector.SumList | src/logic/SquareCollector.ts:96-99 | the forEach loop adds up the weight of each listed square of p |
| Collector.SquareCollector.constructor | src/logic/SquareCollector.ts:14 | a new collector stores nothing |
| Collector.SquareCollector.FindNewSquares | src/logic/SquareCollector.ts:39-75 | the scan's result is NewSquares: the squares p completes that are not stored yet, in loop order |
| Collector.SquareCollector.FindInRow | src/logic/SquareCollector.ts:50-71 | the inner loop's result is the row scan from i + 1 |
| Collector.SquareCollector.ScanPair | src/logic/SquareCollector.ts:53-69 | one round of the inner loop keeps the loop's result plus the scan still to do unchanged |
| Collector.SquareCollector.CheckPair | src/logic/SquareCollector.ts:53-69 | the body of the inner loop yields the unknown hit over the roots i and j, if any |
| Collector.SquareCollector.DetectNewSquares | src/logic/SquareCollector.ts:26-36 | returns NewSquares of the old store and stores each of them; with StoreScan and RescanFindsNothing the store only grows and a repeat finds nothing |
| Collector.SquareCollector.GetDetectedSquares | src/logic/SquareCollector.ts:83-85 | every stored square once, each under its key |
| Collector.SquareCollector.Sum | src/logic/SquareCollector.ts:94-117 | the sum of the weights of p's stored squares |
| Collector.SquareCollector.GetSquareCount | src/logic/SquareCollector.ts:94-101 | the number of p's stored squares |
| Collector.SquareCollector.GetScore | src/logic/SquareCollector.ts:110-117 | the total score of p's stored squares |
| Collector.SquareCollector.Reset | src/logic/SquareCollector.ts:123-125 | nothing is stored; count and score are 0 for every player |
| GameOver.NewGameOverVerifier | src/logic/GameOverVerifier.ts:52-58 | succeeds exactly when both thresholds are at least 1, and then keeps them |
| GameOver.NewGameOverVerifierExamples | tests/logic/GameOverVerifier.test.ts:50-67 | -1 and 0 are refused for either threshold; 150 and 15 are accepted |
| GameOver.GetGameDrawState | src/logic/GameOverVerifier.ts:99-105 | the higher score wins; equal scores draw (each as an iff) |
| GameOver.GameOverStateOf | src/logic/GameOverVerifier.ts:67-96 | the threshold rule decides first, for either player; otherwise both possible → NOT_OVER, none → draw state, only one player → that player wins iff ahead, else NOT_OVER |
| GameOver.ClassifyPieces | src/logic/GameOverVerifier.ts:141-147 | the flags the inner loop computes over the four pieces |
| GameOver.SeenInRowStep | src/logic/GameOverVerifier.ts:126-158 | one more root pair in a row adds its quadruple's kind |
| GameOver.SeenBeforeStep | src/logic/GameOverVerifier.ts:122-159 | one more row adds the kinds of its quadruples |
| GameOver.CanPlayersDoMoreSquares | src/logic/GameOverVerifier.ts:108-168 | the scan with its early returns yields PossibleMovesOf: both if some quadruple is all empty or each player has an open one, else the players that have one, else none |
| GameOver.SeenSoFarInAny | src/logic/GameOverVerifier.ts:150-157 | a quadruple seen before an early return is a quadruple of the board |
| GameOver.SeenBeforeMonotone | src/logic/GameOverVerifier.ts:122-159 | a kind seen in the first rows occurs on the board |
| GameOver.SeenInRowInAny | src/logic/GameOverVerifier.ts:126-158 | a kind seen in one row occurs on the board |
| GameOver.IsGameOver | src/logic/GameOverVerifier.ts:67-96 | the verdict for the two players' collected scores and the board's possible moves; board and collector unchanged |
| GameOver.EmptyBoardBothPlayers | tests/logic/GameOverVerifier.test.ts:97-124 | on an empty board both players can still complete a square |
| GameOver.FreeQuad | src/logic/GameOverVerifier.ts:153-154 | a quadruple with four empty fields lets both players continue |
| GameOver.FullBoardNoPlayer | tests/logic/GameOverVerifier.test.ts:127-145 | on a full board neither player can complete a square |
| GameOver.OneGapOnlyPlayer1 | tests/logic/GameOverVerifier.test.ts:147-159 | on a board of player 1's pieces with one gap, only player 1 can continue |
| GameOver.OneGapOnlyPlayer2 | tests/logic/GameOverVerifier.test.ts:161-173 | on a board of player 2's pieces with one gap, only player 2 can continue |
| GameOver.OneGapOpenQuad | tests/logic/GameOverVerifier.test.ts:147-173 | on a board of one player's pieces with one gap, the quadruple 2, 3, 10, 11 is open for that player |
| GameOver.OneGapQuad | src/logic/GameOverVerifier.ts:149-154 | on that board every quadruple is open for that player or closed: none is all empty or open for the other |
| GameOver.GameOverStateExamples | tests/logic/GameOverVerifier.test.ts:73-187 | the tested verdicts for thresholds 150 and 15 |
| Bots.CalculateNewScore | src/logic/players/BotPlayerLogic.ts:164-173 | LONG_TERM adds the contribution; SHORT_TERM keeps the larger value; a non-negative contribution never lowers the value |
| Bots.Zeros | src/logic/players/BotPlayerLogic.ts:61-62 | both maps start as 64 zeros |
| Bots.Contribution | src/logic/players/BotPlayerLogic.ts:102-114 | score × (pieces + 1) is at least the score, and is the score for no pieces |
| Bots.CountPieces | src/logic/players/BotPlayerLogic.ts:86-93 | the inner loop counts the bot's pieces and the others' pieces |
| Bots.MergeGrows | src/logic/players/BotPlayerLogic.ts:159-173 | merging a non-negative contribution never lowers a value |
| Bots.SpreadGrows | src/logic/players/BotPlayerLogic.ts:105-120 | merging into a quadruple's four fields never lowers a value |
| Bots.PairUpdateGrows | src/logic/players/BotPlayerLogic.ts:98-121 | a quadruple never cools a field of either map |
| Bots.BlockedQuadruple | src/logic/players/BotPlayerLogic.ts:98-121 | a quadruple holding pieces of both players changes neither map |
| Bots.BelowTrans | src/logic/players/BotPlayerLogic.ts:74-123 | "no value higher" is transitive |
| Bots.RowHeatGrows | src/logic/players/BotPlayerLogic.ts:76-122 | later root pairs of a row only raise values |
| Bots.BoardHeatGrows | src/logic/players/BotPlayerLogic.ts:74-123 | later rows only raise values: the maps never cool while they are built |
| Bots.HeatMapsNonNegative | src/logic/players/BotPlayerLogic.ts:61-123 | every value of the finished maps is at least 0 |
| Bots.Random | src/logic/players/BotPlayerLogic.ts:177 | Math.random() for a draw lies in [0, 1) |
| Bots.DoRandomizationAsWrittenOnlyAtZero | src/logic/players/BotPlayerLogic.ts:176-178 | as written, a tie goes to the later field only for the draw 0 |
| Bots.DoRandomizationIsFair | src/logic/players/BotPlayerLogic.ts:176-178 | the intended coin flips on neighbouring draws, and never fires with randomisation off |
| Bots.BotPlayerLogic.constructor | src/logic/players/BotPlayerLogic.ts:37-40 | keeps the player and strategy; randomisation starts on |
| Bots.BotPlayerLogic.SetRandomizeMoves | src/logic/players/BotPlayerLogic.ts:49-51 | sets the randomisation flag |
| Bots.BotPlayerLogic.UpdateHeatMap | src/logic/players/BotPlayerLogic.ts:159-161 | the array holds Merge of its old contents |
| Bots.BotPlayerLogic.HeatPair | src/logic/players/BotPlayerLogic.ts:75-121 | one inner round leaves the arrays holding PairUpdate of their old contents |
| Bots.BotPlayerLogic.BuildHeatMaps | src/logic/players/BotPlayerLogic.ts:61-123 | the two new arrays hold HeatMapsOf the board |
| Bots.BotPlayerLogic.PickMove | src/logic/players/BotPlayerLogic.ts:125-151 | -1 exactly on a full board; otherwise an empty field of highest value; without randomisation the lowest such field |
| Bots.BotPlayerLogic.RequestMove | src/logic/players/BotPlayerLogic.ts:60-156 | fails exactly when no field is empty; otherwise a best empty field for the heat maps of the board, the lowest one without randomisation |
| Bots.CountEmpty | src/logic/players/BotPlayerLogic.ts:86-93 | empty fields count for neither player |
| Bots.PairUpdateCapped | src/logic/players/BotPlayerLogic.ts:110-120 | on an empty board a SHORT_TERM update keeps values at most 64 and the opponent's map at 0 |
| Bots.RowHeatCapped | src/logic/players/BotPlayerLogic.ts:76-122 | the same over a row |
| Bots.BoardHeatCapped | src/logic/players/BotPlayerLogic.ts:74-123 | the same over the board |
| Bots.EmptyQuadrupleHeats | src/logic/players/BotPlayerLogic.ts:110-120 | on an empty board a quadruple heats its first root in the bot's map to at least its score |
| Bots.CornerSquare | src/utils/SquareUtils.ts:43-81 | 0 and 7 have the companions 56 and 63, and that square scores 64 |
| Bots.CornerHeat | tests/logic/players/BotPlayerLogic.test.ts:44-57 | on an empty board field 0 of the bot's map is at least 64 |
| Bots.ShortTermEmptyBoardPicksZero | tests/logic/players/BotPlayerLogic.test.ts:44-57 | on an empty board a SHORT_TERM bot without randomisation plays field 0 and only field 0 |
| Humans.HumanPlayerLogic.constructor | tests/logic/players/HumanPlayerLogic.test.ts:39-42 | the player is inactive and has no callback |
| Humans.HumanPlayerLogic.RequestMove | src/logic/players/HumanPlayerLogic.ts:39-42 | the callback is kept and the player becomes active |
| Humans.HumanPlayerLogic.IsPlayerActive | src/logic/players/HumanPlayerLogic.ts:50-52 | whether the player may move: RequestMove sets it and an accepted PlacePiece clears it |
| Humans.HumanPlayerLogic.PlacePiece | src/logic/players/HumanPlayerLogic.ts:61-73 | fails outside 0..63 and changes nothing; while inactive forwards nothing; while active becomes inactive and forwards to the kept callback |
| Humans.OneMovePerRequest | tests/logic/players/HumanPlayerLogic.test.ts:62-70 | one request lets exactly one move through; a second placePiece forwards nothing |
| Games.CheckPlayersAsWrittenRejectsAll | src/logic/GameLogic.ts:99-104 | as written, no pair of players passes checkPlayers |
| Games.CheckPlayersAsWrittenRejectsMatchingPlayers | src/logic/GameLogic.ts:102 | the board's own distinct players pass the intended check and fail the written one |
| Games.CheckPlayers | src/logic/GameLogic.ts:99-104 | passes exactly for distinct players equal to the board's player1 and player2; which error otherwise |
| Games.WithoutRemovesAll | src/logic/GameLogic.ts:299-301 | removing a listener drops every occurrence of it and keeps the count of every other |
| Games.WithoutKeepsOrder | src/logic/GameLogic.ts:299-301 | removal acts on each part of the list separately, so the order is kept |
| Games.WithoutAbsent | src/logic/GameLogic.ts:299-301 | removing an absent listener changes nothing |
| Games.NotifyAt | src/logic/GameLogic.ts:274-292 | a fan-out delivers the event once to each listener, in the order they were added |
| Games.StartGameRejectsStranger | src/logic/GameLogic.ts:177-179 | startGame fails for a player of neither logic and changes nothing |
| Games.StartGameAnnouncesStartFirst | src/logic/GameLogic.ts:160-174 | startGame clears board and squares, starts the game, makes p's logic active and asks it to move; every listener hears game-started and then active-player-changed |
| Games.RejectedMoveChangesNothing | src/logic/GameLogic.ts:77-83 | a move before the start, off the board or on an occupied field changes nothing; the error or false it returns |
| Games.MovePlacesPiece | src/logic/GameLogic.ts:85-87 | a move on an empty field returns true, places the active player's piece there only, keeps every stored square and stores each square it completes for the mover |
| Games.MovedParts | src/logic/GameLogic.ts:85-87 | after such a move the board has the piece placed and the store holds the squares it completes |
| Games.MoveHandsTurnOver | src/logic/GameLogic.ts:88-93 | the game goes on and the other logic is active and asked to move, or the game is over, the turn stays and the game-over event is the last heard |
| Games.StepsKeepConsistent | src/logic/GameLogic.ts:77-199 | startGame and makeMove keep the game's invariant |
| Games.WinnerMatchesVerdict | src/logic/GameLogic.ts:136-152 | game over is announced with the winner's player, and with none exactly for a draw |
| Games.GameLogic.constructor | src/logic/GameLogic.ts:60-70 | a new game keeps board and logics, has no listeners, no active player, is not started, and uses thresholds 150 and 15 |
| Games.GameLogic.Create | tests/logic/GameLogic.test.ts:48-91 | construction fails exactly as checkPlayers does; a new game is not started and has no active player |
| Games.GameLogic.Fire | src/logic/GameLogic.ts:274-292 | the fan-out loop appends one delivery per listener |
| Games.GameLogic.SetActivePlayerLogicTo | src/logic/GameLogic.ts:191-199 | the logic becomes active, the listeners hear of it, and it is asked to move |
| Games.GameLogic.SwitchActivePlayer | src/logic/GameLogic.ts:183-188 | the other logic is activated |
| Games.GameLogic.StartGame | src/logic/GameLogic.ts:160-174 | the new state and outcome are those of Started |
| Games.GameLogic.CheckGameBoardForSquares | src/logic/GameLogic.ts:128-133 | the mover's new squares are stored and announced when there are any |
| Games.GameLogic.CheckIfGameIsOver | src/logic/GameLogic.ts:136-152 | true exactly when the verdict is not NOT_OVER, and then the winner is announced |
| Games.GameLogic.MakeMove | src/logic/GameLogic.ts:77-94 | the result and new state are those of Moved, whose properties the lemmas above state |
| Games.StepsKeepStoreOwned | src/logic/GameLogic.ts:77-174 | starting and moving keep the store sound for the board |
| Games.MoveStoresOwnedSquares | src/logic/GameLogic.ts:77-94 | after a move, every square the mover holds on the board is stored as itself |
| Games.GameLogic.GetActivePlayer | src/logic/GameLogic.ts:207-211 | a player exactly when a logic is active, and then the active logic's player |
| Games.GameLogic.IsGameStarted | src/logic/GameLogic.ts:219-221 | whether the game is started; with Valid() this holds exactly when a logic is active |
| Games.GameLogic.GetGameBoard | src/logic/GameLogic.ts:229-231 | the board the game holds; MakeMove and StartGame state how it changes |
| Games.GameLogic.GetSquares | src/logic/GameLogic.ts:239-241 | every stored square once |
| Games.GameLogic.GetScore | src/logic/GameLogic.ts:250-252 | the total score of p's stored squares |
| Games.GameLogic.GetSquareCount | src/logic/GameLogic.ts:260-262 | the number of p's stored squares |
| Games.GameLogic.AddGameLogicListener | src/logic/GameLogic.ts:270-272 | the listener is appended; nothing else changes |
| Games.GameLogic.RemoveGameLogicListener | src/logic/GameLogic.ts:299-301 | the listeners become Without(listeners, l); nothing else changes |
| Play.BotTurn | src/logic/GameLogic.ts:198 | the bot's turn: a best move on the game's board whenever a field is empty, landing as Moved says |
| Play.HumanPlacePiece | src/logic/players/HumanPlayerLogic.ts:61-73 | the user's move reaches makeMove exactly when the player is active and the index is in range |

## Left out

- `isInt` (`src/utils/GameBoardUtils.ts:42-44`) and the tests with non-integer indices: the model's indices are integers.
- `setSquareCollector` and `setGameOverVerifier` (`src/logic/GameLogic.ts:112-124`): test-only setters. The game always uses its own collector and the thresholds 150 and 15.
- Re-entrancy: `setActivePlayerLogicTo` asks a logic to move, and a bot answers at once through `makeMove`. In the model the request is logged and the answer is a separate step (`Play`).
- Listener objects and their callbacks: each call is a logged `Delivery`. A listener that throws, or changes the game while it is notified, is not modelled.
- `Math.random()` is a draw parameter. Floating-point details beyond `x % 2` for x in [0, 1) are not modelled.
- Player and logic identity is value equality of their ids and names, not object identity.
- The order of two steps in `startGame` differs. The model sets the active logic before the game-started fan-out, so that a started game always has one. The log and the final state are those of the source.
- Games.GameLogic.constructor: requires the intended `checkPlayers` to pass. As written the constructor always throws (the finding below), and a model of that would have no instance.
- Squares.Key: the key is the sorted fields only, without the owner, so a map keyed this way could let one player's square hide another's on the same fields. The game never stores such a pair: `Games.GameLogic.Valid()` holds `Collector.StoreOwned`, so each stored square lies on its own player's pieces. Every step keeps that (`Games.StepsKeepStoreOwned`), and under it a square is stored as itself (`Collector.StoredSquareIsSelf`).
- Bots.BotPlayerLogic.PickMove: breaks ties with the intended fair coin (`DoRandomization`, true on every even draw). The source's `Math.random() % 2 == 0` switches only at draw 0. With randomisation on, the model therefore takes a later tied field on half of all draws, where the source practically never does.
- Collector.NewSquares: one scan may list the same square twice, once per root pair of it, as the source does. The model proves no "no duplicates" claim, and the store holds it once.
- Bots.ShortTermEmptyBoardPicksZero: only the SHORT_TERM case of the empty-board test is proved. The LONG_TERM bot's choice of field 11 (`tests/logic/players/BotPlayerLogic.test.ts:59-71`) and the non-empty-board test are not.
- `makeMove` after game over: the source keeps `isStarted` and only stops asking for moves. The model does the same and adds no guard.
- Humans.HumanPlayerLogic.PlacePiece: the "callback is not available" throw cannot happen under `Valid()`, which ties activity to a kept callback.
- `src/model/GameBoard.ts` as written (a stub that logs): the board follows its tests instead.
- The `Square` class as written (score 0, unsorted getter, no `hashCode`): `Square` follows its tests instead.
- `HashSet.forEach` (`src/utils/HashSet.ts:42-44`) is folded into the summing loop (`Collector.SumList`).

## Findings

| source | as written | input that shows it | evidently intended | confidence | as-written member | corrected member |
|---|---|---|---|---|---|---|
| src/utils/SquareUtils.ts:22 | `pieces.sort()` sorts the numbers as strings | [9, 19, 24, 34] sorts to [19, 24, 34, 9], so the square is rejected | sort numerically; the tests expect the square to be accepted | high, not executed | SquareUtils.IsSquareAsWrittenRejectsSquare | SquareUtils.IsSquarePermutation |
| src/logic/GameLogic.ts:102 | `gameBoard.getPlayer1()` calls a getter as a function, which throws | any two distinct players, e.g. the board's own player 1 and player 2 | compare with the board's two players | high, not executed | Games.CheckPlayersAsWrittenRejectsMatchingPlayers | Games.CheckPlayers |
| src/logic/players/BotPlayerLogic.ts:177 | `Math.random() % 2 == 0` holds only when Math.random() returns exactly 0 | every draw except 0 keeps the earlier field on a tie | a fair coin on ties | high, not executed | Bots.DoRandomizationAsWrittenOnlyAtZero | Bots.DoRandomizationIsFair |
