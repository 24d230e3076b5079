/**
 * A square scored by a player: its four fields in ascending order, its
 * score and its owner. All three are fixed when the square is built.
 */
module Squares {
  import opened Wrappers
  import opened GameBoardUtils
  import opened Sorting
  import opened SquareUtils
  import opened Players

  datatype Square = Square(fields: seq<int>, score: int, player: Player)

  /** The fields of a square are four ascending indices that form a square, and it scores by its height. */
  predicate ValidSquare(sq: Square)
  {
    && |sq.fields| == 4
    && (forall k | 0 <= k < 4 :: IsIndex(sq.fields[k]))
    && Sorted(sq.fields)
    && IsSquare(sq.fields) == Ok(true)
    && Score(sq.fields) == Ok(sq.score)
  }

  /** The key a square is stored under: its sorted fields. */
  function Key(sq: Square): seq<int>
  {
    sq.fields
  }

  /**
   * The Square constructor. It fails for a field outside 0..63 and for four
   * fields that do not form a square; otherwise it keeps the fields in
   * ascending order and scores them.
   */
  function NewSquare(fields: seq<int>, p: Player): (r: Result<Square>)
    requires |fields| == 4
    ensures r.Ok? <==> (forall k | 0 <= k < 4 :: IsIndex(fields[k])) && IsSquare(fields) == Ok(true)
    ensures r.Err? ==> r.error == (if forall k | 0 <= k < 4 :: IsIndex(fields[k]) then NotASquare else IndexOutOfRange)
    ensures r.Ok? ==> ValidSquare(r.value) && multiset(r.value.fields) == multiset(fields)
    ensures r.Ok? ==> r.value.player == p && Score(fields) == Ok(r.value.score)
  {
    if !(forall k | 0 <= k < 4 :: IsIndex(fields[k])) then Err(IndexOutOfRange)
    else if IsSquare(fields) != Ok(true) then Err(NotASquare)
    else
      var s := NumericSort(fields);
      NewSquareValid(fields, s);
      Ok(Square(s, Score(fields).value, p))
  }

  /** The sorted copy of four valid fields that form a square is valid and scores the same. */
  lemma {:induction false} NewSquareValid(fields: seq<int>, s: seq<int>)
    requires |fields| == 4 && (forall k | 0 <= k < 4 :: IsIndex(fields[k])) && IsSquare(fields) == Ok(true)
    requires s == NumericSort(fields)
    ensures |s| == 4 && (forall k | 0 <= k < 4 :: IsIndex(s[k])) && Sorted(s)
    ensures multiset(s) == multiset(fields) && IsSquare(s) == Ok(true) && Score(s) == Score(fields)
  {
    NumericSortSorted(fields);
    SortByPermutes(fields, NumLe);
    forall k | 0 <= k < 4 ensures IsIndex(s[k]) {
      assert s[k] in multiset(fields);
    }
    IsSquarePermutation(s, fields);
    ScorePermutation(s, fields);
  }

  /** getSortedFields: the four fields, in ascending order. */
  function GetSortedFields(sq: Square): (r: seq<int>)
    requires ValidSquare(sq)
    ensures |r| == 4 && Sorted(r) && IsSquare(r) == Ok(true)
  {
    sq.fields
  }

  /** getScore: the score of the fields, (height + 1) squared. */
  function GetScore(sq: Square): (r: int)
    requires ValidSquare(sq)
    ensures Score(GetSortedFields(sq)) == Ok(r) && 1 <= r <= 64
  {
    sq.score
  }

  /** getPlayer: the player who scored the square. */
  function GetPlayer(sq: Square): Player
  {
    sq.player
  }

  /** The getters of a new square return the player, the sorted fields and the score of the fields. */
  lemma {:induction false} NewSquareGetters(fields: seq<int>, p: Player)
    requires |fields| == 4 && NewSquare(fields, p).Ok?
    ensures var sq := NewSquare(fields, p).value;
            && GetPlayer(sq) == p
            && GetSortedFields(sq) == NumericSort(fields)
            && Score(fields) == Ok(GetScore(sq))
  {
  }

  /**
   * The same four fields in any order give the same square, and so the same
   * key.
   */
  lemma {:induction false} NewSquareCanonical(f: seq<int>, g: seq<int>, p: Player)
    requires |f| == 4 && |g| == 4 && multiset(f) == multiset(g)
    ensures NewSquare(f, p) == NewSquare(g, p)
  {
    NumericSortPermutation(f, g);
    IsSquarePermutation(f, g);
    ScorePermutation(f, g);
    forall k | 0 <= k < 4 && !IsIndex(f[k]) ensures exists m | 0 <= m < 4 :: !IsIndex(g[m]) {
      assert f[k] in multiset(g);
    }
    forall k | 0 <= k < 4 && !IsIndex(g[k]) ensures exists m | 0 <= m < 4 :: !IsIndex(f[m]) {
      assert g[k] in multiset(f);
    }
  }

  /** Two valid squares of one player with the same key are the same square. */
  lemma {:induction false} KeyDeterminesSquare(a: Square, b: Square)
    requires ValidSquare(a) && ValidSquare(b) && Key(a) == Key(b) && a.player == b.player
    ensures a == b
  {
    assert Score(a.fields) == Ok(a.score) && Score(b.fields) == Ok(b.score);
  }

  /**
   * The square over the roots a < b and their companions c and d: its fields
   * in ascending order, and its score, the square of the rows it spans.
   */
  function RootsSquare(a: Index, b: Index, c: Index, d: Index, p: Player): Square
  {
    Square(if b < c then [a, b, c, d] else [a, c, b, d], HeightScore(Row(d) - Row(a)), p)
  }

  /** The Square constructor on four fields in range that form a square: their sorted copy and their score. */
  lemma {:induction false} NewSquareOf(q: seq<int>, p: Player, s: seq<int>, score: int)
    requires |q| == 4 && (forall k | 0 <= k < 4 :: IsIndex(q[k])) && IsSquare(q) == Ok(true)
    requires NumericSort(q) == s && Score(q) == Ok(score)
    ensures NewSquare(q, p) == Ok(Square(s, score, p))
  {
  }

  /** Two roots and their companions form a square, sort to RootsSquare's order and score by their height. */
  lemma {:induction false} RootsFacts(a: Index, b: Index, c: Index, d: Index)
    requires a < b && Companions(a, b) == Some((c, d))
    ensures IsSquare([a, b, c, d]) == Ok(true)
    ensures NumericSort([a, b, c, d]) == RootsSquare(a, b, c, d, Player(0, "")).fields
    ensures Score([a, b, c, d]) == Ok(HeightScore(Row(d) - Row(a)))
  {
    CompanionsOrder(a, b);
    CompanionsFormSquare(a, b);
    SortRoots(a, b, c, d);
    ScoreOfRoots(a, b, c, d);
  }

  /** The Square constructor builds RootsSquare from two roots and their companions. */
  lemma {:induction false} NewSquareFromRoots(a: Index, b: Index, p: Player)
    requires a < b && Companions(a, b).Some?
    ensures var (c, d) := Companions(a, b).value;
            NewSquare([a, b, c, d], p) == Ok(RootsSquare(a, b, c, d, p))
  {
    var (c, d) := Companions(a, b).value;
    RootsFacts(a, b, c, d);
    NewSquareOf([a, b, c, d], p, RootsSquare(a, b, c, d, p).fields, HeightScore(Row(d) - Row(a)));
  }

  /** [9, 1, 0, 8] forms a square and sorts to [0, 1, 8, 9]. */
  lemma SortExampleFacts(f: seq<int>)
    requires f == [9, 1, 0, 8]
    ensures |f| == 4 && (forall k | 0 <= k < 4 :: IsIndex(f[k]))
    ensures IsSquare(f) == Ok(true) && NumericSort(f) == [0, 1, 8, 9]
  {
    UnsortedFieldsInRange(f);
    UnsortedFieldsSort();
    SortedFieldsStay();
    IsSquareExample();
  }

  lemma UnsortedFieldsInRange(f: seq<int>)
    requires f == [9, 1, 0, 8]
    ensures |f| == 4 && (forall k | 0 <= k < 4 :: IsIndex(f[k]))
  {
    assert IsIndex(f[0]) && IsIndex(f[1]) && IsIndex(f[2]) && IsIndex(f[3]);
  }

  /** The numeric sort of the fields [9, 1, 0, 8], step by step. */
  lemma UnsortedFieldsSort()
    ensures NumericSort([9, 1, 0, 8]) == [0, 1, 8, 9]
  {
    assert [9, 1, 0, 8][1..] == [1, 0, 8] && [1, 0, 8][1..] == [0, 8] && [0, 8][1..] == [8];
    assert SortBy([0, 8], NumLe) == [0, 8];
    assert SortBy([1, 0, 8], NumLe) == [0, 1, 8] by {
      assert [0, 8][1..] == [8];
      assert Insert(1, [8], NumLe) == [1, 8];
    }
    assert Insert(9, [0, 1, 8], NumLe) == [0, 1, 8, 9] by {
      assert [0, 1, 8][1..] == [1, 8] && [1, 8][1..] == [8] && [8][1..] == [];
    }
  }

  /** The fields [0, 1, 8, 9] are already in order. */
  lemma SortedFieldsStay()
    ensures NumericSort([0, 1, 8, 9]) == [0, 1, 8, 9]
  {
  }

  /** The tests of the Square constructor: the fields come back sorted. */
  lemma NewSquareSortsExample(f: seq<int>, p: Player)
    requires f == [9, 1, 0, 8]
    ensures NewSquare(f, p).Ok? && NewSquare(f, p).value.fields == [0, 1, 8, 9]
  {
    SortExampleFacts(f);
    NewSquareOf(f, p, [0, 1, 8, 9], Score(f).value);
  }

  /** The tests of the Square constructor: a negative field is refused. */
  lemma NewSquareRejectsNegativeExample(f: seq<int>, p: Player)
    requires f == [-1, 1, 8, 9]
    ensures NewSquare(f, p) == Err(IndexOutOfRange)
  {
    assert !IsIndex(f[0]);
  }

  /** The tests of the Square constructor: four fields in one row are refused. */
  lemma NewSquareRejectsRowExample(f: seq<int>, p: Player)
    requires f == [0, 1, 2, 3]
    ensures NewSquare(f, p) == Err(NotASquare)
  {
    RowFieldsFacts(f);
    NewSquareRejects(f, p);
  }

  /** The fields [0, 1, 2, 3] are in range and do not form a square. */
  lemma RowFieldsFacts(f: seq<int>)
    requires f == [0, 1, 2, 3]
    ensures |f| == 4 && (forall k | 0 <= k < 4 :: IsIndex(f[k])) && IsSquare(f) == Ok(false)
  {
    RowFieldsInRange(f);
    IsSquareRejectRowExample();
  }

  lemma RowFieldsInRange(f: seq<int>)
    requires f == [0, 1, 2, 3]
    ensures |f| == 4 && (forall k | 0 <= k < 4 :: IsIndex(f[k]))
  {
    assert IsIndex(f[0]) && IsIndex(f[1]) && IsIndex(f[2]) && IsIndex(f[3]);
  }

  /** The Square constructor on four fields in range that do not form a square. */
  lemma {:induction false} NewSquareRejects(q: seq<int>, p: Player)
    requires |q| == 4 && (forall k | 0 <= k < 4 :: IsIndex(q[k])) && IsSquare(q) == Ok(false)
    ensures NewSquare(q, p) == Err(NotASquare)
  {
  }

  /** The tests of getScore: the smallest square scores 4. */
  lemma GetScoreExample(f: seq<int>, p: Player)
    requires f == [0, 1, 8, 9]
    ensures NewSquare(f, p).Ok? && GetScore(NewSquare(f, p).value) == 4
  {
    IsSquareExample();
    ScoreSmallExamples();
  }
}
