/**
 * Square geometry: the two fields that complete a square over two given
 * fields, the test whether four fields form a square, and a square's score.
 */
module SquareUtils {
  import opened Wrappers
  import opened GameBoardUtils
  import opened Sorting

  /**
   * The shift from a root field to its companion: the vector (dx, dy)
   * between the two roots turned by a quarter, so that it never points up.
   */
  function Offset(dx: int, dy: int): (int, int)
  {
    if dx > 0 then (-dy, dx) else (dy, -dx)
  }

  predicate OnGrid(x: int, y: int) { IsCoord(x) && IsCoord(y) }

  /** The two fields that complete a square over the roots a <= b, if both lie on the board. */
  function Companions(a: Index, b: Index): Option<(Index, Index)>
    requires a <= b
  {
    var dx, dy := Col(b) - Col(a), Row(b) - Row(a);
    if dx == 0 && dy == 0 then None
    else
      var (rx, ry) := Offset(dx, dy);
      if OnGrid(Col(a) + rx, Row(a) + ry) && OnGrid(Col(b) + rx, Row(b) + ry)
      then Some((IndexOf(Col(a) + rx, Row(a) + ry), IndexOf(Col(b) + rx, Row(b) + ry)))
      else None
  }

  /** getPossiblePieces([a, b]). */
  function GetPossiblePieces(a: int, b: int): (r: Result<Option<(Index, Index)>>)
    ensures a > b ==> r == Err(RootsUnordered)
    ensures a <= b ==> (r.Ok? <==> IsIndex(a) && IsIndex(b))
    ensures r.Err? && a <= b ==> r.error == IndexOutOfRange
    ensures r.Ok? ==> a <= b && r.value == Companions(a, b)
  {
    if a > b then Err(RootsUnordered)
    else match DistX(a, b)
      case Err(e) => Err(e)
      case Ok(_) => Ok(Companions(a, b))
  }

  /** The offset is perpendicular to (dx, dy), equally long, and not zero unless (dx, dy) is. */
  lemma {:induction false} OffsetPerpendicular(dx: int, dy: int)
    ensures var (rx, ry) := Offset(dx, dy);
            && rx * dx + ry * dy == 0
            && rx * rx + ry * ry == dx * dx + dy * dy
            && ((rx, ry) == (0, 0) <==> (dx, dy) == (0, 0))
  {
    if dx > 0 {
      assert (-dy) * dx + dx * dy == 0;
      assert (-dy) * (-dy) == dy * dy;
    } else {
      assert dy * dx + (-dx) * dy == 0;
      assert (-dx) * (-dx) == dx * dx;
    }
  }

  /** Both companions are shifted from their root by the same offset, the turned root vector. */
  lemma {:induction false} CompanionsAreShifted(a: Index, b: Index)
    requires a <= b && Companions(a, b).Some?
    ensures var (c, d) := Companions(a, b).value;
            && Col(c) - Col(a) == Col(d) - Col(b) == Offset(Col(b) - Col(a), Row(b) - Row(a)).0
            && Row(c) - Row(a) == Row(d) - Row(b) == Offset(Col(b) - Col(a), Row(b) - Row(a)).1
  {
    var (rx, ry) := Offset(Col(b) - Col(a), Row(b) - Row(a));
    IndexOfCoords(Col(a) + rx, Row(a) + ry);
    IndexOfCoords(Col(b) + rx, Row(b) + ry);
  }

  /**
   * The shift from root to companion is perpendicular to the vector between
   * the roots, as long as it and not zero: the four fields form a square.
   */
  lemma {:induction false} CompanionsPerpendicular(a: Index, b: Index)
    requires a <= b && Companions(a, b).Some?
    ensures var (c, d) := Companions(a, b).value;
            var dx, dy := Col(b) - Col(a), Row(b) - Row(a);
            var rx, ry := Col(c) - Col(a), Row(c) - Row(a);
            && rx * dx + ry * dy == 0
            && rx * rx + ry * ry == dx * dx + dy * dy
            && (rx, ry) != (0, 0)
  {
    var (c, d) := Companions(a, b).value;
    var dx, dy := Col(b) - Col(a), Row(b) - Row(a);
    CompanionsAreShifted(a, b);
    IndexInjective(a, b);
    OffsetPerpendicular(dx, dy);
  }

  /** There is no companion pair exactly when the roots coincide or a companion is off the board. */
  lemma {:induction false} CompanionsNoneIff(a: Index, b: Index)
    requires a <= b
    ensures var (rx, ry) := Offset(Col(b) - Col(a), Row(b) - Row(a));
            Companions(a, b).None? <==>
              a == b || !OnGrid(Col(a) + rx, Row(a) + ry) || !OnGrid(Col(b) + rx, Row(b) + ry)
  {
    IndexInjective(a, b);
  }

  /** The four fields are pairwise distinct. */
  lemma {:induction false} CompanionsDistinct(a: Index, b: Index)
    requires a <= b && Companions(a, b).Some?
    ensures var (c, d) := Companions(a, b).value;
            a != b && c != d && c != a && c != b && d != a && d != b
  {
    var (c, d) := Companions(a, b).value;
    IndexInjective(a, b);
    IndexInjective(c, d);
    IndexInjective(c, a);
    IndexInjective(c, b);
    IndexInjective(d, a);
    IndexInjective(d, b);
  }

  /** Fields are ordered by row first and by column within a row. */
  lemma {:induction false} IndexOrder(i: Index, j: Index)
    ensures i < j <==> Row(i) < Row(j) || (Row(i) == Row(j) && Col(i) < Col(j))
  {
    IndexOfColRow(i);
    IndexOfColRow(j);
  }

  /** No root pair whose smaller field is 55 or more has companions. */
  lemma {:induction false} NoCompanionsFrom55(a: Index, b: Index)
    requires 55 <= a <= b
    ensures Companions(a, b).None?
  {
    IndexOrder(a, b);
  }

  /** The least of four values (Math.min). */
  function Min4(q: seq<int>): (m: int)
    requires |q| == 4
    ensures m in q && forall k :: 0 <= k < 4 ==> m <= q[k]
  {
    var lo1 := if q[0] <= q[1] then q[0] else q[1];
    var lo2 := if q[2] <= q[3] then q[2] else q[3];
    if lo1 <= lo2 then lo1 else lo2
  }

  /** The greatest of four values (Math.max). */
  function Max4(q: seq<int>): (m: int)
    requires |q| == 4
    ensures m in q && forall k :: 0 <= k < 4 ==> q[k] <= m
  {
    var hi1 := if q[0] >= q[1] then q[0] else q[1];
    var hi2 := if q[2] >= q[3] then q[2] else q[3];
    if hi1 >= hi2 then hi1 else hi2
  }

  /** score: the row span of the square, plus one, squared. */
  function Score(q: seq<int>): (r: Result<int>)
    requires |q| == 4
    ensures r.Ok? <==> forall k :: 0 <= k < 4 ==> IsIndex(q[k])
    ensures r.Err? ==> r.error == IndexOutOfRange
    ensures r.Ok? ==> IsIndex(Min4(q)) && IsIndex(Max4(q))
    ensures r.Ok? ==> var d := Row(Max4(q)) - Row(Min4(q));
                      0 <= d < 8 && r.value == HeightScore(d)
    ensures r.Ok? ==> 1 <= r.value <= 64
  {
    var lo, hi := Min4(q), Max4(q);
    match DistY(lo, hi)
    case Err(e) => Err(e)
    case Ok(d) =>
      RowMonotone(lo, hi);
      SquareBounds(d);
      Ok(HeightScore(d))
  }

  /** The score of a square whose fields span d + 1 rows. */
  function HeightScore(d: int): int
  {
    (d + 1) * (d + 1)
  }

  /** The score of four fields in range, between 1 and 64. */
  function ScoreOf(q: seq<Index>): (r: int)
    requires |q| == 4
    ensures Score(q) == Ok(r)
    ensures 1 <= r <= 64
  {
    Score(q).value
  }

  lemma {:induction false} SquareBounds(d: int)
    requires 0 <= d < 8
    ensures 1 <= HeightScore(d) <= 64
  {
    assert (d + 1) * (d + 1) <= 8 * (d + 1) <= 64;
  }

  /** The least and the greatest of four values do not depend on their order. */
  lemma {:induction false} MinMaxOfPermutation(p: seq<int>, q: seq<int>)
    requires |p| == 4 && |q| == 4 && multiset(p) == multiset(q)
    ensures Min4(p) == Min4(q) && Max4(p) == Max4(q)
  {
    assert Min4(p) in multiset(q) && Max4(p) in multiset(q);
    assert Min4(q) in multiset(p) && Max4(q) in multiset(p);
  }

  /** The score does not depend on the order of the four fields. */
  lemma {:induction false} ScorePermutation(p: seq<int>, q: seq<int>)
    requires |p| == 4 && |q| == 4 && multiset(p) == multiset(q)
    ensures Score(p) == Score(q)
  {
    MinMaxOfPermutation(p, q);
  }

  /** Whether the companions of the two smallest fields of s are its two others. */
  function CompletesSquare(s: seq<int>): (r: Result<bool>)
    requires |s| == 4
  {
    match GetPossiblePieces(s[0], s[1])
    case Err(e) => Err(e)
    case Ok(None) => Ok(false)
    case Ok(Some((p0, p1))) =>
      if (p0 == s[2] && p1 == s[3]) || (p1 == s[2] && p0 == s[3]) then Ok(true) else Ok(false)
  }

  /** isSquare, with the fields sorted numerically. */
  function IsSquare(q: seq<int>): (r: Result<bool>)
    requires |q| == 4
  {
    CompletesSquare(NumericSort(q))
  }

  /** The companions of the two smallest of the four fields, when those two are in range and ordered. */
  predicate RootsComplete(s: seq<int>)
    requires |s| == 4
  {
    && IsIndex(s[0]) && IsIndex(s[1]) && s[0] <= s[1]
    && Companions(s[0], s[1]).Some?
    && multiset{Companions(s[0], s[1]).value.0, Companions(s[0], s[1]).value.1} == multiset{s[2], s[3]}
  }

  /**
   * isSquare fails exactly when one of the two smallest fields is out of
   * range, and holds exactly when the companions of the two smallest fields
   * are the two others, in either order.
   */
  lemma {:induction false} IsSquareIff(q: seq<int>)
    requires |q| == 4
    ensures var s := NumericSort(q);
            && (IsSquare(q).Ok? <==> IsIndex(s[0]) && IsIndex(s[1]))
            && (IsSquare(q) == Ok(true) <==> RootsComplete(s))
  {
    var s := NumericSort(q);
    NumericSortSorted(q);
    assert s[0] <= s[1];
    if IsIndex(s[0]) && IsIndex(s[1]) && Companions(s[0], s[1]).Some? {
      var (p0, p1) := Companions(s[0], s[1]).value;
      if multiset{p0, p1} == multiset{s[2], s[3]} {
        CompanionsOrder(s[0], s[1]);
        assert p0 in multiset{s[2], s[3]} && p1 in multiset{s[2], s[3]};
        assert s[2] in multiset{p0, p1};
        assert multiset{p0, p1} - multiset{p0} == multiset{s[2], s[3]} - multiset{s[2]};
      }
    }
  }

  /** isSquare as written: JavaScript's default sort, which orders the fields as strings. */
  function IsSquareAsWritten(q: seq<int>): (r: Result<bool>)
    requires |q| == 4
  {
    CompletesSquare(SortBy(q, StringLe))
  }

  /** isSquare does not depend on the order in which the fields are given. */
  lemma {:induction false} IsSquarePermutation(p: seq<int>, q: seq<int>)
    requires |p| == 4 && |q| == 4 && multiset(p) == multiset(q)
    ensures IsSquare(p) == IsSquare(q)
  {
    NumericSortPermutation(p, q);
  }

  /** Fields c and d complete the square over a and b, given in either order. */
  lemma {:induction false} CompletesWith(s: seq<int>, a: Index, b: Index, c: Index, d: Index)
    requires |s| == 4 && a <= b && s[0] == a && s[1] == b
    requires Companions(a, b) == Some((c, d))
    requires (s[2] == c && s[3] == d) || (s[2] == d && s[3] == c)
    ensures CompletesSquare(s) == Ok(true)
  {
  }

  /** Fields other than the companions c and d of a and b do not complete the square. */
  lemma {:induction false} CompletesWithout(s: seq<int>, a: Index, b: Index, c: Index, d: Index)
    requires |s| == 4 && a <= b && s[0] == a && s[1] == b
    requires Companions(a, b) == Some((c, d))
    requires !((s[2] == c && s[3] == d) || (s[2] == d && s[3] == c))
    ensures CompletesSquare(s) == Ok(false)
  {
  }

  /**
   * The order of the four fields of a square found from the roots a <= b:
   * either a < b < c < d, or a < c < b < d, and then the square is also
   * found from the roots a and c.
   */
  lemma {:induction false} CompanionsOrder(a: Index, b: Index)
    requires a <= b && Companions(a, b).Some?
    ensures var (c, d) := Companions(a, b).value;
            || a < b < c < d
            || (a < c < b < d && Companions(a, c) == Some((b, d)))
  {
    var (c, d) := Companions(a, b).value;
    CompanionsAreShifted(a, b);
    IndexInjective(a, b);
    IndexOrder(a, b);
    IndexOrder(c, d);
    var dx, dy := Col(b) - Col(a), Row(b) - Row(a);
    if (dx > 0 && dx <= dy) || (dx <= 0 && -dx < dy) {
      CompanionsSwap(a, b, c, d);
    } else {
      IndexOrder(b, c);
    }
  }

  /** When the first companion lies between the roots, the square is also found from a and c. */
  lemma {:induction false} CompanionsSwap(a: Index, b: Index, c: Index, d: Index)
    requires a < b
    requires Col(c) - Col(a) == Col(d) - Col(b) == Offset(Col(b) - Col(a), Row(b) - Row(a)).0
    requires Row(c) - Row(a) == Row(d) - Row(b) == Offset(Col(b) - Col(a), Row(b) - Row(a)).1
    requires var dx, dy := Col(b) - Col(a), Row(b) - Row(a);
             (dx > 0 && dx <= dy) || (dx <= 0 && -dx < dy)
    ensures a < c < b && Companions(a, c) == Some((b, d))
  {
    IndexOrder(a, b);
    IndexOrder(a, c);
    IndexOrder(c, b);
    var dx, dy := Col(b) - Col(a), Row(b) - Row(a);
    var ex, ey := Col(c) - Col(a), Row(c) - Row(a);
    assert Offset(ex, ey) == (dx, dy);
    assert Col(a) + dx == Col(b) && Row(a) + dy == Row(b);
    assert Col(c) + dx == Col(d) && Row(c) + dy == Row(d);
    IndexOfColRow(b);
    IndexOfColRow(d);
  }

  /** Every root pair that has companions spans a square that isSquare accepts. */
  lemma {:induction false} CompanionsFormSquare(a: Index, b: Index)
    requires a <= b && Companions(a, b).Some?
    ensures var (c, d) := Companions(a, b).value;
            IsSquare([a, b, c, d]) == Ok(true)
  {
    var (c, d) := Companions(a, b).value;
    CompanionsOrder(a, b);
    SortRoots(a, b, c, d);
    if b < c {
      CompletesWith([a, b, c, d], a, b, c, d);
    } else {
      CompletesWith([a, c, b, d], a, c, b, d);
    }
  }

  /** The fields of a square over the roots a < b, sorted: the roots first unless the first companion lies between them. */
  lemma {:induction false} SortRoots(a: int, b: int, c: int, d: int)
    requires a < b < c < d || a < c < b < d
    ensures NumericSort([a, b, c, d]) == if b < c then [a, b, c, d] else [a, c, b, d]
  {
    if b < c {
      assert Sorted([a, b, c, d]);
      NumericSortIs([a, b, c, d], [a, b, c, d]);
    } else {
      assert Sorted([a, c, b, d]);
      SwapMiddle(a, b, c, d);
      NumericSortIs([a, b, c, d], [a, c, b, d]);
    }
  }

  lemma {:induction false} SwapMiddle(a: int, b: int, c: int, d: int)
    ensures multiset([a, b, c, d]) == multiset([a, c, b, d])
  {
    MultisetOfFour(a, b, c, d);
    MultisetOfFour(a, c, b, d);
  }

  lemma {:induction false} MultisetOfFour(a: int, b: int, c: int, d: int)
    ensures multiset([a, b, c, d]) == multiset{a, b} + multiset{c, d}
  {
    assert [a, b, c, d] == [a, b] + [c, d];
  }

  /** Four fields in range whose least is a and greatest is d score by the rows from a to d. */
  lemma {:induction false} ScoreOfRoots(a: Index, b: Index, c: Index, d: Index)
    requires a <= b <= d && a <= c <= d
    ensures Score([a, b, c, d]) == Ok(HeightScore(Row(d) - Row(a)))
  {
    var q := [a, b, c, d];
    assert Min4(q) == a && Max4(q) == d;
  }

  /** The string comparisons among 9, 19, 24 and 34. */
  lemma StringOrderExample()
    ensures !StringLe(9, 19) && !StringLe(9, 24) && !StringLe(9, 34)
    ensures StringLe(19, 24) && StringLe(24, 34)
  {
    assert Decimal(9) == "9";
    assert Decimal(19) == "19" by { assert Decimal(1) == "1"; }
    assert Decimal(24) == "24" by { assert Decimal(2) == "2"; }
    assert Decimal(34) == "34" by { assert Decimal(3) == "3"; }
  }

  /** The sort JavaScript applies leaves [19, 24, 34] as it is. */
  lemma StringSortTailExample()
    ensures SortBy([19, 24, 34], StringLe) == [19, 24, 34]
  {
    StringOrderExample();
    assert [34][1..] == [];
    assert [24, 34][1..] == [34];
    assert [19, 24, 34][1..] == [24, 34];
  }

  /** The sort JavaScript applies puts 9 after 19, 24 and 34. */
  lemma StringInsertExample()
    ensures Insert(9, [19, 24, 34], StringLe) == [19, 24, 34, 9]
  {
    StringOrderExample();
    assert [34][1..] == [];
    assert [24, 34][1..] == [34];
    assert [19, 24, 34][1..] == [24, 34];
    assert Insert(9, [34], StringLe) == [34, 9];
    assert Insert(9, [24, 34], StringLe) == [24, 34, 9];
  }

  /** The sort JavaScript applies orders [9, 19, 24, 34] as [19, 24, 34, 9]. */
  lemma StringSortExample()
    ensures SortBy([9, 19, 24, 34], StringLe) == [19, 24, 34, 9]
  {
    StringSortTailExample();
    StringInsertExample();
    assert [9, 19, 24, 34][1..] == [19, 24, 34];
  }

  /**
   * isSquare as written rejects the square [9, 19, 24, 34], which the
   * numeric reading accepts: the string sort puts 9 last.
   */
  lemma IsSquareAsWrittenRejectsSquare()
    ensures IsSquareAsWritten([9, 19, 24, 34]) == Ok(false)
    ensures IsSquare([9, 19, 24, 34]) == Ok(true)
  {
    StringSortExample();
    TiltedSquareExample();
    assert Companions(19, 24) == Some((44, 49)) by {
      assert Col(19) == 3 && Row(19) == 2 && Col(24) == 0 && Row(24) == 3;
      assert Offset(-3, 1) == (1, 3);
      assert IndexOf(4, 5) == 44 && IndexOf(1, 6) == 49;
    }
  }

  /** The tilted square 9, 19, 24, 34 of the tests: the companions of 9 and 19 are 24 and 34. */
  lemma TiltedSquareExample()
    ensures Companions(9, 19) == Some((24, 34))
    ensures IsSquare([9, 19, 24, 34]) == Ok(true)
  {
    assert Companions(9, 19) == Some((24, 34)) by {
      assert Col(9) == 1 && Row(9) == 1 && Col(19) == 3 && Row(19) == 2;
      assert Offset(2, 1) == (-1, 2);
      assert IndexOf(0, 3) == 24 && IndexOf(2, 4) == 34;
    }
    SquareFromCompanions(9, 19, 24, 34);
  }

  /** The companions the tests of getPossiblePieces pin down. */
  lemma GetPossiblePiecesExamples()
    ensures GetPossiblePieces(1, 8) == Ok(Some((10, 17)))
    ensures GetPossiblePieces(9, 19) == Ok(Some((24, 34)))
    ensures GetPossiblePieces(0, 9) == Ok(None)
    ensures GetPossiblePieces(19, 9) == Err(RootsUnordered)
  {
    assert Col(1) == 1 && Row(1) == 0 && Col(8) == 0 && Row(8) == 1;
    assert Offset(-1, 1) == (1, 1);
    assert IndexOf(2, 1) == 10 && IndexOf(1, 2) == 17;
    assert Col(9) == 1 && Row(9) == 1 && Col(19) == 3 && Row(19) == 2;
    assert Offset(2, 1) == (-1, 2);
    assert IndexOf(0, 3) == 24 && IndexOf(2, 4) == 34;
    assert Col(0) == 0 && Row(0) == 0;
    assert Offset(1, 1) == (-1, 1);
  }

  /** Four fields form a square when two of them are roots whose companions are the two others. */
  lemma {:induction false} SquareFromCompanions(a: Index, b: Index, c: Index, d: Index)
    requires a <= b && Companions(a, b) == Some((c, d))
    ensures IsSquare([a, b, c, d]) == Ok(true)
  {
    CompanionsFormSquare(a, b);
  }

  /** The companions of the roots 0 and 1 are 8 and 9. */
  lemma CompanionsExample()
    ensures Companions(0, 1) == Some((8, 9))
  {
    assert Row(0) == 0 && Col(0) == 0 && Row(1) == 0 && Col(1) == 1;
    assert Offset(1, 0) == (0, 1);
    assert IndexOf(0, 1) == 8 && IndexOf(1, 1) == 9;
  }

  /** isSquare accepts [0, 1, 8, 9]. */
  lemma IsSquareExample()
    ensures IsSquare([0, 1, 8, 9]) == Ok(true)
  {
    CompanionsExample();
    SquareFromCompanions(0, 1, 8, 9);
  }

  /** isSquare accepts [0, 1, 8, 9] unsorted, as the tests pin down. */
  lemma IsSquareUnsortedExample()
    ensures IsSquare([9, 1, 8, 0]) == Ok(true)
  {
    IsSquareExample();
    MultisetOfFour(9, 1, 8, 0);
    MultisetOfFour(0, 1, 8, 9);
    IsSquarePermutation([9, 1, 8, 0], [0, 1, 8, 9]);
  }

  /** isSquare rejects [1, 3, 10, 17], as the tests pin down. */
  lemma IsSquareRejectExample()
    ensures IsSquare([1, 3, 10, 17]) == Ok(false)
  {
  }

  /** isSquare rejects four fields in one row. */
  lemma IsSquareRejectRowExample()
    ensures IsSquare([0, 1, 2, 3]) == Ok(false)
  {
    var q := [0, 1, 2, 3];
    assert Sorted(q);
    NumericSortOfSorted(q);
    CompanionsExample();
    CompletesWithout(q, 0, 1, 8, 9);
  }

  /** The scores the tests pin down for squares up to four rows high. */
  lemma ScoreSmallExamples()
    ensures Score([0, 1, 8, 9]) == Ok(4)
    ensures Score([1, 8, 10, 17]) == Ok(9)
    ensures Score([1, 4, 25, 28]) == Ok(16)
    ensures Score([9, 19, 24, 34]) == Ok(16)
  {
    assert Row(0) == 0 && Row(9) == 1 && Row(1) == 0 && Row(17) == 2;
    assert Row(28) == 3 && Row(34) == 4;
    ScoreOfRoots(0, 1, 8, 9);
    ScoreOfRoots(1, 8, 10, 17);
    ScoreOfRoots(1, 4, 25, 28);
    ScoreOfRoots(9, 19, 24, 34);
  }

  /** The scores the tests pin down for squares five rows high or more. */
  lemma ScoreLargeExamples()
    ensures Score([27, 32, 52, 57]) == Ok(25)
    ensures Score([8, 14, 56, 62]) == Ok(49)
    ensures Score([6, 8, 55, 57]) == Ok(64)
    ensures Score([1, 15, 48, 62]) == Ok(64)
    ensures Score([0, 7, 56, 63]) == Ok(64)
  {
    assert Row(27) == 3 && Row(57) == 7 && Row(8) == 1 && Row(62) == 7;
    assert Row(6) == 0 && Row(1) == 0 && Row(0) == 0 && Row(63) == 7;
    ScoreOfRoots(27, 32, 52, 57);
    ScoreOfRoots(8, 14, 56, 62);
    ScoreOfRoots(6, 8, 55, 57);
    ScoreOfRoots(1, 15, 48, 62);
    ScoreOfRoots(0, 7, 56, 63);
  }
}
