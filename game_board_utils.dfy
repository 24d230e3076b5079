/**
 * Geometry of the 8x8 board: a field index is y * 8 + x for the column x
 * and the row y, both in 0..7.
 */
module GameBoardUtils {
  import opened Wrappers

  /** A field index of the board. */
  type Index = i: int | 0 <= i < 64

  predicate IsIndex(i: int) { 0 <= i < 64 }

  predicate IsCoord(c: int) { 0 <= c < 8 }

  /** The row of a field. */
  function Row(i: Index): (y: int)
    ensures 0 <= y < 8 && 8 * y <= i < 8 * y + 8
  {
    i / 8
  }

  /** The column of a field. */
  function Col(i: Index): (x: int)
    ensures 0 <= x < 8 && i == 8 * Row(i) + x
  {
    i % 8
  }

  /** The field at column x and row y. */
  function IndexOf(x: int, y: int): (i: Index)
    requires IsCoord(x) && IsCoord(y)
  {
    y * 8 + x
  }

  /** The field at column x and row y has column x and row y. */
  lemma {:induction false} IndexOfCoords(x: int, y: int)
    requires IsCoord(x) && IsCoord(y)
    ensures Col(IndexOf(x, y)) == x && Row(IndexOf(x, y)) == y
  {
  }

  lemma {:induction false} IndexOfColRow(i: Index)
    ensures IndexOf(Col(i), Row(i)) == i
  {
  }

  /** Two fields are equal exactly when their columns and rows are. */
  lemma {:induction false} IndexInjective(i: Index, j: Index)
    ensures i == j <==> Col(i) == Col(j) && Row(i) == Row(j)
  {
    IndexOfColRow(i);
    IndexOfColRow(j);
  }

  /** toIndex: fails for a coordinate outside 0..7, x being checked first. */
  function ToIndex(x: int, y: int): (r: Result<Index>)
    ensures r.Ok? <==> IsCoord(x) && IsCoord(y)
    ensures r.Err? ==> r.error == CoordOutOfRange
    ensures r.Ok? ==> Col(r.value) == x && Row(r.value) == y
  {
    if !IsCoord(x) then Err(CoordOutOfRange)
    else if !IsCoord(y) then Err(CoordOutOfRange)
    else IndexOfCoords(x, y); Ok(IndexOf(x, y))
  }

  /** toCoords: the pair [x, y] of a field, failing outside 0..63. */
  function ToCoords(i: int): (r: Result<(int, int)>)
    ensures r.Ok? <==> IsIndex(i)
    ensures r.Err? ==> r.error == IndexOutOfRange
    ensures r.Ok? ==> IsCoord(r.value.0) && IsCoord(r.value.1) && r.value.1 * 8 + r.value.0 == i
  {
    if !IsIndex(i) then Err(IndexOutOfRange)
    else Ok((i % 8, (i - i % 8) / 8))
  }

  lemma {:induction false} ToCoordsIsColRow(i: Index)
    ensures ToCoords(i) == Ok((Col(i), Row(i)))
  {
    assert i == 8 * Row(i) + Col(i);
    assert i % 8 == Col(i);
  }

  /** Converting coordinates to an index and back gives the coordinates. */
  lemma {:induction false} CoordsRoundTrip(x: int, y: int)
    requires IsCoord(x) && IsCoord(y)
    ensures ToIndex(x, y).Ok? && ToCoords(ToIndex(x, y).value) == Ok((x, y))
  {
    IndexOfCoords(x, y);
    ToCoordsIsColRow(IndexOf(x, y));
  }

  /** Converting an index to coordinates and back gives the index. */
  lemma {:induction false} IndexRoundTrip(i: int)
    requires IsIndex(i)
    ensures ToCoords(i).Ok? && ToIndex(ToCoords(i).value.0, ToCoords(i).value.1) == Ok(i)
  {
    ToCoordsIsColRow(i);
    IndexOfColRow(i);
  }

  /** assertIndex: passes exactly for an index in 0..63. */
  function AssertIndex(i: int): (r: Outcome)
    ensures r.Pass? <==> IsIndex(i)
    ensures r.Fail? ==> r.error == IndexOutOfRange
  {
    if IsIndex(i) then Pass else Fail(IndexOutOfRange)
  }

  /** distX: the column of the second field minus that of the first. */
  function DistX(i1: int, i2: int): (r: Result<int>)
    ensures r.Ok? <==> IsIndex(i1) && IsIndex(i2)
    ensures r.Err? ==> r.error == IndexOutOfRange
    ensures r.Ok? ==> Col(i1) + r.value == Col(i2) && -7 <= r.value <= 7
  {
    if !IsIndex(i1) || !IsIndex(i2) then Err(IndexOutOfRange)
    else Ok(Col(i2) - Col(i1))
  }

  /** distY: the row of the second field minus that of the first. */
  function DistY(i1: int, i2: int): (r: Result<int>)
    ensures r.Ok? <==> IsIndex(i1) && IsIndex(i2)
    ensures r.Err? ==> r.error == IndexOutOfRange
    ensures r.Ok? ==> Row(i1) + r.value == Row(i2) && -7 <= r.value <= 7
  {
    if !IsIndex(i1) || !IsIndex(i2) then Err(IndexOutOfRange)
    else Ok(Row(i2) - Row(i1))
  }

  /** The row of a field never decreases as the index grows. */
  lemma {:induction false} RowMonotone(i: Index, j: Index)
    requires i <= j
    ensures Row(i) <= Row(j)
  {
  }

  /** The values the tests of toIndex pin down. */
  lemma ToIndexExamples()
    ensures ToIndex(0, 0) == Ok(0)
    ensures ToIndex(7, 7) == Ok(63)
    ensures ToIndex(3, 4) == Ok(35)
    ensures ToIndex(4, 3) == Ok(28)
  {
  }

  /** The coordinates the tests of toIndex reject. */
  lemma ToIndexErrorExamples()
    ensures ToIndex(-1, 3).Err? && ToIndex(8, 3).Err? && ToIndex(3, -1).Err? && ToIndex(3, 8).Err?
  {
  }

  /** The values the tests of toCoords pin down. */
  lemma ToCoordsExamples()
    ensures ToCoords(0) == Ok((0, 0)) && ToCoords(63) == Ok((7, 7))
    ensures ToCoords(28) == Ok((4, 3)) && ToCoords(35) == Ok((3, 4)) && ToCoords(16) == Ok((0, 2))
    ensures ToCoords(-1).Err? && ToCoords(64).Err?
  {
  }

  /** The values the tests of distX and distY pin down. */
  lemma DistExamples()
    ensures DistX(9, 9) == Ok(0) && DistX(9, 10) == Ok(1) && DistX(9, 20) == Ok(3) && DistX(9, 17) == Ok(0)
    ensures DistX(-1, 5).Err? && DistX(64, 5).Err? && DistX(5, -1).Err? && DistX(5, 64).Err?
    ensures DistY(9, 9) == Ok(0) && DistY(9, 10) == Ok(0) && DistY(9, 17) == Ok(1) && DistY(9, 36) == Ok(3)
    ensures DistY(-1, 5).Err? && DistY(64, 5).Err? && DistY(5, -1).Err? && DistY(5, 64).Err?
  {
    assert Row(9) == 1 && Row(10) == 1 && Row(17) == 2 && Row(20) == 2 && Row(36) == 4;
  }
}
