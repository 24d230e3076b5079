/**
 * Insertion sort over integers with a comparison supplied by the caller:
 * numeric order for the model, and the order of JavaScript's default sort
 * (decimal strings compared character by character) for the code as written.
 */
module Sorting {

  function Insert(x: int, s: seq<int>, le: (int, int) -> bool): (r: seq<int>)
    ensures |r| == |s| + 1
  {
    if s == [] then [x]
    else if le(x, s[0]) then [x] + s
    else
      assert s == [s[0]] + s[1..];
      [s[0]] + Insert(x, s[1..], le)
  }

  function SortBy(s: seq<int>, le: (int, int) -> bool): (r: seq<int>)
    ensures |r| == |s|
  {
    if s == [] then []
    else
      assert s == [s[0]] + s[1..];
      Insert(s[0], SortBy(s[1..], le), le)
  }

  predicate NumLe(a: int, b: int) { a <= b }

  predicate Sorted(s: seq<int>)
  {
    forall i, j :: 0 <= i < j < |s| ==> s[i] <= s[j]
  }

  /** The numeric sort the model uses. */
  function NumericSort(s: seq<int>): (r: seq<int>)
    ensures |r| == |s|
  {
    SortBy(s, NumLe)
  }

  /** Inserting adds exactly the one element, whatever the comparison. */
  lemma {:induction false} InsertPermutes(x: int, s: seq<int>, le: (int, int) -> bool)
    ensures multiset(Insert(x, s, le)) == multiset(s) + multiset{x}
  {
    if s != [] && !le(x, s[0]) {
      InsertPermutes(x, s[1..], le);
      assert s == [s[0]] + s[1..];
    }
  }

  /** Sorting rearranges its input and nothing else, whatever the comparison. */
  lemma {:induction false} SortByPermutes(s: seq<int>, le: (int, int) -> bool)
    ensures multiset(SortBy(s, le)) == multiset(s)
  {
    if s != [] {
      SortByPermutes(s[1..], le);
      InsertPermutes(s[0], SortBy(s[1..], le), le);
      assert s == [s[0]] + s[1..];
    }
  }

  lemma {:induction false} InsertSorted(x: int, s: seq<int>)
    requires Sorted(s)
    ensures Sorted(Insert(x, s, NumLe))
  {
    if s != [] && !NumLe(x, s[0]) {
      InsertSorted(x, s[1..]);
      var t := Insert(x, s[1..], NumLe);
      InsertPermutes(x, s[1..], NumLe);
      assert multiset(t) == multiset(s[1..]) + multiset{x};
      forall k | 0 <= k < |t| ensures s[0] <= t[k] {
        assert t[k] in multiset(t);
        if t[k] != x {
          assert t[k] in multiset(s[1..]);
          var m :| 0 <= m < |s[1..]| && s[1..][m] == t[k];
          assert s[m + 1] == t[k];
        }
      }
    }
  }

  /** The numeric sort returns its input in ascending order. */
  lemma {:induction false} NumericSortSorted(s: seq<int>)
    ensures Sorted(NumericSort(s))
  {
    if s != [] {
      NumericSortSorted(s[1..]);
      InsertSorted(s[0], NumericSort(s[1..]));
    }
  }

  lemma {:induction false} SortedTail(s: seq<int>)
    requires Sorted(s) && s != []
    ensures Sorted(s[1..])
  {
    forall p, q | 0 <= p < q < |s[1..]| ensures s[1..][p] <= s[1..][q] {
      assert s[1..][p] == s[p + 1] && s[1..][q] == s[q + 1];
    }
  }

  /** The first element of an ascending sequence is its least element. */
  lemma {:induction false} SortedHeadIsMin(s: seq<int>, x: int)
    requires Sorted(s) && x in multiset(s)
    ensures s[0] <= x
  {
    var i :| 0 <= i < |s| && s[i] == x;
    assert i == 0 || s[0] <= s[i];
  }

  /** Two ascending sequences with the same elements are equal. */
  lemma {:induction false} SortedUnique(a: seq<int>, b: seq<int>)
    requires Sorted(a) && Sorted(b) && multiset(a) == multiset(b)
    ensures a == b
  {
    assert |a| == |multiset(a)| == |multiset(b)| == |b|;
    if a != [] {
      assert a[0] in multiset(a) && b[0] in multiset(b);
      SortedHeadIsMin(a, b[0]);
      SortedHeadIsMin(b, a[0]);
      var x := a[0];
      assert a == [x] + a[1..];
      assert b == [x] + b[1..];
      assert multiset(a[1..]) == multiset(a) - multiset{x};
      assert multiset(b[1..]) == multiset(b) - multiset{x};
      SortedTail(a);
      SortedTail(b);
      SortedUnique(a[1..], b[1..]);
    }
  }

  /** Sorting depends only on the elements, not on their order. */
  lemma {:induction false} NumericSortPermutation(p: seq<int>, q: seq<int>)
    requires multiset(p) == multiset(q)
    ensures NumericSort(p) == NumericSort(q)
  {
    NumericSortSorted(p);
    NumericSortSorted(q);
    SortByPermutes(p, NumLe);
    SortByPermutes(q, NumLe);
    SortedUnique(NumericSort(p), NumericSort(q));
  }

  /** The numeric sort of a sequence is the ascending arrangement of its elements. */
  lemma {:induction false} NumericSortIs(s: seq<int>, t: seq<int>)
    requires Sorted(t) && multiset(s) == multiset(t)
    ensures NumericSort(s) == t
  {
    NumericSortSorted(s);
    SortByPermutes(s, NumLe);
    SortedUnique(NumericSort(s), t);
  }

  /** The numeric sort leaves sorted input as it is. */
  lemma {:induction false} NumericSortOfSorted(s: seq<int>)
    requires Sorted(s)
    ensures NumericSort(s) == s
  {
    NumericSortSorted(s);
    SortByPermutes(s, NumLe);
    SortedUnique(NumericSort(s), s);
  }

  /** The decimal representation JavaScript's default sort compares. */
  function Decimal(n: int): string
    decreases if n < 0 then 1 - n else n
  {
    if n < 0 then "-" + Decimal(-n)
    else if n < 10 then ["0123456789"[n]]
    else Decimal(n / 10) + ["0123456789"[n % 10]]
  }

  predicate LexLe(s: string, t: string)
  {
    if s == [] then true
    else if t == [] then false
    else if s[0] != t[0] then s[0] < t[0]
    else LexLe(s[1..], t[1..])
  }

  /** The comparison of JavaScript's default Array.prototype.sort. */
  predicate StringLe(a: int, b: int) { LexLe(Decimal(a), Decimal(b)) }
}
