/**
 * The square collector: the squares found so far, stored by key, and the
 * scan of the board for the squares a player has newly completed.
 */
module Collector {
  import opened Wrappers
  import opened GameBoardUtils
  import opened Sorting
  import opened SquareUtils
  import opened Players
  import opened Board
  import opened Squares
  import opened HashSets

  /** Whether all four fields of sq hold pieces of p. */
  predicate Owned(b: GameBoard, sq: Square, p: Player)
    requires WellFormed(b)
  {
    forall k | 0 <= k < |sq.fields| :: IsIndex(sq.fields[k]) && b.cells[sq.fields[k]] == Some(p)
  }

  /**
   * The square over the roots i < j when both roots, and both companions
   * getPossiblePieces gives for them, hold pieces of p. Its fields are in
   * ascending order: the roots first, unless the first companion lies
   * between them.
   */
  function RawHit(b: GameBoard, p: Player, i: Index, j: Index): Option<Square>
    requires WellFormed(b) && i < j
  {
    if b.cells[i] != Some(p) || b.cells[j] != Some(p) then None
    else
      match Companions(i, j)
      case Some((c, d)) =>
        if b.cells[c] == Some(p) && b.cells[d] == Some(p) then Some(RootsSquare(i, j, c, d, p))
        else None
      case None => None
  }

  /**
   * A hit is the square the Square constructor builds from the roots and
   * their companions: a valid square of p, on fields that hold p's pieces.
   */
  lemma {:induction false} RawHitIsNewSquare(b: GameBoard, p: Player, i: Index, j: Index)
    requires WellFormed(b) && i < j && RawHit(b, p, i, j).Some?
    ensures Companions(i, j).Some?
    ensures var (c, d) := Companions(i, j).value;
            NewSquare([i, j, c, d], p) == Ok(RawHit(b, p, i, j).value)
    ensures var x := RawHit(b, p, i, j).value;
            ValidSquare(x) && x.player == p && Owned(b, x, p)
  {
    var (c, d) := Companions(i, j).value;
    var x := RawHit(b, p, i, j).value;
    assert x == RootsSquare(i, j, c, d, p);
    NewSquareFromRoots(i, j, p);
    assert NewSquare([i, j, c, d], p) == Ok(x);
    RootsSquareOwned(b, p, i, j, c, d);
  }

  /** The square over four fields that hold pieces of p lies on p's fields. */
  lemma {:induction false} RootsSquareOwned(b: GameBoard, p: Player, i: Index, j: Index, c: Index, d: Index)
    requires WellFormed(b)
    requires b.cells[i] == Some(p) && b.cells[j] == Some(p) && b.cells[c] == Some(p) && b.cells[d] == Some(p)
    ensures Owned(b, RootsSquare(i, j, c, d, p), p)
  {
  }

  /** A hit at the roots i < j that is not stored under its key yet. */
  function Hit(known: map<seq<int>, Square>, b: GameBoard, p: Player, i: Index, j: Index): Option<Square>
    requires WellFormed(b) && i < j
  {
    match RawHit(b, p, i, j)
    case Some(sq) => if Key(sq) in known then None else Some(sq)
    case None => None
  }

  function HitList(known: map<seq<int>, Square>, b: GameBoard, p: Player, i: Index, j: Index): seq<Square>
    requires WellFormed(b) && i < j
  {
    match Hit(known, b, p, i, j)
    case Some(sq) => [sq]
    case None => []
  }

  /** The new squares from the roots i and j, j', ... 63, in the order of the inner loop. */
  function RowScan(known: map<seq<int>, Square>, b: GameBoard, p: Player, i: Index, j: int): seq<Square>
    requires WellFormed(b) && i < j <= 64
    decreases 64 - j
  {
    if j == 64 then [] else HitList(known, b, p, i, j) + RowScan(known, b, p, i, j + 1)
  }

  /** The new squares from the first roots i, i + 1, ... 54, in the order of the outer loop. */
  function Scan(known: map<seq<int>, Square>, b: GameBoard, p: Player, i: int): seq<Square>
    requires WellFormed(b) && 0 <= i <= 55
    decreases 55 - i
  {
    if i == 55 then []
    else if b.cells[i] != Some(p) then Scan(known, b, p, i + 1)
    else RowScan(known, b, p, i, i + 1) + Scan(known, b, p, i + 1)
  }

  /** All squares p completes on b that are not stored under their key in known. */
  function NewSquares(known: map<seq<int>, Square>, b: GameBoard, p: Player): seq<Square>
    requires WellFormed(b)
  {
    Scan(known, b, p, 0)
  }

  /** The squares a scan finds are exactly the hits not yet known. */
  lemma {:induction false} RowScanMembers(known: map<seq<int>, Square>, b: GameBoard, p: Player, i: Index, j: int, x: Square)
    requires WellFormed(b) && i < j <= 64
    ensures x in RowScan(known, b, p, i, j) <==> exists j' | j <= j' < 64 :: Hit(known, b, p, i, j') == Some(x)
    decreases 64 - j
  {
    if j < 64 {
      RowScanMembers(known, b, p, i, j + 1, x);
      if x in RowScan(known, b, p, i, j + 1) {
        var j' :| j + 1 <= j' < 64 && Hit(known, b, p, i, j') == Some(x);
        assert j <= j' < 64;
      }
      forall j' | j <= j' < 64 && Hit(known, b, p, i, j') == Some(x)
        ensures x in RowScan(known, b, p, i, j)
      {
        if j' == j {
          assert x in HitList(known, b, p, i, j);
        }
      }
    }
  }

  /** No hit has a first root at 55 or beyond: such roots have no companions on the board. */
  lemma {:induction false} NoHitsFrom55(known: map<seq<int>, Square>, b: GameBoard, p: Player, i: Index, j: Index)
    requires WellFormed(b) && 55 <= i < j
    ensures Hit(known, b, p, i, j) == None
  {
    NoCompanionsFrom55(i, j);
  }

  lemma {:induction false} ScanMembers(known: map<seq<int>, Square>, b: GameBoard, p: Player, i: int, x: Square)
    requires WellFormed(b) && 0 <= i <= 55
    ensures x in Scan(known, b, p, i) <==> exists i', j' | i <= i' < j' < 64 :: Hit(known, b, p, i', j') == Some(x)
    decreases 55 - i
  {
    if i == 55 {
      forall i', j' | 55 <= i' < j' < 64 ensures Hit(known, b, p, i', j') == None {
        NoHitsFrom55(known, b, p, i', j');
      }
    } else {
      ScanMembers(known, b, p, i + 1, x);
      RowScanMembers(known, b, p, i, i + 1, x);
      if x in Scan(known, b, p, i) {
        ScanMembersForward(known, b, p, i, x);
      }
      ScanMembersBackward(known, b, p, i, x);
    }
  }

  lemma {:induction false} ScanMembersBackward(known: map<seq<int>, Square>, b: GameBoard, p: Player, i: int, x: Square)
    requires WellFormed(b) && 0 <= i < 55
    requires (exists i', j' | i + 1 <= i' < j' < 64 :: Hit(known, b, p, i', j') == Some(x)) ==> x in Scan(known, b, p, i + 1)
    requires (exists j' | i + 1 <= j' < 64 :: Hit(known, b, p, i, j') == Some(x)) ==> x in RowScan(known, b, p, i, i + 1)
    ensures (exists i', j' | i <= i' < j' < 64 :: Hit(known, b, p, i', j') == Some(x)) ==> x in Scan(known, b, p, i)
  {
    if exists i', j' | i <= i' < j' < 64 :: Hit(known, b, p, i', j') == Some(x) {
      var i', j' :| i <= i' < j' < 64 && Hit(known, b, p, i', j') == Some(x);
      if i' == i {
        assert b.cells[i] == Some(p);
        assert x in RowScan(known, b, p, i, i + 1);
      } else {
        assert i + 1 <= i' < j' < 64;
      }
    }
  }

  lemma {:induction false} ScanMembersForward(known: map<seq<int>, Square>, b: GameBoard, p: Player, i: int, x: Square)
    requires WellFormed(b) && 0 <= i < 55 && x in Scan(known, b, p, i)
    requires x in Scan(known, b, p, i + 1) ==> exists i', j' | i + 1 <= i' < j' < 64 :: Hit(known, b, p, i', j') == Some(x)
    requires x in RowScan(known, b, p, i, i + 1) ==> exists j' | i + 1 <= j' < 64 :: Hit(known, b, p, i, j') == Some(x)
    ensures exists i', j' | i <= i' < j' < 64 :: Hit(known, b, p, i', j') == Some(x)
  {
    if x in Scan(known, b, p, i + 1) {
      var i', j' :| i + 1 <= i' < j' < 64 && Hit(known, b, p, i', j') == Some(x);
      assert i <= i' < j' < 64;
    } else {
      var j' :| i + 1 <= j' < 64 && Hit(known, b, p, i, j') == Some(x);
      assert i <= i < j' < 64;
    }
  }

  /** Every square the scan finds is a valid square of p, on p's fields, and not yet stored. */
  lemma {:induction false} NewSquaresSound(known: map<seq<int>, Square>, b: GameBoard, p: Player)
    requires WellFormed(b)
    ensures forall x | x in NewSquares(known, b, p) ::
              ValidSquare(x) && x.player == p && Owned(b, x, p) && Key(x) !in known
  {
    forall x | x in NewSquares(known, b, p)
      ensures ValidSquare(x) && x.player == p && Owned(b, x, p) && Key(x) !in known
    {
      ScanMembers(known, b, p, 0, x);
      var i', j' :| 0 <= i' < j' < 64 && Hit(known, b, p, i', j') == Some(x);
      RawHitIsNewSquare(b, p, i', j');
    }
  }

  /** Every valid square of p on p's fields that is not yet stored is found by the scan. */
  lemma {:induction false} NewSquaresComplete(known: map<seq<int>, Square>, b: GameBoard, p: Player, sq: Square)
    requires WellFormed(b) && ValidSquare(sq) && sq.player == p && Owned(b, sq, p) && Key(sq) !in known
    ensures sq in NewSquares(known, b, p)
  {
    var f := sq.fields;
    SquareIsRawHit(b, p, sq);
    assert Hit(known, b, p, f[0], f[1]) == Some(sq);
    ScanMembers(known, b, p, 0, sq);
  }

  /** A valid square of p on p's fields is the hit at its two smallest fields. */
  lemma {:induction false} SquareIsRawHit(b: GameBoard, p: Player, sq: Square)
    requires WellFormed(b) && ValidSquare(sq) && sq.player == p && Owned(b, sq, p)
    ensures sq.fields[0] < sq.fields[1] && RawHit(b, p, sq.fields[0], sq.fields[1]) == Some(sq)
  {
    var f := sq.fields;
    NumericSortOfSorted(f);
    IsSquareIff(f);
    var (c, d) := Companions(f[0], f[1]).value;
    CompanionsDistinct(f[0], f[1]);
    assert c in multiset{f[2], f[3]} && d in multiset{f[2], f[3]};
    assert b.cells[c] == Some(p) && b.cells[d] == Some(p);
    assert RawHit(b, p, f[0], f[1]).Some?;
    var x := RawHit(b, p, f[0], f[1]).value;
    RawHitIsNewSquare(b, p, f[0], f[1]);
    HitIsSquare(f, c, d, x.fields);
    ScorePermutation(f, [f[0], f[1], c, d]);
  }

  /** The sorted fields of the roots of a sorted square and their companions are those of the square. */
  lemma {:induction false} HitIsSquare(f: seq<int>, c: int, d: int, g: seq<int>)
    requires |f| == 4 && Sorted(f) && multiset{c, d} == multiset{f[2], f[3]}
    requires Sorted(g) && multiset(g) == multiset([f[0], f[1], c, d])
    ensures g == f
  {
    MultisetOfFour(f[0], f[1], c, d);
    MultisetOfFour(f[0], f[1], f[2], f[3]);
    assert f == [f[0], f[1], f[2], f[3]];
    SortedUnique(g, f);
  }

  /** The stored squares after pushing the squares of s one after another. */
  function AddAll(m: map<seq<int>, Square>, s: seq<Square>): map<seq<int>, Square>
  {
    if s == [] then m
    else AddAll(m, s[..|s| - 1])[Key(s[|s| - 1]) := s[|s| - 1]]
  }

  /**
   * Pushing keeps every stored key, adds the key of every pushed square and
   * no other key, and leaves stored squares whose key is not pushed alone.
   */
  lemma {:induction false} AddAllKeys(m: map<seq<int>, Square>, s: seq<Square>)
    ensures forall k | k in m :: k in AddAll(m, s)
    ensures forall i | 0 <= i < |s| :: Key(s[i]) in AddAll(m, s)
    ensures forall k | k in AddAll(m, s) :: k in m || exists i | 0 <= i < |s| :: Key(s[i]) == k
    ensures forall k | k in m && (forall i | 0 <= i < |s| :: Key(s[i]) != k) :: AddAll(m, s)[k] == m[k]
  {
    if s != [] {
      var n := |s| - 1;
      AddAllKeys(m, s[..n]);
      forall k | k in AddAll(m, s) && k !in m
        ensures exists i | 0 <= i < |s| :: Key(s[i]) == k
      {
        if k != Key(s[n]) {
          var i :| 0 <= i < |s[..n]| && Key(s[..n][i]) == k;
          assert Key(s[i]) == k;
        }
      }
      forall i | 0 <= i < |s| ensures Key(s[i]) in AddAll(m, s) {
        if i < n {
          assert s[i] == s[..n][i];
        }
      }
      forall k | k in m && (forall i | 0 <= i < |s| :: Key(s[i]) != k)
        ensures AddAll(m, s)[k] == m[k]
      {
        forall i | 0 <= i < |s[..n]| ensures Key(s[..n][i]) != k {
          assert s[..n][i] == s[i];
        }
      }
    }
  }

  lemma {:induction false} AddAllStep(m: map<seq<int>, Square>, s: seq<Square>, k: nat)
    requires k < |s|
    ensures AddAll(m, s[..k + 1]) == AddAll(m, s[..k])[Key(s[k]) := s[k]]
  {
    assert s[..k + 1][..k] == s[..k];
  }

  /**
   * After pushing valid squares of one player, each of them is stored under
   * its key: two of them with the same key are the same square.
   */
  lemma {:induction false} AddAllStores(m: map<seq<int>, Square>, s: seq<Square>, p: Player)
    requires forall i | 0 <= i < |s| :: ValidSquare(s[i]) && s[i].player == p
    ensures forall i | 0 <= i < |s| :: Key(s[i]) in AddAll(m, s) && AddAll(m, s)[Key(s[i])] == s[i]
  {
    forall i, j | 0 <= i < j < |s| && Key(s[i]) == Key(s[j]) ensures s[i] == s[j] {
      KeyDeterminesSquare(s[i], s[j]);
    }
    AddAllStoresKeyed(m, s);
  }

  /** Pushing squares of which no two share a key but differ stores each under its key. */
  lemma {:induction false} AddAllStoresKeyed(m: map<seq<int>, Square>, s: seq<Square>)
    requires forall i, j | 0 <= i < j < |s| && Key(s[i]) == Key(s[j]) :: s[i] == s[j]
    ensures forall i | 0 <= i < |s| :: Key(s[i]) in AddAll(m, s) && AddAll(m, s)[Key(s[i])] == s[i]
  {
    if s != [] {
      var n := |s| - 1;
      AddAllStoresKeyed(m, s[..n]);
      forall i | 0 <= i < |s| ensures Key(s[i]) in AddAll(m, s) && AddAll(m, s)[Key(s[i])] == s[i] {
        if i < n {
          assert s[i] == s[..n][i];
        }
      }
    }
  }

  /** Storing what a scan found keeps every stored square and stores each found one, a square of the mover on the mover's fields. */
  lemma {:induction false} StoreScan(known: map<seq<int>, Square>, board: GameBoard, mover: Player)
    requires WellFormed(board)
    ensures var found := NewSquares(known, board, mover);
            && (forall k | k in known :: k in AddAll(known, found) && AddAll(known, found)[k] == known[k])
            && (forall x | x in found :: Key(x) in AddAll(known, found) && x.player == mover && Owned(board, x, mover))
  {
    var found := NewSquares(known, board, mover);
    AddAllKeys(known, found);
    NewSquaresSound(known, board, mover);
    forall k | k in known
      ensures AddAll(known, found)[k] == known[k]
    {
      forall i | 0 <= i < |found|
        ensures Key(found[i]) != k
      {
        assert found[i] in found;
      }
    }
    forall x | x in found
      ensures Key(x) in AddAll(known, found)
    {
      var i :| 0 <= i < |found| && found[i] == x;
    }
  }

  /** After storing what a scan found, no pair of roots gives a new square any more. */
  lemma {:induction false} RescanMisses(known: map<seq<int>, Square>, b: GameBoard, p: Player, i: Index, j: Index)
    requires WellFormed(b) && i < j
    ensures Hit(AddAll(known, NewSquares(known, b, p)), b, p, i, j) == None
  {
    var found := NewSquares(known, b, p);
    AddAllKeys(known, found);
    match RawHit(b, p, i, j)
    case None =>
    case Some(x) =>
      if Key(x) !in known {
        assert Hit(known, b, p, i, j) == Some(x);
        ScanMembers(known, b, p, 0, x);
        var k :| 0 <= k < |found| && found[k] == x;
      }
  }

  /**
   * The store is sound for the board: every stored square is a valid square,
   * stored under its key, whose four fields hold its player's pieces.
   */
  ghost predicate StoreOwned(m: map<seq<int>, Square>, b: GameBoard)
    requires WellFormed(b)
  {
    forall k | k in m :: Key(m[k]) == k && ValidSquare(m[k]) && Owned(b, m[k], m[k].player)
  }

  /** Placing a piece on an empty field keeps the store sound: a stored square lies on occupied fields only. */
  lemma {:induction false} PlaceKeepsOwned(m: map<seq<int>, Square>, b: GameBoard, index: int, p: Player)
    requires WellFormed(b) && PlacePieceOnField(b, index, p).Ok? && StoreOwned(m, b)
    ensures StoreOwned(m, PlacePieceOnField(b, index, p).value)
  {
    var b' := PlacePieceOnField(b, index, p).value;
    forall k | k in m
      ensures Owned(b', m[k], m[k].player)
    {
      var f := m[k].fields;
      forall n | 0 <= n < |f|
        ensures IsIndex(f[n]) && b'.cells[f[n]] == Some(m[k].player)
      {
        assert b.cells[f[n]] == Some(m[k].player);
      }
    }
  }

  /** Storing what a scan of the same board found keeps the store sound. */
  lemma {:induction false} ScanKeepsOwned(known: map<seq<int>, Square>, b: GameBoard, p: Player)
    requires WellFormed(b) && StoreOwned(known, b)
    ensures StoreOwned(AddAll(known, NewSquares(known, b, p)), b)
  {
    var found := NewSquares(known, b, p);
    var m := AddAll(known, found);
    AddAllKeys(known, found);
    NewSquaresSound(known, b, p);
    AddAllStores(known, found, p);
    forall k | k in m
      ensures Key(m[k]) == k && ValidSquare(m[k]) && Owned(b, m[k], m[k].player)
    {
      if i :| 0 <= i < |found| && Key(found[i]) == k {
        assert found[i] in found;
        assert m[k] == found[i];
      } else {
        assert m[k] == known[k];
      }
    }
  }

  /**
   * In a sound store, a valid square whose fields hold its player's pieces
   * is the very square stored under its key, if any: another player's square
   * cannot hide it.
   */
  lemma {:induction false} StoredSquareIsSelf(m: map<seq<int>, Square>, b: GameBoard, sq: Square)
    requires WellFormed(b) && StoreOwned(m, b) && ValidSquare(sq) && Owned(b, sq, sq.player) && Key(sq) in m
    ensures m[Key(sq)] == sq
  {
    var x := m[Key(sq)];
    assert x.fields == sq.fields;
    assert b.cells[x.fields[0]] == Some(x.player);
    assert b.cells[sq.fields[0]] == Some(sq.player);
    KeyDeterminesSquare(x, sq);
  }

  /**
   * With a sound store, every valid square of p on p's fields is either
   * stored already, as itself, or found by the scan.
   */
  lemma {:induction false} OwnedSquareFoundOrStored(known: map<seq<int>, Square>, b: GameBoard, p: Player, sq: Square)
    requires WellFormed(b) && StoreOwned(known, b)
    requires ValidSquare(sq) && sq.player == p && Owned(b, sq, p)
    ensures (Key(sq) in known && known[Key(sq)] == sq) || sq in NewSquares(known, b, p)
  {
    if Key(sq) in known {
      StoredSquareIsSelf(known, b, sq);
    } else {
      NewSquaresComplete(known, b, p, sq);
    }
  }

  /** A second scan of the same board for the same player, after storing what the first found, finds nothing. */
  lemma {:induction false} RescanFindsNothing(known: map<seq<int>, Square>, b: GameBoard, p: Player)
    requires WellFormed(b)
    ensures NewSquares(AddAll(known, NewSquares(known, b, p)), b, p) == []
  {
    var found := NewSquares(known, b, p);
    var known' := AddAll(known, found);
    var again := NewSquares(known', b, p);
    if again != [] {
      var x := again[0];
      assert x in again;
      NewSquaresSound(known', b, p);
      AddAllKeys(known, found);
      NewSquaresComplete(known, b, p, x);
      assert false;
    }
  }

  /** One step of the inner loop: the hit at j moves from the scan still to do to the result. */
  lemma {:induction false} RowScanStep(known: map<seq<int>, Square>, b: GameBoard, p: Player, i: Index, j: Index,
                                       hit: Option<Square>, before: seq<Square>, after: seq<Square>)
    requires WellFormed(b) && i < j && hit == Hit(known, b, p, i, j)
    requires after == before + (if hit.Some? then [hit.value] else [])
    ensures after + RowScan(known, b, p, i, j + 1) == before + RowScan(known, b, p, i, j)
  {
    var h, r := HitList(known, b, p, i, j), RowScan(known, b, p, i, j + 1);
    RowScanUnfold(known, b, p, i, j);
    assert after == before + h;
    AppendAssoc(before, h, r);
  }

  lemma {:induction false} RowScanUnfold(known: map<seq<int>, Square>, b: GameBoard, p: Player, i: Index, j: Index)
    requires WellFormed(b) && i < j
    ensures RowScan(known, b, p, i, j) == HitList(known, b, p, i, j) + RowScan(known, b, p, i, j + 1)
  {
  }

  lemma {:induction false} AppendAssoc<T>(a: seq<T>, b: seq<T>, c: seq<T>)
    ensures (a + b) + c == a + (b + c)
  {
  }

  /** What getSquareCount and getScore add up per square of the player. */
  datatype Measure = SquareCount | ScoreSum

  function Weight(sq: Square, p: Player, w: Measure): int
  {
    if sq.player != p then 0
    else if w == SquareCount then 1
    else sq.score
  }

  ghost function PickKey(ks: set<seq<int>>): (k: seq<int>)
    requires ks != {}
    ensures k in ks
  {
    var k :| k in ks; k
  }

  /** The count (or the total score) of the stored squares of p. */
  ghost function Tally(m: map<seq<int>, Square>, p: Player, w: Measure): int
    decreases |m.Keys|
  {
    if m.Keys == {} then 0
    else
      var k := PickKey(m.Keys);
      assert (m - {k}).Keys == m.Keys - {k};
      Weight(m[k], p, w) + Tally(m - {k}, p, w)
  }

  /** The same tally over a list, in list order. */
  function SumSeq(s: seq<Square>, p: Player, w: Measure): int
  {
    if s == [] then 0 else SumSeq(s[..|s| - 1], p, w) + Weight(s[|s| - 1], p, w)
  }

  lemma {:induction false} SumSeqStep(s: seq<Square>, k: int, p: Player, w: Measure)
    requires 0 <= k < |s|
    ensures SumSeq(s[..k + 1], p, w) == SumSeq(s[..k], p, w) + Weight(s[k], p, w)
  {
    assert s[..k + 1][..k] == s[..k];
  }

  /** The tally does not depend on the order in which the squares are visited. */
  lemma {:induction false} TallyRemove(m: map<seq<int>, Square>, k: seq<int>, p: Player, w: Measure)
    requires k in m
    ensures Tally(m, p, w) == Weight(m[k], p, w) + Tally(m - {k}, p, w)
    decreases |m.Keys|
  {
    var k0 := PickKey(m.Keys);
    if k0 != k {
      RemoveTwo(m, k0, k);
      TallyRemove(m - {k0}, k, p, w);
      TallyRemove(m - {k}, k0, p, w);
    }
  }

  /** Removing two keys from a map, in either order. */
  lemma {:induction false} RemoveTwo(m: map<seq<int>, Square>, k0: seq<int>, k: seq<int>)
    requires k0 in m && k in m && k0 != k
    ensures (m - {k0}).Keys == m.Keys - {k0} && (m - {k}).Keys == m.Keys - {k}
    ensures k in m - {k0} && (m - {k0})[k] == m[k] && k0 in m - {k} && (m - {k})[k0] == m[k0]
    ensures (m - {k0}) - {k} == (m - {k}) - {k0}
  {
  }

  /** Storing a square under a new key adds its weight to the tally. */
  lemma {:induction false} TallyAdd(m: map<seq<int>, Square>, k: seq<int>, sq: Square, p: Player, w: Measure)
    requires k !in m
    ensures Tally(m[k := sq], p, w) == Tally(m, p, w) + Weight(sq, p, w)
  {
    TallyRemove(m[k := sq], k, p, w);
    assert m[k := sq] - {k} == m;
  }

  /** Tallying a list that holds each stored square once gives the tally of the stored squares. */
  lemma {:induction false} TallyOfValues(vals: seq<Square>, m: map<seq<int>, Square>, p: Player, w: Measure)
    requires |vals| == |m.Keys|
    requires forall i | 0 <= i < |vals| :: Key(vals[i]) in m && m[Key(vals[i])] == vals[i]
    requires forall i, j | 0 <= i < j < |vals| :: Key(vals[i]) != Key(vals[j])
    ensures SumSeq(vals, p, w) == Tally(m, p, w)
    decreases |vals|
  {
    if vals != [] {
      var n := |vals| - 1;
      var h := Key(vals[n]);
      TallyRemove(m, h, p, w);
      var m' := m - {h};
      assert m'.Keys == m.Keys - {h};
      forall i | 0 <= i < n ensures Key(vals[..n][i]) in m' && m'[Key(vals[..n][i])] == vals[..n][i] {
        assert vals[..n][i] == vals[i];
      }
      TallyOfValues(vals[..n], m', p, w);
    }
  }

  /** The loop of getSquareCount and getScore over the listed squares: the weight of those of p, added up. */
  method SumList(all: seq<Square>, p: Player, w: Measure) returns (total: int)
    ensures total == SumSeq(all, p, w)
  {
    total := 0;
    var k := 0;
    while k < |all|
      invariant 0 <= k <= |all|
      invariant total == SumSeq(all[..k], p, w)
    {
      SumSeqStep(all, k, p, w);
      if GetPlayer(all[k]) == p {
        total := total + (if w == SquareCount then 1 else all[k].score);
      }
      k := k + 1;
    }
    assert all[..|all|] == all;
  }

  class SquareCollector {
    /** The squares found so far, each stored under its sorted fields. */
    const squares: HashSet<seq<int>, Square>

    ghost predicate Valid()
      reads this, squares
    {
      && squares.Valid()
      && squares.hashCode == Key
      && forall k | k in squares.internalMap :: ValidSquare(squares.internalMap[k])
    }

    /** The part of Valid() the scan needs: squares are stored under their key. */
    ghost predicate Keyed()
      reads this, squares
    {
      squares.Valid() && squares.hashCode == Key
    }

    /** The stored squares, by key. */
    ghost function Stored(): map<seq<int>, Square>
      reads this, squares
    {
      squares.internalMap
    }

    constructor ()
      ensures Valid() && fresh(squares) && Stored() == map[]
    {
      squares := new HashSet(Key);
    }

    /** findNewSquares: the squares p completes on b that are not stored yet, in scan order. */
    method FindNewSquares(b: GameBoard, p: Player) returns (result: seq<Square>)
      requires Keyed() && WellFormed(b)
      ensures result == NewSquares(Stored(), b, p)
    {
      ghost var known := Stored();
      result := [];
      var i := 0;
      while i < 55
        invariant 0 <= i <= 55
        invariant result + Scan(known, b, p, i) == NewSquares(known, b, p)
      {
        if GetPieceFromField(b, i) == Ok(Some(p)) {
          var row := FindInRow(b, p, i);
          result := result + row;
        }
        i := i + 1;
      }
    }

    /** The inner loop of findNewSquares: the new squares over the roots i and j > i, in order of j. */
    method FindInRow(b: GameBoard, p: Player, i: Index) returns (row: seq<Square>)
      requires Keyed() && WellFormed(b) && i < 55 && b.cells[i] == Some(p)
      ensures row == RowScan(Stored(), b, p, i, i + 1)
    {
      ghost var known := Stored();
      row := [];
      var j := i + 1;
      while j < 64
        invariant i < j <= 64
        invariant row + RowScan(known, b, p, i, j) == RowScan(known, b, p, i, i + 1)
      {
        row := ScanPair(b, p, i, j, row);
        j := j + 1;
      }
    }

    /** One round of the inner loop of findNewSquares: the hit over the roots i < j, if any, appended to row. */
    method ScanPair(b: GameBoard, p: Player, i: Index, j: Index, row: seq<Square>) returns (row': seq<Square>)
      requires Keyed() && WellFormed(b) && i < j && b.cells[i] == Some(p)
      ensures row' + RowScan(Stored(), b, p, i, j + 1) == row + RowScan(Stored(), b, p, i, j)
    {
      row' := row;
      var hit := CheckPair(b, p, i, j);
      if hit.Some? {
        row' := row' + [hit.value];
      }
      RowScanStep(Stored(), b, p, i, j, hit, row, row');
    }

    /** The body of the inner loop of findNewSquares: the new square over the roots i < j, if any. */
    method CheckPair(b: GameBoard, p: Player, i: Index, j: Index) returns (hit: Option<Square>)
      requires Keyed() && WellFormed(b) && i < j && b.cells[i] == Some(p)
      ensures hit == Hit(Stored(), b, p, i, j)
    {
      hit := None;
      if GetPieceFromField(b, j) == Ok(Some(p)) {
        var possible := GetPossiblePieces(i, j);
        if possible.Ok? && possible.value.Some? {
          var (c, d) := possible.value.value;
          if GetPieceFromField(b, c) == Ok(Some(p)) && GetPieceFromField(b, d) == Ok(Some(p)) {
            assert RawHit(b, p, i, j).Some?;
            RawHitIsNewSquare(b, p, i, j);
            var square := NewSquare([i, j, c, d], p).value;
            assert RawHit(b, p, i, j) == Some(square);
            if !squares.Contains(square) {
              hit := Some(square);
            }
          }
        }
      }
    }

    /**
     * detectNewSquares: the squares findNewSquares returns, each of them
     * then stored.
     */
    method DetectNewSquares(b: GameBoard, p: Player) returns (found: seq<Square>)
      requires Valid() && WellFormed(b)
      modifies squares
      ensures Valid()
      ensures found == NewSquares(old(Stored()), b, p)
      ensures Stored() == AddAll(old(Stored()), found)
    {
      found := FindNewSquares(b, p);
      if |found| == 0 {
        return [];
      }
      NewSquaresSound(Stored(), b, p);
      ghost var before := Stored();
      var k := 0;
      while k < |found|
        invariant 0 <= k <= |found|
        invariant Valid()
        invariant Stored() == AddAll(before, found[..k])
      {
        assert ValidSquare(found[k]);
        squares.Push(found[k]);
        AddAllStep(before, found, k);
        k := k + 1;
      }
      assert found[..|found|] == found;
    }

    /** getDetectedSquares: every stored square once. */
    method GetDetectedSquares() returns (r: seq<Square>)
      requires Valid()
      ensures |r| == |Stored().Keys|
      ensures forall i | 0 <= i < |r| :: Key(r[i]) in Stored() && Stored()[Key(r[i])] == r[i]
      ensures forall k | k in Stored() :: Stored()[k] in r
      ensures forall i, j | 0 <= i < j < |r| :: Key(r[i]) != Key(r[j])
    {
      r := squares.Values();
    }

    /** Adds up the weight of every stored square. */
    method Sum(p: Player, w: Measure) returns (total: int)
      requires Valid()
      ensures total == Tally(Stored(), p, w)
    {
      var all := GetDetectedSquares();
      total := SumList(all, p, w);
      TallyOfValues(all, Stored(), p, w);
    }

    /** getSquareCount: the number of stored squares of p. */
    method GetSquareCount(p: Player) returns (count: int)
      requires Valid()
      ensures count == Tally(Stored(), p, SquareCount)
    {
      count := Sum(p, SquareCount);
    }

    /** getScore: the total score of the stored squares of p. */
    method GetScore(p: Player) returns (score: int)
      requires Valid()
      ensures score == Tally(Stored(), p, ScoreSum)
    {
      score := Sum(p, ScoreSum);
    }

    /** reset: nothing is stored, so every player has no squares and no score. */
    method Reset()
      requires Valid()
      modifies squares
      ensures Valid() && Stored() == map[]
      ensures forall p: Player, w: Measure :: Tally(Stored(), p, w) == 0
    {
      squares.Clear();
    }
  }
}
