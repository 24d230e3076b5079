/**
 * A set of values keyed by a hash code: a value pushed replaces the one
 * stored under the same hash code.
 */
module HashSets {

  class HashSet<K(==), T> {
    /** The hash code of a value. */
    const hashCode: T -> K
    /** The stored values, each under its hash code. */
    var internalMap: map<K, T>

    ghost predicate Valid()
      reads this
    {
      forall k | k in internalMap :: hashCode(internalMap[k]) == k
    }

    constructor (hashCode: T -> K)
      ensures Valid() && this.hashCode == hashCode && internalMap == map[]
    {
      this.hashCode := hashCode;
      internalMap := map[];
    }

    /** contains: whether a value with the same hash code is stored. */
    function Contains(v: T): (r: bool)
      requires Valid()
      reads this
      ensures r <==> exists k | k in internalMap :: hashCode(internalMap[k]) == hashCode(v)
    {
      hashCode(v) in internalMap
    }

    /** size: the number of stored values. */
    function Size(): (r: nat)
      reads this
      ensures r == |internalMap.Keys|
    {
      |internalMap|
    }

    /**
     * push: v is stored under its hash code, replacing the value stored there
     * if any (the size then stays the same), and every other entry is kept.
     */
    method Push(v: T)
      requires Valid()
      modifies this
      ensures Valid()
      ensures internalMap == old(internalMap)[hashCode(v) := v]
      ensures Contains(v) && internalMap[hashCode(v)] == v
      ensures forall k | k in old(internalMap) && k != hashCode(v) :: k in internalMap && internalMap[k] == old(internalMap)[k]
      ensures Size() == old(Size()) + (if hashCode(v) in old(internalMap) then 0 else 1)
    {
      internalMap := internalMap[hashCode(v) := v];
    }

    /** remove: the value stored under the hash code of v is dropped, every other entry kept. */
    method Remove(v: T)
      requires Valid()
      modifies this
      ensures Valid()
      ensures internalMap == old(internalMap) - {hashCode(v)}
      ensures !Contains(v)
      ensures forall k | k in old(internalMap) && k != hashCode(v) :: k in internalMap && internalMap[k] == old(internalMap)[k]
    {
      internalMap := internalMap - {hashCode(v)};
    }

    /** clear: nothing is stored any more. */
    method Clear()
      requires Valid()
      modifies this
      ensures Valid() && internalMap == map[]
      ensures Size() == 0 && forall v :: !Contains(v)
    {
      internalMap := map[];
    }

    /**
     * values: every stored value exactly once, so the list is as long as the
     * set is large.
     */
    method Values() returns (result: seq<T>)
      requires Valid()
      ensures |result| == Size()
      ensures forall i | 0 <= i < |result| :: hashCode(result[i]) in internalMap && internalMap[hashCode(result[i])] == result[i]
      ensures forall k | k in internalMap :: internalMap[k] in result
      ensures forall i, j | 0 <= i < j < |result| :: hashCode(result[i]) != hashCode(result[j])
    {
      result := ListValues(internalMap, hashCode);
    }
  }

  /** The values of m, each once, for a map that stores every value under its hash code h. */
  method ListValues<K, T>(m: map<K, T>, h: T -> K) returns (result: seq<T>)
    requires forall k | k in m :: h(m[k]) == k
    ensures |result| == |m|
    ensures forall i | 0 <= i < |result| :: h(result[i]) in m && m[h(result[i])] == result[i]
    ensures forall k | k in m :: m[k] in result
    ensures forall i, j | 0 <= i < j < |result| :: h(result[i]) != h(result[j])
  {
    result := [];
    var seen: set<K> := {};
    while seen != m.Keys
      invariant seen <= m.Keys
      invariant |result| == |seen|
      invariant Listed(m, h, result, seen)
      decreases |m.Keys - seen|
    {
      var k :| k in m.Keys - seen;
      ListedStep(m, h, result, seen, k);
      assert m.Keys - (seen + {k}) < m.Keys - seen;
      result := result + [m[k]];
      seen := seen + {k};
    }
  }

  /** result lists the values stored under the keys in seen, each once. */
  ghost predicate Listed<K, T>(m: map<K, T>, h: T -> K, result: seq<T>, seen: set<K>)
  {
    && (forall i | 0 <= i < |result| :: h(result[i]) in seen && h(result[i]) in m && m[h(result[i])] == result[i])
    && (forall k | k in seen :: k in m && m[k] in result)
    && (forall i, j | 0 <= i < j < |result| :: h(result[i]) != h(result[j]))
  }

  /** Listing the value under one more key keeps the values listed once each. */
  lemma {:induction false} ListedStep<K, T>(m: map<K, T>, h: T -> K, result: seq<T>, seen: set<K>, k: K)
    requires forall k | k in m :: h(m[k]) == k
    requires Listed(m, h, result, seen) && k in m && k !in seen
    ensures Listed(m, h, result + [m[k]], seen + {k})
  {
    var after := result + [m[k]];
    assert forall i | 0 <= i < |result| :: after[i] == result[i];
    assert after[|result|] == m[k];
    forall i, j | 0 <= i < j < |after| ensures h(after[i]) != h(after[j]) {
      if j == |result| {
        assert h(after[i]) in seen;
      }
    }
  }
}
