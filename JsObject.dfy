/*
 * JsObject: the order in which `Object.entries`, `Object.keys` and
 * `Object.values` list the string keys of an ordinary object (ECMA-262, section
 * 10.1.11.1, OrdinaryOwnPropertyKeys): first the keys that are array indices, in
 * ascending numeric order, then the other keys in order of creation.
 */
module JsObject {
  import opened Base
  import opened JsText
  import opened Sorting

  /** An array index, ECMA-262 section 6.1.7: the canonical decimal form of an
   * integer below 2^32 - 1. */
  predicate IsIndexKey(s: string)
  {
    |s| >= 1 && (forall i :: 0 <= i < |s| ==> IsDigit(s[i]))
    && (s[0] != '0' || |s| == 1) && DigitsValue(s) < 4294967295
  }

  predicate IsNamedKey(s: string)
  {
    !IsIndexKey(s)
  }

  function IndexValue(s: string): nat
  {
    if forall i :: 0 <= i < |s| ==> IsDigit(s[i]) then DigitsValue(s) else 0
  }

  /** Array indices are listed in ascending numeric order. */
  predicate IndexBefore(a: string, b: string)
  {
    IndexValue(a) < IndexValue(b)
  }

  /** `Object.entries` order, ECMA-262 section 10.1.11.1: the array indices in
   * ascending order, then the other string keys in order of creation. */
  function OwnKeys(keys: seq<string>): seq<string>
  {
    SortBy(Filter(keys, IsIndexKey), IndexBefore) + Filter(keys, IsNamedKey)
  }

  /** The listing holds the keys and nothing else. */
  lemma OwnKeysMembers(keys: seq<string>)
    ensures forall k :: k in OwnKeys(keys) <==> k in keys
  {
    var indices := Filter(keys, IsIndexKey);
    SortByPermutes(indices, IndexBefore);
    forall k | k in SortBy(indices, IndexBefore) ensures k in indices {
      assert k in multiset(SortBy(indices, IndexBefore));
    }
    forall k | k in indices ensures k in SortBy(indices, IndexBefore) {
      assert k in multiset(indices);
    }
  }

  /** The listing is a permutation of the keys. */
  lemma OwnKeysPermutes(keys: seq<string>)
    ensures multiset(OwnKeys(keys)) == multiset(keys)
    ensures |OwnKeys(keys)| == |keys|
  {
    var indices, named := Filter(keys, IsIndexKey), Filter(keys, IsNamedKey);
    var sorted := SortBy(indices, IndexBefore);
    SortByPermutes(indices, IndexBefore);
    FilterPartition(keys, IsIndexKey, IsNamedKey);
    assert OwnKeys(keys) == sorted + named;
    PermutedPrefix(sorted, indices, named, keys);
  }

  /** Replacing the first part of a split by a permutation of it keeps a permutation. */
  lemma PermutedPrefix<T>(sorted: seq<T>, part: seq<T>, rest: seq<T>, whole: seq<T>)
    requires multiset(sorted) == multiset(part)
    requires multiset(part) + multiset(rest) == multiset(whole)
    ensures multiset(sorted + rest) == multiset(whole)
    ensures |sorted + rest| == |whole|
  {
    assert multiset(sorted + rest) == multiset(sorted) + multiset(rest);
    assert |multiset(sorted + rest)| == |sorted + rest|;
    assert |multiset(whole)| == |whole|;
  }

  /** The listing has the array indices first, in ascending order. */
  lemma OwnKeysIndicesFirst(keys: seq<string>)
    ensures forall i, j :: 0 <= i < j < |OwnKeys(keys)| && IsIndexKey(OwnKeys(keys)[j]) ==>
              IsIndexKey(OwnKeys(keys)[i]) && IndexValue(OwnKeys(keys)[i]) <= IndexValue(OwnKeys(keys)[j])
  {
    var sorted, named := SortBy(Filter(keys, IsIndexKey), IndexBefore), Filter(keys, IsNamedKey);
    SortedIndices(keys, sorted);
    var o := OwnKeys(keys);
    assert o == sorted + named;
    forall t | |sorted| <= t < |o| ensures IsNamedKey(o[t]) {
      assert o[t] == named[t - |sorted|];
    }
    forall i, j | 0 <= i < j < |o| && IsIndexKey(o[j])
      ensures IsIndexKey(o[i]) && IndexValue(o[i]) <= IndexValue(o[j])
    {
      assert o[i] == sorted[i] && o[j] == sorted[j];
    }
  }

  /** The array indices, sorted. */
  lemma SortedIndices(keys: seq<string>, sorted: seq<string>)
    requires sorted == SortBy(Filter(keys, IsIndexKey), IndexBefore)
    ensures forall i, j :: 0 <= i < j < |sorted| ==> IsIndexKey(sorted[i]) && IndexValue(sorted[i]) <= IndexValue(sorted[j])
  {
    var indices := Filter(keys, IsIndexKey);
    SortByPermutes(indices, IndexBefore);
    IndexBeforeStrict();
    SortBySorted(indices, IndexBefore);
    forall i | 0 <= i < |sorted| ensures IsIndexKey(sorted[i]) {
      assert sorted[i] in multiset(sorted);
    }
  }

  lemma IndexBeforeStrict()
    ensures StrictOrder(IndexBefore)
  {
  }

  /** Without integer-like keys the listing is the order of creation. */
  lemma OwnKeysNamed(keys: seq<string>)
    requires forall k :: k in keys ==> IsNamedKey(k)
    ensures OwnKeys(keys) == keys
  {
    assert forall i :: 0 <= i < |keys| ==> IsNamedKey(keys[i]);
    FilterNone(keys, IsIndexKey);
    FilterAll(keys, IsNamedKey);
  }
}
