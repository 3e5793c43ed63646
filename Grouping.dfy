/*
 * Grouping: reference definitions for the dictionary-building loops of the
 * dashboard views.
 *
 * Each view walks a list of items and, for items it does not skip, creates a
 * dictionary entry on the first item of a key and then adds to it. `key(x)`
 * is `None` for a skipped item and `Some(k)` otherwise. The functions below
 * describe what such a loop has built after a prefix of the list, defined on
 * the last item so that a loop invariant can follow them one step at a time:
 * the keys in order of creation (which is the order in which `Object.values`
 * lists string keys that are not array indices, ECMA-262 section 10.1.11.1),
 * and per key the sum, the count, the first value seen and the latest time.
 */
module Grouping {
  import opened Base

  /** The keys that have an entry, in order of creation. */
  function Keys<T, K(==,!new)>(s: seq<T>, key: T -> Option<K>): (r: seq<K>)
    ensures NoDuplicates(r)
    ensures forall k :: k in r <==> exists i :: 0 <= i < |s| && key(s[i]) == Some(k)
    decreases |s|
  {
    if s == [] then []
    else
      var p := Keys(s[..|s| - 1], key);
      assert forall i :: 0 <= i < |s| - 1 ==> s[..|s| - 1][i] == s[i];
      match key(s[|s| - 1])
      case Some(k) => if k in p then p else p + [k]
      case None => p
  }

  /** The sum of `w` over the items of key `k`. */
  function GroupSum<T, K(==,!new)>(s: seq<T>, key: T -> Option<K>, w: T -> real, k: K): real
    decreases |s|
  {
    if s == [] then 0.0
    else GroupSum(s[..|s| - 1], key, w, k) + (if key(s[|s| - 1]) == Some(k) then w(s[|s| - 1]) else 0.0)
  }

  /** The number of items of key `k`. */
  function GroupCount<T, K(==,!new)>(s: seq<T>, key: T -> Option<K>, k: K): nat
    decreases |s|
  {
    if s == [] then 0
    else GroupCount(s[..|s| - 1], key, k) + (if key(s[|s| - 1]) == Some(k) then 1 else 0)
  }

  /** `v` of the first item of key `k`: what the entry was created with. */
  function FirstOf<T, K(==,!new), V>(s: seq<T>, key: T -> Option<K>, v: T -> V, k: K): (r: Option<V>)
    ensures r.Some? <==> k in Keys(s, key)
    decreases |s|
  {
    if s == [] then None
    else
      var r := FirstOf(s[..|s| - 1], key, v, k);
      if r.Some? then r
      else if key(s[|s| - 1]) == Some(k) then Some(v(s[|s| - 1]))
      else None
  }

  /** `FirstOf` is `v` of an item of key `k` that no earlier item of key `k` precedes. */
  lemma {:induction false} FirstOfFirst<T, K(!new), V>(s: seq<T>, key: T -> Option<K>, v: T -> V, k: K)
    requires k in Keys(s, key)
    ensures exists i :: 0 <= i < |s| && key(s[i]) == Some(k) && FirstOf(s, key, v, k).value == v(s[i])
                        && forall j :: 0 <= j < i ==> key(s[j]) != Some(k)
    decreases |s|
  {
    var p := s[..|s| - 1];
    assert forall j :: 0 <= j < |p| ==> p[j] == s[j];
    if k in Keys(p, key) {
      FirstOfFirst(p, key, v, k);
      var i :| 0 <= i < |p| && key(p[i]) == Some(k) && FirstOf(p, key, v, k).value == v(p[i])
                && forall j :: 0 <= j < i ==> key(p[j]) != Some(k);
      assert key(s[i]) == Some(k);
    } else {
      var i := |s| - 1;
      assert key(s[i]) == Some(k);
      forall j | 0 <= j < i ensures key(s[j]) != Some(k) {
        assert p[j] == s[j];
      }
    }
  }

  /** The latest `t` among the items of key `k`: starting from the first item's time,
   * a later item replaces it only when its time is strictly greater. */
  function LatestOf<T, K(==,!new)>(s: seq<T>, key: T -> Option<K>, t: T -> int, k: K): (r: Option<int>)
    ensures r.Some? <==> k in Keys(s, key)
    decreases |s|
  {
    if s == [] then None
    else
      var x := s[|s| - 1];
      var r := LatestOf(s[..|s| - 1], key, t, k);
      if key(x) != Some(k) then r
      else if r.None? then Some(t(x))
      else if t(x) > r.value then Some(t(x))
      else r
  }

  /** `LatestOf` is the time of an item of key `k`, and no item of key `k` is later. */
  lemma {:induction false} LatestOfMax<T, K(!new)>(s: seq<T>, key: T -> Option<K>, t: T -> int, k: K)
    requires k in Keys(s, key)
    ensures (exists i :: 0 <= i < |s| && key(s[i]) == Some(k) && LatestOf(s, key, t, k).value == t(s[i]))
            && forall i :: 0 <= i < |s| && key(s[i]) == Some(k) ==> t(s[i]) <= LatestOf(s, key, t, k).value
    decreases |s|
  {
    var p, x := s[..|s| - 1], s[|s| - 1];
    assert forall j :: 0 <= j < |p| ==> p[j] == s[j];
    if k in Keys(p, key) {
      LatestOfMax(p, key, t, k);
      var i :| 0 <= i < |p| && key(p[i]) == Some(k) && LatestOf(p, key, t, k).value == t(p[i]);
      assert key(s[i]) == Some(k);
      assert key(x) == Some(k) ==> key(s[|s| - 1]) == Some(k);
    } else {
      assert key(s[|s| - 1]) == Some(k);
    }
  }

  /** The items that are not skipped. */
  function Included<T(==), K>(s: seq<T>, key: T -> Option<K>): seq<T>
  {
    Filter(s, IsIncluded(key))
  }

  function IsIncluded<T, K>(key: T -> Option<K>): T -> bool
  {
    x => key(x).Some?
  }

  /** An item is included exactly when it is in the list and not skipped. */
  lemma IncludedIff<T, K>(s: seq<T>, key: T -> Option<K>, x: T)
    ensures x in Included(s, key) <==> x in s && key(x).Some?
  {
    var r := Included(s, key);
    if x in r {
      var i :| 0 <= i < |r| && r[i] == x;
    }
    if x in s && key(x).Some? {
      var i :| 0 <= i < |s| && s[i] == x;
      assert IsIncluded(key)(s[i]);
    }
  }

  /** `GroupSum` as a function of the key. */
  function SumFor<T, K(==,!new)>(s: seq<T>, key: T -> Option<K>, w: T -> real): K -> real
  {
    k => GroupSum(s, key, w, k)
  }

  /** `GroupCount` as a function of the key. */
  function CountFor<T, K(==,!new)>(s: seq<T>, key: T -> Option<K>): K -> real
  {
    k => GroupCount(s, key, k) as real
  }

  function One<T>(x: T): real
  {
    1.0
  }

  /** One step of a loop over `p + [x]`: the keys. */
  lemma KeysSnoc<T, K(!new)>(p: seq<T>, x: T, key: T -> Option<K>)
    ensures Keys(p + [x], key) == match key(x) case Some(k0) => (if k0 in Keys(p, key) then Keys(p, key) else Keys(p, key) + [k0])
                                                case None => Keys(p, key)
  {
    assert (p + [x])[..|p + [x]| - 1] == p;
  }

  /** One step of a loop over the prefixes of `s`: the keys. */
  lemma KeysAdvance<T, K(!new)>(s: seq<T>, i: nat, key: T -> Option<K>)
    requires i < |s|
    ensures Keys(s[..i + 1], key) == if key(s[i]).Some? && key(s[i]).value !in Keys(s[..i], key)
                                     then Keys(s[..i], key) + [key(s[i]).value] else Keys(s[..i], key)
  {
    assert s[..i + 1] == s[..i] + [s[i]];
    KeysSnoc(s[..i], s[i], key);
  }

  /** One step of a loop over `p + [x]`: the entry of key `k`. */
  lemma Snoc<T, K(!new), V>(p: seq<T>, x: T, key: T -> Option<K>, w: T -> real, v: T -> V, t: T -> int, k: K)
    ensures GroupSum(p + [x], key, w, k) == GroupSum(p, key, w, k) + (if key(x) == Some(k) then w(x) else 0.0)
    ensures GroupCount(p + [x], key, k) == GroupCount(p, key, k) + (if key(x) == Some(k) then 1 else 0)
    ensures FirstOf(p + [x], key, v, k) == if FirstOf(p, key, v, k).Some? then FirstOf(p, key, v, k)
                                           else if key(x) == Some(k) then Some(v(x)) else None
    ensures LatestOf(p + [x], key, t, k) == if key(x) != Some(k) then LatestOf(p, key, t, k)
                                            else if LatestOf(p, key, t, k).None? then Some(t(x))
                                            else if t(x) > LatestOf(p, key, t, k).value then Some(t(x))
                                            else LatestOf(p, key, t, k)
  {
    assert (p + [x])[..|p + [x]| - 1] == p;
  }

  /** One step of a loop over `p + [x]` that keeps only a sum and a count per key. */
  lemma SnocTotals<T, K(!new)>(p: seq<T>, x: T, key: T -> Option<K>, w: T -> real, k: K)
    ensures GroupSum(p + [x], key, w, k) == GroupSum(p, key, w, k) + (if key(x) == Some(k) then w(x) else 0.0)
    ensures GroupCount(p + [x], key, k) == GroupCount(p, key, k) + (if key(x) == Some(k) then 1 else 0)
  {
    assert (p + [x])[..|p + [x]| - 1] == p;
  }

  /** A key without an entry has nothing summed. */
  lemma {:induction false} AbsentSum<T, K(!new)>(s: seq<T>, key: T -> Option<K>, w: T -> real, k: K)
    requires k !in Keys(s, key)
    ensures GroupSum(s, key, w, k) == 0.0 && GroupCount(s, key, k) == 0
    decreases |s|
  {
    if s != [] {
      var p := s[..|s| - 1];
      assert forall i :: 0 <= i < |p| ==> p[i] == s[i];
      AbsentSum(p, key, w, k);
    }
  }

  /** A key with an entry counts at least one item. */
  lemma {:induction false} PresentCount<T, K(!new)>(s: seq<T>, key: T -> Option<K>, k: K)
    requires k in Keys(s, key)
    ensures GroupCount(s, key, k) >= 1
    decreases |s|
  {
    var p := s[..|s| - 1];
    if k in Keys(p, key) {
      PresentCount(p, key, k);
    }
  }

  /** The included items of `p + [x]`. */
  lemma IncludedSnoc<T, K>(p: seq<T>, x: T, key: T -> Option<K>)
    ensures Included(p + [x], key) == Included(p, key) + (if key(x).Some? then [x] else [])
  {
    FilterAppend(p, [x], IsIncluded(key));
    assert Filter([x], IsIncluded(key)) == (if key(x).Some? then [x] else []);
  }

  /** A skipped item changes no group total. */
  lemma SumsStepSkipped<T, K(!new)>(p: seq<T>, x: T, key: T -> Option<K>, w: T -> real)
    requires key(x).None?
    ensures SumOf(Keys(p + [x], key), SumFor(p + [x], key, w)) == SumOf(Keys(p, key), SumFor(p, key, w))
  {
    KeysSnoc(p, x, key);
    forall k | k in Keys(p, key) ensures SumFor(p + [x], key, w)(k) == SumFor(p, key, w)(k) {
      Snoc(p, x, key, w, w, i => 0, k);
    }
    SumOfSame(Keys(p, key), SumFor(p, key, w), SumFor(p + [x], key, w));
  }

  /** An included item adds its weight to the totals, in its own group. */
  lemma SumsStepIncluded<T, K(!new)>(p: seq<T>, x: T, key: T -> Option<K>, w: T -> real, k0: K)
    requires key(x) == Some(k0)
    ensures SumOf(Keys(p + [x], key), SumFor(p + [x], key, w)) == SumOf(Keys(p, key), SumFor(p, key, w)) + w(x)
  {
    var kp := Keys(p, key);
    var f, g := SumFor(p, key, w), SumFor(p + [x], key, w);
    KeysSnoc(p, x, key);
    forall k | k in kp ensures g(k) == f(k) + (if k == k0 then w(x) else 0.0) {
      Snoc(p, x, key, w, w, i => 0, k);
    }
    SumOfBump(kp, f, g, k0, w(x));
    if k0 !in kp {
      SumOfAppend(kp, [k0], g);
      Snoc(p, x, key, w, w, i => 0, k0);
      AbsentSum(p, key, w, k0);
    }
  }

  /** The totals of all groups add up to the total over the included items. */
  lemma {:induction false} SumsConserved<T, K(!new)>(s: seq<T>, key: T -> Option<K>, w: T -> real)
    ensures SumOf(Keys(s, key), SumFor(s, key, w)) == SumOf(Included(s, key), w)
    decreases |s|
  {
    if s != [] {
      var p, x := s[..|s| - 1], s[|s| - 1];
      assert s == p + [x];
      SumsConserved(p, key, w);
      IncludedSnoc(p, x, key);
      SumOfAppend(Included(p, key), if key(x).Some? then [x] else [], w);
      if key(x).Some? {
        SumsStepIncluded(p, x, key, w, key(x).value);
      } else {
        SumsStepSkipped(p, x, key, w);
      }
    }
  }

  /** Counting is summing ones. */
  lemma {:induction false} CountIsSumOfOnes<T, K(!new)>(s: seq<T>, key: T -> Option<K>, k: K)
    ensures GroupCount(s, key, k) as real == GroupSum(s, key, One, k)
    decreases |s|
  {
    if s != [] {
      CountIsSumOfOnes(s[..|s| - 1], key, k);
    }
  }

  lemma {:induction false} SumOfOnes<T>(s: seq<T>)
    ensures SumOf(s, One) == |s| as real
  {
    if s != [] {
      SumOfOnes(s[1..]);
    }
  }

  /** The counts of all groups add up to the number of included items. */
  lemma CountsConserved<T, K(!new)>(s: seq<T>, key: T -> Option<K>)
    ensures SumOf(Keys(s, key), CountFor(s, key)) == |Included(s, key)| as real
  {
    forall k | k in Keys(s, key) ensures CountFor(s, key)(k) == SumFor(s, key, One)(k) {
      CountIsSumOfOnes(s, key, k);
    }
    SumOfSame(Keys(s, key), SumFor(s, key, One), CountFor(s, key));
    SumsConserved(s, key, One);
    SumOfOnes(Included(s, key));
  }

  /** One step of a loop over the prefixes of `s`: the sum of key `k`. */
  lemma GroupSumAdvance<T, K(!new)>(s: seq<T>, i: nat, key: T -> Option<K>, w: T -> real, k: K)
    requires i < |s|
    ensures GroupSum(s[..i + 1], key, w, k) == GroupSum(s[..i], key, w, k) + (if key(s[i]) == Some(k) then w(s[i]) else 0.0)
  {
    assert s[..i + 1][..i] == s[..i];
  }

  /** The bucket numbers `0, 1, ..., n - 1`. */
  function Range(n: nat): (r: seq<int>)
    ensures |r| == n && forall i :: 0 <= i < n ==> r[i] == i
    ensures NoDuplicates(r)
  {
    seq(n, i => i)
  }

  /** When every item falls into one of the buckets `0..n-1`, the buckets' sums add
   * up to the sum over all items. */
  lemma {:induction false} BucketsTotal<T>(s: seq<T>, key: T -> Option<int>, w: T -> real, n: nat)
    requires forall x :: key(x).Some? && 0 <= key(x).value < n
    ensures SumOf(Range(n), SumFor(s, key, w)) == SumOf(s, w)
    decreases |s|
  {
    if s == [] {
      SumOfZero(Range(n), SumFor(s, key, w));
    } else {
      var p, x := s[..|s| - 1], s[|s| - 1];
      assert s == p + [x];
      BucketsTotal(p, key, w, n);
      var f, g := SumFor(p, key, w), SumFor(s, key, w);
      forall k | k in Range(n) ensures g(k) == f(k) + (if k == key(x).value then w(x) else 0.0) {
        Snoc(p, x, key, w, w, i => 0, k);
      }
      assert Range(n)[key(x).value] == key(x).value;
      SumOfBump(Range(n), f, g, key(x).value, w(x));
      SumOfAppend(p, [x], w);
      assert SumOf([x], w) == w(x);
    }
  }

  /** The dictionary's values listed in the order of `keys`. */
  function Values<K, V>(keys: seq<K>, m: map<K, V>): (r: seq<V>)
    requires forall k :: k in keys ==> k in m
    ensures |r| == |keys| && forall i :: 0 <= i < |keys| ==> r[i] == m[keys[i]]
  {
    seq(|keys|, i requires 0 <= i < |keys| => m[keys[i]])
  }
}
