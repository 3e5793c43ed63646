/*
 * Sorting: `Array.prototype.sort` with a comparator, which ECMAScript 2019 and
 * later require to be stable (ECMA-262, section 23.1.3.30).
 *
 * A comparator `cmp` is represented by the relation `lt(a, b)`, "cmp(a, b) < 0",
 * i.e. `a` must come before `b`. The sort is a stable insertion sort: each
 * element is placed after every element already placed that it does not
 * strictly precede.
 */
module Sorting {

  /** `lt` is a strict (partial) order: asymmetric and transitive. */
  ghost predicate StrictOrder<T(!new)>(lt: (T, T) -> bool)
  {
    (forall a, b :: lt(a, b) ==> !lt(b, a))
    && (forall a, b, c :: lt(a, b) && lt(b, c) ==> lt(a, c))
  }

  /** No element is strictly preceded by a later one. */
  ghost predicate SortedBy<T>(s: seq<T>, lt: (T, T) -> bool)
  {
    forall i, j :: 0 <= i < j < |s| ==> !lt(s[j], s[i])
  }

  /** Place `x` before the first element it strictly precedes. */
  function Insert<T(==)>(x: T, s: seq<T>, lt: (T, T) -> bool): (r: seq<T>)
    ensures |r| == |s| + 1
  {
    if s == [] || lt(x, s[0]) then [x] + s
    else [s[0]] + Insert(x, s[1..], lt)
  }

  /** Inserting adds exactly the one element. */
  lemma {:induction false} InsertPermutes<T>(x: T, s: seq<T>, lt: (T, T) -> bool)
    ensures multiset(Insert(x, s, lt)) == multiset(s) + multiset{x}
  {
    if s == [] || lt(x, s[0]) {
      assert Insert(x, s, lt) == [x] + s;
    } else {
      var t := Insert(x, s[1..], lt);
      InsertPermutes(x, s[1..], lt);
      assert Insert(x, s, lt) == [s[0]] + t;
      assert s == [s[0]] + s[1..];
      assert multiset([s[0]] + t) == multiset([s[0]]) + multiset(t);
    }
  }

  /** The stable sort of `s` by `lt`. */
  function SortBy<T(==)>(s: seq<T>, lt: (T, T) -> bool): (r: seq<T>)
    ensures |r| == |s|
    decreases |s|
  {
    if s == [] then []
    else Insert(s[|s| - 1], SortBy(s[..|s| - 1], lt), lt)
  }

  /** The sort is a permutation of its input. */
  lemma {:induction false} SortByPermutes<T>(s: seq<T>, lt: (T, T) -> bool)
    ensures multiset(SortBy(s, lt)) == multiset(s)
    decreases |s|
  {
    if s != [] {
      SortByPermutes(s[..|s| - 1], lt);
      InsertPermutes(s[|s| - 1], SortBy(s[..|s| - 1], lt), lt);
      assert s == s[..|s| - 1] + [s[|s| - 1]];
    }
  }

  /** Inserting past the head of a sorted sequence leaves nothing that strictly
   * precedes the head. */
  lemma InsertPastHead<T>(x: T, s: seq<T>, lt: (T, T) -> bool)
    requires SortedBy(s, lt) && s != [] && !lt(x, s[0])
    ensures forall j :: 0 <= j < |Insert(x, s[1..], lt)| ==> !lt(Insert(x, s[1..], lt)[j], s[0])
  {
    var tail := Insert(x, s[1..], lt);
    InsertPermutes(x, s[1..], lt);
    forall j | 0 <= j < |tail| ensures !lt(tail[j], s[0]) {
      var y := tail[j];
      assert y in multiset(tail);
      if y != x {
        assert y in multiset(s[1..]);
        var m :| 0 <= m < |s[1..]| && s[1..][m] == y;
        assert s[m + 1] == y;
      }
    }
  }

  lemma {:induction false} InsertSorted<T(!new)>(x: T, s: seq<T>, lt: (T, T) -> bool)
    requires StrictOrder(lt) && SortedBy(s, lt)
    ensures SortedBy(Insert(x, s, lt), lt)
  {
    if s == [] {
    } else if lt(x, s[0]) {
      var r := [x] + s;
      forall j | 1 < j < |r| ensures !lt(r[j], x) {
        assert !lt(s[j - 1], s[0]);
      }
    } else {
      var tail := Insert(x, s[1..], lt);
      InsertSorted(x, s[1..], lt);
      InsertPastHead(x, s, lt);
      assert Insert(x, s, lt) == [s[0]] + tail;
    }
  }

  lemma {:induction false} SortBySorted<T(!new)>(s: seq<T>, lt: (T, T) -> bool)
    requires StrictOrder(lt)
    ensures SortedBy(SortBy(s, lt), lt)
    decreases |s|
  {
    if s != [] {
      SortBySorted(s[..|s| - 1], lt);
      InsertSorted(s[|s| - 1], SortBy(s[..|s| - 1], lt), lt);
    }
  }

  /** An element that strictly precedes nothing already placed goes last. */
  lemma {:induction false} InsertLast<T>(x: T, s: seq<T>, lt: (T, T) -> bool)
    requires forall i :: 0 <= i < |s| ==> !lt(x, s[i])
    ensures Insert(x, s, lt) == s + [x]
  {
    if s != [] {
      InsertLast(x, s[1..], lt);
      assert [s[0]] + (s[1..] + [x]) == s + [x];
    }
  }

  /** Stability: when no element strictly precedes another, sorting keeps the order. */
  lemma {:induction false} SortByUnrelated<T>(s: seq<T>, lt: (T, T) -> bool)
    requires forall i, j :: 0 <= i < |s| && 0 <= j < |s| ==> !lt(s[i], s[j])
    ensures SortBy(s, lt) == s
    decreases |s|
  {
    if s != [] {
      var init := s[..|s| - 1];
      SortByUnrelated(init, lt);
      forall i | 0 <= i < |init| ensures !lt(s[|s| - 1], init[i]) {
        assert init[i] == s[i];
      }
      InsertLast(s[|s| - 1], init, lt);
      assert init + [s[|s| - 1]] == s;
    }
  }
}
