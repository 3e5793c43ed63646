/*
 * UserSummary: the per-user summary card of the dashboard. A loop over the entries
 * builds a dictionary from user id to summary, skipping entries without an email;
 * the summaries are then listed in order of creation and sorted by hours,
 * descending.
 */
module UserSummary {
  import opened Base
  import opened Sorting
  import opened Grouping
  import opened EntryList

  datatype Summary = Summary(userId: string, email: string, totalHours: real, entryCount: nat, lastActive: int)

  /** Entries with an email are grouped by user id; the others are skipped. */
  function UserKey(e: TimeEntry): Option<string>
  {
    if Truthy(e.userEmail) then Some(e.userId) else None
  }

  function EmailOf(e: TimeEntry): string
  {
    GetOr(e.userEmail, "")
  }

  function StartOf(e: TimeEntry): int
  {
    e.startTime
  }

  function Hours(x: Summary): real
  {
    x.totalHours
  }

  function Entries(x: Summary): real
  {
    x.entryCount as real
  }

  /** The summary of user `u` after the entries `s`: the email of the user's first
   * entry, the sum and number of the user's durations, the latest start time. */
  function Expected(s: seq<TimeEntry>, u: string): Summary
    requires u in Keys(s, UserKey)
  {
    Summary(u, FirstOf(s, UserKey, EmailOf, u).value, GroupSum(s, UserKey, Duration, u),
            GroupCount(s, UserKey, u), LatestOf(s, UserKey, StartOf, u).value)
  }

  /** The entry a user's first entry creates. */
  function Fresh(e: TimeEntry): Summary
  {
    Summary(e.userId, EmailOf(e), 0.0, 0, e.startTime)
  }

  /** The update an entry makes to its user's summary: `totalHours += duration`,
   * `entryCount++`, and `lastActive` moves to a strictly later start time. */
  function Add(current: Summary, e: TimeEntry): Summary
  {
    current.(totalHours := current.totalHours + e.duration,
             entryCount := current.entryCount + 1,
             lastActive := if e.startTime > current.lastActive then e.startTime else current.lastActive)
  }

  /** How one more entry changes the expected summary of user `u`. */
  lemma ExpectedStep(p: seq<TimeEntry>, x: TimeEntry, u: string)
    requires u in Keys(p + [x], UserKey)
    ensures UserKey(x) != Some(u) ==> u in Keys(p, UserKey) && Expected(p + [x], u) == Expected(p, u)
    ensures UserKey(x) == Some(u) && u in Keys(p, UserKey) ==> Expected(p + [x], u) == Add(Expected(p, u), x)
    ensures UserKey(x) == Some(u) && u !in Keys(p, UserKey) ==> Expected(p + [x], u) == Add(Fresh(x), x)
  {
    KeysSnoc(p, x, UserKey);
    Snoc(p, x, UserKey, Duration, EmailOf, StartOf, u);
    if u !in Keys(p, UserKey) {
      AbsentSum(p, UserKey, Duration, u);
    }
  }

  /** What one iteration of the loop does to the dictionary. */
  function Record(m: map<string, Summary>, x: TimeEntry): map<string, Summary>
  {
    if UserKey(x).None? then m
    else m[x.userId := Add(if x.userId in m then m[x.userId] else Fresh(x), x)]
  }

  /** The dictionary the loop has built after the entries `s`. */
  function Built(s: seq<TimeEntry>): map<string, Summary>
    decreases |s|
  {
    if s == [] then map[] else Record(Built(s[..|s| - 1]), s[|s| - 1])
  }

  lemma BuiltAdvance(s: seq<TimeEntry>, i: nat)
    requires i < |s|
    ensures Built(s[..i + 1]) == Record(Built(s[..i]), s[i])
  {
    assert s[..i + 1][..i] == s[..i];
  }

  /** The dictionary holds one summary per user with an emailed entry, and it is the
   * expected one. */
  lemma {:induction false} BuiltExpected(s: seq<TimeEntry>)
    ensures forall u :: u in Built(s) <==> u in Keys(s, UserKey)
    ensures forall u :: u in Built(s) ==> Built(s)[u] == Expected(s, u)
    decreases |s|
  {
    if s != [] {
      var p, x := s[..|s| - 1], s[|s| - 1];
      assert s == p + [x];
      BuiltExpected(p);
      KeysSnoc(p, x, UserKey);
      forall u | u in Built(s) ensures Built(s)[u] == Expected(p + [x], u) {
        ExpectedStep(p, x, u);
      }
    }
  }

  /** `b.totalHours - a.totalHours` is negative. */
  predicate MoreHours(a: Summary, b: Summary)
  {
    a.totalHours > b.totalHours
  }

  /** `userSummaries`. */
  method UserSummaries(entries: seq<TimeEntry>) returns (result: seq<Summary>)
    ensures |result| == |Keys(entries, UserKey)|
    ensures forall u :: u in Keys(entries, UserKey) <==> exists x :: x in result && x.userId == u
    ensures forall x :: x in result ==> x.userId in Keys(entries, UserKey) && x == Expected(entries, x.userId)
    ensures forall i, j :: 0 <= i < j < |result| ==> result[i].totalHours >= result[j].totalHours
    ensures SumOf(result, Hours) == TotalHours(Included(entries, UserKey))
    ensures SumOf(result, Entries) == |Included(entries, UserKey)| as real
  {
    var summaries, keys := BuildSummaries(entries);
    BuiltExpected(entries);
    var values := Values(keys, summaries);
    result := SortBy(values, MoreHours);
    ListedSummaries(entries, keys, values, result);
  }

  /** The loop that fills the dictionary, with the keys in order of creation. */
  method BuildSummaries(entries: seq<TimeEntry>) returns (summaries: map<string, Summary>, keys: seq<string>)
    ensures summaries == Built(entries) && keys == Keys(entries, UserKey)
    ensures forall u :: u in summaries <==> u in keys
  {
    summaries := map[];
    keys := [];
    var i := 0;
    while i < |entries|
      invariant 0 <= i <= |entries|
      invariant keys == Keys(entries[..i], UserKey)
      invariant summaries == Built(entries[..i])
      invariant forall u :: u in summaries <==> u in keys
    {
      KeysAdvance(entries, i, UserKey);
      BuiltAdvance(entries, i);
      summaries, keys := Tally(summaries, keys, entries[i]);
      i := i + 1;
    }
    assert entries[..i] == entries;
  }

  /** The `forEach` callback: skip an entry without an email, create the user's
   * summary on their first entry, then add the entry to it. */
  method Tally(summaries: map<string, Summary>, keys: seq<string>, entry: TimeEntry)
    returns (summaries': map<string, Summary>, keys': seq<string>)
    ensures summaries' == Record(summaries, entry)
    ensures keys' == if UserKey(entry).Some? && entry.userId !in summaries then keys + [entry.userId] else keys
  {
    summaries', keys' := summaries, keys;
    if Truthy(entry.userEmail) {
      if entry.userId !in summaries' {
        summaries' := summaries'[entry.userId := Summary(entry.userId, entry.userEmail.value, 0.0, 0, entry.startTime)];
        keys' := keys' + [entry.userId];
      }
      var current := summaries'[entry.userId];
      assert current == if entry.userId in summaries then summaries[entry.userId] else Fresh(entry);
      ghost var created := summaries';
      summaries' := summaries'[entry.userId := Add(current, entry)];
      assert created[entry.userId := Add(current, entry)] == summaries[entry.userId := Add(current, entry)];
    }
  }

  /** The sorted list of the dictionary's values holds one summary per user. */
  lemma ListedSummaries(entries: seq<TimeEntry>, keys: seq<string>, values: seq<Summary>, result: seq<Summary>)
    requires keys == Keys(entries, UserKey)
    requires |values| == |keys| && forall j :: 0 <= j < |keys| ==> values[j] == Expected(entries, keys[j])
    requires result == SortBy(values, MoreHours)
    ensures |result| == |keys|
    ensures forall u :: u in keys <==> exists x :: x in result && x.userId == u
    ensures forall x :: x in result ==> x.userId in keys && x == Expected(entries, x.userId)
    ensures forall i, j :: 0 <= i < j < |result| ==> result[i].totalHours >= result[j].totalHours
    ensures SumOf(result, Hours) == TotalHours(Included(entries, UserKey))
    ensures SumOf(result, Entries) == |Included(entries, UserKey)| as real
  {
    SortByPermutes(values, MoreHours);
    SortBySorted(values, MoreHours);
    ListedMembers(entries, keys, values, result);
    ListedTotals(entries, keys, values, result);
  }

  lemma ListedMembers(entries: seq<TimeEntry>, keys: seq<string>, values: seq<Summary>, result: seq<Summary>)
    requires keys == Keys(entries, UserKey)
    requires |values| == |keys| && forall j :: 0 <= j < |keys| ==> values[j] == Expected(entries, keys[j])
    requires multiset(result) == multiset(values)
    ensures forall u :: u in keys <==> exists x :: x in result && x.userId == u
    ensures forall x :: x in result ==> x.userId in keys && x == Expected(entries, x.userId)
  {
    forall x | x in result ensures x.userId in keys && x == Expected(entries, x.userId) {
      assert x in multiset(values);
      var j :| 0 <= j < |values| && values[j] == x;
    }
    forall u | u in keys ensures exists x :: x in result && x.userId == u {
      var j :| 0 <= j < |keys| && keys[j] == u;
      assert values[j] in multiset(result);
    }
  }

  lemma ListedTotals(entries: seq<TimeEntry>, keys: seq<string>, values: seq<Summary>, result: seq<Summary>)
    requires keys == Keys(entries, UserKey)
    requires |values| == |keys| && forall j :: 0 <= j < |keys| ==> values[j] == Expected(entries, keys[j])
    requires multiset(result) == multiset(values)
    ensures SumOf(result, Hours) == TotalHours(Included(entries, UserKey))
    ensures SumOf(result, Entries) == |Included(entries, UserKey)| as real
  {
    SumOfPermutation(result, values, Hours);
    SumOfMatched(values, keys, Hours, SumFor(entries, UserKey, Duration));
    SumsConserved(entries, UserKey, Duration);
    SumOfPermutation(result, values, Entries);
    SumOfMatched(values, keys, Entries, CountFor(entries, UserKey));
    CountsConserved(entries, UserKey);
  }

  /** Only entries with an email are summarised. */
  lemma EmailedIncluded(entries: seq<TimeEntry>, e: TimeEntry)
    ensures e in Included(entries, UserKey) <==> e in entries && Truthy(e.userEmail)
  {
    Grouping.IncludedIff(entries, UserKey, e);
  }
}
