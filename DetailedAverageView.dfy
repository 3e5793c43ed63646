/*
 * DetailedAverageView: the daily average page. A loop over the entries builds a
 * dictionary from the local date of each entry's start to the total and number of
 * its durations; each day becomes a row with its mean. The cards show the mean
 * hours per day, the mean entry duration and a consistency score.
 *
 * The local date string of an entry's start (`toLocaleDateString()`) is an
 * input, `dayOf`. The loop, written for any such key of an entry, is also the
 * first loop of the monthly report, keyed by description.
 */
module DetailedAverageView {
  import opened Base
  import opened Grouping
  import opened EntryList

  /** A `dayMap` value: `{ total, count }`. */
  datatype Bucket = Bucket(total: real, count: nat)

  datatype DailyAverage = DailyAverage(date: string, average: real, total: real, entries: nat)

  function DayKey(dayOf: TimeEntry -> string): TimeEntry -> Option<string>
  {
    (e: TimeEntry) => Some(dayOf(e))
  }

  function Total(d: DailyAverage): real
  {
    d.total
  }

  function Entries(d: DailyAverage): real
  {
    d.entries as real
  }

  /** The bucket of date `d` after the entries `s`: the sum and the number of the
   * durations of the entries that started on that date. */
  function Expected(s: seq<TimeEntry>, dayOf: TimeEntry -> string, d: string): Bucket
  {
    Bucket(GroupSum(s, DayKey(dayOf), Duration, d), GroupCount(s, DayKey(dayOf), d))
  }

  /** What one iteration of the loop does to the dictionary. */
  function Record(m: map<string, Bucket>, dayOf: TimeEntry -> string, e: TimeEntry): map<string, Bucket>
  {
    var date := dayOf(e);
    var current := if date in m then m[date] else Bucket(0.0, 0);
    m[date := Bucket(current.total + e.duration, current.count + 1)]
  }

  /** The dictionary the loop has built after the entries `s`. */
  function Built(s: seq<TimeEntry>, dayOf: TimeEntry -> string): map<string, Bucket>
    decreases |s|
  {
    if s == [] then map[] else Record(Built(s[..|s| - 1], dayOf), dayOf, s[|s| - 1])
  }

  lemma BuiltAdvance(s: seq<TimeEntry>, dayOf: TimeEntry -> string, i: nat)
    requires i < |s|
    ensures Built(s[..i + 1], dayOf) == Record(Built(s[..i], dayOf), dayOf, s[i])
  {
    assert s[..i + 1][..i] == s[..i];
  }

  /** How one more entry changes the expected bucket of date `d`. */
  lemma ExpectedStep(p: seq<TimeEntry>, x: TimeEntry, dayOf: TimeEntry -> string, d: string)
    ensures dayOf(x) != d ==> Expected(p + [x], dayOf, d) == Expected(p, dayOf, d)
    ensures dayOf(x) == d && d in Keys(p, DayKey(dayOf)) ==>
              Expected(p + [x], dayOf, d) == Bucket(Expected(p, dayOf, d).total + x.duration, Expected(p, dayOf, d).count + 1)
    ensures dayOf(x) == d && d !in Keys(p, DayKey(dayOf)) ==>
              Expected(p + [x], dayOf, d) == Bucket(0.0 + x.duration, 0 + 1)
  {
    SnocTotals(p, x, DayKey(dayOf), Duration, d);
    if d !in Keys(p, DayKey(dayOf)) {
      AbsentSum(p, DayKey(dayOf), Duration, d);
    }
  }

  /** The dictionary holds one bucket per date that has an entry, and it is the
   * expected one. */
  lemma {:induction false} BuiltExpected(s: seq<TimeEntry>, dayOf: TimeEntry -> string)
    ensures forall d :: d in Built(s, dayOf) <==> d in Keys(s, DayKey(dayOf))
    ensures forall d :: d in Built(s, dayOf) ==> Built(s, dayOf)[d] == Expected(s, dayOf, d)
    decreases |s|
  {
    if s != [] {
      var p, x := s[..|s| - 1], s[|s| - 1];
      assert s == p + [x];
      BuiltExpected(p, dayOf);
      KeysSnoc(p, x, DayKey(dayOf));
      forall d | d in Built(s, dayOf) ensures Built(s, dayOf)[d] == Expected(p + [x], dayOf, d) {
        ExpectedStep(p, x, dayOf, d);
      }
    }
  }

  /** The `forEach` callback: create the day's bucket on its first entry, then add
   * the entry to it. */
  method Tally(dayMap: map<string, Bucket>, keys: seq<string>, dayOf: TimeEntry -> string, entry: TimeEntry)
    returns (dayMap': map<string, Bucket>, keys': seq<string>)
    ensures dayMap' == Record(dayMap, dayOf, entry)
    ensures keys' == if dayOf(entry) !in dayMap then keys + [dayOf(entry)] else keys
  {
    dayMap', keys' := dayMap, keys;
    var date := dayOf(entry);
    if date !in dayMap' {
      dayMap' := dayMap'[date := Bucket(0.0, 0)];
      keys' := keys' + [date];
    }
    var current := dayMap'[date];
    assert current == if date in dayMap then dayMap[date] else Bucket(0.0, 0);
    ghost var created := dayMap';
    dayMap' := dayMap'[date := Bucket(current.total + entry.duration, current.count + 1)];
    assert created[date := dayMap'[date]] == dayMap[date := dayMap'[date]];
  }

  /** The loop, with the dates in order of creation. */
  method TallyDays(entries: seq<TimeEntry>, dayOf: TimeEntry -> string) returns (dayMap: map<string, Bucket>, keys: seq<string>)
    ensures dayMap == Built(entries, dayOf) && keys == Keys(entries, DayKey(dayOf))
    ensures forall d :: d in dayMap <==> d in keys
  {
    dayMap := map[];
    keys := [];
    var i := 0;
    while i < |entries|
      invariant 0 <= i <= |entries|
      invariant keys == Keys(entries[..i], DayKey(dayOf))
      invariant dayMap == Built(entries[..i], dayOf)
      invariant forall d :: d in dayMap <==> d in keys
    {
      KeysAdvance(entries, i, DayKey(dayOf));
      BuiltAdvance(entries, dayOf, i);
      dayMap, keys := Tally(dayMap, keys, dayOf, entries[i]);
      i := i + 1;
    }
    assert entries[..i] == entries;
  }

  /** `Object.entries(dayMap).map(...)`: one row per date, with the day's mean. */
  function Rows(keys: seq<string>, dayMap: map<string, Bucket>): (r: seq<DailyAverage>)
    requires forall d :: d in keys ==> d in dayMap && dayMap[d].count >= 1
    ensures |r| == |keys|
    ensures forall i :: 0 <= i < |keys| ==>
              (r[i].date == keys[i] && r[i].total == dayMap[keys[i]].total && r[i].entries == dayMap[keys[i]].count
               && r[i].average == r[i].total / r[i].entries as real)
  {
    seq(|keys|, i requires 0 <= i < |keys| =>
      var b := dayMap[keys[i]];
      DailyAverage(keys[i], b.total / b.count as real, b.total, b.count))
  }

  /** `dailyAverages`: one row per date with an entry, in order of first appearance,
   * holding that date's total, number of entries and mean; together the rows hold
   * every entry and all the hours. */
  method DailyAverages(entries: seq<TimeEntry>, dayOf: TimeEntry -> string) returns (days: seq<DailyAverage>)
    ensures |days| == |Keys(entries, DayKey(dayOf))|
    ensures forall i :: 0 <= i < |days| ==> days[i].date == Keys(entries, DayKey(dayOf))[i]
    ensures forall i :: 0 <= i < |days| ==>
              days[i].total == GroupSum(entries, DayKey(dayOf), Duration, days[i].date)
              && days[i].entries == GroupCount(entries, DayKey(dayOf), days[i].date) >= 1
    ensures forall i :: 0 <= i < |days| ==> days[i].average == days[i].total / days[i].entries as real
    ensures SumOf(days, Total) == TotalHours(entries)
    ensures SumOf(days, Entries) == |entries| as real
    ensures days == [] <==> entries == []
  {
    var dayMap, keys := TallyDays(entries, dayOf);
    BuiltCounts(entries, dayOf);
    BuiltExpected(entries, dayOf);
    days := Rows(keys, dayMap);
    DaysListed(entries, dayOf, keys, dayMap, days);
    DaysConserved(entries, dayOf, keys, days);
    NoDays(entries, dayOf);
  }

  /** Every date in the dictionary has at least one entry. */
  lemma BuiltCounts(entries: seq<TimeEntry>, dayOf: TimeEntry -> string)
    ensures forall d :: d in Keys(entries, DayKey(dayOf)) ==>
              d in Built(entries, dayOf) && Built(entries, dayOf)[d].count == GroupCount(entries, DayKey(dayOf), d) >= 1
  {
    BuiltExpected(entries, dayOf);
    forall d | d in Keys(entries, DayKey(dayOf)) ensures Built(entries, dayOf)[d].count >= 1 {
      PresentCount(entries, DayKey(dayOf), d);
    }
  }

  /** Rows of a dictionary that holds the expected buckets are the expected rows. */
  lemma DaysListed(entries: seq<TimeEntry>, dayOf: TimeEntry -> string, keys: seq<string>, dayMap: map<string, Bucket>,
                   days: seq<DailyAverage>)
    requires forall d :: d in keys ==> d in dayMap && dayMap[d] == Expected(entries, dayOf, d) && dayMap[d].count >= 1
    requires days == Rows(keys, dayMap)
    ensures forall i :: 0 <= i < |days| ==>
              days[i].total == GroupSum(entries, DayKey(dayOf), Duration, days[i].date)
              && days[i].entries == GroupCount(entries, DayKey(dayOf), days[i].date) >= 1
  {
    forall i | 0 <= i < |days|
      ensures days[i].total == GroupSum(entries, DayKey(dayOf), Duration, days[i].date)
      ensures days[i].entries == GroupCount(entries, DayKey(dayOf), days[i].date) >= 1
    {
      assert keys[i] in keys;
    }
  }

  /** There is a day exactly when there is an entry. */
  lemma NoDays(entries: seq<TimeEntry>, dayOf: TimeEntry -> string)
    ensures Keys(entries, DayKey(dayOf)) == [] <==> entries == []
  {
    if entries != [] {
      assert DayKey(dayOf)(entries[0]) == Some(dayOf(entries[0]));
    }
  }

  /** The rows hold every entry and all the hours. */
  lemma DaysConserved(entries: seq<TimeEntry>, dayOf: TimeEntry -> string, keys: seq<string>, days: seq<DailyAverage>)
    requires keys == Keys(entries, DayKey(dayOf))
    requires |days| == |keys|
    requires forall i :: 0 <= i < |keys| ==>
               (days[i].total == GroupSum(entries, DayKey(dayOf), Duration, keys[i])
                && days[i].entries == GroupCount(entries, DayKey(dayOf), keys[i]))
    ensures SumOf(days, Total) == TotalHours(entries)
    ensures SumOf(days, Entries) == |entries| as real
  {
    SumOfMatched(days, keys, Total, SumFor(entries, DayKey(dayOf), Duration));
    SumsConserved(entries, DayKey(dayOf), Duration);
    SumOfMatched(days, keys, Entries, CountFor(entries, DayKey(dayOf)));
    CountsConserved(entries, DayKey(dayOf));
    FilterAll(entries, IsIncluded(DayKey(dayOf)));
  }

  /** `overallAverage`: the mean of the day totals, 0 with no day. */
  function OverallAverage(days: seq<DailyAverage>): (r: real)
    ensures |days| == 0 ==> r == 0.0
    ensures |days| > 0 ==> r * |days| as real == SumOf(days, Total)
  {
    if |days| == 0 then 0.0 else SumOf(days, Total) / |days| as real
  }

  /** `averageEntryDuration`: the mean duration, 0 with no entry. */
  function AverageEntryDuration(entries: seq<TimeEntry>): (r: real)
    ensures |entries| == 0 ==> r == 0.0
    ensures |entries| > 0 ==> r * |entries| as real == TotalHours(entries)
  {
    if |entries| == 0 then 0.0 else TotalHours(entries) / |entries| as real
  }

  const TrackedDays: nat := 30

  /** The consistency score: the share of 30 days that have an entry, as a rounded
   * percentage capped at 100. */
  function Consistency(dayCount: nat): (r: int)
    ensures 0 <= r <= 100
    ensures dayCount >= TrackedDays ==> r == 100
    ensures dayCount == 0 ==> r == 0
  {
    var score := Round(dayCount as real / TrackedDays as real * 100.0);
    assert dayCount >= TrackedDays ==> dayCount as real / TrackedDays as real * 100.0 >= 100.0;
    Min(100, score)
  }

  /** The score grows with the number of days. */
  lemma ConsistencyMonotone(a: nat, b: nat)
    requires a <= b
    ensures Consistency(a) <= Consistency(b)
  {
    var x, y := a as real / 30.0 * 100.0, b as real / 30.0 * 100.0;
    assert x <= y;
    if Round(x) > Round(y) {
      assert false;
    }
  }

  const BreakdownRows: nat := 10

  /** The "Daily Breakdown" table: `dailyAverages.slice(0, 10)`. */
  function Breakdown(days: seq<DailyAverage>): (r: seq<DailyAverage>)
    ensures |r| == Min(BreakdownRows, |days|) && r == days[..|r|]
  {
    Slice(days, 0, BreakdownRows)
  }
}
