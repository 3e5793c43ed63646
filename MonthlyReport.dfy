/*
 * MonthlyReport: the "Last 30 Days Report" card. It keeps the entries that started
 * in the last thirty days and shows their total hours, their mean hours per day
 * worked and their most frequent description.
 *
 * The instant thirty days before now and the local date of an entry's start are
 * inputs (`cutoff` and `dayOf`). The description counts are built by the loop of
 * `DetailedAverageView`, keyed by description; they are then visited in the order
 * `Object.entries` lists an object's keys.
 */
module MonthlyReport {
  import opened Base
  import opened JsText
  import opened JsObject
  import opened Grouping
  import opened EntryList
  import opened DetailedAverageView

  predicate RecentFrom(cutoff: int, e: TimeEntry)
  {
    e.startTime >= cutoff
  }

  function StartsFrom(cutoff: int): TimeEntry -> bool
  {
    (e: TimeEntry) => RecentFrom(cutoff, e)
  }

  /** `last30DaysEntries`: the entries that started at or after the cutoff, in order. */
  function Recent(entries: seq<TimeEntry>, cutoff: int): (r: seq<TimeEntry>)
    ensures IsSubsequence(r, entries)
    ensures forall e :: e in r <==> e in entries && e.startTime >= cutoff
  {
    FilterIsSubsequence(entries, StartsFrom(cutoff));
    Filter(entries, StartsFrom(cutoff))
  }

  /** `uniqueDays`: the local dates of the recent entries. */
  function UniqueDays(recent: seq<TimeEntry>, dayOf: TimeEntry -> string): set<string>
  {
    set i | 0 <= i < |recent| :: dayOf(recent[i])
  }

  /** `averageHoursPerDay`: the total over the number of days worked, 0 without an
   * entry. */
  function AverageHoursPerDay(recent: seq<TimeEntry>, dayOf: TimeEntry -> string): (r: real)
    ensures recent == [] ==> r == 0.0
    ensures recent != [] ==> |UniqueDays(recent, dayOf)| >= 1 && r * |UniqueDays(recent, dayOf)| as real == TotalHours(recent)
  {
    if |recent| == 0 then 0.0
    else
      var days := UniqueDays(recent, dayOf);
      assert dayOf(recent[0]) in days;
      if |days| > 0 then TotalHours(recent) / |days| as real else 0.0
  }

  /** The days worked are the rows of the daily average page. */
  lemma UniqueDaysAreRows(recent: seq<TimeEntry>, dayOf: TimeEntry -> string)
    ensures |UniqueDays(recent, dayOf)| == |Keys(recent, DayKey(dayOf))|
  {
    var keys := Keys(recent, DayKey(dayOf));
    forall d ensures d in UniqueDays(recent, dayOf) <==> d in keys {
      if d in keys {
        var i :| 0 <= i < |recent| && DayKey(dayOf)(recent[i]) == Some(d);
      }
      if d in UniqueDays(recent, dayOf) {
        var i :| 0 <= i < |recent| && dayOf(recent[i]) == d;
        assert DayKey(dayOf)(recent[i]) == Some(d);
      }
    }
    assert UniqueDays(recent, dayOf) == set d | d in keys;
    DistinctCardinality(keys);
  }

  /** A list without repetition has as many elements as its set. */
  lemma {:induction false} DistinctCardinality<T>(s: seq<T>)
    requires NoDuplicates(s)
    ensures |set x | x in s| == |s|
  {
    if s != [] {
      var rest := s[1..];
      assert NoDuplicates(rest) by {
        forall i, j | 0 <= i < j < |rest| ensures rest[i] != rest[j] {
          assert rest[i] == s[i + 1] && rest[j] == s[j + 1];
        }
      }
      DistinctCardinality(rest);
      assert (set x | x in s) == (set x | x in rest) + {s[0]};
      assert s[0] !in (set x | x in rest);
    }
  }

  /** The report's mean hours per day worked is the average page's daily average over
   * the same entries. */
  lemma AverageIsOverallAverage(recent: seq<TimeEntry>, dayOf: TimeEntry -> string, days: seq<DailyAverage>)
    requires |days| == |Keys(recent, DayKey(dayOf))|
    requires SumOf(days, Total) == TotalHours(recent)
    requires days == [] <==> recent == []
    ensures AverageHoursPerDay(recent, dayOf) == OverallAverage(days)
  {
    UniqueDaysAreRows(recent, dayOf);
  }

  /** The second loop: the first key in `order` with the largest count, that is,
   * `mostFrequent` replaced only on a strictly larger count. */
  method MostFrequent(order: seq<string>, taskCounts: map<string, Bucket>) returns (description: string, count: nat)
    requires forall k :: k in order ==> k in taskCounts
    ensures count == 0 ==> description == ""
    ensures forall i :: 0 <= i < |order| ==> taskCounts[order[i]].count <= count
    ensures count > 0 ==> exists i :: 0 <= i < |order| && order[i] == description && taskCounts[description].count == count
                                      && forall j :: 0 <= j < i ==> taskCounts[order[j]].count < count
  {
    description, count := "", 0;
    ghost var at := 0;
    for i := 0 to |order|
      invariant count == 0 ==> description == ""
      invariant forall j :: 0 <= j < i ==> taskCounts[order[j]].count <= count
      invariant count > 0 ==> 0 <= at < i && order[at] == description && taskCounts[description].count == count
                              && forall j :: 0 <= j < at ==> taskCounts[order[j]].count < count
    {
      var data := taskCounts[order[i]];
      if data.count > count {
        description, count := order[i], data.count;
        at := i;
      }
    }
  }

  function Description(e: TimeEntry): string
  {
    e.description
  }

  /** The number of recent entries with description `d`. */
  function TaskCount(recent: seq<TimeEntry>, d: string): nat
  {
    GroupCount(recent, DayKey(Description), d)
  }

  /** Position `i` of `order` holds a description with the largest number of recent
   * entries, and no earlier position does. */
  ghost predicate MostFrequentAt(recent: seq<TimeEntry>, order: seq<string>, i: int)
  {
    0 <= i < |order|
    && (forall j :: 0 <= j < |order| ==> TaskCount(recent, order[j]) <= TaskCount(recent, order[i]))
    && forall j :: 0 <= j < i ==> TaskCount(recent, order[j]) < TaskCount(recent, order[i])
  }

  /** There is one such position: ties go to the description listed first. */
  lemma MostFrequentAtUnique(recent: seq<TimeEntry>, order: seq<string>, i: int, j: int)
    requires MostFrequentAt(recent, order, i) && MostFrequentAt(recent, order, j)
    ensures i == j
  {
    assert TaskCount(recent, order[i]) == TaskCount(recent, order[j]);
  }

  const NoTasks: string := "No tasks"

  /** `mostFrequentTask`: "No tasks" without recent entries; otherwise the description
   * most recent entries have, ties going to the first listed by `Object.entries`,
   * and "No tasks" again when that description is empty. */
  method MostFrequentTask(recent: seq<TimeEntry>) returns (task: string)
    ensures recent == [] ==> task == NoTasks
    ensures recent != [] ==> exists i :: MostFrequentAt(recent, OwnKeys(Keys(recent, DayKey(Description))), i)
                                         && task == var d := OwnKeys(Keys(recent, DayKey(Description)))[i];
                                                    if d == "" then NoTasks else d
  {
    if |recent| == 0 {
      return NoTasks;
    }
    var taskCounts, keys := TallyDays(recent, Description);
    var order := OwnKeys(keys);
    TaskCounts(recent, taskCounts, order);
    var description, count := MostFrequent(order, taskCounts);
    ghost var i := WinnerAt(recent, taskCounts, order, description, count);
    task := if description == "" then NoTasks else description;
  }

  /** The first loop counts, at every position of the listing, that description's
   * entries. */
  lemma TaskCounts(recent: seq<TimeEntry>, taskCounts: map<string, Bucket>, order: seq<string>)
    requires taskCounts == Built(recent, Description)
    requires order == OwnKeys(Keys(recent, DayKey(Description)))
    ensures forall j :: 0 <= j < |order| ==>
              order[j] in taskCounts && taskCounts[order[j]].count == TaskCount(recent, order[j]) >= 1
    ensures recent != [] ==> order != []
  {
    var keys := Keys(recent, DayKey(Description));
    OwnKeysMembers(keys);
    BuiltCounts(recent, Description);
    forall j | 0 <= j < |order|
      ensures order[j] in taskCounts && taskCounts[order[j]].count == TaskCount(recent, order[j]) >= 1
    {
      assert order[j] in order;
    }
    NoDays(recent, Description);
    if recent != [] {
      assert keys[0] in order;
    }
  }

  /** What the second loop returns is at the winning position. */
  lemma WinnerAt(recent: seq<TimeEntry>, taskCounts: map<string, Bucket>, order: seq<string>, description: string, count: nat)
    returns (i: int)
    requires order != []
    requires forall j :: 0 <= j < |order| ==>
               order[j] in taskCounts && taskCounts[order[j]].count == TaskCount(recent, order[j]) >= 1
    requires forall j :: 0 <= j < |order| ==> taskCounts[order[j]].count <= count
    requires count > 0 ==> exists i :: 0 <= i < |order| && order[i] == description && taskCounts[description].count == count
                                      && forall j :: 0 <= j < i ==> taskCounts[order[j]].count < count
    ensures MostFrequentAt(recent, order, i) && order[i] == description
  {
    assert taskCounts[order[0]].count >= 1;
    i :| 0 <= i < |order| && order[i] == description && taskCounts[description].count == count
         && forall j :: 0 <= j < i ==> taskCounts[order[j]].count < count;
  }

  /** `formatDuration` as written: whole hours, then the rest rounded to minutes. The
   * same function appears in `UserSummary`. */
  function SplitHoursAsWritten(hours: real): (r: (int, int))
    ensures r.0 == hours.Floor && 0 <= r.1 <= 60
  {
    var wholeHours := hours.Floor;
    var minutes := Round((hours - wholeHours as real) * 60.0);
    (wholeHours, minutes)
  }

  /** Rounding can carry into a full hour: 1.995 hours is shown as "1h 60m". */
  lemma SplitHoursAsWrittenSixty()
    ensures SplitHoursAsWritten(1.995) == (1, 60)
    ensures FormatHoursAsWritten(1.995) == "1h 60m" && FormatHours(1.995) == "2h 0m"
  {
    assert (1.995).Floor == 1;
    RoundUnique((1.995 - 1.0) * 60.0, 60);
    assert NatToString(60) == "60" && NatToString(1) == "1" && NatToString(2) == "2" && NatToString(0) == "0";
  }

  /** Hours and minutes of the duration rounded to whole minutes: the minutes stay
   * below 60, and they agree with the written function except where it shows 60. */
  function SplitHours(hours: real): (r: (int, int))
    ensures 0 <= r.1 < 60 && r.0 * 60 + r.1 == Round(hours * 60.0)
    ensures var w := SplitHoursAsWritten(hours);
            if w.1 < 60 then r == w else r == (w.0 + 1, 0)
  {
    var total := Round(hours * 60.0);
    SplitCarries(hours);
    (total / 60, total % 60)
  }

  /** Rounding the whole duration to minutes is rounding its fraction of an hour and
   * adding the whole hours. */
  lemma SplitCarries(hours: real)
    ensures var total, w := Round(hours * 60.0), SplitHoursAsWritten(hours);
            if w.1 < 60 then total / 60 == w.0 && total % 60 == w.1
            else total / 60 == w.0 + 1 && total % 60 == 0
  {
    var w := hours.Floor;
    RoundShift((hours - w as real) * 60.0, w * 60);
    assert (hours - w as real) * 60.0 + (w * 60) as real == hours * 60.0;
    var m := SplitHoursAsWritten(hours).1;
    if m < 60 {
      DivModUnique(Round(hours * 60.0), 60, w, m);
    } else {
      DivModUnique(Round(hours * 60.0), 60, w + 1, 0);
    }
  }

  /** Adding a whole number moves the rounding by that number. */
  lemma RoundShift(x: real, n: int)
    ensures Round(x + n as real) == Round(x) + n
  {
    RoundUnique(x + n as real, Round(x) + n);
  }

  /** `formatDuration` as the page shows it: `${wholeHours}h ${minutes}m`. */
  function FormatHoursAsWritten(hours: real): string
  {
    var split := SplitHoursAsWritten(hours);
    IntToString(split.0) + "h " + IntToString(split.1) + "m"
  }

  /** The corrected display: the same text with minutes below 60. */
  function FormatHours(hours: real): string
  {
    var split := SplitHours(hours);
    IntToString(split.0) + "h " + IntToString(split.1) + "m"
  }

  /** The corrected display is the page's text except where the page shows 60
   * minutes, which becomes the next hour and 0 minutes. */
  lemma FormatHoursAgree(hours: real)
    ensures SplitHoursAsWritten(hours).1 < 60 ==> FormatHours(hours) == FormatHoursAsWritten(hours)
    ensures SplitHoursAsWritten(hours).1 == 60 ==> FormatHours(hours) == IntToString(hours.Floor + 1) + "h 0m"
  {
    assert IntToString(0) == "0";
  }
}
