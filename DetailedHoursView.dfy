/*
 * DetailedHoursView: the hours analysis page. Two loops add each entry's duration
 * into a fixed array of buckets: seven weekdays and four times of day. The cards
 * show the total hours and a productivity score; each time-of-day bar is as wide as
 * its share of the total.
 *
 * The weekday (`getDay()`, 0 for Sunday) and hour (`getHours()`) of an entry's
 * local start time are inputs: the functions `weekdayOf` and `hourOf` of the start
 * timestamp.
 */
module DetailedHoursView {
  import opened Base
  import opened Grouping
  import opened EntryList

  type Weekday = d: int | 0 <= d < 7
  type Hour = h: int | 0 <= h < 24

  const Days: seq<string> := ["Sunday", "Monday", "Tuesday", "Wednesday", "Thursday", "Friday", "Saturday"]

  const SlotLabels: seq<string> := ["Morning (6am-12pm)", "Afternoon (12pm-6pm)", "Evening (6pm-12am)", "Night (12am-6am)"]

  /** The `if`/`else if` chain: the time-of-day slot of a start hour. */
  function Slot(hour: int): (s: int)
    ensures 0 <= s < |SlotLabels|
    ensures s == 0 <==> 6 <= hour < 12
    ensures s == 1 <==> 12 <= hour < 18
    ensures s == 2 <==> 18 <= hour < 24
    ensures s == 3 <==> hour < 6 || 24 <= hour
  {
    if hour >= 6 && hour < 12 then 0
    else if hour >= 12 && hour < 18 then 1
    else if hour >= 18 && hour < 24 then 2
    else 3
  }

  function DayOf(weekdayOf: int -> Weekday): TimeEntry -> Option<int>
  {
    (e: TimeEntry) => Some(weekdayOf(e.startTime) as int)
  }

  function SlotOf(hourOf: int -> Hour): TimeEntry -> Option<int>
  {
    (e: TimeEntry) => Some(Slot(hourOf(e.startTime)))
  }

  function Id(x: real): real
  {
    x
  }

  /** `hoursByDayOfWeek`: slot `d` holds the hours of the entries that started on
   * weekday `d`, and the seven slots hold all the hours. */
  method HoursByDayOfWeek(entries: seq<TimeEntry>, weekdayOf: int -> Weekday) returns (dayTotals: array<real>)
    ensures fresh(dayTotals) && dayTotals.Length == |Days|
    ensures forall d :: 0 <= d < 7 ==> dayTotals[d] == GroupSum(entries, DayOf(weekdayOf), Duration, d)
    ensures SumOf(dayTotals[..], Id) == TotalHours(entries)
  {
    dayTotals := new real[7](_ => 0.0);
    var i := 0;
    while i < |entries|
      invariant 0 <= i <= |entries|
      invariant forall d :: 0 <= d < 7 ==> dayTotals[d] == GroupSum(entries[..i], DayOf(weekdayOf), Duration, d)
    {
      var entry := entries[i];
      forall d | 0 <= d < 7 {
        GroupSumAdvance(entries, i, DayOf(weekdayOf), Duration, d);
      }
      var dayOfWeek := weekdayOf(entry.startTime);
      dayTotals[dayOfWeek] := dayTotals[dayOfWeek] + entry.duration;
      i := i + 1;
    }
    assert entries[..i] == entries;
    BucketTotals(dayTotals[..], entries, DayOf(weekdayOf));
  }

  /** `hoursByTimeOfDay`: slot `s` holds the hours of the entries whose start hour
   * falls into it, and the four slots hold all the hours. */
  method HoursByTimeOfDay(entries: seq<TimeEntry>, hourOf: int -> Hour) returns (timeSlots: array<real>)
    ensures fresh(timeSlots) && timeSlots.Length == |SlotLabels|
    ensures forall s :: 0 <= s < 4 ==> timeSlots[s] == GroupSum(entries, SlotOf(hourOf), Duration, s)
    ensures SumOf(timeSlots[..], Id) == TotalHours(entries)
  {
    timeSlots := new real[4](_ => 0.0);
    var i := 0;
    while i < |entries|
      invariant 0 <= i <= |entries|
      invariant forall s :: 0 <= s < 4 ==> timeSlots[s] == GroupSum(entries[..i], SlotOf(hourOf), Duration, s)
    {
      var entry := entries[i];
      forall s | 0 <= s < 4 {
        GroupSumAdvance(entries, i, SlotOf(hourOf), Duration, s);
      }
      var hour := hourOf(entry.startTime);
      if hour >= 6 && hour < 12 {
        timeSlots[0] := timeSlots[0] + entry.duration;
      } else if hour >= 12 && hour < 18 {
        timeSlots[1] := timeSlots[1] + entry.duration;
      } else if hour >= 18 && hour < 24 {
        timeSlots[2] := timeSlots[2] + entry.duration;
      } else {
        timeSlots[3] := timeSlots[3] + entry.duration;
      }
      i := i + 1;
    }
    assert entries[..i] == entries;
    SlotsInRange(hourOf);
    BucketTotals(timeSlots[..], entries, SlotOf(hourOf));
  }

  lemma SlotsInRange(hourOf: int -> Hour)
    ensures forall e :: SlotOf(hourOf)(e).Some? && 0 <= SlotOf(hourOf)(e).value < 4
  {
    forall e ensures SlotOf(hourOf)(e).Some? && 0 <= SlotOf(hourOf)(e).value < 4 {
      assert SlotOf(hourOf)(e) == Some(Slot(hourOf(e.startTime)));
    }
  }

  /** Buckets that hold every entry's group sum hold all the hours between them. */
  lemma BucketTotals(totals: seq<real>, entries: seq<TimeEntry>, key: TimeEntry -> Option<int>)
    requires forall e :: key(e).Some? && 0 <= key(e).value < |totals|
    requires forall d :: 0 <= d < |totals| ==> totals[d] == GroupSum(entries, key, Duration, d)
    ensures SumOf(totals, Id) == TotalHours(entries)
  {
    BucketsTotal(entries, key, Duration, |totals|);
    SumOfMatched(totals, Range(|totals|), Id, SumFor(entries, key, Duration));
  }

  /** `Math.min(100, Math.round(totalHours / entries.length * 10))` as written: with
   * no entries it is `0 / 0`, NaN (`None`), and the card reads "NaN%". */
  function ProductivityAsWritten(entries: seq<TimeEntry>): (r: Option<int>)
    ensures r.None? <==> entries == []
    ensures r.Some? ==> r.value <= 100
  {
    if |entries| == 0 then None
    else Some(Min(100, Round(TotalHours(entries) / |entries| as real * 10.0)))
  }

  lemma ProductivityAsWrittenNaN()
    ensures ProductivityAsWritten([]).None?
  {
  }

  /** The productivity score with the empty case set to 0, as the other cards of the
   * dashboard do: at most 100, at least 0 when no duration is negative, and the
   * written score whenever that is a number. */
  function Productivity(entries: seq<TimeEntry>): (r: int)
    ensures r <= 100
    ensures entries == [] ==> r == 0
    ensures (forall e :: e in entries ==> e.duration >= 0.0) ==> r >= 0
    ensures entries != [] ==> ProductivityAsWritten(entries) == Some(r)
  {
    if |entries| == 0 then 0
    else
      TotalHoursNonNegative(entries);
      Min(100, Round(TotalHours(entries) / |entries| as real * 10.0))
  }

  /** No negative duration, no negative total. */
  lemma {:induction false} TotalHoursNonNegative(entries: seq<TimeEntry>)
    ensures (forall e :: e in entries ==> e.duration >= 0.0) ==> TotalHours(entries) >= 0.0
  {
    if entries != [] && forall e :: e in entries ==> e.duration >= 0.0 {
      assert forall e :: e in entries[1..] ==> e in entries;
      TotalHoursNonNegative(entries[1..]);
    }
  }

  /** `Math.min(100, (slot.hours / totalHours) * 100)` as a CSS width; `None` where
   * JavaScript gives NaN or -Infinity, which CSS ignores. */
  function BarWidth(slotHours: real, totalHours: real): (r: Option<real>)
    ensures r.Some? ==> r.value <= 100.0
    ensures totalHours > 0.0 && 0.0 <= slotHours <= totalHours ==> r.Some? && 0.0 <= r.value <= 100.0
                                                                   && r.value * totalHours == slotHours * 100.0
    ensures totalHours == 0.0 ==> (r.Some? <==> slotHours > 0.0)
  {
    if totalHours == 0.0 then
      (if slotHours > 0.0 then Some(100.0) else None)
    else
      var w := slotHours / totalHours * 100.0;
      Some(if w < 100.0 then w else 100.0)
  }
}
