/*
 * DetailedEntriesView: the full-page list of time entries. It searches and sorts
 * like the dashboard table (`EntryList`) over three of its columns, summarises the
 * whole list and shows its first ten rows. Its column type admits only the start
 * time, the duration and the description.
 */
module DetailedEntriesView {
  import opened Base
  import opened Sorting
  import opened EntryList

  /** `handleSort(field)` as a transition of `(sortField, sortDirection)`: the current
   * column flips direction, a new column starts descending. */
  function NextSort(field: Column, direction: Direction, clicked: Column): (r: (Column, Direction))
    ensures r.0 == clicked
    ensures clicked == field ==> r.1 != direction
    ensures clicked != field ==> r.1 == Desc
  {
    if clicked == field then (field, if direction == Asc then Desc else Asc)
    else (clicked, Desc)
  }

  /** Clicking the same column twice restores the sort. */
  lemma NextSortTwice(field: Column, direction: Direction)
    ensures var r := NextSort(field, direction, field);
            NextSort(r.0, r.1, field) == (field, direction)
  {
  }

  /** `b.duration - a.duration` is negative: longer entries first. */
  predicate LongerFirst(a: TimeEntry, b: TimeEntry)
  {
    a.duration > b.duration
  }

  datatype Stats = Stats(totalEntries: nat, totalDuration: real, avgDuration: real,
                         longest: Option<TimeEntry>, shortest: Option<TimeEntry>)

  /** `stats`: count, total, mean, and the first and last entry of the list sorted by
   * decreasing duration. */
  function EntryStats(entries: seq<TimeEntry>): (r: Stats)
    ensures r.totalEntries == |entries| && r.totalDuration == TotalHours(entries)
    ensures r.avgDuration == if |entries| > 0 then TotalHours(entries) / |entries| as real else 0.0
    ensures r.longest.None? <==> entries == []
    ensures r.shortest.None? <==> entries == []
    ensures r.longest.Some? ==> r.longest.value in entries && forall e :: e in entries ==> e.duration <= r.longest.value.duration
    ensures r.shortest.Some? ==> r.shortest.value in entries && forall e :: e in entries ==> r.shortest.value.duration <= e.duration
  {
    var total := TotalHours(entries);
    var byDuration := SortBy(entries, LongerFirst);
    ByDurationBounds(entries);
    Stats(|entries|, total, if |entries| > 0 then total / |entries| as real else 0.0,
          if |byDuration| > 0 then Some(byDuration[0]) else None,
          if |byDuration| > 0 then Some(byDuration[|byDuration| - 1]) else None)
  }

  /** The first entry sorted by decreasing duration has the largest duration, and the
   * last the smallest. */
  lemma ByDurationBounds(entries: seq<TimeEntry>)
    ensures var r := SortBy(entries, LongerFirst);
            forall e :: e in entries ==> e in r && r[0].duration >= e.duration && e.duration >= r[|r| - 1].duration
    ensures forall e :: e in SortBy(entries, LongerFirst) ==> e in entries
  {
    var r := SortBy(entries, LongerFirst);
    SortByPermutes(entries, LongerFirst);
    SortBySorted(entries, LongerFirst);
    forall e | e in entries ensures e in r && r[0].duration >= e.duration && e.duration >= r[|r| - 1].duration {
      assert e in multiset(r);
      var j :| 0 <= j < |r| && r[j] == e;
    }
    forall e | e in r ensures e in entries {
      assert e in multiset(entries);
    }
  }

  const ShownRows: nat := 10

  /** `sortedEntries.slice(0, 10)`. */
  function Shown(sorted: seq<TimeEntry>): (r: seq<TimeEntry>)
    ensures |r| <= ShownRows && |r| <= |sorted| && r == sorted[..|r|]
  {
    sorted[..Min(ShownRows, |sorted|)]
  }

  /** The "View All" link under the table. */
  predicate ViewAll(sorted: seq<TimeEntry>)
  {
    |sorted| > ShownRows
  }

  /** The link appears exactly when some entry is not shown. */
  lemma ViewAllIff(sorted: seq<TimeEntry>)
    ensures ViewAll(sorted) <==> Shown(sorted) != sorted
  {
  }
}
