/*
 * EntryList: the time-entry record shown by the dashboard pages, and the search,
 * column sort and total that the entries table of the dashboard and the detailed
 * entries view both compute in the same way.
 *
 * Timestamps are milliseconds since the epoch, as `new Date(s).getTime()` gives
 * them for the stored ISO strings; durations are hours. `localeCompare` is
 * approximated by the code-unit order of string `<`.
 */
module EntryList {
  import opened Base
  import opened JsText
  import opened Sorting

  datatype TimeEntry = TimeEntry(
    id: string,
    description: string,
    startTime: int,
    endTime: int,
    duration: real,
    userId: string,
    userEmail: Option<string>,
    project: Option<string>)

  function Duration(e: TimeEntry): real
  {
    e.duration
  }

  /** `term === '' || description.toLowerCase().includes(term.toLowerCase())
   * || (user_email && user_email.toLowerCase().includes(...))`. */
  predicate MatchesSearch(e: TimeEntry, term: string)
  {
    term == ""
    || Contains(Lower(e.description), Lower(term))
    || (Truthy(e.userEmail) && Contains(Lower(e.userEmail.value), Lower(term)))
  }

  function Matching(term: string): TimeEntry -> bool
  {
    e => MatchesSearch(e, term)
  }

  /** The entries the search keeps, in their order. */
  function Search(entries: seq<TimeEntry>, term: string): (r: seq<TimeEntry>)
    ensures IsSubsequence(r, entries)
    ensures forall e :: e in r <==> e in entries && MatchesSearch(e, term)
    ensures forall e :: multiset(r)[e] == if MatchesSearch(e, term) then multiset(entries)[e] else 0
    ensures term == "" ==> r == entries
  {
    FilterIsSubsequence(entries, Matching(term));
    FilterCounts(entries, Matching(term));
    if term == "" then
      FilterAll(entries, Matching(term));
      Filter(entries, Matching(term))
    else Filter(entries, Matching(term))
  }

  /** The sortable columns of the entries table. */
  datatype Column = StartTime | DurationColumn | UserEmail | Description | Project | EndTime

  datatype Direction = Asc | Desc

  /** The column comparator is negative: `a` comes before `b` in ascending order. A
   * missing email or project compares as ''. */
  predicate Ascending(column: Column, a: TimeEntry, b: TimeEntry)
  {
    match column
    case StartTime => a.startTime < b.startTime
    case DurationColumn => a.duration < b.duration
    case UserEmail => StringLess(GetOr(a.userEmail, ""), GetOr(b.userEmail, ""))
    case Description => StringLess(a.description, b.description)
    case Project => StringLess(GetOr(a.project, ""), GetOr(b.project, ""))
    case EndTime => a.endTime < b.endTime
  }

  /** `sortDirection === 'asc' ? comparison : -comparison` is negative. */
  function Before(column: Column, direction: Direction): (TimeEntry, TimeEntry) -> bool
  {
    if direction == Asc then (a, b) => Ascending(column, a, b)
    else (a, b) => Ascending(column, b, a)
  }

  lemma BeforeStrict(column: Column, direction: Direction)
    ensures StrictOrder(Before(column, direction))
  {
    StringLessStrict();
  }

  /** `[...entries].sort(comparator)`. */
  function SortEntries(entries: seq<TimeEntry>, column: Column, direction: Direction): seq<TimeEntry>
  {
    SortBy(entries, Before(column, direction))
  }

  /** The sorted list holds the same entries, and no entry is preceded by one that the
   * column order puts after it: ascending keys for 'asc', descending keys for 'desc'. */
  lemma SortEntriesOrdered(entries: seq<TimeEntry>, column: Column, direction: Direction)
    ensures multiset(SortEntries(entries, column, direction)) == multiset(entries)
    ensures var r := SortEntries(entries, column, direction);
            forall i, j :: 0 <= i < j < |r| ==>
              if direction == Asc then !Ascending(column, r[j], r[i]) else !Ascending(column, r[i], r[j])
  {
    SortByPermutes(entries, Before(column, direction));
    BeforeStrict(column, direction);
    SortBySorted(entries, Before(column, direction));
  }

  /** `entries.reduce((sum, entry) => sum + entry.duration, 0)`. */
  function TotalHours(entries: seq<TimeEntry>): real
  {
    SumOf(entries, Duration)
  }

  /** Sorting does not change the total. */
  lemma TotalHoursSorted(entries: seq<TimeEntry>, column: Column, direction: Direction)
    ensures TotalHours(SortEntries(entries, column, direction)) == TotalHours(entries)
  {
    SortByPermutes(entries, Before(column, direction));
    SumOfPermutation(SortEntries(entries, column, direction), entries, Duration);
  }
}
