/*
 * WelcomeDashboard: the landing page of a signed-in user. It greets by the time of
 * day, counts the user's tasks (completed, and due within two days), lists the tasks
 * by priority and then by due date, filters them by a search term, and shows the
 * five latest time entries, filling in a missing duration from the start and end
 * times and shortening long descriptions.
 *
 * The local hour and the current instant are inputs; due dates and entry times are
 * milliseconds since the epoch, as `new Date(s).getTime()` gives them.
 */
module WelcomeDashboard {
  import opened Base
  import opened JsText
  import opened Sorting

  type Hour = h: int | 0 <= h < 24

  /** The greeting for the local hour `new Date().getHours()`. */
  function Greeting(hour: Hour): (r: string)
    ensures r == "Good morning" <==> hour < 12
    ensures r == "Good afternoon" <==> 12 <= hour < 18
    ensures r == "Good evening" <==> 18 <= hour
  {
    if hour < 12 then "Good morning"
    else if hour < 18 then "Good afternoon"
    else "Good evening"
  }

  datatype Priority = High | Medium | Low

  datatype Status = Pending | InProgress | Completed

  datatype Task = Task(
    id: string,
    title: string,
    description: string,
    dueDate: int,
    priority: Priority,
    status: Status,
    userId: string)

  predicate IsCompleted(t: Task)
  {
    t.status == Completed
  }

  predicate IsOpen(t: Task)
  {
    t.status != Completed
  }

  /** Two days in milliseconds. */
  const TwoDays: int := 86400000 * 2

  /** Due less than two days after `now`, overdue included, and not completed. */
  predicate IsUpcoming(now: int, t: Task)
  {
    t.dueDate - now < TwoDays && t.status != Completed
  }

  function DueSoon(now: int): Task -> bool
  {
    (t: Task) => IsUpcoming(now, t)
  }

  /** `completedTasks`. */
  function CompletedTasks(tasks: seq<Task>): (n: nat)
  {
    Count(tasks, IsCompleted)
  }

  /** `upcomingDeadlines`. */
  function UpcomingDeadlines(tasks: seq<Task>, now: int): (n: nat)
  {
    Count(tasks, DueSoon(now))
  }

  /** A task counts as an upcoming deadline exactly when it is open and due less than
   * two days from now, however long ago that was. */
  lemma UpcomingCounted(tasks: seq<Task>, now: int, t: Task)
    requires t in tasks
    ensures t in Filter(tasks, DueSoon(now)) <==> t.status != Completed && t.dueDate < now + TwoDays
  {
    var i :| 0 <= i < |tasks| && tasks[i] == t;
    assert DueSoon(now)(tasks[i]) == IsUpcoming(now, t);
  }

  /** The completed tasks and the upcoming deadlines are disjoint, so together they
   * are at most all the tasks. */
  lemma CountsBounded(tasks: seq<Task>, now: int)
    ensures CompletedTasks(tasks) + UpcomingDeadlines(tasks, now) <= |tasks|
  {
    CountSplit(tasks, IsCompleted, IsOpen);
    OpenCovers(tasks, now);
  }

  /** Every upcoming deadline is an open task. */
  lemma {:induction false} OpenCovers(tasks: seq<Task>, now: int)
    ensures UpcomingDeadlines(tasks, now) <= Count(tasks, IsOpen)
  {
    if tasks != [] {
      OpenCovers(tasks[1..], now);
      assert Filter(tasks, DueSoon(now)) == (if DueSoon(now)(tasks[0]) then [tasks[0]] else []) + Filter(tasks[1..], DueSoon(now));
      assert Filter(tasks, IsOpen) == (if IsOpen(tasks[0]) then [tasks[0]] else []) + Filter(tasks[1..], IsOpen);
    }
  }

  /** `priorityOrder`: high first. */
  function Rank(p: Priority): (r: nat)
    ensures r < 3
    ensures p == High <==> r == 0
    ensures p == Low <==> r == 2
  {
    match p
    case High => 0
    case Medium => 1
    case Low => 2
  }

  /** The comparator is negative: a higher priority, or the same priority and an
   * earlier due date. */
  predicate TaskBefore(a: Task, b: Task)
  {
    var priorityDiff := Rank(a.priority) - Rank(b.priority);
    if priorityDiff != 0 then priorityDiff < 0 else a.dueDate - b.dueDate < 0
  }

  lemma TaskBeforeStrict()
    ensures StrictOrder(TaskBefore)
  {
  }

  /** `sortedTasks`: a copy of the tasks sorted by the comparator. */
  function SortedTasks(tasks: seq<Task>): seq<Task>
  {
    SortBy(tasks, TaskBefore)
  }

  /** The sorted tasks are the same tasks, by priority and then by due date. */
  lemma SortedTasksOrdered(tasks: seq<Task>)
    ensures multiset(SortedTasks(tasks)) == multiset(tasks)
    ensures forall i, j :: 0 <= i < j < |SortedTasks(tasks)| ==>
              var a, b := SortedTasks(tasks)[i], SortedTasks(tasks)[j];
              Rank(a.priority) < Rank(b.priority) || (a.priority == b.priority && a.dueDate <= b.dueDate)
  {
    SortByPermutes(tasks, TaskBefore);
    TaskBeforeStrict();
    SortBySorted(tasks, TaskBefore);
  }

  /** The title or the description contains the term, ignoring case. */
  predicate MatchesTerm(term: string, t: Task)
  {
    Contains(Lower(t.title), Lower(term)) || Contains(Lower(t.description), Lower(term))
  }

  function Matching(term: string): Task -> bool
  {
    (t: Task) => MatchesTerm(term, t)
  }

  /** `filteredTasks`: the sorted tasks that match the term, in their order; an empty
   * term keeps them all. */
  function FilteredTasks(sortedTasks: seq<Task>, term: string): (r: seq<Task>)
    ensures IsSubsequence(r, sortedTasks)
    ensures forall t :: t in r <==> t in sortedTasks && MatchesTerm(term, t)
    ensures forall t :: multiset(r)[t] == if MatchesTerm(term, t) then multiset(sortedTasks)[t] else 0
    ensures term == "" ==> r == sortedTasks
  {
    FilterIsSubsequence(sortedTasks, Matching(term));
    FilterCounts(sortedTasks, Matching(term));
    if term == "" then
      assert Lower(term) == "";
      forall i | 0 <= i < |sortedTasks| ensures Matching(term)(sortedTasks[i]) {
        ContainsEmpty(Lower(sortedTasks[i].title));
      }
      FilterAll(sortedTasks, Matching(term));
      Filter(sortedTasks, Matching(term))
    else Filter(sortedTasks, Matching(term))
  }

  /** A stored time entry: the duration and the times may be missing. */
  datatype StoredEntry = StoredEntry(
    id: string,
    description: string,
    startTime: Option<int>,
    endTime: Option<int>,
    duration: Option<real>)

  /** One hour in milliseconds. */
  const HourMillis: int := 1000 * 60 * 60

  /** The duration an entry is shown with: its own, or else the hours between its
   * start and end, or else 0. */
  function FilledDuration(e: StoredEntry): (r: real)
    ensures e.duration.Some? ==> r == e.duration.value
    ensures e.duration.None? && e.startTime.Some? && e.endTime.Some? ==>
              r * HourMillis as real == (e.endTime.value - e.startTime.value) as real
    ensures e.duration.None? && (e.startTime.None? || e.endTime.None?) ==> r == 0.0
  {
    if e.duration.Some? then e.duration.value
    else if e.startTime.Some? && e.endTime.Some? then
      (e.endTime.value - e.startTime.value) as real / HourMillis as real
    else 0.0
  }

  /** The filled-in duration is never negative for an entry that ends after it
   * starts, and takes a stored duration unchanged. */
  lemma FilledDurationNonNegative(e: StoredEntry)
    requires e.duration.None? && e.startTime.Some? && e.endTime.Some? && e.startTime.value <= e.endTime.value
    ensures FilledDuration(e) >= 0.0
  {
  }

  /** `processedEntries`: every entry in order, with its duration filled in. */
  function ProcessedEntries(entries: seq<StoredEntry>): (r: seq<StoredEntry>)
    ensures |r| == |entries|
    ensures forall i :: 0 <= i < |r| ==> r[i] == entries[i].(duration := Some(FilledDuration(entries[i])))
  {
    seq(|entries|, i requires 0 <= i < |entries| => entries[i].(duration := Some(FilledDuration(entries[i]))))
  }

  /** Processing again changes nothing. */
  lemma ProcessedIdempotent(entries: seq<StoredEntry>)
    ensures ProcessedEntries(ProcessedEntries(entries)) == ProcessedEntries(entries)
  {
  }

  const DescriptionLimit: nat := 50

  /** A description longer than 50 characters is cut to its first 50 and "..." is
   * added; a shorter one is shown whole. */
  function ShownDescription(description: string): (r: string)
    ensures |description| <= DescriptionLimit ==> r == description
    ensures |description| > DescriptionLimit ==> |r| == DescriptionLimit + 3
                                                  && r[..DescriptionLimit] == description[..DescriptionLimit]
                                                  && r[DescriptionLimit..] == "..."
  {
    if |description| > DescriptionLimit then description[..DescriptionLimit] + "..." else description
  }

  /** The shown description is never longer than 53 characters and always starts
   * with the first 50 characters of the description. */
  lemma ShownDescriptionBounded(description: string)
    ensures |ShownDescription(description)| <= DescriptionLimit + 3
    ensures Prefix(description, DescriptionLimit) <= ShownDescription(description)
  {
  }
}
