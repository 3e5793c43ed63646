# A verified model of the time-tracking dashboard's rules

The system is a React and Supabase web application for tracking working time.
- Users start and stop timers or add time entries by hand.
- A keyword classifier proposes a project for a description, and a sentence-scoring routine summarises long descriptions.
- Dashboard pages total the entries per user, day, weekday and time of day; sort, search and page them; and show small statistics.
- Three server functions relabel entries in bulk, assign tasks to the least-loaded user and send task notifications.

This project restates the deterministic rules of that code in Dafny and proves what the code promises about them. There is one module per source file. The model table below lists the members whose contracts state what the code does; the definitions those contracts are written in, which carry no contract of their own, have a table of their own after it.

Shared modules:
- `Base` holds options, rounding and sequence helpers.
- `JsText` holds JavaScript string operations on ASCII.
- `Sorting` is the stable `Array.prototype.sort`.
- `JsObject` is the key order of `Object.entries`.
- `Grouping` holds reference definitions for the loops that build dictionaries.
- `EntryList` holds the entry record and the search and column sort. The dashboard table and the detailed entries view share these; the entries view's search and comparator, `src/components/DetailedEntriesView.tsx:25-49`, use three of the dashboard's columns.

The source code is rendered in Dafny's terms as follows.
- **Pure expressions** become functions with named results:
  - the classifier;
  - the summariser's segmenting, scoring and selection;
  - the comparators;
  - the filters;
  - the payloads.
- **Loops that update local state** become methods with loop invariants. Each is proved against a reference function and lemmas about that function:
  - the dictionary-building `forEach` loops;
  - the bucket arrays of the hours page;
  - the search for the least-loaded user;
  - the search for the most frequent task.
- **State changed by handlers** becomes a class whose methods state the whole new state:
  - local storage of the tracking session;
  - session storage of the entry cache;
  - a page's selection, sort, tags and budgets;
  - the tracker's running entry.

The parts of the program the model does not contain become inputs:
- database answers;
- the clock;
- local date and hour functions;
- `Number(...)` parsing;
- the window width.

Each database answer is a parameter, such as the rows returned (`None` when the query fails) or whether an update succeeded. Timestamps are integer milliseconds and durations are real hours.

## Model

| member | source | states |
|---|---|---|
| ProjectSuggestions.MatchFoldedAtLower | src/lib/projectSuggestions.ts:5-14 | comparing a keyword with the text case-insensitively is comparing it with the lower-cased text |
| ProjectSuggestions.WordFromIff | src/lib/projectSuggestions.ts:5-14 | the scan from position p finds `\bw\b` exactly when the word matches at some position q >= p |
| ProjectSuggestions.AnyWordFromIff | src/lib/projectSuggestions.ts:5-14 | an alternation of whole words matches exactly when some alternative matches at some position |
| ProjectSuggestions.WordAtIff | src/lib/projectSuggestions.ts:5-14 | a word matches at p exactly when it fits, the lower-cased text there equals it, and both ends are word boundaries |
| ProjectSuggestions.RuleMatchesIff | src/lib/projectSuggestions.ts:26 | `pattern.test` is true exactly when the regex semantics of the rule hold: some alternative at some position between two word boundaries |
| ProjectSuggestions.FirstMatch | src/lib/projectSuggestions.ts:25-31 | a result is the label of a matching rule no earlier rule matches; no result exactly when no rule from i on matches |
| ProjectSuggestions.Suggest | src/lib/projectSuggestions.ts:22-32 | an empty description gives null; otherwise the label of the first matching rule; null exactly when the description is empty or no rule matches |
| ProjectSuggestions.AvailableProjects | src/lib/projectSuggestions.ts:38-40 | the ten labels of the table, in table order |
| ProjectSuggestions.AvailableProjectsDistinct | src/lib/projectSuggestions.ts:4-15 | the ten labels are pairwise distinct |
| ProjectSuggestions.SuggestIsValid | src/lib/projectSuggestions.ts:47-49 | every non-null suggestion passes `isValidProject` |
| ProjectSuggestions.NoRuleMatch | src/lib/projectSuggestions.ts:26 | a rule none of whose alternatives occurs at any position does not match |
| ProjectSuggestions.NoBigram | src/lib/projectSuggestions.ts:5-14 | in text without capitals a keyword whose first two characters never occur side by side does not match |
| ProjectSuggestionExamples.WebsiteMatches | src/lib/projectSuggestions.ts:5 | "Website" matches the first rule despite the capital |
| ProjectSuggestionExamples.FixingIsNotAFix | src/lib/projectSuggestions.ts:14 | "fixing" does not match the Bug Fixes rule: whole words only |
| ProjectSuggestionExamples.ApisIsNotAnApi | src/lib/projectSuggestions.ts:8 | "apis" does not match the Backend rule |
| ProjectSuggestionExamples.DbmsIsNotADb | src/lib/projectSuggestions.ts:7 | "dbms" does not match the Database rule |
| ProjectSuggestionExamples.FourthRuleFirst | src/lib/projectSuggestions.ts:25-29 | a description the first three rules miss and the fourth matches is classified as Backend |
| ProjectSuggestionExamples.BackendBeatsBugFixes | src/lib/projectSuggestions.ts:25-29 | "bug in the backend api" matches both the Backend and the Bug Fixes rule, and the earlier Backend rule wins |
| UpdateProjectField.ServerTableIsClientTable | supabase/functions/update-project-field/index.ts:63-74 | the server's rule table equals the client's, rule by rule and in order |
| UpdateProjectField.ClassifyEntry | supabase/functions/update-project-field/index.ts:88-96 | the loop with `break` yields the label of the first matching rule, or null |
| UpdateProjectField.Kept | supabase/functions/update-project-field/index.ts:102 | every kept entry has a label |
| UpdateProjectField.Updates | supabase/functions/update-project-field/index.ts:87-102 | one update per kept entry, never more than the fetched entries |
| UpdateProjectField.UpdatesBySnoc | supabase/functions/update-project-field/index.ts:87-102 | one more entry appends its update, if it has a label, and changes no earlier update |
| UpdateProjectField.ComputeUpdates | supabase/functions/update-project-field/index.ts:87-102 | the loop over the entries computes exactly the mapped and filtered updates |
| UpdateProjectField.UpdatesByKept | supabase/functions/update-project-field/index.ts:98-102 | the updates carry the kept entries' ids, in order, each with its label |
| UpdateProjectField.UpdatesAreFirstMatches | supabase/functions/update-project-field/index.ts:87-102 | every update belongs to a fetched entry, keeps input order and carries a non-null first-match label |
| UpdateProjectField.KeptByIff | supabase/functions/update-project-field/index.ts:102 | an entry is kept exactly when its label is not null |
| UpdateProjectField.KeptIff | supabase/functions/update-project-field/index.ts:87-102 | an entry is dropped exactly when no rule matches its description |
| UpdateProjectField.Handle | supabase/functions/update-project-field/index.ts:33-124 | 401 without a user and 403 for a non-admin, both before any read or write; 500 on a failed fetch or upsert; otherwise 200 reporting `updates.length` after upserting exactly the updates |
| Summarizer.RunLength | src/lib/ai.ts:28 | the length of the maximal run of terminators (or of non-terminators) at the start of the text |
| Summarizer.Sentences | src/lib/ai.ts:28 | every match of `[^.!?]+[.!?]+` is a maximal run of non-terminators followed by a maximal run of terminators |
| Summarizer.SentencesSkipTerminators | src/lib/ai.ts:28 | leading terminators are skipped |
| Summarizer.SentencesNoTerminator | src/lib/ai.ts:28 | a text without terminators has no sentence: the unterminated tail is dropped |
| Summarizer.SentencesCons | src/lib/ai.ts:28 | a sentence not followed by a terminator is the first match and matching resumes after it |
| Summarizer.SentencesOfConcat | src/lib/ai.ts:28 | cutting the concatenation of sentences gives back those sentences |
| Summarizer.HitsIsCount | src/lib/ai.ts:42-46 | the keyword bonus counts each keyword the lower-cased sentence contains once |
| Summarizer.KeywordHits | src/lib/ai.ts:35-46 | at most seven keywords are counted |
| Summarizer.Score | src/lib/ai.ts:36-49 | the score lies between length/20 and length/20 + 14 |
| Summarizer.ScoreCounts | src/lib/ai.ts:36-49 | twenty times the score is the length plus 40 per distinct keyword contained |
| Summarizer.ScoreByLowerCase | src/lib/ai.ts:39-46 | sentences of equal length and equal lower-cased text score the same |
| Summarizer.ScoreSentence | src/lib/ai.ts:36-49 | the scoring callback with its `forEach` loop computes the score |
| Summarizer.MaintainEarnsMain | src/lib/ai.ts:43 | the keyword test is a substring test: "maintain" earns the bonus for "main" |
| Summarizer.KeyboardEarnsKey | src/lib/ai.ts:43 | "Keyboard" earns the bonus for "key" |
| Summarizer.ScoreAll | src/lib/ai.ts:36-49 | one scored entry per sentence, in order, holding its position |
| Summarizer.ByScoreDescStrict | src/lib/ai.ts:53 | the comparator by descending score is a strict weak order |
| Summarizer.SelectCount | src/lib/ai.ts:54 | `min(3, ceil(n/3))` is at most 3 and at most n, and at least 1 when there is a sentence |
| Summarizer.Ranked | src/lib/ai.ts:52-53 | the ranking is a permutation of the scored sentences |
| Summarizer.Selected | src/lib/ai.ts:52-55 | exactly `min(3, ceil(n/3))` sentences are selected |
| Summarizer.RankingSplit | src/lib/ai.ts:53-54 | in a sorted ranking the first k score at least as high as the rest |
| Summarizer.SelectedScoreHighest | src/lib/ai.ts:52-55 | every selected sentence scores at least as high as every sentence left out, and together they are all the sentences |
| Summarizer.IndexOf | src/lib/ai.ts:59 | `indexOf` gives the first position holding the text, or -1 exactly when it is absent |
| Summarizer.Texts | src/lib/ai.ts:55 | the texts of the scored entries, in order |
| Summarizer.Reordered | src/lib/ai.ts:58-60 | the corrected reordering is a permutation of the selection |
| Summarizer.ReorderedAsWritten | src/lib/ai.ts:58-60 | the reordering by `indexOf` is a permutation of the selection |
| Summarizer.ReorderedInTextOrder | src/lib/ai.ts:57-60 | the corrected reordering lists the selected sentences in text order |
| Summarizer.InSelection | src/lib/ai.ts:36-55 | a selected entry is the scored sentence at its own position, score included |
| Summarizer.SelectionOfPermutation | src/lib/ai.ts:52-60 | any arrangement of the selection has `min(3, ceil(n/3))` entries, each the scored sentence at its position, no position twice, none scoring below an unpicked sentence |
| Summarizer.SelectionDistinct | src/lib/ai.ts:36-55 | no position is selected twice |
| Summarizer.SelectionHighest | src/lib/ai.ts:52-55 | every pick scores at least as high as every sentence not picked |
| Summarizer.RankOfUnpicked | src/lib/ai.ts:52-55 | a sentence not picked stands in the ranking after the first `min(3, ceil(n/3))` |
| Summarizer.TextOrderUnique | src/lib/ai.ts:57-60 | two arrangements of the same entries, both in text order, are equal |
| Summarizer.ReorderedSelection | src/lib/ai.ts:52-60 | the corrected reordering is a selection in text order, and the only one |
| Summarizer.ReorderedAsWrittenSelection | src/lib/ai.ts:52-60 | the reordering as written is a selection ordered by the first occurrence of each text |
| Summarizer.Simulate | src/lib/ai.ts:26-63 | corrected: at most two sentences give the text back; otherwise the summary is the selection in text order joined by single spaces, and every selection in text order gives this same summary |
| Summarizer.SimulateAsWritten | src/lib/ai.ts:26-63 | as written: at most two sentences give the text back; otherwise the summary joins by single spaces a selection ordered by the first occurrence of each text |
| Summarizer.SummarizeText | src/lib/ai.ts:10-18 | an empty text or one whose trimmed length is below 50 comes back unchanged; otherwise the summary as written |
| Summarizer.SummarizeTextCorrected | src/lib/ai.ts:10-18 | the same gate in front of the corrected summary |
| Summarizer.SummarizeWithoutTerminator | src/lib/ai.ts:28-32 | a text without `.`, `!` or `?` comes back unchanged however long it is |
| Summarizer.SelectedEntry | src/lib/ai.ts:52-55 | each selected entry is the sentence at its recorded position |
| Summarizer.ByFirstOccurrenceStrict | src/lib/ai.ts:58-60 | the comparator by first occurrence is a strict weak order |
| SummarizerRegrouping.AsWrittenNotInTextOrder | src/lib/ai.ts:58-60 | when two selected copies of one text enclose another selected sentence, the reordering by `indexOf` puts an entry before one that precedes it in the text |
| SummarizerRegrouping.RankingOfTies | src/lib/ai.ts:52-53 | sentences differing only in letter case tie, and the stable sort keeps them in text order |
| SummarizerRegrouping.ExampleSelection | src/lib/ai.ts:52-55 | of `x y x z z z z` with equal scores the first three are selected |
| SummarizerRegrouping.ExampleCut | src/lib/ai.ts:28 | the example text is cut into its seven sentences and the first three are selected |
| SummarizerRegrouping.RegroupedOrders | src/lib/ai.ts:58-60 | the selection `x y x` is reordered to `x x y` as written and kept as `x y x` by the corrected order |
| SummarizerRegrouping.RegroupedOutputs | src/lib/ai.ts:58-62 | the summary as written is `x x y`, the corrected one `x y x` |
| SummarizerRegrouping.ExampleRegrouped | src/lib/ai.ts:26-63 | on " Go home. GO HOME. Go home. go home. go home. go home. go home." the summary as written prints both copies of "Go home." before "GO HOME." |
| TimeTracking.Decompose | src/lib/timeTracking.ts:134-136 | for s >= 0 the minutes and seconds lie in 0..59; for negative s the JavaScript `%` gives non-positive minutes and seconds |
| TimeTracking.DecomposeSum | src/lib/timeTracking.ts:134-136 | for s >= 0, hours·3600 + minutes·60 + seconds = s |
| TimeTracking.Field | src/lib/timeTracking.ts:139-141 | a padded field has at least two digits, exactly two below 100, and only digits |
| TimeTracking.FieldValue | src/lib/timeTracking.ts:139-141 | a field's digits read back to its value |
| TimeTracking.SplitThree | src/lib/timeTracking.ts:138-142 | three groups without ':' joined by ':' split back into the three groups |
| TimeTracking.ParseJoined | src/lib/timeTracking.ts:138-142 | three digit groups joined by ':' read back as their values |
| TimeTracking.FormatHmsParses | src/lib/timeTracking.ts:138-142 | non-negative fields, formatted, read back unchanged |
| TimeTracking.FormatDurationRoundTrip | src/lib/timeTracking.ts:133-143 | `formatDuration(s)` reads back as hours, minutes and seconds that add up to s |
| TimeTracking.FormatHmsShape | src/lib/timeTracking.ts:138-142 | fields below 100 give eight characters with colons at 2 and 5 |
| TimeTracking.FormatDurationShape | src/lib/timeTracking.ts:133-143 | below 100 hours the text is exactly `HH:MM:SS` |
| TimeTracking.FormatDurationZero | src/lib/timeTracking.ts:133-143 | 0 is shown as "00:00:00" |
| TimeTracking.SessionStore.constructor | src/lib/timeTracking.ts:20 | the storage slot starts empty |
| TimeTracking.SessionStore.Current | src/lib/timeTracking.ts:25-36 | the stored session if it parses; a fresh idle session when the slot is empty, falsy or unparsable |
| TimeTracking.SessionStore.Save | src/lib/timeTracking.ts:41-43 | the slot holds the session and reads back as it |
| TimeTracking.SessionStore.Clear | src/lib/timeTracking.ts:48-50 | the slot is emptied and reads back as the idle session |
| TimeTracking.SessionStore.StartTracking | src/lib/timeTracking.ts:55-72 | a blank (trimmed) description leaves storage alone and returns the current session; otherwise a tracking session with the untrimmed description, the project and the start time is stored and returned |
| TimeTracking.SessionStore.StopTracking | src/lib/timeTracking.ts:77-105 | not tracking: false and storage unchanged; otherwise the session's row is inserted; success clears the session and returns true, failure keeps it and returns false |
| TimeTracking.SessionStore.ElapsedTime | src/lib/timeTracking.ts:117-128 | 0 when idle; otherwise the whole seconds since the start, floored |
| TimeTracking.SessionStore.TrackingDetails | src/lib/timeTracking.ts:148-160 | idle: empty description and "00:00:00"; tracking: the session's description and project, and a duration that reads back as the elapsed seconds |
| TimeTracking.IdleDurationIsZero | src/lib/timeTracking.ts:151-153 | the idle duration text is what `formatDuration(0)` gives |
| TimeTracking.StartThenRead | src/lib/timeTracking.ts:55-72 | a started session reads back as tracking with the description as typed |
| TimeTracker.FormatElapsedTimeIsFormatDuration | src/components/TimeTracker.tsx:184-190 | the component's `formatElapsedTime` gives the same text as the library's `formatDuration` for every input |
| TimeTracker.TrimOrNull | src/components/TimeTracker.tsx:204 | null exactly for a blank description, else the trimmed text |
| TimeTracker.Tracker.constructor | src/components/TimeTracker.tsx:45-50 | the initial state: no project, empty description, not tracking, no running entry, zero elapsed, not loading |
| TimeTracker.Tracker.Display | src/components/TimeTracker.tsx:412 | the timer shows `formatDuration` of the elapsed seconds |
| TimeTracker.Tracker.HandleStartTracking | src/components/TimeTracker.tsx:192-244 | without a user nothing happens; otherwise the row with the selected project, the trimmed-or-null description and the start time is inserted; a returned row becomes the running entry with zero elapsed; a failure changes no tracking state |
| TimeTracker.Tracker.HandleStopTracking | src/components/TimeTracker.tsx:246-273 | without a running entry id nothing happens; otherwise the end time is written; success stops tracking and clears the entry, failure keeps both |
| TimeTracker.Tracker.HandleDiscardTracking | src/components/TimeTracker.tsx:275-300 | without a running entry id nothing happens; otherwise the entry is deleted; success stops tracking and clears the entry, failure keeps both |
| TimeTracker.Tracker.CheckActiveTimeEntry | src/components/TimeTracker.tsx:112-172 | a found open entry becomes the running entry with its project, its description or '', and the floored seconds since its start; otherwise nothing changes |
| TimeTracker.Tracker.Tick | src/components/TimeTracker.tsx:174-182 | each second of the timer adds one to the elapsed time while tracking, and nothing else changes |
| TimeTracker.ClockMinutes | src/components/TimeTracker.tsx:516-533 | a time-input value is less than 24·60 minutes after midnight |
| TimeTracker.ClockTime | src/components/TimeTracker.tsx:330-331 | `new Date(date + 'T' + time + ':00')` is valid exactly for a valid date and time, and is the day plus the minutes since midnight |
| TimeTracker.ClockOrder | src/components/TimeTracker.tsx:538 | on time-input values, comparing the strings orders them as times |
| TimeTracker.EndNotAfterStartAgrees | src/components/TimeTracker.tsx:538-576 | the error flag and the disabled Save button (`manualEndTime <= manualStartTime`) agree with the handler's check of the two times on one date |
| TimeTracker.ManualSaveInserts | src/components/TimeTracker.tsx:315-360 | an insert happens exactly when the user is logged in, the description is not blank, both times are valid and the end is later; it stores the trimmed description |
| TimeTracker.ManualSaveBlankFirst | src/components/TimeTracker.tsx:321-324 | a blank description is reported before the times are looked at |
| TimeTracker.ManualDurationAsWrittenNaN | src/components/TimeTracker.tsx:550-563 | a cleared time field makes the preview as written show "NaNh NaNm"; the corrected preview shows "0h 0m" |
| TimeTracker.HoursMinutesOfMinutes | src/components/TimeTracker.tsx:556-560 | a difference of d whole minutes is shown as d div 60 hours and d mod 60 minutes |
| TimeTracker.ManualDurationShows | src/components/TimeTracker.tsx:550-563 | the corrected preview shows "0h 0m" unless the end is later, and otherwise the difference in hours and minutes |
| TaskAssignment.LeastLoaded | supabase/functions/task-assignment/index.ts:279-296 | the loop skips the creator and picks the user with the lowest `active_tasks_count·5 + total_hours`, the earliest of equal minima; none exactly when no candidate scores below `Number.MAX_VALUE` |
| TaskAssignment.LeastLoadedUnique | supabase/functions/task-assignment/index.ts:289-296 | the strict `<` makes the pick unique |
| TaskAssignment.AssignTask | supabase/functions/task-assignment/index.ts:138-228 | 200 exactly when a task row exists, the caller is an administrator or its creator, and the update succeeds; then the assignee is set and notified; otherwise nothing is assigned or sent |
| TaskAssignment.AutoAssign | supabase/functions/task-assignment/index.ts:231-357 | 404 without a task row, 403 for a caller neither administrator nor creator, 500 when the workload fails, 400 without an eligible user; on success the least-loaded non-creator is assigned and notified |
| TaskAssignment.GetWorkload | supabase/functions/task-assignment/index.ts:360-428 | 403 for a non-administrator; 200 exactly for an administrator when both queries succeed |
| TaskAssignment.Handle | supabase/functions/task-assignment/index.ts:31-134 | OPTIONS gives 'ok'; no user 401; a missing action 400; `assign_task` needs taskId and assigneeId, `auto_assign` needs taskId; an unknown action 400; `auto_assign` gives 404 without the task, 403 to a caller who is neither admin nor creator, 500 when the workload cannot be read, 400 without an eligible user, and 200 exactly when besides all this the update succeeds, then assigning a least-loaded user other than the creator and notifying them about that task; only a 200 assigns or notifies |
| TaskAssignment.AssignForbidden | supabase/functions/task-assignment/index.ts:164-172 | a caller who is neither administrator nor creator gets 403 |
| TaskNotifications.Recipients | supabase/functions/task-notifications/index.ts:137-152 | a given user alone; otherwise the creator if set, then the assignee if set and not the creator: at most two, no duplicates, none empty |
| TaskNotifications.Message | supabase/functions/task-notifications/index.ts:155 | the custom message, or `Task "<title>" has been updated.` |
| TaskNotifications.NotificationsFor | supabase/functions/task-notifications/index.ts:158-167 | one unread notification per recipient, for that task, with the message |
| TaskNotifications.UnreadCount | supabase/functions/task-notifications/index.ts:255 | the unread count is at most the number fetched |
| TaskNotifications.UnreadCountComplement | supabase/functions/task-notifications/index.ts:255 | unread and read notifications add up to all fetched |
| TaskNotifications.Handle | supabase/functions/task-notifications/index.ts:32-124 | OPTIONS 200, no user 401, a missing action or taskId 400, no task 404, an unknown action 400; creating sends one unread notification to the given user, or else the caller, with the message; mark-as-read and listing report 500 on a failure and the unread count |
| EntryList.Search | src/pages/Dashboard.tsx:544-550 | the kept entries are an order-preserving sublist holding exactly the entries whose description or email contains the term, ignoring case, each as often as in the input; an empty term keeps everything |
| EntryList.BeforeStrict | src/pages/Dashboard.tsx:553-573 | every column comparator, negated or not, is a strict weak order, so the sort is well defined |
| EntryList.SortEntriesOrdered | src/pages/Dashboard.tsx:553-573 | the sorted list is a permutation of its input, in ascending column order for 'asc' and descending for 'desc'; a missing email or project compares as '' |
| EntryList.TotalHoursSorted | src/pages/Dashboard.tsx:528-530 | sorting does not change the total of the durations |
| Dashboard.Page | src/pages/Dashboard.tsx:576-579 | a page holds at most ten entries, the ones from position (page−1)·10 on, in order |
| Dashboard.PagesCover | src/pages/Dashboard.tsx:576-582 | every entry is on one of the pages 1..`Math.ceil(n/10)`, at its position modulo ten |
| Dashboard.PagesBeyondEmpty | src/pages/Dashboard.tsx:576-582 | pages after `totalPages` are empty |
| Dashboard.Ids | src/pages/Dashboard.tsx:598 | the ids of the page's entries, in order |
| Dashboard.TableState.constructor | src/pages/Dashboard.tsx:99-101 | nothing selected, sorted by start time, descending |
| Dashboard.TableState.ToggleEntrySelection | src/pages/Dashboard.tsx:585-591 | a selected id is removed and another appended; no other id changes; a duplicate-free selection stays so |
| Dashboard.TableState.ToggleSelectAll | src/pages/Dashboard.tsx:594-600 | a selection as long as the page is cleared; otherwise it becomes the page's ids |
| Dashboard.TableState.HandleSort | src/pages/Dashboard.tsx:603-610 | the current column flips direction; another column is sorted ascending; the selection is unchanged |
| Dashboard.Flip | src/pages/Dashboard.tsx:605 | flipping always changes the direction |
| Dashboard.SortTwice | src/pages/Dashboard.tsx:603-610 | clicking the current column twice restores its direction |
| Dashboard.ToInt32 | src/pages/Dashboard.tsx:702 | `<<` works on the 32-bit signed value congruent to its operand |
| Dashboard.ProjectColor | src/pages/Dashboard.tsx:697-717 | grey for no project; otherwise always one of the eight palette colours |
| Dashboard.ProjectColorGrayIff | src/pages/Dashboard.tsx:697-717 | the grey chip shows exactly for entries without a project |
| Dashboard.AddEntry | src/pages/Dashboard.tsx:283-323 | "fill in all fields" exactly when a field is empty; an added row has the description and an end after its start |
| Dashboard.AddEntryInserts | src/pages/Dashboard.tsx:283-323 | an entry is added exactly when every field is filled, both dates are valid, the end is after the start and the insert succeeds |
| DetailedEntriesView.NextSort | src/components/DetailedEntriesView.tsx:91-98 | the clicked column becomes the sort column; the same column flips direction, a new one starts descending |
| DetailedEntriesView.NextSortTwice | src/components/DetailedEntriesView.tsx:91-98 | clicking the same column twice restores the sort |
| DetailedEntriesView.EntryStats | src/components/DetailedEntriesView.tsx:53-70 | count and total of all entries, mean total/count or 0 when empty; longest and shortest are null exactly for no entries, and otherwise entries of maximal and minimal duration |
| DetailedEntriesView.ByDurationBounds | src/components/DetailedEntriesView.tsx:59-61 | sorted by decreasing duration the first entry is a longest and the last a shortest, and the sort keeps the same entries |
| DetailedEntriesView.Shown | src/components/DetailedEntriesView.tsx:210 | at most ten rows are shown, the first ones of the sorted list |
| DetailedEntriesView.ViewAllIff | src/components/DetailedEntriesView.tsx:232 | "View All" appears exactly when some entry is not shown |
| UserSummary.ExpectedStep | src/components/UserSummary.tsx:29-51 | one more entry leaves other users' summaries alone, creates its user's summary on the first entry, and adds to it otherwise |
| UserSummary.BuiltAdvance | src/components/UserSummary.tsx:29-51 | one iteration of the loop is one `Record` step |
| UserSummary.BuiltExpected | src/components/UserSummary.tsx:29-51 | the dictionary holds one summary per user with an emailed entry: the first entry's email, the sum and number of the user's durations and the latest start time |
| UserSummary.UserSummaries | src/components/UserSummary.tsx:20-54 | one summary per distinct user id with an email, each the expected one, sorted by hours descending; the hours add up to the emailed entries' total and the counts to their number |
| UserSummary.BuildSummaries | src/components/UserSummary.tsx:29-51 | the loop builds the dictionary, with its keys in order of creation |
| UserSummary.Tally | src/components/UserSummary.tsx:30-50 | the callback skips an entry without an email, creates its user's summary on the first entry, then adds the entry to it |
| UserSummary.ListedSummaries | src/components/UserSummary.tsx:53 | the sorted values hold one summary per user, by hours descending, with conserved hours and counts |
| UserSummary.ListedMembers | src/components/UserSummary.tsx:53 | a permutation of the values holds exactly one summary per user |
| UserSummary.ListedTotals | src/components/UserSummary.tsx:53 | a permutation of the values keeps the total hours and the total count |
| UserSummary.EmailedIncluded | src/components/UserSummary.tsx:30 | an entry counts exactly when it has an email |
| DetailedUsersView.FindUser | src/components/DetailedUsersView.tsx:36 | `users.find` gives the first user with the id, or nothing exactly when none has it |
| DetailedUsersView.EmailFor | src/components/DetailedUsersView.tsx:39 | the user's email if found and non-empty, else the entry's email if non-empty, else 'Unknown'; never empty |
| DetailedUsersView.Final | src/components/DetailedUsersView.tsx:34-59 | every listed user has at least one entry |
| DetailedUsersView.WithMean | src/components/DetailedUsersView.tsx:58 | the mean times the count is the total, and nothing else changes |
| DetailedUsersView.BuiltAdvance | src/components/DetailedUsersView.tsx:34-54 | one iteration of the first loop is one `Record` step |
| DetailedUsersView.TalliedStep | src/components/DetailedUsersView.tsx:34-54 | one more entry leaves other users alone, creates its user's statistics on the first entry and adds to them otherwise |
| DetailedUsersView.BuiltTallied | src/components/DetailedUsersView.tsx:34-54 | after the first loop the dictionary holds one row per user id with the sum, count and latest start of that user's entries |
| DetailedUsersView.Tally | src/components/DetailedUsersView.tsx:35-53 | the callback creates the user's statistics on the first entry, then adds the entry |
| DetailedUsersView.TallyAll | src/components/DetailedUsersView.tsx:34-54 | the first loop builds the dictionary, keys in order of creation |
| DetailedUsersView.UserStats | src/components/DetailedUsersView.tsx:24-62 | one row per user id with entries, every entry counting, each with its statistics and mean, sorted by hours descending; together the rows hold all the hours |
| DetailedUsersView.SetMeans | src/components/DetailedUsersView.tsx:57-59 | the second loop sets every user's mean and changes nothing else |
| DetailedUsersView.ListedStats | src/components/DetailedUsersView.tsx:61 | the sorted values hold one row per user, by hours descending, with all the hours |
| DetailedUsersView.ListedMembers | src/components/DetailedUsersView.tsx:61 | a permutation of the values holds exactly one row per user |
| DetailedUsersView.ListedTotal | src/components/DetailedUsersView.tsx:61 | a permutation of the values keeps the total hours |
| DetailedUsersView.HoursPerUser | src/components/DetailedUsersView.tsx:119-121 | 0 without users; otherwise the mean of the users' hours |
| DetailedHoursView.Slot | src/components/DetailedHoursView.tsx:47-55 | the slot of a start hour: morning exactly for 6 to 11, afternoon for 12 to 17, evening for 18 to 23, night otherwise |
| DetailedHoursView.HoursByDayOfWeek | src/components/DetailedHoursView.tsx:24-34 | seven buckets, bucket `d` holding the hours of the entries that started on weekday `d`; together they hold all the hours |
| DetailedHoursView.HoursByTimeOfDay | src/components/DetailedHoursView.tsx:37-59 | four buckets, each holding the hours of the entries whose start hour falls in its slot; together they hold all the hours |
| DetailedHoursView.SlotsInRange | src/components/DetailedHoursView.tsx:46-55 | every entry lands in one of the four slots |
| DetailedHoursView.BucketTotals | src/components/DetailedHoursView.tsx:28-31 | buckets that each hold their group's hours hold the total hours between them |
| DetailedHoursView.ProductivityAsWritten | src/components/DetailedHoursView.tsx:95 | the score is NaN exactly when there are no entries, and otherwise at most 100 |
| DetailedHoursView.ProductivityAsWrittenNaN | src/components/DetailedHoursView.tsx:95 | with no entries the card shows NaN |
| DetailedHoursView.Productivity | src/components/DetailedHoursView.tsx:95 | at most 100, 0 without entries, not negative when no duration is, and the written score whenever there are entries |
| DetailedHoursView.TotalHoursNonNegative | src/components/DetailedHoursView.tsx:62-64 | with no negative duration the total is not negative |
| DetailedHoursView.BarWidth | src/components/DetailedHoursView.tsx:123 | at most 100; for a slot within a positive total, the slot's percentage share; with a zero total, a width only for positive hours |
| DetailedAverageView.BuiltAdvance | src/components/DetailedAverageView.tsx:27-36 | one iteration of the loop is one `Record` step |
| DetailedAverageView.ExpectedStep | src/components/DetailedAverageView.tsx:30-35 | one more entry leaves other dates alone, creates its date's bucket on the first entry and adds to it otherwise |
| DetailedAverageView.BuiltExpected | src/components/DetailedAverageView.tsx:25-36 | the dictionary holds one bucket per date with an entry: the sum and number of that date's durations |
| DetailedAverageView.Tally | src/components/DetailedAverageView.tsx:27-36 | the callback creates the date's bucket on its first entry, then adds the entry; a new date is appended to the key order |
| DetailedAverageView.TallyDays | src/components/DetailedAverageView.tsx:25-36 | the loop builds the dictionary, with its dates in order of first appearance |
| DetailedAverageView.Rows | src/components/DetailedAverageView.tsx:38-43 | one row per date, in key order, holding the bucket's total, count and mean |
| DetailedAverageView.DailyAverages | src/components/DetailedAverageView.tsx:24-44 | one row per date with an entry, in order of first appearance, with its total, count and mean; the rows hold every entry and all the hours; no rows exactly when no entries |
| DetailedAverageView.BuiltCounts | src/components/DetailedAverageView.tsx:30-35 | every date in the dictionary has at least one entry |
| DetailedAverageView.DaysListed | src/components/DetailedAverageView.tsx:38-43 | rows of the expected buckets hold each date's hours and number of entries |
| DetailedAverageView.NoDays | src/components/DetailedAverageView.tsx:48 | there is a day exactly when there is an entry |
| DetailedAverageView.DaysConserved | src/components/DetailedAverageView.tsx:38-43 | the rows hold every entry and all the hours |
| DetailedAverageView.OverallAverage | src/components/DetailedAverageView.tsx:47-52 | 0 without days; otherwise the mean of the day totals |
| DetailedAverageView.AverageEntryDuration | src/components/DetailedAverageView.tsx:55-60 | 0 without entries; otherwise the mean duration |
| DetailedAverageView.Consistency | src/components/DetailedAverageView.tsx:97 | between 0 and 100, 100 from 30 days on, 0 without days |
| DetailedAverageView.ConsistencyMonotone | src/components/DetailedAverageView.tsx:97 | more days never lower the score |
| DetailedAverageView.Breakdown | src/components/DetailedAverageView.tsx:136 | the first ten days, or all of them when there are fewer |
| MonthlyReport.Recent | src/components/MonthlyReport.tsx:21-29 | the entries that started at or after the cutoff, in their order |
| MonthlyReport.AverageHoursPerDay | src/components/MonthlyReport.tsx:35-46 | 0 without recent entries; otherwise the total hours over the number of days worked, of which there is at least one |
| MonthlyReport.UniqueDaysAreRows | src/components/MonthlyReport.tsx:39-43 | the days worked are as many as the rows of the daily average page |
| MonthlyReport.DistinctCardinality | src/components/MonthlyReport.tsx:39-45 | a list without repetition has as many elements as its set |
| MonthlyReport.AverageIsOverallAverage | src/components/MonthlyReport.tsx:35-46 | the report's mean hours per day worked is the daily average page's overall average of the same entries |
| MonthlyReport.MostFrequent | src/components/MonthlyReport.tsx:61-67 | the second loop yields the largest count, at the first key that has it, or the empty description when the count is 0 |
| MonthlyReport.MostFrequentAtUnique | src/components/MonthlyReport.tsx:63-67 | only one position wins: ties go to the description listed first |
| MonthlyReport.MostFrequentTask | src/components/MonthlyReport.tsx:48-70 | "No tasks" without recent entries; otherwise the description with the most recent entries, the first listed on a tie |
| MonthlyReport.TaskCounts | src/components/MonthlyReport.tsx:51-59 | the first loop counts, for each listed description, its recent entries, at least one; some description is listed when an entry is |
| MonthlyReport.WinnerAt | src/components/MonthlyReport.tsx:61-69 | what the second loop yields is the winning position |
| MonthlyReport.SplitHoursAsWritten | src/components/MonthlyReport.tsx:72-76 | whole hours and minutes between 0 and 60, both ends included |
| MonthlyReport.SplitHoursAsWrittenSixty | src/components/MonthlyReport.tsx:72-76 | 1.995 hours is shown as "1h 60m"; the corrected display shows "2h 0m" |
| MonthlyReport.FormatHoursAgree | src/components/MonthlyReport.tsx:72-76 | the page's display and the corrected one agree whenever the page's minutes are below 60; at 60 the corrected one shows the next whole hour and 0 minutes |
| MonthlyReport.SplitHours | src/components/MonthlyReport.tsx:72-76 | minutes below 60 and hours and minutes that make up the duration rounded to whole minutes; equal to the written split except where that shows 60 |
| MonthlyReport.SplitCarries | src/components/MonthlyReport.tsx:73-74 | rounding the whole duration to minutes is rounding the fraction of an hour and adding the whole hours, with a carry when that gives 60 |
| MonthlyReport.RoundShift | src/components/MonthlyReport.tsx:74 | adding a whole number moves the rounding by that number |
| UserWorkChart.BuiltAdvance | src/components/UserWorkChart.tsx:45-54 | one iteration of the loop is one `Record` step |
| UserWorkChart.BuiltHours | src/components/UserWorkChart.tsx:43-54 | the dictionary holds one value per email with an entry: the sum of that email's durations |
| UserWorkChart.BuiltStep | src/components/UserWorkChart.tsx:46-53 | one more entry keeps the dictionary equal to the hours per email |
| UserWorkChart.Tally | src/components/UserWorkChart.tsx:45-54 | the callback skips an entry without an email, resets a missing or zero value, then adds the duration |
| UserWorkChart.TallyHours | src/components/UserWorkChart.tsx:43-54 | the loop builds the dictionary, emails in order of creation |
| UserWorkChart.Label | src/components/UserWorkChart.tsx:62-68 | the email itself unless on mobile and longer than 15 characters; such an email without '@' throws; otherwise at most 20 characters |
| UserWorkChart.LabelOfAddress | src/components/UserWorkChart.tsx:63-66 | a long address is shown as the start of its local part, "...@", the start of its domain and "..." |
| UserWorkChart.Hundredths | src/components/UserWorkChart.tsx:72 | the hours rounded to hundredths, within half a hundredth |
| UserWorkChart.Labels | src/components/UserWorkChart.tsx:62-68 | one label per email, or a failure exactly when some email's label throws |
| UserWorkChart.RankedUsers | src/components/UserWorkChart.tsx:43-58 | every email with an entry, once each, with its hours, by decreasing hours |
| UserWorkChart.UserData | src/components/UserWorkChart.tsx:41-75 | the chart of at most 5 (mobile) or 10 emails with the most hours, with their rounded hours and labels; it fails only on mobile for an email whose label throws, and then surely |
| UserWorkChart.TopEmails | src/components/UserWorkChart.tsx:59 | the first entries of the ranking are emails with an entry |
| UserWorkChart.ChartedTop | src/components/UserWorkChart.tsx:59-74 | the chart built from the first entries of the ranking is the expected chart |
| UserWorkChart.Pairs | src/components/UserWorkChart.tsx:57 | the dictionary's entries, as `Object.entries` lists them, are each email with an entry once, with its hours |
| UserWorkChart.TopUsers | src/components/UserWorkChart.tsx:57-59 | the shown emails have entries, their hours, decreasing hours, and no email left out has more hours than a shown one |
| UserWorkChart.SortedPairs | src/components/UserWorkChart.tsx:57-58 | the sorted entries are the emails with their hours, by decreasing hours |
| UserWorkChart.Unlisted | src/components/UserWorkChart.tsx:57-58 | every email with an entry has its place in the sorted entries |
| UserWorkChart.MoreHoursStrict | src/components/UserWorkChart.tsx:58 | the comparator is a strict order |
| UserWorkChart.EmptyChart | src/components/UserWorkChart.tsx:207 | the chart has no data exactly when no entry has an email |
| UseTimeEntries.QueryRestriction | src/hooks/useTimeEntries.ts:109-113 | a user reads only their own entries; an admin reads the selected user's, or everyone's when nobody is selected |
| UseTimeEntries.RestrictionScope | src/hooks/useTimeEntries.ts:109-113 | a user's query admits exactly their own entries; an admin's admits exactly the selected user's, or every entry |
| UseTimeEntries.EntriesQuery | src/hooks/useTimeEntries.ts:104-120 | the query carries that restriction and a bound on the start time exactly for each non-empty end of the date range |
| UseTimeEntries.CacheKeyAsWrittenCollides | src/hooks/useTimeEntries.ts:43 | an admin who selects nobody and the same admin selecting themselves get one key for two different queries |
| UseTimeEntries.CacheKey | src/hooks/useTimeEntries.ts:43 | an admin who selects a user gets the written key, and a non-admin the written key of an empty selection: non-admins are keyed by their own id whatever `selectedUser` holds, admins by the selection, which is empty for everyone |
| UseTimeEntries.CacheKeySeparatesRestrictions | src/hooks/useTimeEntries.ts:43 | for one date range, equal keys mean the same restriction |
| UseTimeEntries.NewSummary | src/hooks/useTimeEntries.ts:192-199 | a summary exactly for a description longer than 200 characters, and then the summarizer's |
| UseTimeEntries.SummaryRulesAgree | src/hooks/useTimeEntries.ts:140-147 | fetching and adding summarise the same descriptions |
| UseTimeEntries.Enriched | src/hooks/useTimeEntries.ts:129-154 | a failed lookup gives "Unknown" and no new summary; a found email is used unless empty, then "Unknown"; a missing summary of a long description is filled when the summarizer works; every other field is kept |
| UseTimeEntries.EnrichedKeeps | src/hooks/useTimeEntries.ts:129-154 | every returned entry has an email to show, and a summary already present stays |
| UseTimeEntries.EnrichAll | src/hooks/useTimeEntries.ts:127-155 | every row, in order, enriched with its own user's lookup |
| UseTimeEntries.KnownUsers | src/hooks/useTimeEntries.ts:93 | the users whose email was found, in order, each as often as in the input |
| UseTimeEntries.SessionCache.constructor | src/hooks/useTimeEntries.ts:49 | session storage starts empty |
| UseTimeEntries.SessionCache.Cached | src/hooks/useTimeEntries.ts:49-61 | cached entries exactly when the key's slot holds readable data less than five minutes old, and then that data |
| UseTimeEntries.SessionCache.Store | src/hooks/useTimeEntries.ts:158-169 | only the key's slot changes; its data is served for the next five minutes and not after |
| UseTimeEntries.SessionCache.Remove | src/hooks/useTimeEntries.ts:215 | only the key's slot goes; nothing is served for the key afterwards |
| UseTimeEntries.SessionCache.FetchTimeEntries | src/hooks/useTimeEntries.ts:100-179 | on an error the entries and the cache stay; otherwise every row, enriched, or none for a null answer, is returned and served from the cache |
| UseTimeEntries.SessionCache.LoadEntries | src/hooks/useTimeEntries.ts:48-65 | fresh cached entries are used unchanged without a query; otherwise the query runs as in the fetch |
| UseTimeEntries.SessionCache.AddTimeEntry | src/hooks/useTimeEntries.ts:181-217 | an end not after the start is rejected first, an unreadable time next; otherwise the row holds the description, its summary and the times, it is added exactly when the insert succeeds, and only then is the key's slot removed |
| ProjectSelector.DedupeSpec | src/components/ProjectSelector.tsx:75 | `Array.from(new Set(...))` keeps every element of the input once and nothing else, ordered by the position of its first occurrence |
| ProjectSelector.FirstIndex | src/components/ProjectSelector.tsx:75 | the first position holding an element: it holds the element and no earlier one does |
| ProjectSelector.Names | src/components/ProjectSelector.tsx:74 | each fetched row's name, in order |
| ProjectSelector.Fetch | src/components/ProjectSelector.tsx:48-90 | fetched rows give their names and then the custom projects, de-duplicated, and set the rows; a missing table or a null answer falls back to the ten labels and no rows; a failed query falls back to the labels and keeps the previous rows |
| ProjectSelector.FetchListsOnce | src/components/ProjectSelector.tsx:57-83 | every listed name appears once, every custom project is listed, and the list holds exactly the fetched names or the labels, together with the custom projects |
| ProjectSelector.SuggestionClick | src/components/ProjectSelector.tsx:102-106 | a click passes the suggestion on exactly when there is a non-empty one |
| ProjectSelector.ChipForSuggestion | src/components/ProjectSelector.tsx:93-96 | the chip shows exactly for a suggestion other than the current value, and clicking it picks that suggestion |
| ProjectSelector.LabelsNotEmpty | src/lib/projectSuggestions.ts:38-40 | no classifier label is empty |
| ProjectSelector.Find | src/components/ProjectSelector.tsx:109 | `projectsData.find` gives the first row with the name, or nothing exactly when no row has it |
| ProjectSelector.ProjectColor | src/components/ProjectSelector.tsx:108-111 | the first such row's colour, or grey for an unknown name or a missing or empty colour |
| ProjectSelector.IsDefaultProject | src/components/ProjectSelector.tsx:113-116 | true exactly when the first row with the name is marked as the default |
| ProjectSelector.UnknownProject | src/components/ProjectSelector.tsx:108-116 | a name no row has is grey and never the default |
| ProjectSelector.CustomSection | src/components/ProjectSelector.tsx:238-239 | the custom projects that are not classifier labels, in order, each as often as in the input |
| Projects.BudgetInput | src/pages/Projects.tsx:657-662 | an empty input clears the field, a non-negative number replaces it, anything else leaves it unchanged |
| Projects.BudgetInputAccepted | src/pages/Projects.tsx:659 | the input filter never lets in a negative budget |
| Projects.WithoutTag | src/pages/Projects.tsx:198 | the other tags, in order, each as often as in the input |
| Projects.WithoutProject | src/pages/Projects.tsx:289 | the other projects, in order, each as often as in the input |
| Projects.ProjectsPage.constructor | src/pages/Projects.tsx:90-103 | no projects, no tags, an empty tag input and blank budgets |
| Projects.ProjectsPage.AddTag | src/pages/Projects.tsx:190-195 | a non-blank trimmed tag that is not yet listed is appended and the input cleared; otherwise nothing changes; the tags stay distinct |
| Projects.ProjectsPage.RemoveTag | src/pages/Projects.tsx:197-199 | the tag leaves the list, the others stay in order and distinct |
| Projects.ProjectsPage.ChangeBudgetHours | src/pages/Projects.tsx:655-662 | the hours budget takes the filtered input and nothing else changes |
| Projects.ProjectsPage.ChangeBudgetAmount | src/pages/Projects.tsx:671-678 | the amount budget takes the filtered input and nothing else changes |
| Projects.ProjectsPage.Deleted | src/pages/Projects.tsx:289 | the deleted project leaves the list and nothing else changes |
| Projects.ValidateForm | src/pages/Projects.tsx:201-213 | a blank name fails first; then an end date before the start date; valid exactly otherwise, an empty date never failing |
| Projects.NullIfBlank | src/pages/Projects.tsx:225 | null exactly for a blank text, else the trimmed text |
| Projects.BudgetValue | src/pages/Projects.tsx:229 | null exactly for a blank budget |
| Projects.Payload | src/pages/Projects.tsx:223-234 | the trimmed name, blank texts and budgets and empty dates as null, and the tags unless there are none |
| Projects.ValidPayload | src/pages/Projects.tsx:215-234 | a validated form is saved with a non-blank trimmed name, dates in order, and no blank text, negative budget or empty tag list |
| Projects.TrimIdempotent | src/pages/Projects.tsx:224 | trimming twice is trimming once |
| Projects.CompletionPercentage | src/pages/Projects.tsx:299-302 | 0 without statistics or tasks; otherwise the completed share rounded to the nearest whole percent |
| Projects.CompletionBounded | src/pages/Projects.tsx:299-302 | between 0 and 100, 100 when every task is completed and 0 when none is |
| WelcomeDashboard.Greeting | src/pages/WelcomeDashboard.tsx:186-189 | morning exactly before 12, afternoon from 12 to 17, evening from 18 |
| WelcomeDashboard.UpcomingCounted | src/pages/WelcomeDashboard.tsx:408-411 | a task is an upcoming deadline exactly when it is open and due less than two days from now, overdue included |
| WelcomeDashboard.CountsBounded | src/pages/WelcomeDashboard.tsx:407-411 | completed tasks and upcoming deadlines together are at most all the tasks |
| WelcomeDashboard.OpenCovers | src/pages/WelcomeDashboard.tsx:408-411 | every upcoming deadline is an open task |
| WelcomeDashboard.Rank | src/pages/WelcomeDashboard.tsx:416 | high ranks 0, low 2, medium between |
| WelcomeDashboard.TaskBeforeStrict | src/pages/WelcomeDashboard.tsx:414-423 | the comparator is a strict order |
| WelcomeDashboard.SortedTasksOrdered | src/pages/WelcomeDashboard.tsx:414-423 | the sorted tasks are the same tasks, by priority and then by due date |
| WelcomeDashboard.FilteredTasks | src/pages/WelcomeDashboard.tsx:426-429 | the sorted tasks whose title or description contains the term ignoring case, in order, each as often as in the input; an empty term keeps all |
| WelcomeDashboard.FilledDuration | src/pages/WelcomeDashboard.tsx:300-312 | the stored duration; without one, the hours between start and end; without either time, 0 |
| WelcomeDashboard.FilledDurationNonNegative | src/pages/WelcomeDashboard.tsx:304-308 | a duration filled in from an entry that ends after it starts is not negative |
| WelcomeDashboard.ProcessedEntries | src/pages/WelcomeDashboard.tsx:300-312 | every entry in order, with its duration filled in |
| WelcomeDashboard.ProcessedIdempotent | src/pages/WelcomeDashboard.tsx:300-312 | processing again changes nothing |
| WelcomeDashboard.ShownDescription | src/pages/WelcomeDashboard.tsx:910-912 | a description over 50 characters is its first 50 and "..."; a shorter one is shown whole |
| WelcomeDashboard.ShownDescriptionBounded | src/pages/WelcomeDashboard.tsx:910-912 | the shown text is at most 53 characters and starts with the description's first 50 |
| UpdateProjectField.UpdatesBy | supabase/functions/update-project-field/index.ts:98-102 | one update per entry given a project, in input order, each with that project |
| JsObject.OwnKeysMembers | src/components/UserWorkChart.tsx:57 | `Object.entries` lists the object's keys and nothing else |
| JsObject.OwnKeysPermutes | src/components/UserWorkChart.tsx:57 | `Object.entries` lists every key once |
| JsObject.OwnKeysIndicesFirst | src/components/UserWorkChart.tsx:57 | integer-like keys come first, in ascending numeric order |
| JsObject.OwnKeysNamed | src/components/UserWorkChart.tsx:57 | without integer-like keys the listing is the order of creation |
| Sorting.SortByPermutes | src/components/UserSummary.tsx:53 | `Array.prototype.sort` rearranges the elements without losing or adding any |
| Sorting.SortBySorted | src/components/UserSummary.tsx:53 | with a comparator that is a strict order, no element is sorted before one it should follow |
| Sorting.SortByUnrelated | src/components/UserSummary.tsx:53 | a list none of whose elements the comparator puts before another stays as it is |

## Definitions

These members restate one expression or callback of the code and carry no contract; the members of the model table state what they compute.

| definition | source | defines |
|---|---|---|
| TimeTracking.FormatDuration | src/lib/timeTracking.ts:133-143 | `formatDuration(seconds)` through the hours, minutes and seconds fields |
| TimeTracking.FormatHms | src/lib/timeTracking.ts:138-142 | the three fields padded to two digits and joined with ':' |
| TimeTracker.FormatElapsedTime | src/components/TimeTracker.tsx:184-190 | the tracker's own `formatElapsedTime` template literal |
| TimeTracker.ManualSave | src/components/TimeTracker.tsx:315-362 | the checks of `handleSaveManualEntry` in order, then the inserted row |
| TimeTracker.HoursMinutes | src/components/TimeTracker.tsx:556-560 | `${diffHrs}h ${diffMins}m` for a difference in milliseconds |
| TimeTracker.ManualDurationAsWritten | src/components/TimeTracker.tsx:550-563 | the duration preview as written, "NaNh NaNm" for an unreadable time |
| TimeTracker.ManualDuration | src/components/TimeTracker.tsx:550-563 | the duration preview with the `catch` fallback for an unreadable time |
| EntryList.MatchesSearch | src/pages/Dashboard.tsx:544-550 | the search test on description and email, ignoring case |
| EntryList.SortEntries | src/pages/Dashboard.tsx:553-573 | the copy of the entries sorted by the column comparator |
| EntryList.TotalHours | src/pages/Dashboard.tsx:527-529 | the sum of the durations |
| Dashboard.TotalPages | src/pages/Dashboard.tsx:582 | `Math.ceil(n / 10)` |
| WelcomeDashboard.CompletedTasks | src/pages/WelcomeDashboard.tsx:407 | the number of completed tasks |
| WelcomeDashboard.UpcomingDeadlines | src/pages/WelcomeDashboard.tsx:408-411 | the number of open tasks due within two days |
| WelcomeDashboard.SortedTasks | src/pages/WelcomeDashboard.tsx:414-423 | the copy of the tasks sorted by priority, then due date |
| UseTimeEntries.CacheKeyAsWritten | src/hooks/useTimeEntries.ts:43 | the key from the mode, `selectedUser \|\| userId` and the date range |
| UseTimeEntries.Slot | src/hooks/useTimeEntries.ts:49 | the session-storage slot `timeEntries-${cacheKey}` |
| UseTimeEntries.Fresh | src/hooks/useTimeEntries.ts:54 | cached data less than five minutes old |
| UseTimeEntries.NeedsSummary | src/hooks/useTimeEntries.ts:141 | no summary yet and a description longer than 200 characters |
| ProjectSelector.Dedupe | src/components/ProjectSelector.tsx:75 | `Array.from(new Set(...))` |
| JsObject.OwnKeys | src/components/UserWorkChart.tsx:57 | the key order of `Object.entries`: array indices ascending, then the other keys in order of creation |
| TaskAssignment.Score | supabase/functions/task-assignment/index.ts:290 | `active_tasks_count * 5 + total_hours` |
| MonthlyReport.FormatHoursAsWritten | src/components/MonthlyReport.tsx:72-76 | the page's `formatDuration` text |
| MonthlyReport.FormatHours | src/components/MonthlyReport.tsx:72-76 | the same text from the corrected split |
| UserWorkChart.Ranked | src/components/UserWorkChart.tsx:57-58 | the dictionary's entries sorted by decreasing hours, each email once |
| UserWorkChart.Charted | src/components/UserWorkChart.tsx:41-75 | the chart of at most five or ten emails by decreasing hours, none left out with more hours than one shown, with rounded hours and labels |

## Left out

- Database queries, RPCs, authentication, storage and HTTP/CORS plumbing. Each answer is a parameter of the operation that uses it.
- Spreadsheet generation in `supabase/functions/generate-admin-report` and `supabase/functions/update-excel-file`. It is a wrapper over a spreadsheet library and storage I/O.
- Date parsing and local time:
  - `new Date`, `toISOString`, `toLocaleDateString`, `getDay` and `getHours` are inputs, as are the cutoff thirty days back and the instant now.
  - A date `new Date` cannot read is `None`.
  - Due dates and entry times are integer milliseconds.
- Floating point:
  - Durations are exact reals. `Math.round` is rational rounding, half up, which can differ from binary floating point near exact halves.
  - `toFixed` displays are not modelled: total hours in the welcome page and the detail pages, hours per user, and the day rows. One exception: `parseFloat(toFixed(2))` in the user chart is stated as rounding to within half a hundredth.
  - `Infinity` from a division by zero is not modelled. The one case where it matters, the bar width with a zero total, is modelled as its CSS outcome.
- `localeCompare` is approximated by string order on code units.
- Only ASCII lower-casing is modelled. Strings count one character per code point, not UTF-16 units.
- Timers, debouncing, `Promise.all` fan-outs, animations and the React render and effect ordering are not modelled:
  - the tracker's one-second tick is the `Tick` method;
  - the initial fetch for the empty cache key is not modelled.
- UI-only files are not modelled: KpiCard, TimelineComponents, DateRangePicker, DescriptionField, TimeChart, Login, Register, App, YourTasks, TaskDetail and ProjectDetail.
- The unused OpenAI client at the top of `src/lib/ai.ts` is not modelled.
- The `catch` of `summarizeText` (`src/lib/ai.ts:19-22`) is not modelled, because the modelled summary never throws.
- `src/hooks/useTimeEntries.ts:218-224` is not modelled. The file breaks off there in the middle of a `catch`.
- Toasts, console logging and the refetch after an added entry are not modelled. For the summariser inside `fetchTimeEntries`, working or throwing is a boolean input.
- JSON serialisation of the session cache is not modelled. A slot holds either what `JSON.parse` yields or an unreadable marker.
- Dashboard.TableState.ToggleSelectAll compares only the lengths of the selection and the page, as the source does. The two toggle handlers are never wired to the table in the source.
- `averageDailyHours` of `src/pages/Dashboard.tsx:532-541` and the date-range presets of the dashboard are not modelled.
- Dashboard.ProjectColor states only that the result is a palette colour, and grey exactly without a project. The int32 hash is written out with `ToInt32`; which palette entry a name gets is not stated.
- `formatDuration` is also in `src/components/UserSummary.tsx:56-60` and `src/components/DetailedEntriesView.tsx:83-87`. These copies are identical to the monthly report's, so `MonthlyReport.SplitHoursAsWritten` models them, and so does the finding below.
- MonthlyReport.MostFrequentTask is not affected by the duration `mostFrequent` keeps. That duration is never shown.
- Inherited object properties are not modelled. A description such as "constructor" finds `Object.prototype.constructor`, adds to a property of that function, and never becomes an own key, so it is never counted.
- UserWorkChart.Label models the exception on a long mobile email without '@' as `None`; `UserData` then yields no chart.
- Projects keeps `project.budget_hours || ''` in the edit dialog, the list updates after create and update, and `formatHours` out of the model. They are database round trips and display text.
- The ProjectSelector's custom section is shown only when there are custom projects and no project rows. That condition, the loading spinner and the disabled select are display only.
- Keys that are UUIDs, emails or locale dates are never integer-like, so their dictionaries list them in order of creation. Description keys in the monthly report use the full `JsObject.OwnKeys` order.
- The RPC enrichment of the workload table, and the database writes for assignments and notifications, are parameters. Only the decisions are modelled.
- Who may call an endpoint beyond the checks in the code (row-level security) is not modelled.
- TimeTracker.ClockTime: the local midnight of the date is an input in milliseconds and the clock time adds whole minutes to it, so a daylight-saving change within that day is not modelled.
- UserWorkChart.Charted: among users tied in hours at the cut it does not say which are shown. The program shows those first in `Object.entries` order, the order the stable sort keeps.

## Findings

| source | as written | input that shows it | evidently intended | confidence | as-written member | corrected member |
|---|---|---|---|---|---|---|
| src/lib/ai.ts:58-60 | the selected sentences are sorted by `sentences.indexOf(s)`, the position of the first sentence with the same text | " Go home. GO HOME. Go home. go home. go home. go home. go home." prints both copies of " Go home." before " GO HOME." | the selected sentences in the order they occur in the text | not executed | SummarizerRegrouping.ExampleRegrouped | Summarizer.ReorderedSelection |
| src/components/DetailedHoursView.tsx:95 | the productivity score divides by the number of entries without a guard | no entries: 0 / 0 shows "NaN%" | 0% as the other cards show for no data | not executed | DetailedHoursView.ProductivityAsWrittenNaN | DetailedHoursView.Productivity |
| src/components/MonthlyReport.tsx:72-76 | the minutes are the rounded fraction of an hour, with no carry into the hours | 1.995 hours shows "1h 60m" | "2h 0m": the duration rounded to whole minutes, minutes below 60 | not executed | MonthlyReport.SplitHoursAsWrittenSixty | MonthlyReport.SplitHours |
| src/components/TimeTracker.tsx:550-563 | an unreadable time makes `new Date` an invalid date, which throws nothing, so the `catch` fallback is never used | a cleared start-time field shows "NaNh NaNm" | "0h 0m", the fallback the `catch` provides | not executed | TimeTracker.ManualDurationAsWrittenNaN | TimeTracker.ManualDurationShows |
| src/hooks/useTimeEntries.ts:43 | the cache key uses `selectedUser` or else the own id, whatever the role | an admin "u1" with no user selected and the same admin selecting "u1", same date range: one key, but one query reads everyone's entries and the other only u1's | distinct keys for queries with distinct restrictions | not executed | UseTimeEntries.CacheKeyAsWrittenCollides | UseTimeEntries.CacheKeySeparatesRestrictions |

The hook keeps the program's summaries: `UseTimeEntries.NewSummary` and `UseTimeEntries.Enriched` use `Summarizer.SummarizeText`, which orders the selection by first occurrence. `Summarizer.SummarizeTextCorrected` is the summary in text order.
