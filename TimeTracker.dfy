/*
 * TimeTracker: the tracker component. It shows the running entry's elapsed time as
 * `HH:MM:SS`, starts, stops and discards the running entry, and validates the
 * dialog that adds an entry by hand from a date and two `HH:MM` times.
 *
 * The database calls become parameters: the row the insert returns (or `None` on
 * an error) and whether an update or delete succeeded. A date is the timestamp in
 * milliseconds of its local midnight, `None` where `new Date` gives an invalid date.
 */
module TimeTracker {
  import opened Base
  import opened JsText
  import opened TimeTracking

  /** `formatElapsedTime(seconds)`: the three fields in a template literal. */
  function FormatElapsedTime(seconds: int): string
  {
    var h := FloorDiv(seconds, 3600);
    var m := FloorDiv(JsRem(seconds, 3600), 60);
    var sec := JsRem(seconds, 60);
    Field(h) + ":" + Field(m) + ":" + Field(sec)
  }

  /** The component's format is the library's `formatDuration`, for every input. */
  lemma FormatElapsedTimeIsFormatDuration(seconds: int)
    ensures FormatElapsedTime(seconds) == FormatDuration(seconds)
  {
    var d := Decompose(seconds);
    assert FormatElapsedTime(seconds) == Field(d.hours) + ":" + Field(d.minutes) + ":" + Field(d.seconds);
    TemplateIsJoin(Field(d.hours), Field(d.minutes), Field(d.seconds));
  }

  lemma TemplateIsJoin(a: string, b: string, c: string)
    ensures a + ":" + b + ":" + c == Join([a, b, c], ":")
  {
    JoinThree(a, b, c);
  }

  /** `description.trim() || null`. */
  function TrimOrNull(description: string): (r: Option<string>)
    ensures r.None? <==> Trim(description) == []
    ensures r.Some? ==> r.value == Trim(description)
  {
    var t := Trim(description);
    if t == [] then None else Some(t)
  }

  /** `user?.id` is truthy. */
  predicate LoggedIn(user: Option<string>)
  {
    user.Some? && user.value != ""
  }

  /** A row of `time_entries` as the component holds it. */
  datatype ActiveEntry = ActiveEntry(id: string, projectId: Option<string>, description: Option<string>, startTime: int)

  /** A row the component asks the database to insert. */
  datatype NewEntry = NewEntry(userId: string, projectId: Option<string>, description: Option<string>,
                               startTime: int, endTime: Option<int>)

  /** The update that ends an entry, or the delete that discards it. */
  datatype EntryRequest = EntryRequest(id: string, time: int)

  /** The component's tracking state. */
  class Tracker {
    var selectedProject: Option<string>
    var description: string
    var isTracking: bool
    var activeEntry: Option<ActiveEntry>
    var elapsed: int
    var loading: bool

    /** The flag and the running entry are set and cleared together. */
    predicate Valid()
      reads this
    {
      isTracking <==> activeEntry.Some?
    }

    constructor()
      ensures Valid()
      ensures selectedProject == None && description == "" && !isTracking && activeEntry == None
      ensures elapsed == 0 && !loading
    {
      selectedProject := None;
      description := "";
      isTracking := false;
      activeEntry := None;
      elapsed := 0;
      loading := false;
    }

    /** The START TRACKING button is disabled. */
    predicate StartDisabled()
      reads this
    {
      loading || Trim(description) == []
    }

    /** `activeTimeEntry?.id` is truthy. */
    predicate HasActiveId()
      reads this
    {
      activeEntry.Some? && activeEntry.value.id != ""
    }

    /** The text the timer shows. */
    function Display(): (r: string)
      reads this
      ensures r == FormatDuration(elapsed)
    {
      FormatElapsedTimeIsFormatDuration(elapsed);
      FormatElapsedTime(elapsed)
    }

    /** `handleStartTracking()` at time `now`; `inserted` is the row the insert returns. */
    method HandleStartTracking(user: Option<string>, now: int, inserted: Option<ActiveEntry>)
      returns (request: Option<NewEntry>)
      requires Valid()
      modifies this
      ensures Valid()
      ensures !LoggedIn(user) ==> request == None && unchanged(this)
      ensures LoggedIn(user) ==>
                request == Some(NewEntry(user.value, old(selectedProject), TrimOrNull(old(description)), now, None))
      ensures LoggedIn(user) && inserted.Some? ==> activeEntry == inserted && isTracking && elapsed == 0
      ensures LoggedIn(user) && inserted.None? ==>
                activeEntry == old(activeEntry) && isTracking == old(isTracking) && elapsed == old(elapsed)
      ensures LoggedIn(user) ==> !loading && description == old(description) && selectedProject == old(selectedProject)
    {
      if !LoggedIn(user) {
        return None;
      }
      loading := true;
      request := Some(NewEntry(user.value, selectedProject, TrimOrNull(description), now, None));
      if inserted.Some? {
        activeEntry := inserted;
        isTracking := true;
        elapsed := 0;
      }
      loading := false;
    }

    /** `handleStopTracking()` at time `now`; `updateOk` is the database's answer. */
    method HandleStopTracking(now: int, updateOk: bool) returns (request: Option<EntryRequest>)
      requires Valid()
      modifies this
      ensures Valid()
      ensures !old(HasActiveId()) ==> request == None && unchanged(this)
      ensures old(HasActiveId()) ==> request == Some(EntryRequest(old(activeEntry).value.id, now)) && !loading
      ensures old(HasActiveId()) && updateOk ==> !isTracking && activeEntry == None
      ensures old(HasActiveId()) && !updateOk ==> isTracking == old(isTracking) && activeEntry == old(activeEntry)
      ensures description == old(description) && selectedProject == old(selectedProject) && elapsed == old(elapsed)
    {
      if !HasActiveId() {
        return None;
      }
      loading := true;
      request := Some(EntryRequest(activeEntry.value.id, now));
      if updateOk {
        isTracking := false;
        activeEntry := None;
      }
      loading := false;
    }

    /** `handleDiscardTracking()`; `deleteOk` is the database's answer. The request's time
     * is the moment of the delete. */
    method HandleDiscardTracking(now: int, deleteOk: bool) returns (request: Option<EntryRequest>)
      requires Valid()
      modifies this
      ensures Valid()
      ensures !old(HasActiveId()) ==> request == None && unchanged(this)
      ensures old(HasActiveId()) ==> request == Some(EntryRequest(old(activeEntry).value.id, now)) && !loading
      ensures old(HasActiveId()) && deleteOk ==> !isTracking && activeEntry == None
      ensures old(HasActiveId()) && !deleteOk ==> isTracking == old(isTracking) && activeEntry == old(activeEntry)
      ensures description == old(description) && selectedProject == old(selectedProject) && elapsed == old(elapsed)
    {
      if !HasActiveId() {
        return None;
      }
      loading := true;
      request := Some(EntryRequest(activeEntry.value.id, now));
      if deleteOk {
        isTracking := false;
        activeEntry := None;
      }
      loading := false;
    }

    /** `checkActiveTimeEntry()` at time `now`; `found` is the newest entry without an end. */
    method CheckActiveTimeEntry(user: Option<string>, found: Option<ActiveEntry>, now: int)
      requires Valid()
      modifies this
      ensures Valid()
      ensures !(LoggedIn(user) && found.Some?) ==> unchanged(this)
      ensures LoggedIn(user) && found.Some? ==>
                activeEntry == found && isTracking && selectedProject == found.value.projectId
                && description == GetOr(found.value.description, "")
                && elapsed == FloorDiv(now - found.value.startTime, 1000) && loading == old(loading)
    {
      if !LoggedIn(user) || found.None? {
        return;
      }
      var entry := found.value;
      activeEntry := found;
      selectedProject := entry.projectId;
      description := GetOr(entry.description, "");
      isTracking := true;
      elapsed := FloorDiv(now - entry.startTime, 1000);
    }

    /** One tick of the one-second timer, which runs while an entry is being tracked. */
    method Tick()
      requires Valid()
      modifies this
      ensures Valid()
      ensures isTracking == old(isTracking) && activeEntry == old(activeEntry)
      ensures old(isTracking) ==> elapsed == old(elapsed) + 1
      ensures !old(isTracking) ==> elapsed == old(elapsed)
      ensures description == old(description) && selectedProject == old(selectedProject) && loading == old(loading)
    {
      if isTracking && activeEntry.Some? {
        elapsed := elapsed + 1;
      }
    }
  }

  /** The value of the time input: `HH:MM` with an hour below 24 and a minute below 60. */
  predicate IsClock(t: string)
  {
    |t| == 5 && IsDigit(t[0]) && IsDigit(t[1]) && t[2] == ':' && IsDigit(t[3]) && IsDigit(t[4])
    && DigitValue(t[0]) * 10 + DigitValue(t[1]) < 24 && DigitValue(t[3]) < 6
  }

  /** Minutes since midnight. */
  function ClockMinutes(t: string): (r: nat)
    requires IsClock(t)
    ensures r < 24 * 60
  {
    (DigitValue(t[0]) * 10 + DigitValue(t[1])) * 60 + DigitValue(t[3]) * 10 + DigitValue(t[4])
  }

  /** `new Date(`${date}T${t}:00`).getTime()`, `None` for an invalid date. */
  function ClockTime(day: Option<int>, t: string): (r: Option<int>)
    ensures r.Some? <==> day.Some? && IsClock(t)
    ensures r.Some? ==> r.value == day.value + ClockMinutes(t) * 60000
  {
    if day.Some? && IsClock(t) then Some(day.value + ClockMinutes(t) * 60000) else None
  }

  /** Comparison of two digits agrees with their values. */
  lemma DigitOrder(x: char, y: char)
    requires IsDigit(x) && IsDigit(y)
    ensures x < y <==> DigitValue(x) < DigitValue(y)
    ensures x == y <==> DigitValue(x) == DigitValue(y)
  {
  }

  /** On the time input's values, string comparison is the order of the times. */
  lemma ClockOrder(a: string, b: string)
    requires IsClock(a) && IsClock(b)
    ensures StringLess(a, b) <==> ClockMinutes(a) < ClockMinutes(b)
  {
    DigitOrder(a[0], b[0]);
    DigitOrder(a[1], b[1]);
    DigitOrder(a[3], b[3]);
    DigitOrder(a[4], b[4]);
    if a[0] == b[0] {
      assert StringLessFrom(a, b, 0) == StringLessFrom(a, b, 1);
      if a[1] == b[1] {
        assert StringLessFrom(a, b, 1) == StringLessFrom(a, b, 3);
        if a[3] == b[3] {
          assert StringLessFrom(a, b, 3) == StringLessFrom(a, b, 4);
          if a[4] == b[4] {
            assert StringLessFrom(a, b, 4) == StringLessFrom(a, b, 5) == false;
          }
        }
      }
    }
  }

  /** The error flag and the disabled Save button, `manualEndTime <= manualStartTime`,
   * agree with the handler's check of the two times on the same date. */
  lemma EndNotAfterStartAgrees(day: int, start: string, end: string)
    requires IsClock(start) && IsClock(end)
    ensures StringLessEq(end, start) <==> ClockTime(Some(day), end).value <= ClockTime(Some(day), start).value
  {
    ClockOrder(start, end);
  }

  /** What pressing Add Time Entry leads to. */
  datatype ManualOutcome =
    | NotLoggedIn
    | BlankDescription
    | EndNotAfterStart
    | InvalidTime
    | Insert(entry: NewEntry)

  /** `handleSaveManualEntry()`: the checks in order, then the insert. A time that `new Date`
   * rejects passes the `<=` check (every comparison with NaN is false) and makes
   * `toISOString` throw before the insert. */
  function ManualSave(user: Option<string>, project: Option<string>, description: string,
                      day: Option<int>, start: string, end: string): (r: ManualOutcome)
  {
    if !LoggedIn(user) then NotLoggedIn
    else if Trim(description) == [] then BlankDescription
    else
      var s, e := ClockTime(day, start), ClockTime(day, end);
      if s.Some? && e.Some? && e.value <= s.value then EndNotAfterStart
      else if s.None? || e.None? then InvalidTime
      else Insert(NewEntry(user.value, project, Some(Trim(description)), s.value, Some(e.value)))
  }

  /** An insert happens exactly when the user is logged in, the description is not blank,
   * both times are valid and the end is later; it stores the trimmed description. */
  lemma ManualSaveInserts(user: Option<string>, project: Option<string>, description: string,
                          day: Option<int>, start: string, end: string)
    ensures ManualSave(user, project, description, day, start, end).Insert? <==>
              LoggedIn(user) && Trim(description) != [] && day.Some? && IsClock(start) && IsClock(end)
              && ClockMinutes(start) < ClockMinutes(end)
    ensures var r := ManualSave(user, project, description, day, start, end);
            r.Insert? ==> r.entry.userId == user.value && r.entry.projectId == project
                          && r.entry.description == Some(Trim(description))
                          && r.entry.endTime.Some? && r.entry.startTime < r.entry.endTime.value
  {
  }

  /** The checks come in the source's order: a blank description is reported before
   * the times are looked at. */
  lemma ManualSaveBlankFirst(user: Option<string>, project: Option<string>, description: string,
                             day: Option<int>, start: string, end: string)
    requires LoggedIn(user) && Trim(description) == []
    ensures ManualSave(user, project, description, day, start, end) == BlankDescription
  {
  }

  /** The date the duration preview puts the two times on, 2000-01-01, as milliseconds. */
  const PreviewDay: int := 946684800000

  /** `${diffHrs}h ${diffMins}m` for a positive difference in milliseconds. */
  function HoursMinutes(diffMs: int): string
    requires diffMs > 0
  {
    NatToString(FloorDiv(diffMs, 3600000)) + "h " + NatToString(FloorDiv(JsRem(diffMs, 3600000), 60000)) + "m"
  }

  /** The duration preview as written: an invalid time gives NaN for both numbers, and
   * no exception reaches the `catch`. */
  function ManualDurationAsWritten(start: string, end: string): string
  {
    var s, e := ClockTime(Some(PreviewDay), start), ClockTime(Some(PreviewDay), end);
    if s.Some? && e.Some? then
      if e.value <= s.value then "0h 0m" else HoursMinutes(e.value - s.value)
    else "NaNh NaNm"
  }

  /** The duration preview with the fallback the `catch` provides for invalid times. */
  function ManualDuration(start: string, end: string): string
  {
    var s, e := ClockTime(Some(PreviewDay), start), ClockTime(Some(PreviewDay), end);
    if s.Some? && e.Some? && s.value < e.value then HoursMinutes(e.value - s.value) else "0h 0m"
  }

  /** A cleared time field makes the preview as written show "NaNh NaNm". */
  lemma ManualDurationAsWrittenNaN(end: string)
    ensures ManualDurationAsWritten("", end) == "NaNh NaNm"
    ensures ManualDuration("", end) == "0h 0m"
  {
  }

  /** A difference of `d` whole minutes is shown as `d div 60` hours and `d mod 60` minutes. */
  lemma HoursMinutesOfMinutes(d: nat)
    requires d > 0
    ensures HoursMinutes(d * 60000) == NatToString(d / 60) + "h " + NatToString(d % 60) + "m"
  {
    var ms := d * 60000;
    assert ms == (d / 60) * 3600000 + (d % 60) * 60000;
    DivModUnique(ms, 3600000, d / 60, (d % 60) * 60000);
    DivModUnique((d % 60) * 60000, 60000, d % 60, 0);
  }

  /** The preview shows the difference of two valid times as hours and minutes, and
   * "0h 0m" unless the end is later. */
  lemma ManualDurationShows(start: string, end: string)
    requires IsClock(start) && IsClock(end)
    ensures ClockMinutes(end) <= ClockMinutes(start) ==> ManualDuration(start, end) == "0h 0m"
    ensures var d := ClockMinutes(end) - ClockMinutes(start);
            d > 0 ==> ManualDuration(start, end) == NatToString(d / 60) + "h " + NatToString(d % 60) + "m"
  {
    var d := ClockMinutes(end) - ClockMinutes(start);
    if d > 0 {
      HoursMinutesOfMinutes(d);
      assert ClockTime(Some(PreviewDay), end).value - ClockTime(Some(PreviewDay), start).value == d * 60000;
    }
  }
}
