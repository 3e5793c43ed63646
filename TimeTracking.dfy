/*
 * TimeTracking: the browser-side tracking session and the `HH:MM:SS` duration format.
 *
 * The session lives in one local-storage slot. Reading it yields the stored
 * session, or a fresh idle session when the slot is empty or does not parse;
 * starting writes a tracking session, stopping records an entry and clears the
 * slot. Timestamps are milliseconds since the epoch; the clock and the outcome
 * of the database insert are parameters.
 */
module TimeTracking {
  import opened Base
  import opened JsText

  /** Whole hours, the minutes left over, the seconds left over. */
  datatype Hms = Hms(hours: int, minutes: int, seconds: int)

  /** `Math.floor(s / 3600)`, `Math.floor((s % 3600) / 60)`, `s % 60`. */
  function Decompose(s: int): (r: Hms)
    ensures s >= 0 ==> r.hours >= 0 && 0 <= r.minutes < 60 && 0 <= r.seconds < 60
    ensures s < 0 ==> -60 <= r.minutes <= 0 && -60 < r.seconds <= 0
  {
    Hms(FloorDiv(s, 3600), FloorDiv(JsRem(s, 3600), 60), JsRem(s, 60))
  }

  /** The number of seconds the three fields stand for. */
  function TotalSeconds(d: Hms): int
  {
    d.hours * 3600 + d.minutes * 60 + d.seconds
  }

  /** For a non-negative count the three fields add back up to it. */
  lemma DecomposeSum(s: nat)
    ensures TotalSeconds(Decompose(s)) == s
  {
    var h, rest := s / 3600, s % 3600;
    var m, sec := rest / 60, rest % 60;
    assert s == h * 3600 + rest;
    assert rest == m * 60 + sec;
    assert s == (h * 60 + m) * 60 + sec;
    DivModUnique(s, 60, h * 60 + m, sec);
  }

  /** `n.toString().padStart(2, '0')`. */
  function Field(n: int): (r: string)
    ensures n >= 0 ==> |r| >= 2 && (n < 100 ==> |r| == 2)
    ensures n >= 0 ==> forall i :: 0 <= i < |r| ==> IsDigit(r[i])
  {
    if n >= 0 then PadZerosValue(NatToString(n), 2); PadStart(IntToString(n), 2, '0')
    else PadStart(IntToString(n), 2, '0')
  }

  /** `formatDuration(seconds)`: the three fields joined with ':'. */
  function FormatDuration(seconds: int): string
  {
    FormatHms(Decompose(seconds))
  }

  /** The three fields of `d`, each padded to two digits, joined with ':'. */
  function FormatHms(d: Hms): string
  {
    Join([Field(d.hours), Field(d.minutes), Field(d.seconds)], ":")
  }

  /** A non-empty run of decimal digits. */
  predicate DigitGroup(s: string)
  {
    s != [] && forall i :: 0 <= i < |s| ==> IsDigit(s[i])
  }

  /** Reading `HH:MM:SS` back: three non-empty digit groups separated by ':'. */
  function ParseHms(text: string): (r: Option<Hms>)
  {
    var parts := Split(text, ':');
    if |parts| == 3 && DigitGroup(parts[0]) && DigitGroup(parts[1]) && DigitGroup(parts[2])
    then Some(Hms(DigitsValue(parts[0]), DigitsValue(parts[1]), DigitsValue(parts[2])))
    else None
  }

  /** A field's digits read back to its value. */
  lemma FieldValue(n: nat)
    ensures DigitGroup(Field(n))
    ensures DigitsValue(Field(n)) == n
  {
    PadZerosValue(NatToString(n), 2);
  }

  lemma JoinThree(a: string, b: string, c: string)
    ensures Join([a, b, c], ":") == a + [':'] + (b + [':'] + c)
  {
    assert [a, b, c][1..] == [b, c] && [b, c][1..] == [c];
    assert Join([c], ":") == c;
    assert Join([b, c], ":") == b + ":" + c;
  }

  /** Three groups without ':' joined by ':' split back into the three groups. */
  lemma SplitThree(a: string, b: string, c: string)
    requires ':' !in a && ':' !in b && ':' !in c
    ensures Split(a + [':'] + (b + [':'] + c), ':') == [a, b, c]
  {
    SplitNoSeparator(c, ':');
    SplitAtSeparator(b, c, ':');
    SplitAtSeparator(a, b + [':'] + c, ':');
  }

  /** Three non-empty digit groups joined by ':' parse to their values. */
  lemma ParseJoined(a: string, b: string, c: string, d: Hms)
    requires DigitGroup(a) && DigitGroup(b) && DigitGroup(c)
    requires DigitsValue(a) == d.hours && DigitsValue(b) == d.minutes && DigitsValue(c) == d.seconds
    ensures ParseHms(a + [':'] + (b + [':'] + c)) == Some(d)
  {
    assert ':' !in a && ':' !in b && ':' !in c by {
      assert !IsDigit(':');
    }
    SplitThree(a, b, c);
  }

  /** Non-negative fields, formatted, read back unchanged. */
  lemma FormatHmsParses(d: Hms)
    requires d.hours >= 0 && d.minutes >= 0 && d.seconds >= 0
    ensures ParseHms(FormatHms(d)) == Some(d)
  {
    var a, b, c := Field(d.hours), Field(d.minutes), Field(d.seconds);
    FieldValue(d.hours);
    FieldValue(d.minutes);
    FieldValue(d.seconds);
    var t := a + [':'] + (b + [':'] + c);
    assert FormatHms(d) == t by {
      JoinThree(a, b, c);
    }
    ParseJoined(a, b, c, d);
  }

  /** The formatted duration reads back as hours, minutes and seconds that add up to the
   * number of seconds it was made from. */
  lemma FormatDurationRoundTrip(seconds: nat)
    ensures ParseHms(FormatDuration(seconds)) == Some(Decompose(seconds))
    ensures TotalSeconds(Decompose(seconds)) == seconds
  {
    FormatHmsParses(Decompose(seconds));
    DecomposeSum(seconds);
  }

  /** Two-character groups joined by ':' make eight characters with colons at 2 and 5. */
  lemma JoinShape(a: string, b: string, c: string)
    requires |a| == 2 && |b| == 2 && |c| == 2
    ensures var r := a + [':'] + (b + [':'] + c); |r| == 8 && r[2] == ':' && r[5] == ':'
  {
  }

  /** Fields below 100 are formatted as exactly `HH:MM:SS`. */
  lemma FormatHmsShape(d: Hms)
    requires 0 <= d.hours < 100 && 0 <= d.minutes < 100 && 0 <= d.seconds < 100
    ensures var r := FormatHms(d); |r| == 8 && r[2] == ':' && r[5] == ':'
  {
    var a, b, c := Field(d.hours), Field(d.minutes), Field(d.seconds);
    JoinThree(a, b, c);
    JoinShape(a, b, c);
  }

  /** Below 100 hours the format is exactly `HH:MM:SS`: eight characters, colons at 2 and 5. */
  lemma FormatDurationShape(seconds: nat)
    requires seconds < 360000
    ensures var r := FormatDuration(seconds); |r| == 8 && r[2] == ':' && r[5] == ':'
  {
    DivBelow(seconds, 3600, 100);
    FormatHmsShape(Decompose(seconds));
  }

  /** Zero seconds is shown as `00:00:00`. */
  lemma FormatDurationZero()
    ensures FormatDuration(0) == "00:00:00"
  {
    var z := Field(0);
    assert z == "00" by {
      assert NatToString(0) == "0";
      assert PadStart("0", 2, '0') == "00";
    }
    assert Decompose(0) == Hms(0, 0, 0);
    JoinThree(z, z, z);
  }

  /** The shape of the stored session. `startTime` is the start as milliseconds. */
  datatype Session = Session(description: string, project: Option<string>, startTime: int, isTracking: bool)

  /** The idle session: no description, no project, not tracking. */
  const InitialSession: Session := Session("", None, 0, false)

  /** What the storage slot holds: a parsable session, the empty string (falsy), or text
   * `JSON.parse` rejects. */
  datatype Stored = Parsed(session: Session) | EmptyText | Unparsable

  /** The row `stopTracking` asks the database to insert. */
  datatype EntryRow = EntryRow(description: string, project: Option<string>, startTime: int, endTime: int)

  /** What `getTrackingDetails` returns for display. */
  datatype Details = Details(description: string, project: Option<string>, duration: string)

  /** The local-storage slot `timetrack_active_session`. */
  class SessionStore {
    var slot: Option<Stored>

    constructor()
      ensures slot == None
    {
      slot := None;
    }

    /** `getTrackingSession()`. */
    function Current(): (s: Session)
      reads this
      ensures (slot.Some? && slot.value.Parsed?) ==> s == slot.value.session
      ensures !(slot.Some? && slot.value.Parsed?) ==> s == InitialSession
    {
      match slot
      case Some(Parsed(session)) => session
      case _ => InitialSession
    }

    /** `isTracking()`. */
    predicate IsTracking()
      reads this
    {
      Current().isTracking
    }

    /** `saveTrackingSession(session)`. */
    method Save(session: Session)
      modifies this
      ensures slot == Some(Parsed(session)) && Current() == session
    {
      slot := Some(Parsed(session));
    }

    /** `clearTrackingSession()`. */
    method Clear()
      modifies this
      ensures slot == None && Current() == InitialSession
    {
      slot := None;
    }

    /** `startTracking(description, project)` at time `now`. */
    method StartTracking(description: string, project: Option<string>, now: int) returns (r: Session)
      modifies this
      ensures Trim(description) == [] ==> slot == old(slot) && r == Current()
      ensures Trim(description) != [] ==> r == Session(description, project, now, true)
      ensures Trim(description) != [] ==> slot == Some(Parsed(r)) && Current() == r && IsTracking()
    {
      if Trim(description) == [] {
        r := Current();
        return;
      }
      r := Session(description, project, now, true);
      Save(r);
    }

    /** `stopTracking()` at time `now`; `insertSucceeds` is the database's answer. The
     * row is the insert that is attempted, if any. */
    method StopTracking(now: int, insertSucceeds: bool) returns (ok: bool, row: Option<EntryRow>)
      modifies this
      ensures !old(IsTracking()) ==> !ok && row == None && slot == old(slot)
      ensures old(IsTracking()) ==>
                row == Some(EntryRow(old(Current()).description, old(Current()).project, old(Current()).startTime, now))
      ensures old(IsTracking()) && insertSucceeds ==> ok && slot == None && !IsTracking()
      ensures old(IsTracking()) && !insertSucceeds ==> !ok && slot == old(slot)
    {
      var session := Current();
      if !session.isTracking {
        return false, None;
      }
      row := Some(EntryRow(session.description, session.project, session.startTime, now));
      if !insertSucceeds {
        return false, row;
      }
      Clear();
      ok := true;
    }

    /** `getElapsedTime()` at time `now`: whole seconds since the start, 0 when idle. */
    function ElapsedTime(now: int): (r: int)
      reads this
      ensures !IsTracking() ==> r == 0
      ensures IsTracking() ==> r * 1000 <= now - Current().startTime < (r + 1) * 1000
    {
      if !Current().isTracking then 0 else FloorDiv(now - Current().startTime, 1000)
    }

    /** `getTrackingDetails()` at time `now`. */
    function TrackingDetails(now: int): (d: Details)
      reads this
      ensures !IsTracking() ==> d == Details("", None, "00:00:00")
      ensures IsTracking() ==> d.description == Current().description && d.project == Current().project
      ensures IsTracking() && now >= Current().startTime ==>
                ParseHms(d.duration).Some? && TotalSeconds(ParseHms(d.duration).value) == ElapsedTime(now)
    {
      if !Current().isTracking then Details("", None, "00:00:00")
      else
        var e := ElapsedTime(now);
        if e >= 0 then FormatDurationRoundTrip(e); Details(Current().description, Current().project, FormatDuration(e))
        else Details(Current().description, Current().project, FormatDuration(e))
    }
  }

  /** Idle details show the same text as a zero duration. */
  lemma IdleDurationIsZero()
    ensures Details("", None, "00:00:00").duration == FormatDuration(0)
  {
    FormatDurationZero();
  }

  /** A session that was started reads back as tracking, with the description as typed. */
  method StartThenRead(store: SessionStore, description: string, project: Option<string>, now: int)
    returns (details: Details)
    requires Trim(description) != []
    modifies store
    ensures details.description == description && details.project == project
    ensures store.IsTracking()
  {
    var _ := store.StartTracking(description, project, now);
    details := store.TrackingDetails(now);
  }
}
