/*
 * UseTimeEntries: the hook behind the dashboard's entry list. It names a cache slot
 * after the filters, uses a cached result younger than five minutes, otherwise
 * fetches with the user restriction the filters call for, and adds entries after
 * checking their times, summarising long descriptions and clearing the cache slot.
 *
 * The session storage is a map from slot names to what `JSON.parse` makes of the
 * stored text. The clock (`Date.now()`), the database's answers and the parsing of
 * the entry times are inputs: a time that `new Date` cannot read is `None`.
 */
module UseTimeEntries {
  import opened Base
  import Summarizer

  /** `userId` in a template string or a query: `undefined` prints as "undefined". */
  function UserIdText(userId: Option<string>): string
  {
    if userId.Some? then userId.value else "undefined"
  }

  /** `selectedUser || userId`. */
  function Owner(selectedUser: string, userId: Option<string>): string
  {
    if selectedUser != "" then selectedUser else UserIdText(userId)
  }

  function Mode(isAdmin: bool): string
  {
    if isAdmin then "admin" else "user"
  }

  /** The cache key as written: the mode, `selectedUser || userId`, and the date range,
   * joined by '-'. */
  function CacheKeyAsWritten(isAdmin: bool, userId: Option<string>, selectedUser: string, start: string, end: string): string
  {
    Mode(isAdmin) + "-" + Owner(selectedUser, userId) + "-" + start + "-" + end
  }

  /** Whose entries the query reads: everyone's, or those whose `user_id` equals the
   * given text. */
  datatype Restriction = AllUsers | OnlyUser(id: string)

  /** The `.eq('user_id', …)` of `fetchTimeEntries`: a user sees their own entries;
   * an admin sees the selected user's, or everyone's when nobody is selected. */
  function QueryRestriction(isAdmin: bool, userId: Option<string>, selectedUser: string): (r: Restriction)
    ensures !isAdmin ==> r == OnlyUser(UserIdText(userId))
    ensures isAdmin && selectedUser != "" ==> r == OnlyUser(selectedUser)
    ensures isAdmin && selectedUser == "" ==> r == AllUsers
  {
    if !isAdmin then OnlyUser(UserIdText(userId))
    else if selectedUser != "" then OnlyUser(selectedUser)
    else AllUsers
  }

  /** An entry of user `owner` is read by the query. */
  predicate Admits(r: Restriction, owner: string)
  {
    r.AllUsers? || r.id == owner
  }

  /** A user never reads another user's entries; an admin reads everyone's unless a
   * user is selected. */
  lemma RestrictionScope(isAdmin: bool, userId: string, selectedUser: string, owner: string)
    ensures !isAdmin ==> (Admits(QueryRestriction(isAdmin, Some(userId), selectedUser), owner) <==> owner == userId)
    ensures isAdmin && selectedUser != "" ==>
              (Admits(QueryRestriction(isAdmin, Some(userId), selectedUser), owner) <==> owner == selectedUser)
    ensures isAdmin && selectedUser == "" ==> Admits(QueryRestriction(isAdmin, Some(userId), selectedUser), owner)
  {
  }

  /** The whole query: the restriction and the `gte`/`lte` bounds on `start_time`,
   * each only when its end of the range is set. */
  datatype Query = Query(restriction: Restriction, from: Option<string>, to: Option<string>)

  function EntriesQuery(isAdmin: bool, userId: Option<string>, selectedUser: string, start: string, end: string): (q: Query)
    ensures q.restriction == QueryRestriction(isAdmin, userId, selectedUser)
    ensures q.from.None? <==> start == ""
    ensures q.to.None? <==> end == ""
    ensures q.from.Some? ==> q.from.value == start
    ensures q.to.Some? ==> q.to.value == end
  {
    Query(QueryRestriction(isAdmin, userId, selectedUser),
          if start != "" then Some(start) else None,
          if end != "" then Some(end) else None)
  }

  /** An admin who selects nobody and the same admin selecting themselves get the same
   * key, although the first query reads everyone's entries and the second only their
   * own: each is served the other's cached result. */
  lemma CacheKeyAsWrittenCollides()
    ensures CacheKeyAsWritten(true, Some("u1"), "", "s", "e") == CacheKeyAsWritten(true, Some("u1"), "u1", "s", "e")
    ensures QueryRestriction(true, Some("u1"), "") != QueryRestriction(true, Some("u1"), "u1")
  {
  }

  /** The key with the selected user for an admin (empty for everyone) and the own id
   * for a user, so that one key never serves two different restrictions. */
  function CacheKey(isAdmin: bool, userId: Option<string>, selectedUser: string, start: string, end: string): (r: string)
    ensures isAdmin && selectedUser != "" ==> r == CacheKeyAsWritten(isAdmin, userId, selectedUser, start, end)
    ensures !isAdmin ==> r == CacheKeyAsWritten(isAdmin, userId, "", start, end)
  {
    Mode(isAdmin) + "-" + (if isAdmin then selectedUser else UserIdText(userId)) + "-" + start + "-" + end
  }

  /** For one date range, equal keys mean the same restriction. */
  lemma CacheKeySeparatesRestrictions(isAdmin: bool, userId: Option<string>, selectedUser: string,
                                      isAdmin': bool, userId': Option<string>, selectedUser': string,
                                      start: string, end: string)
    requires CacheKey(isAdmin, userId, selectedUser, start, end) == CacheKey(isAdmin', userId', selectedUser', start, end)
    ensures QueryRestriction(isAdmin, userId, selectedUser) == QueryRestriction(isAdmin', userId', selectedUser')
  {
    var scope := if isAdmin then selectedUser else UserIdText(userId);
    var scope' := if isAdmin' then selectedUser' else UserIdText(userId');
    var a, b := Mode(isAdmin) + "-" + scope, Mode(isAdmin') + "-" + scope';
    SameTail(a + "-" + start + "-", b + "-" + start + "-", end);
    SameTail(a + "-" + start, b + "-" + start, "-");
    SameTail(a + "-", b + "-", start);
    SameTail(a, b, "-");
    SameModeAndScope(isAdmin, scope, isAdmin', scope');
  }

  /** The mode and the scope can be read back from the start of a key. */
  lemma SameModeAndScope(isAdmin: bool, scope: string, isAdmin': bool, scope': string)
    requires Mode(isAdmin) + "-" + scope == Mode(isAdmin') + "-" + scope'
    ensures isAdmin == isAdmin' && scope == scope'
  {
    assert (Mode(isAdmin) + "-" + scope)[0] == Mode(isAdmin)[0];
    assert (Mode(isAdmin') + "-" + scope')[0] == Mode(isAdmin')[0];
    var head := Mode(isAdmin) + "-";
    assert scope == (head + scope)[|head|..];
    assert scope' == (head + scope')[|head|..];
  }

  /** Equal strings with the same ending are equal before it. */
  lemma SameTail(a: string, b: string, tail: string)
    requires a + tail == b + tail
    ensures a == b
  {
    assert |a| == |b|;
    assert a == (a + tail)[..|a|];
    assert b == (b + tail)[..|b|];
  }

  /** `timeEntries-${cacheKey}`: the session-storage slot of a key. */
  function Slot(cacheKey: string): string
  {
    "timeEntries-" + cacheKey
  }

  /** A row of `time_entries`, and the same row once the hook has added the user's
   * email and a summary. */
  datatype Entry = Entry(
    id: string,
    description: Option<string>,
    descriptionSummary: Option<string>,
    startTime: int,
    endTime: int,
    duration: real,
    userId: string,
    userEmail: Option<string>)

  /** A slot's text as `JSON.parse` reads it: the cached entries and the time they
   * were stored, or something the `try` gives up on. */
  datatype Stored = Snapshot(data: seq<Entry>, timestamp: int) | Unreadable

  /** Five minutes in milliseconds. */
  const MaxAge: int := 5 * 60 * 1000

  /** The cached data is used while it is less than five minutes old. */
  predicate Fresh(now: int, timestamp: int)
  {
    now - timestamp < MaxAge
  }

  /** A description this long is summarised. */
  const SummaryThreshold: nat := 200

  /** `!entrySummary && entry.description && entry.description.length > 200`: a
   * fetched entry is summarised when it has no summary and a long description. */
  predicate NeedsSummary(summary: Option<string>, description: Option<string>)
  {
    !Truthy(summary) && Truthy(description) && |description.value| > SummaryThreshold
  }

  /** The summary an added entry is stored with: one for a long description, `null`
   * otherwise. */
  function NewSummary(description: string): (r: Option<string>)
    ensures r.Some? <==> |description| > SummaryThreshold
    ensures r.Some? ==> r.value == Summarizer.SummarizeText(description)
  {
    if |description| > SummaryThreshold then Some(Summarizer.SummarizeText(description)) else None
  }

  /** Adding and fetching summarise the same descriptions: an entry added without a
   * summary is summarised on fetch exactly when adding it would have summarised it. */
  lemma SummaryRulesAgree(description: string)
    ensures NeedsSummary(None, Some(description)) <==> NewSummary(description).Some?
  {
  }

  /** What `get_user_email` answers for a user: an error, or an email that may be
   * `null`. */
  datatype EmailLookup = EmailFailed | EmailFound(email: Option<string>)

  /** The entry as `fetchTimeEntries` returns it: with the looked-up email, or
   * "Unknown" when the lookup failed or found nothing; and, when the lookup worked,
   * with a summary for a long description that has none, unless the summariser
   * throws. */
  function Enriched(entry: Entry, lookup: EmailLookup, summarizerWorks: bool): (r: Entry)
    ensures lookup.EmailFailed? ==> r == entry.(userEmail := Some("Unknown"))
    ensures lookup.EmailFound? && Truthy(lookup.email) ==> r.userEmail == lookup.email
    ensures lookup.EmailFound? && !Truthy(lookup.email) ==> r.userEmail == Some("Unknown")
    ensures lookup.EmailFound? && NeedsSummary(entry.descriptionSummary, entry.description) && summarizerWorks ==>
              r.descriptionSummary == Some(Summarizer.SummarizeText(entry.description.value))
    ensures !(NeedsSummary(entry.descriptionSummary, entry.description) && summarizerWorks) ==>
              r.descriptionSummary == entry.descriptionSummary
    ensures r == entry.(userEmail := r.userEmail, descriptionSummary := r.descriptionSummary)
  {
    match lookup
    case EmailFailed => entry.(userEmail := Some("Unknown"))
    case EmailFound(email) =>
      var summary :=
        if NeedsSummary(entry.descriptionSummary, entry.description) && summarizerWorks
        then Some(Summarizer.SummarizeText(entry.description.value))
        else entry.descriptionSummary;
      entry.(userEmail := if Truthy(email) then email else Some("Unknown"), descriptionSummary := summary)
  }

  /** Every returned entry has an email to show, and a summary already present is
   * never replaced. */
  lemma EnrichedKeeps(entry: Entry, lookup: EmailLookup, summarizerWorks: bool)
    ensures Truthy(Enriched(entry, lookup, summarizerWorks).userEmail)
    ensures Truthy(entry.descriptionSummary) ==>
              Enriched(entry, lookup, summarizerWorks).descriptionSummary == entry.descriptionSummary
  {
  }

  /** The entries of a query answer, each enriched with the lookup for its user. */
  function EnrichAll(rows: seq<Entry>, emailOf: string -> EmailLookup, summarizerWorks: bool): (r: seq<Entry>)
    ensures |r| == |rows|
    ensures forall i :: 0 <= i < |rows| ==> r[i] == Enriched(rows[i], emailOf(rows[i].userId), summarizerWorks)
  {
    seq(|rows|, i requires 0 <= i < |rows| => Enriched(rows[i], emailOf(rows[i].userId), summarizerWorks))
  }

  /** What the entries query answers: an error, or `data`, possibly `null`. */
  datatype QueryResult = QueryError | Rows(data: Option<seq<Entry>>)

  /** A user as `fetchUsers` lists them. */
  datatype User = User(id: string, email: string)

  predicate Known(u: User)
  {
    u.email != "Unknown"
  }

  /** `fetchUsers` keeps the users whose email was found, in order. */
  function KnownUsers(resolved: seq<User>): (r: seq<User>)
    ensures IsSubsequence(r, resolved)
    ensures forall u :: u in r <==> u in resolved && u.email != "Unknown"
    ensures forall u :: multiset(r)[u] == if u.email != "Unknown" then multiset(resolved)[u] else 0
  {
    FilterIsSubsequence(resolved, Known);
    FilterCounts(resolved, Known);
    Filter(resolved, Known)
  }

  /** The row `addTimeEntry` inserts. */
  datatype NewRow = NewRow(description: string, descriptionSummary: Option<string>, startTime: int, endTime: int,
                           userId: Option<string>)

  datatype AddOutcome = EndNotAfterStart | InvalidTime | InsertFailed | Added

  /** `sessionStorage`. */
  class SessionCache {
    var slots: map<string, Stored>

    constructor()
      ensures slots == map[]
    {
      slots := map[];
    }

    /** The entries the cache effect uses for `cacheKey` at time `now`; `None` means a
     * fetch. */
    function Cached(cacheKey: string, now: int): (r: Option<seq<Entry>>)
      reads this
      ensures r.Some? <==> Slot(cacheKey) in slots && slots[Slot(cacheKey)].Snapshot?
                           && Fresh(now, slots[Slot(cacheKey)].timestamp)
      ensures r.Some? ==> r.value == slots[Slot(cacheKey)].data
    {
      if Slot(cacheKey) in slots && slots[Slot(cacheKey)].Snapshot? && Fresh(now, slots[Slot(cacheKey)].timestamp)
      then Some(slots[Slot(cacheKey)].data)
      else None
    }

    /** `sessionStorage.setItem` after a fetch at time `now`: the data is served for the
     * next five minutes and not after. */
    method Store(cacheKey: string, data: seq<Entry>, now: int)
      modifies this
      ensures slots == old(slots)[Slot(cacheKey) := Snapshot(data, now)]
      ensures forall t :: now <= t < now + MaxAge ==> Cached(cacheKey, t) == Some(data)
      ensures forall t :: t >= now + MaxAge ==> Cached(cacheKey, t) == None
    {
      slots := slots[Slot(cacheKey) := Snapshot(data, now)];
    }

    /** `sessionStorage.removeItem`: the key is served by nothing. */
    method Remove(cacheKey: string)
      modifies this
      ensures slots == old(slots) - {Slot(cacheKey)}
      ensures forall t :: Cached(cacheKey, t) == None
    {
      slots := slots - {Slot(cacheKey)};
    }

    /** `fetchTimeEntries` with the query's answer: on an error the entries and the
     * cache stay as they were; otherwise the enriched rows (none for `null`) are shown
     * and cached at `now`. */
    method FetchTimeEntries(cacheKey: string, result: QueryResult, emailOf: string -> EmailLookup,
                            summarizerWorks: bool, now: int, previous: seq<Entry>)
      returns (entries: seq<Entry>)
      modifies this
      ensures result.QueryError? ==> entries == previous && slots == old(slots)
      ensures result.Rows? ==> entries == EnrichAll(GetOr(result.data, []), emailOf, summarizerWorks)
                                && slots == old(slots)[Slot(cacheKey) := Snapshot(entries, now)]
      ensures result.Rows? ==> Cached(cacheKey, now) == Some(entries)
    {
      if result.QueryError? {
        return previous;
      }
      entries := EnrichAll(GetOr(result.data, []), emailOf, summarizerWorks);
      Store(cacheKey, entries, now);
    }

    /** The cache effect: entries cached for the key less than five minutes ago are
     * shown without a query; otherwise the entries are fetched. */
    method LoadEntries(cacheKey: string, now: int, result: QueryResult, emailOf: string -> EmailLookup,
                       summarizerWorks: bool, previous: seq<Entry>)
      returns (entries: seq<Entry>)
      modifies this
      ensures old(Cached(cacheKey, now)).Some? ==> entries == old(Cached(cacheKey, now)).value && slots == old(slots)
      ensures old(Cached(cacheKey, now)).None? && result.QueryError? ==> entries == previous && slots == old(slots)
      ensures old(Cached(cacheKey, now)).None? && result.Rows? ==>
                entries == EnrichAll(GetOr(result.data, []), emailOf, summarizerWorks)
                && slots == old(slots)[Slot(cacheKey) := Snapshot(entries, now)]
      ensures old(Cached(cacheKey, now)).Some? || result.Rows? ==> Cached(cacheKey, now) == Some(entries)
    {
      var cached := Cached(cacheKey, now);
      if cached.Some? {
        return cached.value;
      }
      entries := FetchTimeEntries(cacheKey, result, emailOf, summarizerWorks, now, previous);
    }

    /** `addTimeEntry`. An end not after the start is rejected first; a time `new Date`
     * cannot read passes that test and throws at `toISOString`; otherwise the row is
     * inserted, and on success the cache slot is removed. Only success changes the
     * cache. */
    method AddTimeEntry(description: string, startTime: Option<int>, endTime: Option<int>, userId: Option<string>,
                        cacheKey: string, insertSucceeds: bool)
      returns (outcome: AddOutcome, row: Option<NewRow>)
      modifies this
      ensures startTime.Some? && endTime.Some? && endTime.value <= startTime.value ==>
                outcome == EndNotAfterStart && row == None
      ensures (startTime.None? || endTime.None?) ==> outcome == InvalidTime && row == None
      ensures startTime.Some? && endTime.Some? && endTime.value > startTime.value ==>
                row == Some(NewRow(description, NewSummary(description), startTime.value, endTime.value, userId))
                && (outcome == Added <==> insertSucceeds)
                && (!insertSucceeds ==> outcome == InsertFailed)
      ensures outcome == Added ==> slots == old(slots) - {Slot(cacheKey)}
      ensures outcome != Added ==> slots == old(slots)
    {
      if startTime.Some? && endTime.Some? && endTime.value <= startTime.value {
        return EndNotAfterStart, None;
      }
      var summary := NewSummary(description);
      if startTime.None? || endTime.None? {
        return InvalidTime, None;
      }
      row := Some(NewRow(description, summary, startTime.value, endTime.value, userId));
      if !insertSucceeds {
        return InsertFailed, row;
      }
      Remove(cacheKey);
      outcome := Added;
    }
  }
}
