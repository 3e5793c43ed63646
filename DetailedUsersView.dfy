/*
 * DetailedUsersView: the user activity page. A first loop over the entries builds
 * a dictionary from user id to statistics, every entry counting; a second loop over
 * the dictionary's values sets each user's mean duration; the values are then
 * sorted by hours, descending. The summary cards show the number of users, the
 * total hours and the mean hours per user.
 */
module DetailedUsersView {
  import opened Base
  import opened Sorting
  import opened Grouping
  import opened EntryList

  /** A registered user: `{ id, email }`. */
  datatype User = User(id: string, email: string)

  datatype UserStat = UserStat(userId: string, email: string, totalHours: real, entryCount: nat,
                               avgDuration: real, lastActive: int)

  /** `users.find(u => u.id === id)`: the first user with that id. */
  function FindUser(users: seq<User>, id: string): (r: Option<User>)
    ensures r.Some? ==> r.value in users && r.value.id == id
    ensures r.None? <==> forall i :: 0 <= i < |users| ==> users[i].id != id
    ensures r.Some? ==> exists i :: 0 <= i < |users| && users[i] == r.value && forall j :: 0 <= j < i ==> users[j].id != id
  {
    if users == [] then None
    else if users[0].id == id then
      Some(users[0])
    else
      var r := FindUser(users[1..], id);
      assert forall i :: 1 <= i < |users| ==> users[i] == users[1..][i - 1];
      r
  }

  /** `user?.email || entry.user_email || 'Unknown'`. */
  function EmailFor(users: seq<User>, e: TimeEntry): (r: string)
    ensures r != ""
    ensures var user := FindUser(users, e.userId);
            if user.Some? && user.value.email != "" then r == user.value.email
            else if Truthy(e.userEmail) then r == e.userEmail.value
            else r == "Unknown"
  {
    var user := FindUser(users, e.userId);
    if user.Some? && user.value.email != "" then user.value.email
    else if Truthy(e.userEmail) then e.userEmail.value
    else "Unknown"
  }

  function EmailWith(users: seq<User>): TimeEntry -> string
  {
    e => EmailFor(users, e)
  }

  /** Every entry is counted, grouped by its user id. */
  function UserOf(e: TimeEntry): Option<string>
  {
    Some(e.userId)
  }

  function StartOf(e: TimeEntry): int
  {
    e.startTime
  }

  function Hours(x: UserStat): real
  {
    x.totalHours
  }

  /** The statistics of user `u` after the first loop over `s`: the email chosen for
   * the user's first entry, the sum and number of the user's durations, the latest
   * start time, and a mean not yet set. */
  function Tallied(s: seq<TimeEntry>, users: seq<User>, u: string): UserStat
    requires u in Keys(s, UserOf)
  {
    UserStat(u, FirstOf(s, UserOf, EmailWith(users), u).value, GroupSum(s, UserOf, Duration, u),
             GroupCount(s, UserOf, u), 0.0, LatestOf(s, UserOf, StartOf, u).value)
  }

  /** The statistics of user `u` that the page shows: `Tallied` with the mean set. */
  function Final(s: seq<TimeEntry>, users: seq<User>, u: string): (r: UserStat)
    requires u in Keys(s, UserOf)
    ensures r.entryCount >= 1
  {
    PresentCount(s, UserOf, u);
    var t := Tallied(s, users, u);
    WithMean(t)
  }

  /** `user.avgDuration = user.totalHours / user.entryCount`. */
  function WithMean(x: UserStat): (r: UserStat)
    requires x.entryCount >= 1
    ensures r.avgDuration * r.entryCount as real == r.totalHours
    ensures r == x.(avgDuration := r.avgDuration)
  {
    x.(avgDuration := x.totalHours / x.entryCount as real)
  }

  /** The statistics a user's first entry creates. */
  function Fresh(users: seq<User>, e: TimeEntry): UserStat
  {
    UserStat(e.userId, EmailFor(users, e), 0.0, 0, 0.0, e.startTime)
  }

  /** The update an entry makes to its user's statistics: `totalHours += duration`,
   * `entryCount += 1`, and `lastActive` moves to a strictly later start time. */
  function Add(current: UserStat, e: TimeEntry): UserStat
  {
    current.(totalHours := current.totalHours + e.duration,
             entryCount := current.entryCount + 1,
             lastActive := if e.startTime > current.lastActive then e.startTime else current.lastActive)
  }

  /** What one iteration of the first loop does to the dictionary. */
  function Record(users: seq<User>, m: map<string, UserStat>, e: TimeEntry): map<string, UserStat>
  {
    m[e.userId := Add(if e.userId in m then m[e.userId] else Fresh(users, e), e)]
  }

  /** The dictionary the first loop has built after the entries `s`. */
  function Built(users: seq<User>, s: seq<TimeEntry>): map<string, UserStat>
    decreases |s|
  {
    if s == [] then map[] else Record(users, Built(users, s[..|s| - 1]), s[|s| - 1])
  }

  lemma BuiltAdvance(users: seq<User>, s: seq<TimeEntry>, i: nat)
    requires i < |s|
    ensures Built(users, s[..i + 1]) == Record(users, Built(users, s[..i]), s[i])
  {
    assert s[..i + 1][..i] == s[..i];
  }

  /** How one more entry changes the tallied statistics of user `u`. */
  lemma TalliedStep(p: seq<TimeEntry>, x: TimeEntry, users: seq<User>, u: string)
    requires u in Keys(p + [x], UserOf)
    ensures x.userId != u ==> u in Keys(p, UserOf) && Tallied(p + [x], users, u) == Tallied(p, users, u)
    ensures x.userId == u && u in Keys(p, UserOf) ==> Tallied(p + [x], users, u) == Add(Tallied(p, users, u), x)
    ensures x.userId == u && u !in Keys(p, UserOf) ==> Tallied(p + [x], users, u) == Add(Fresh(users, x), x)
  {
    KeysSnoc(p, x, UserOf);
    Snoc(p, x, UserOf, Duration, EmailWith(users), StartOf, u);
    if u !in Keys(p, UserOf) {
      AbsentSum(p, UserOf, Duration, u);
    }
  }

  /** After the first loop the dictionary holds one entry per user id, and it is the
   * tallied one. */
  lemma {:induction false} BuiltTallied(users: seq<User>, s: seq<TimeEntry>)
    ensures forall u :: u in Built(users, s) <==> u in Keys(s, UserOf)
    ensures forall u :: u in Built(users, s) ==> Built(users, s)[u] == Tallied(s, users, u)
    decreases |s|
  {
    if s != [] {
      var p, x := s[..|s| - 1], s[|s| - 1];
      assert s == p + [x];
      BuiltTallied(users, p);
      KeysSnoc(p, x, UserOf);
      forall u | u in Built(users, s) ensures Built(users, s)[u] == Tallied(p + [x], users, u) {
        TalliedStep(p, x, users, u);
      }
    }
  }

  /** The `forEach` callback of the first loop: create the user's statistics on their
   * first entry, then add the entry to them. */
  method Tally(users: seq<User>, stats: map<string, UserStat>, keys: seq<string>, entry: TimeEntry)
    returns (stats': map<string, UserStat>, keys': seq<string>)
    ensures stats' == Record(users, stats, entry)
    ensures keys' == if entry.userId !in stats then keys + [entry.userId] else keys
  {
    stats', keys' := stats, keys;
    if entry.userId !in stats' {
      var user := FindUser(users, entry.userId);
      var email := if user.Some? && user.value.email != "" then user.value.email
                   else if Truthy(entry.userEmail) then entry.userEmail.value
                   else "Unknown";
      stats' := stats'[entry.userId := UserStat(entry.userId, email, 0.0, 0, 0.0, entry.startTime)];
      keys' := keys' + [entry.userId];
    }
    var current := stats'[entry.userId];
    assert current == if entry.userId in stats then stats[entry.userId] else Fresh(users, entry);
    ghost var created := stats';
    stats' := stats'[entry.userId := Add(current, entry)];
    assert created[entry.userId := Add(current, entry)] == stats[entry.userId := Add(current, entry)];
  }

  /** The first loop, with the keys in order of creation. */
  method TallyAll(entries: seq<TimeEntry>, users: seq<User>) returns (stats: map<string, UserStat>, keys: seq<string>)
    ensures stats == Built(users, entries) && keys == Keys(entries, UserOf)
    ensures forall u :: u in stats <==> u in keys
  {
    stats := map[];
    keys := [];
    var i := 0;
    while i < |entries|
      invariant 0 <= i <= |entries|
      invariant keys == Keys(entries[..i], UserOf)
      invariant stats == Built(users, entries[..i])
      invariant forall u :: u in stats <==> u in keys
    {
      KeysAdvance(entries, i, UserOf);
      BuiltAdvance(users, entries, i);
      stats, keys := Tally(users, stats, keys, entries[i]);
      i := i + 1;
    }
    assert entries[..i] == entries;
  }

  /** `b.totalHours - a.totalHours` is negative. */
  predicate MoreHours(a: UserStat, b: UserStat)
  {
    a.totalHours > b.totalHours
  }

  /** `userStats`: one row per user id that has an entry, each with its statistics and
   * mean, by decreasing hours; together the rows hold all the hours. */
  method UserStats(entries: seq<TimeEntry>, users: seq<User>) returns (result: seq<UserStat>)
    ensures |result| == |Keys(entries, UserOf)|
    ensures forall u :: u in Keys(entries, UserOf) <==> exists x :: x in result && x.userId == u
    ensures forall x :: x in result ==> x.userId in Keys(entries, UserOf) && x == Final(entries, users, x.userId)
    ensures forall i, j :: 0 <= i < j < |result| ==> result[i].totalHours >= result[j].totalHours
    ensures SumOf(result, Hours) == TotalHours(entries)
  {
    var stats, keys := TallyAll(entries, users);
    BuiltTallied(users, entries);
    forall u | u in stats ensures stats[u].entryCount >= 1 {
      PresentCount(entries, UserOf, u);
    }
    var tallied := stats;
    stats := SetMeans(stats, keys);
    forall u | u in stats ensures stats[u] == Final(entries, users, u) {
      assert tallied[u] == Tallied(entries, users, u);
    }
    var values := Values(keys, stats);
    result := SortBy(values, MoreHours);
    ListedStats(entries, users, keys, values, result);
  }

  /** The second loop, over `Object.values(stats)`: set each user's mean. */
  method SetMeans(stats: map<string, UserStat>, keys: seq<string>) returns (stats': map<string, UserStat>)
    requires NoDuplicates(keys)
    requires forall u :: u in stats <==> u in keys
    requires forall u :: u in stats ==> stats[u].entryCount >= 1
    ensures forall u :: u in stats' <==> u in stats
    ensures forall u :: u in stats ==> stats'[u] == WithMean(stats[u])
  {
    stats' := stats;
    var j := 0;
    while j < |keys|
      invariant 0 <= j <= |keys|
      invariant forall u :: u in stats' <==> u in stats
      invariant forall k :: 0 <= k < j ==> stats'[keys[k]] == WithMean(stats[keys[k]])
      invariant forall k :: j <= k < |keys| ==> stats'[keys[k]] == stats[keys[k]]
    {
      var user := stats'[keys[j]];
      stats' := stats'[keys[j] := user.(avgDuration := user.totalHours / user.entryCount as real)];
      DistinctKeys(keys, j);
      j := j + 1;
    }
    forall u | u in stats ensures stats'[u] == WithMean(stats[u]) {
      var k :| 0 <= k < |keys| && keys[k] == u;
    }
  }

  /** Keys at other positions than `j` differ from the key at `j`. */
  lemma DistinctKeys(keys: seq<string>, j: nat)
    requires NoDuplicates(keys) && j < |keys|
    ensures forall k :: 0 <= k < |keys| && k != j ==> keys[k] != keys[j]
  {
  }

  /** The sorted list of the dictionary's values holds one row per user. */
  lemma ListedStats(entries: seq<TimeEntry>, users: seq<User>, keys: seq<string>, values: seq<UserStat>,
                    result: seq<UserStat>)
    requires keys == Keys(entries, UserOf)
    requires |values| == |keys| && forall j :: 0 <= j < |keys| ==> values[j] == Final(entries, users, keys[j])
    requires result == SortBy(values, MoreHours)
    ensures |result| == |keys|
    ensures forall u :: u in Keys(entries, UserOf) <==> exists x :: x in result && x.userId == u
    ensures forall x :: x in result ==> x.userId in keys && x == Final(entries, users, x.userId)
    ensures forall i, j :: 0 <= i < j < |result| ==> result[i].totalHours >= result[j].totalHours
    ensures SumOf(result, Hours) == TotalHours(entries)
  {
    SortByPermutes(values, MoreHours);
    SortBySorted(values, MoreHours);
    ListedMembers(entries, users, keys, values, result);
    ListedTotal(entries, users, keys, values, result);
  }

  lemma ListedMembers(entries: seq<TimeEntry>, users: seq<User>, keys: seq<string>, values: seq<UserStat>,
                      result: seq<UserStat>)
    requires keys == Keys(entries, UserOf)
    requires |values| == |keys| && forall j :: 0 <= j < |keys| ==> values[j] == Final(entries, users, keys[j])
    requires multiset(result) == multiset(values)
    ensures forall u :: u in Keys(entries, UserOf) <==> exists x :: x in result && x.userId == u
    ensures forall x :: x in result ==> x.userId in keys && x == Final(entries, users, x.userId)
  {
    forall x | x in result ensures x.userId in keys && x == Final(entries, users, x.userId) {
      assert x in multiset(values);
      var j :| 0 <= j < |values| && values[j] == x;
    }
    forall u | u in keys ensures exists x :: x in result && x.userId == u {
      var j :| 0 <= j < |keys| && keys[j] == u;
      assert values[j] in multiset(result);
    }
  }

  lemma ListedTotal(entries: seq<TimeEntry>, users: seq<User>, keys: seq<string>, values: seq<UserStat>,
                    result: seq<UserStat>)
    requires keys == Keys(entries, UserOf)
    requires |values| == |keys| && forall j :: 0 <= j < |keys| ==> values[j] == Final(entries, users, keys[j])
    requires multiset(result) == multiset(values)
    ensures SumOf(result, Hours) == TotalHours(entries)
  {
    SumOfPermutation(result, values, Hours);
    SumOfMatched(values, keys, Hours, SumFor(entries, UserOf, Duration));
    SumsConserved(entries, UserOf, Duration);
    FilterAll(entries, IsIncluded(UserOf));
  }

  /** The "Avg. Hours Per User" card, `'0'` when there is no user. */
  function HoursPerUser(stats: seq<UserStat>): (r: real)
    ensures |stats| == 0 ==> r == 0.0
    ensures |stats| > 0 ==> r * |stats| as real == SumOf(stats, Hours)
  {
    if |stats| > 0 then SumOf(stats, Hours) / |stats| as real else 0.0
  }
}
