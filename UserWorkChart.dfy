/*
 * UserWorkChart: the bar chart of hours per user. A loop over the entries builds a
 * dictionary from email to hours, skipping entries without an email; its entries
 * are sorted by hours, descending, the top five (on a narrow screen) or ten kept,
 * and long emails shortened on a narrow screen.
 *
 * Whether the window is narrower than 768 pixels is an input, `isMobile`.
 */
module UserWorkChart {
  import opened Base
  import opened JsText
  import opened JsObject
  import opened Sorting
  import opened Grouping
  import opened EntryList

  /** Entries with an email are grouped by it; the others are skipped. */
  function EmailKey(e: TimeEntry): Option<string>
  {
    if Truthy(e.userEmail) then Some(e.userEmail.value) else None
  }

  /** The hours of email `u` after the entries `s`. */
  function HoursOf(s: seq<TimeEntry>, u: string): real
  {
    GroupSum(s, EmailKey, Duration, u)
  }

  /** What one iteration of the loop does to the dictionary: a missing or zero value
   * is set to 0, then the duration is added. */
  function Record(m: map<string, real>, e: TimeEntry): map<string, real>
  {
    if EmailKey(e).None? then m
    else
      var email := e.userEmail.value;
      m[email := (if email in m then m[email] else 0.0) + e.duration]
  }

  /** The dictionary the loop has built after the entries `s`. */
  function Built(s: seq<TimeEntry>): map<string, real>
    decreases |s|
  {
    if s == [] then map[] else Record(Built(s[..|s| - 1]), s[|s| - 1])
  }

  lemma BuiltAdvance(s: seq<TimeEntry>, i: nat)
    requires i < |s|
    ensures Built(s[..i + 1]) == Record(Built(s[..i]), s[i])
  {
    assert s[..i + 1][..i] == s[..i];
  }

  /** The dictionary holds one value per email that has an entry: the sum of its
   * durations. */
  lemma {:induction false} BuiltHours(s: seq<TimeEntry>)
    ensures forall u :: u in Built(s) <==> u in Keys(s, EmailKey)
    ensures forall u :: u in Built(s) ==> Built(s)[u] == HoursOf(s, u)
    decreases |s|
  {
    if s != [] {
      var p, x := s[..|s| - 1], s[|s| - 1];
      assert s == p + [x];
      BuiltHours(p);
      BuiltStep(p, x);
    }
  }

  /** One more entry keeps the dictionary equal to the hours per email. */
  lemma BuiltStep(p: seq<TimeEntry>, x: TimeEntry)
    requires forall u :: u in Built(p) <==> u in Keys(p, EmailKey)
    requires forall u :: u in Built(p) ==> Built(p)[u] == HoursOf(p, u)
    ensures forall u :: u in Built(p + [x]) <==> u in Keys(p + [x], EmailKey)
    ensures forall u :: u in Built(p + [x]) ==> Built(p + [x])[u] == HoursOf(p + [x], u)
  {
    assert (p + [x])[..|p + [x]| - 1] == p;
    KeysSnoc(p, x, EmailKey);
    forall u | u in Built(p + [x]) ensures Built(p + [x])[u] == HoursOf(p + [x], u) {
      SnocTotals(p, x, EmailKey, Duration, u);
      if u !in Keys(p, EmailKey) {
        AbsentSum(p, EmailKey, Duration, u);
      }
    }
  }

  /** The `forEach` callback. */
  method Tally(userHours: map<string, real>, keys: seq<string>, entry: TimeEntry)
    returns (userHours': map<string, real>, keys': seq<string>)
    ensures userHours' == Record(userHours, entry)
    ensures keys' == if EmailKey(entry).Some? && entry.userEmail.value !in userHours then keys + [entry.userEmail.value] else keys
  {
    userHours', keys' := userHours, keys;
    if !Truthy(entry.userEmail) {
      return;
    }
    var userEmail := entry.userEmail.value;
    if userEmail !in userHours' || userHours'[userEmail] == 0.0 {
      if userEmail !in userHours' {
        keys' := keys' + [userEmail];
      }
      userHours' := userHours'[userEmail := 0.0];
    }
    assert userHours'[userEmail] == if userEmail in userHours then userHours[userEmail] else 0.0;
    ghost var reset := userHours';
    userHours' := userHours'[userEmail := userHours'[userEmail] + entry.duration];
    assert reset[userEmail := userHours'[userEmail]] == userHours[userEmail := userHours'[userEmail]];
  }

  /** The loop, with the emails in order of creation. */
  method TallyHours(entries: seq<TimeEntry>) returns (userHours: map<string, real>, keys: seq<string>)
    ensures userHours == Built(entries) && keys == Keys(entries, EmailKey)
    ensures forall u :: u in userHours <==> u in keys
  {
    userHours := map[];
    keys := [];
    var i := 0;
    while i < |entries|
      invariant 0 <= i <= |entries|
      invariant keys == Keys(entries[..i], EmailKey)
      invariant userHours == Built(entries[..i])
      invariant forall u :: u in userHours <==> u in keys
    {
      KeysAdvance(entries, i, EmailKey);
      BuiltAdvance(entries, i);
      userHours, keys := Tally(userHours, keys, entries[i]);
      i := i + 1;
    }
    assert entries[..i] == entries;
  }

  /** `b[1] - a[1]` is negative. */
  predicate MoreHours(a: (string, real), b: (string, real))
  {
    a.1 > b.1
  }

  function Shown(isMobile: bool): nat
  {
    if isMobile then 5 else 10
  }

  /** The mobile label of an email: one longer than 15 characters keeps the first 8
   * characters before its first '@' and the first 5 after it; `None` where the
   * email has no '@' and `parts[1].substring` throws. */
  function Label(email: string, isMobile: bool): (r: Option<string>)
    ensures !isMobile || |email| <= 15 ==> r == Some(email)
    ensures r.None? <==> isMobile && |email| > 15 && '@' !in email
    ensures isMobile && |email| > 15 && r.Some? ==> |r.value| <= 20
  {
    if isMobile && |email| > 15 then
      var parts := Split(email, '@');
      if |parts| < 2 then None
      else Some(Prefix(parts[0], 8) + "...@" + Prefix(parts[1], 5) + "...")
    else Some(email)
  }

  /** A long email `local@domain` is shown as the start of `local`, "...@", the start
   * of `domain` and "...". */
  lemma LabelOfAddress(local: string, domain: string)
    requires '@' !in local && '@' !in domain && |local| + 1 + |domain| > 15
    ensures Label(local + "@" + domain, true) == Some(Prefix(local, 8) + "...@" + Prefix(domain, 5) + "...")
  {
    SplitNoSeparator(domain, '@');
    SplitAtSeparator(local, domain, '@');
    assert local + "@" + domain == local + ['@'] + domain;
  }

  /** `parseFloat(hours.toFixed(2))`: the hours rounded to hundredths. */
  function Hundredths(hours: real): (r: real)
    ensures hours - 0.005 < r <= hours + 0.005
  {
    Round(hours * 100.0) as real / 100.0
  }

  datatype ChartData = ChartData(labels: seq<string>, data: seq<real>, originalEmails: seq<string>)

  /** The labels of the listed emails, or `None` where one of them throws. */
  function Labels(emails: seq<string>, isMobile: bool): (r: Option<seq<string>>)
    ensures r.Some? <==> forall i :: 0 <= i < |emails| ==> Label(emails[i], isMobile).Some?
    ensures r.Some? ==> |r.value| == |emails| && forall i :: 0 <= i < |emails| ==> r.value[i] == Label(emails[i], isMobile).value
  {
    if emails == [] then Some([])
    else
      var head, rest := Label(emails[0], isMobile), Labels(emails[1..], isMobile);
      if head.None? || rest.None? then
        (if head.Some? then
           var i :| 0 <= i < |emails[1..]| && Label(emails[1..][i], isMobile).None?;
           assert Label(emails[i + 1], isMobile).None?;
           None
         else None)
      else
        var r := Some([head.value] + rest.value);
        assert forall i :: 1 <= i < |emails| ==> emails[i] == emails[1..][i - 1];
        r
  }

  /** What the chart shows for the entries: at most five or ten emails, by
   * decreasing hours, none left out with more hours than one shown, each with its
   * hours rounded to hundredths and its label. */
  ghost predicate Charted(entries: seq<TimeEntry>, isMobile: bool, d: ChartData)
  {
    |d.labels| == |d.data| == |d.originalEmails| == Min(Shown(isMobile), |Keys(entries, EmailKey)|)
    && (forall i :: 0 <= i < |d.originalEmails| ==>
          d.originalEmails[i] in Keys(entries, EmailKey)
          && d.data[i] == Hundredths(HoursOf(entries, d.originalEmails[i]))
          && Label(d.originalEmails[i], isMobile) == Some(d.labels[i]))
    && (forall i, j :: 0 <= i < j < |d.originalEmails| ==>
          HoursOf(entries, d.originalEmails[i]) >= HoursOf(entries, d.originalEmails[j]))
    && (forall u, i :: u in Keys(entries, EmailKey) && u !in d.originalEmails && 0 <= i < |d.originalEmails| ==>
          HoursOf(entries, u) <= HoursOf(entries, d.originalEmails[i]))
  }

  /** The dictionary's entries sorted by decreasing hours: every email with an entry
   * appears once, with its hours. */
  ghost predicate Ranked(entries: seq<TimeEntry>, sortedUsers: seq<(string, real)>)
  {
    |sortedUsers| == |Keys(entries, EmailKey)|
    && (forall i :: 0 <= i < |sortedUsers| ==>
          sortedUsers[i].0 in Keys(entries, EmailKey) && sortedUsers[i].1 == HoursOf(entries, sortedUsers[i].0))
    && (forall u :: u in Keys(entries, EmailKey) ==> exists m :: 0 <= m < |sortedUsers| && sortedUsers[m].0 == u)
    && forall i, j :: 0 <= i < j < |sortedUsers| ==> sortedUsers[i].1 >= sortedUsers[j].1
  }

  /** The loop, `Object.entries` and the sort. */
  method RankedUsers(entries: seq<TimeEntry>) returns (sortedUsers: seq<(string, real)>)
    ensures Ranked(entries, sortedUsers)
  {
    var userHours, keys := TallyHours(entries);
    var order := OwnKeys(keys);
    OwnKeysMembers(keys);
    forall i | 0 <= i < |order| ensures order[i] in userHours {
      assert order[i] in order;
    }
    var pairs := seq(|order|, i requires 0 <= i < |order| => (order[i], userHours[order[i]]));
    Pairs(entries, userHours, keys, order, pairs);
    sortedUsers := SortBy(pairs, MoreHours);
    SortedPairs(entries, order, pairs, sortedUsers);
    forall u | u in Keys(entries, EmailKey) ensures exists m :: 0 <= m < |sortedUsers| && sortedUsers[m].0 == u {
      var m := Unlisted(entries, order, pairs, sortedUsers, u);
    }
  }

  /** `userData`: the chart of the emails with the most hours; `None` where a label
   * throws, which only a long email without '@' on a narrow screen does. */
  method UserData(entries: seq<TimeEntry>, isMobile: bool) returns (r: Option<ChartData>)
    ensures r.Some? ==> Charted(entries, isMobile, r.value)
    ensures r.None? ==> isMobile && exists u :: u in Keys(entries, EmailKey) && Label(u, isMobile).None?
    ensures (forall u :: u in Keys(entries, EmailKey) ==> Label(u, isMobile).Some?) ==> r.Some?
  {
    var sortedUsers := RankedUsers(entries);
    var top := Slice(sortedUsers, 0, Shown(isMobile));
    var emails := seq(|top|, i requires 0 <= i < |top| => top[i].0);
    TopEmails(entries, sortedUsers, top, emails);
    var labels := Labels(emails, isMobile);
    if labels.None? {
      var i :| 0 <= i < |emails| && Label(emails[i], isMobile).None?;
      return None;
    }
    var data := seq(|top|, i requires 0 <= i < |top| => Hundredths(top[i].1));
    r := Some(ChartData(labels.value, data, emails));
    ChartedTop(entries, isMobile, sortedUsers, top, r.value);
  }

  /** The first entries of the ranking are emails with an entry. */
  lemma TopEmails(entries: seq<TimeEntry>, sortedUsers: seq<(string, real)>, top: seq<(string, real)>, emails: seq<string>)
    requires Ranked(entries, sortedUsers)
    requires |top| <= |sortedUsers| && top == sortedUsers[..|top|]
    requires |emails| == |top| && forall i :: 0 <= i < |top| ==> emails[i] == top[i].0
    ensures forall i :: 0 <= i < |emails| ==> emails[i] in Keys(entries, EmailKey)
  {
  }

  /** The chart built from the first entries of the ranking. */
  lemma ChartedTop(entries: seq<TimeEntry>, isMobile: bool, sortedUsers: seq<(string, real)>, top: seq<(string, real)>, d: ChartData)
    requires Ranked(entries, sortedUsers)
    requires top == Slice(sortedUsers, 0, Shown(isMobile))
    requires |d.originalEmails| == |d.data| == |d.labels| == |top|
    requires forall i :: 0 <= i < |top| ==> d.originalEmails[i] == top[i].0 && d.data[i] == Hundredths(top[i].1)
    requires forall i :: 0 <= i < |top| ==> Label(d.originalEmails[i], isMobile) == Some(d.labels[i])
    ensures Charted(entries, isMobile, d)
  {
    TopUsers(entries, sortedUsers, top, d.originalEmails);
  }

  /** The dictionary entries, in the order `Object.entries` lists them, are the emails
   * with their hours. */
  lemma Pairs(entries: seq<TimeEntry>, userHours: map<string, real>, keys: seq<string>, order: seq<string>,
              pairs: seq<(string, real)>)
    requires userHours == Built(entries) && keys == Keys(entries, EmailKey)
    requires order == OwnKeys(keys)
    requires |pairs| == |order| && forall i :: 0 <= i < |order| ==> order[i] in userHours && pairs[i] == (order[i], userHours[order[i]])
    ensures |order| == |keys| && forall u :: u in order <==> u in Keys(entries, EmailKey)
    ensures forall i :: 0 <= i < |order| ==> pairs[i] == (order[i], HoursOf(entries, order[i]))
  {
    BuiltHours(entries);
    OwnKeysMembers(keys);
    OwnKeysPermutes(keys);
  }

  /** The first entries of the ranking: at most `Shown` emails, each with its hours, by
   * decreasing hours, and no email left out has more hours than one kept. */
  lemma TopUsers(entries: seq<TimeEntry>, sortedUsers: seq<(string, real)>, top: seq<(string, real)>, emails: seq<string>)
    requires Ranked(entries, sortedUsers)
    requires |top| <= |sortedUsers| && top == sortedUsers[..|top|]
    requires |emails| == |top| && forall i :: 0 <= i < |top| ==> emails[i] == top[i].0
    ensures forall i :: 0 <= i < |top| ==> emails[i] in Keys(entries, EmailKey) && top[i].1 == HoursOf(entries, emails[i])
    ensures forall i, j :: 0 <= i < j < |top| ==> HoursOf(entries, emails[i]) >= HoursOf(entries, emails[j])
    ensures forall u, i :: u in Keys(entries, EmailKey) && u !in emails && 0 <= i < |top| ==>
              HoursOf(entries, u) <= HoursOf(entries, emails[i])
  {
    forall k | 0 <= k < |top| ensures sortedUsers[k].0 in emails {
      assert emails[k] == sortedUsers[k].0;
    }
    forall u, i | u in Keys(entries, EmailKey) && u !in emails && 0 <= i < |top|
      ensures HoursOf(entries, u) <= HoursOf(entries, emails[i])
    {
      var m :| 0 <= m < |sortedUsers| && sortedUsers[m].0 == u;
      assert sortedUsers[i].0 == emails[i];
    }
  }

  /** The sorted dictionary entries are the emails with their hours, by decreasing
   * hours. */
  lemma SortedPairs(entries: seq<TimeEntry>, order: seq<string>, pairs: seq<(string, real)>, sortedUsers: seq<(string, real)>)
    requires forall u :: u in order <==> u in Keys(entries, EmailKey)
    requires |pairs| == |order| && forall i :: 0 <= i < |order| ==> pairs[i] == (order[i], HoursOf(entries, order[i]))
    requires sortedUsers == SortBy(pairs, MoreHours)
    ensures |sortedUsers| == |pairs|
    ensures forall i :: 0 <= i < |sortedUsers| ==>
              sortedUsers[i].0 in Keys(entries, EmailKey) && sortedUsers[i].1 == HoursOf(entries, sortedUsers[i].0)
    ensures forall i, j :: 0 <= i < j < |sortedUsers| ==> sortedUsers[i].1 >= sortedUsers[j].1
  {
    SortByPermutes(pairs, MoreHours);
    MoreHoursStrict();
    SortBySorted(pairs, MoreHours);
    assert |multiset(sortedUsers)| == |multiset(pairs)|;
    forall i | 0 <= i < |sortedUsers|
      ensures sortedUsers[i].0 in Keys(entries, EmailKey) && sortedUsers[i].1 == HoursOf(entries, sortedUsers[i].0)
    {
      assert sortedUsers[i] in multiset(pairs);
      var k :| 0 <= k < |pairs| && pairs[k] == sortedUsers[i];
      assert order[k] in order;
    }
  }

  /** Every email has its position in the sorted dictionary entries. */
  lemma Unlisted(entries: seq<TimeEntry>, order: seq<string>, pairs: seq<(string, real)>, sortedUsers: seq<(string, real)>,
                 u: string) returns (m: nat)
    requires u in Keys(entries, EmailKey) && forall u :: u in order <==> u in Keys(entries, EmailKey)
    requires |pairs| == |order| && forall i :: 0 <= i < |order| ==> pairs[i] == (order[i], HoursOf(entries, order[i]))
    requires sortedUsers == SortBy(pairs, MoreHours)
    ensures m < |sortedUsers| && sortedUsers[m] == (u, HoursOf(entries, u))
  {
    SortByPermutes(pairs, MoreHours);
    var k :| 0 <= k < |order| && order[k] == u;
    assert pairs[k] in multiset(sortedUsers);
    m :| 0 <= m < |sortedUsers| && sortedUsers[m] == pairs[k];
  }

  lemma MoreHoursStrict()
    ensures StrictOrder(MoreHours)
  {
  }

  /** The chart shows its empty state exactly when no entry has an email. */
  lemma EmptyChart(entries: seq<TimeEntry>)
    ensures Keys(entries, EmailKey) == [] <==> forall i :: 0 <= i < |entries| ==> !Truthy(entries[i].userEmail)
  {
    forall i | 0 <= i < |entries| && Truthy(entries[i].userEmail)
      ensures entries[i].userEmail.value in Keys(entries, EmailKey)
    {
      assert EmailKey(entries[i]) == Some(entries[i].userEmail.value);
    }
  }
}
