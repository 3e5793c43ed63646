/*
 * UpdateProjectField: the administrator's batch re-labeller. It checks that the caller
 * is signed in and is an administrator, classifies every time entry that has no
 * project with the same ordered keyword table as the client, and upserts one update
 * per entry whose description matches some rule.
 *
 * The database reads and writes are parameters: the fetched entries (`None` when the
 * query fails) and whether the upsert succeeded.
 */
module UpdateProjectField {
  import opened Base
  import opened JsText
  import opened ProjectSuggestions

  /** The server's copy of the pattern table. */
  const ServerRules: seq<Rule> := [
    Rule(["website", "web site", "web development", "frontend", "front-end"], "Website Development"),
    Rule(["mobile app", "ios", "android", "react native"], "Mobile App"),
    Rule(["database", "db", "sql", "postgres", "supabase"], "Database"),
    Rule(["api", "backend", "back-end", "server"], "Backend"),
    Rule(["meeting", "call", "discussion", "planning"], "Meetings"),
    Rule(["design", "ui", "ux", "figma", "sketch"], "Design"),
    Rule(["test", "testing", "qa", "quality assurance"], "Testing"),
    Rule(["documentation", "docs", "readme"], "Documentation"),
    Rule(["research", "learning", "study"], "Research"),
    Rule(["bug", "fix", "issue", "problem"], "Bug Fixes")
  ]

  /** The server's table has the client's rules, in the client's order. */
  lemma ServerTableIsClientTable()
    ensures ServerRules == Rules
  {
  }

  /** A fetched entry: its id and its description, which may be null. */
  datatype Entry = Entry(id: string, description: Option<string>)

  /** One row of the upsert. */
  datatype Update = Update(id: string, project: string)

  /** The string `pattern.test` sees: a null description is converted to "null". */
  function PatternText(description: Option<string>): string
  {
    GetOr(description, "null")
  }

  /** The project the loop assigns to one description: the first matching rule's label. */
  method ClassifyEntry(text: string) returns (project: Option<string>)
    ensures project == FirstMatch(text, 0)
  {
    ServerTableIsClientTable();
    project := None;
    var i := 0;
    while i < |ServerRules|
      invariant 0 <= i <= |ServerRules|
      invariant project == None
      invariant FirstMatch(text, 0) == FirstMatch(text, i)
    {
      if RuleMatches(ServerRules[i], text) {
        project := Some(ServerRules[i].project);
        break;
      }
      i := i + 1;
    }
  }

  /** The label the loop gives an entry. */
  function Label(e: Entry): Option<string>
  {
    FirstMatch(PatternText(e.description), 0)
  }

  /** The entries `labelOf` gives a project, in input order. */
  function Kept(entries: seq<Entry>, labelOf: Entry -> Option<string>): (r: seq<Entry>)
    ensures forall i :: 0 <= i < |r| ==> labelOf(r[i]).Some?
  {
    Filter(entries, e => labelOf(e).Some?)
  }

  /** The entries `labelOf` gives a project, in input order, each with that project. */
  function UpdatesBy(entries: seq<Entry>, labelOf: Entry -> Option<string>): (r: seq<Update>)
    ensures |r| == |Kept(entries, labelOf)|
  {
    var kept := Kept(entries, labelOf);
    seq(|kept|, i requires 0 <= i < |kept| => Update(kept[i].id, labelOf(kept[i]).value))
  }

  /** `updates`: the classified entries, in input order, each with its first-match label. */
  function Updates(entries: seq<Entry>): (r: seq<Update>)
    ensures |r| == |Kept(entries, Label)| <= |entries|
  {
    UpdatesBy(entries, Label)
  }

  /** The update of one more entry is appended to those of the earlier ones. */
  lemma UpdatesBySnoc(entries: seq<Entry>, e: Entry, labelOf: Entry -> Option<string>)
    ensures UpdatesBy(entries + [e], labelOf) ==
            UpdatesBy(entries, labelOf) + (if labelOf(e).Some? then [Update(e.id, labelOf(e).value)] else [])
  {
    FilterAppend(entries, [e], e => labelOf(e).Some?);
    assert Kept([e], labelOf) == if labelOf(e).Some? then [e] else [];
  }

  /** `entries.map(...).filter(...)`, computed with the source's loop. */
  method ComputeUpdates(entries: seq<Entry>) returns (updates: seq<Update>)
    ensures updates == Updates(entries)
  {
    updates := [];
    var i := 0;
    while i < |entries|
      invariant 0 <= i <= |entries|
      invariant updates == Updates(entries[..i])
    {
      var e := entries[i];
      var project := ClassifyEntry(PatternText(e.description));
      assert entries[..i + 1] == entries[..i] + [e];
      UpdatesBySnoc(entries[..i], e, Label);
      if project.Some? {
        updates := updates + [Update(e.id, project.value)];
      }
      i := i + 1;
    }
    assert entries[..i] == entries;
  }

  /** The updates keep the kept entries' ids and order and carry their labels. */
  lemma UpdatesByKept(entries: seq<Entry>, labelOf: Entry -> Option<string>)
    ensures var kept := Kept(entries, labelOf);
            IsSubsequence(kept, entries)
            && forall i :: 0 <= i < |kept| ==>
                 UpdatesBy(entries, labelOf)[i].id == kept[i].id && Some(UpdatesBy(entries, labelOf)[i].project) == labelOf(kept[i])
  {
    FilterIsSubsequence(entries, e => labelOf(e).Some?);
  }

  /** Every update belongs to a fetched entry and carries that entry's first-match
   * label; the updated entries keep their input order. */
  lemma UpdatesAreFirstMatches(entries: seq<Entry>)
    ensures var kept := Kept(entries, Label);
            |Updates(entries)| == |kept| && IsSubsequence(kept, entries)
            && forall i :: 0 <= i < |kept| ==>
                 Updates(entries)[i].id == kept[i].id
                 && Some(Updates(entries)[i].project) == FirstMatch(PatternText(kept[i].description), 0)
  {
    UpdatesByKept(entries, Label);
  }

  /** A fetched entry is kept exactly when its label is set. */
  lemma KeptByIff(entries: seq<Entry>, e: Entry, labelOf: Entry -> Option<string>)
    requires e in entries
    ensures e in Kept(entries, labelOf) <==> labelOf(e).Some?
  {
    var i :| 0 <= i < |entries| && entries[i] == e;
    assert entries[i] in Filter(entries, e => labelOf(e).Some?) <==> labelOf(entries[i]).Some?;
  }

  /** An entry is dropped exactly when no rule matches its description. */
  lemma KeptIff(entries: seq<Entry>, e: Entry)
    requires e in entries
    ensures e in Kept(entries, Label) <==>
              exists j :: 0 <= j < |Rules| && RuleMatches(Rules[j], PatternText(e.description))
  {
    KeptByIff(entries, e, Label);
  }

  /** The response: its status, and the number of updates reported on success. */
  datatype Response = Response(status: int, updated: Option<nat>)

  /** The handler. `user` is the signed-in user's id, `isAdmin` whether `admin_users` has
   * that id; `upserted` is the batch sent to the database, if any. */
  method Handle(user: Option<string>, isAdmin: bool, fetched: Option<seq<Entry>>, upsertOk: bool)
    returns (response: Response, upserted: Option<seq<Update>>)
    ensures user.None? ==> response == Response(401, None) && upserted == None
    ensures user.Some? && !isAdmin ==> response == Response(403, None) && upserted == None
    ensures user.Some? && isAdmin && fetched.None? ==> response == Response(500, None) && upserted == None
    ensures user.Some? && isAdmin && fetched.Some? ==> upserted == Some(Updates(fetched.value))
    ensures user.Some? && isAdmin && fetched.Some? && upsertOk ==>
              response == Response(200, Some(|Updates(fetched.value)|))
    ensures user.Some? && isAdmin && fetched.Some? && !upsertOk ==> response == Response(500, None)
  {
    if user.None? {
      return Response(401, None), None;
    }
    if !isAdmin {
      return Response(403, None), None;
    }
    if fetched.None? {
      return Response(500, None), None;
    }
    var updates := ComputeUpdates(fetched.value);
    upserted := Some(updates);
    if !upsertOk {
      return Response(500, None), upserted;
    }
    response := Response(200, Some(|updates|));
  }
}
