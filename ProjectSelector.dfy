/*
 * ProjectSelector: the project drop-down of the entry forms. Its list of names is
 * the de-duplicated concatenation of the fetched project names (or of the ten
 * classifier labels when the projects cannot be read) and the caller's custom
 * projects; a chip offers the classifier's suggestion for the description; each
 * listed name is shown with its colour and a "Default" badge.
 */
module ProjectSelector {
  import opened Base
  import opened ProjectSuggestions

  /** `Array.from(new Set(s))`: each element once, where it first occurs. */
  function Dedupe<T(==)>(s: seq<T>): (r: seq<T>)
    decreases |s|
  {
    if s == [] then []
    else
      var d := Dedupe(s[..|s| - 1]);
      if s[|s| - 1] in d then d else d + [s[|s| - 1]]
  }

  /** The position of the first occurrence of `x` in `s`. */
  function FirstIndex<T(==)>(s: seq<T>, x: T): (r: nat)
    requires x in s
    ensures r < |s| && s[r] == x && x !in s[..r]
    decreases |s|
  {
    var p := s[..|s| - 1];
    if x in p then
      var r := FirstIndex(p, x);
      assert s[..r] == p[..r];
      r
    else
      assert s == p + [s[|s| - 1]];
      |s| - 1
  }

  /** The de-duplicated list keeps the first occurrences in order: it is a
   * subsequence of the input, holds every element of the input, holds each once,
   * and lists them in the order in which they first occur. */
  lemma {:induction false} DedupeSpec<T>(s: seq<T>)
    ensures IsSubsequence(Dedupe(s), s)
    ensures forall x :: x in Dedupe(s) <==> x in s
    ensures NoDuplicates(Dedupe(s))
    ensures forall i, j :: 0 <= i < j < |Dedupe(s)| ==> FirstIndex(s, Dedupe(s)[i]) < FirstIndex(s, Dedupe(s)[j])
    decreases |s|
  {
    if s != [] {
      var p, x := s[..|s| - 1], s[|s| - 1];
      DedupeSpec(p);
      assert s == p + [x];
      var d := Dedupe(p);
      assert s[..|s| - 1] == p;
      forall y | y in p ensures FirstIndex(s, y) == FirstIndex(p, y) {
      }
      if x in d {
        SubsequenceExtend(d, p, [x]);
      } else {
        SubsequenceAppend(d, p, x);
        assert FirstIndex(s, x) == |p|;
      }
    }
  }

  /** A subsequence stays one when the sequence grows at the end. */
  lemma {:induction false} SubsequenceExtend<T>(r: seq<T>, s: seq<T>, t: seq<T>)
    requires IsSubsequence(r, s)
    ensures IsSubsequence(r, s + t)
    decreases |s|
  {
    if r != [] {
      assert (s + t)[1..] == s[1..] + t;
      if r[0] == s[0] && IsSubsequence(r[1..], s[1..]) {
        SubsequenceExtend(r[1..], s[1..], t);
      } else {
        SubsequenceExtend(r, s[1..], t);
      }
    }
  }

  /** Appending the same element to both keeps a subsequence. */
  lemma {:induction false} SubsequenceAppend<T>(r: seq<T>, s: seq<T>, x: T)
    requires IsSubsequence(r, s)
    ensures IsSubsequence(r + [x], s + [x])
    decreases |s|
  {
    if r == [] {
      assert r + [x] == [x];
      SubsequenceLast(s, x);
    } else {
      assert (s + [x])[1..] == s[1..] + [x];
      assert (r + [x])[1..] == r[1..] + [x];
      if r[0] == s[0] && IsSubsequence(r[1..], s[1..]) {
        SubsequenceAppend(r[1..], s[1..], x);
      } else {
        SubsequenceAppend(r, s[1..], x);
      }
    }
  }

  lemma {:induction false} SubsequenceLast<T>(s: seq<T>, x: T)
    ensures IsSubsequence([x], s + [x])
    decreases |s|
  {
    if s != [] {
      assert (s + [x])[1..] == s[1..] + [x];
      SubsequenceLast(s[1..], x);
    } else {
      assert ([x])[1..] == [];
    }
  }

  /** A row of `projects`: `id, name, color, is_default`. */
  datatype ProjectRow = ProjectRow(id: string, name: string, color: Option<string>, isDefault: bool)

  /** How the fetch ended: the table is missing (`42P01`), the query threw, or it
   * returned `data`, possibly `null`. */
  datatype FetchOutcome = TableMissing | QueryFailed | Fetched(data: Option<seq<ProjectRow>>)

  function Names(rows: seq<ProjectRow>): (r: seq<string>)
    ensures |r| == |rows| && forall i :: 0 <= i < |rows| ==> r[i] == rows[i].name
  {
    seq(|rows|, i requires 0 <= i < |rows| => rows[i].name)
  }

  /** The state after `fetchProjects`: `allProjects` and `projectsData`. A `null`
   * result clears the rows and then throws at `data.map`, which falls back to the
   * labels; a failed query keeps the previous rows. */
  datatype Loaded = Loaded(allProjects: seq<string>, projectsData: seq<ProjectRow>)

  function Fetch(outcome: FetchOutcome, customProjects: seq<string>, previousData: seq<ProjectRow>): (r: Loaded)
    ensures outcome.Fetched? && outcome.data.Some? ==>
              r == Loaded(Dedupe(Names(outcome.data.value) + customProjects), outcome.data.value)
    ensures outcome == Fetched(None) || outcome == TableMissing ==>
              r == Loaded(Dedupe(AvailableProjects() + customProjects), [])
    ensures outcome == QueryFailed ==> r == Loaded(Dedupe(AvailableProjects() + customProjects), previousData)
  {
    match outcome
    case TableMissing => Loaded(Dedupe(AvailableProjects() + customProjects), [])
    case QueryFailed => Loaded(Dedupe(AvailableProjects() + customProjects), previousData)
    case Fetched(data) =>
      if data.None? then Loaded(Dedupe(AvailableProjects() + customProjects), [])
      else Loaded(Dedupe(Names(data.value) + customProjects), data.value)
  }

  /** Every project name and custom project is listed exactly once. */
  lemma FetchListsOnce(outcome: FetchOutcome, customProjects: seq<string>, previousData: seq<ProjectRow>)
    ensures var listed := Fetch(outcome, customProjects, previousData).allProjects;
            NoDuplicates(listed)
            && (forall p :: p in customProjects ==> p in listed)
            && (outcome.Fetched? && outcome.data.Some? ==>
                  forall p :: p in listed <==> p in Names(outcome.data.value) || p in customProjects)
            && (!(outcome.Fetched? && outcome.data.Some?) ==>
                  forall p :: p in listed <==> p in AvailableProjects() || p in customProjects)
  {
    match outcome
    case Fetched(data) =>
      if data.Some? {
        DedupeSpec(Names(data.value) + customProjects);
      } else {
        DedupeSpec(AvailableProjects() + customProjects);
      }
    case _ =>
      DedupeSpec(AvailableProjects() + customProjects);
  }

  /** The chip is shown when not loading and there is a suggestion other than the
   * current value. */
  predicate ChipShown(loading: bool, suggestion: Option<string>, value: string)
  {
    !loading && Truthy(suggestion) && suggestion.value != value
  }

  /** `handleSuggestionClick`: the value passed to `onChange`, if any. */
  function SuggestionClick(suggestion: Option<string>): (r: Option<string>)
    ensures r.Some? <==> Truthy(suggestion)
    ensures r.Some? ==> r == suggestion
  {
    if Truthy(suggestion) then suggestion else None
  }

  /** The suggestion is `suggestProject(description)`, never an empty label, so the
   * chip shows exactly for a suggestion other than the current value, and clicking
   * it picks that suggestion. */
  lemma ChipForSuggestion(description: string, value: string)
    ensures ChipShown(false, Suggest(description), value) <==>
              Suggest(description).Some? && Suggest(description).value != value
    ensures SuggestionClick(Suggest(description)) == Suggest(description)
  {
    if Suggest(description).Some? {
      SuggestIsValid(description);
      LabelsNotEmpty();
    }
  }

  /** No classifier label is the empty string. */
  lemma LabelsNotEmpty()
    ensures forall p :: p in AvailableProjects() ==> p != ""
  {
    assert AvailableProjects() == ["Website Development", "Mobile App", "Database", "Backend", "Meetings",
                                   "Design", "Testing", "Documentation", "Research", "Bug Fixes"];
  }

  /** `projectsData.find(p => p.name === projectName)`. */
  function Find(rows: seq<ProjectRow>, name: string): (r: Option<ProjectRow>)
    ensures r.None? <==> forall i :: 0 <= i < |rows| ==> rows[i].name != name
    ensures r.Some? ==> exists i :: 0 <= i < |rows| && rows[i] == r.value && r.value.name == name
                                    && forall j :: 0 <= j < i ==> rows[j].name != name
  {
    if rows == [] then None
    else if rows[0].name == name then Some(rows[0])
    else
      var r := Find(rows[1..], name);
      assert forall i :: 1 <= i < |rows| ==> rows[i] == rows[1..][i - 1];
      r
  }

  const Gray: string := "#6b7280"

  /** `getProjectColor`: the first row's colour, or grey for an unknown name or a
   * missing or empty colour. */
  function ProjectColor(rows: seq<ProjectRow>, name: string): (r: string)
    ensures Find(rows, name).None? ==> r == Gray
    ensures Find(rows, name).Some? && Truthy(Find(rows, name).value.color) ==> r == Find(rows, name).value.color.value
    ensures Find(rows, name).Some? && !Truthy(Find(rows, name).value.color) ==> r == Gray
  {
    var project := Find(rows, name);
    if project.Some? && Truthy(project.value.color) then project.value.color.value else Gray
  }

  /** `isDefaultProject`: the first row's flag; an unknown name is not a default. */
  function IsDefaultProject(rows: seq<ProjectRow>, name: string): (r: bool)
    ensures r <==> Find(rows, name).Some? && Find(rows, name).value.isDefault
  {
    var project := Find(rows, name);
    project.Some? && project.value.isDefault
  }

  /** A name that no row has is grey and never a default. */
  lemma UnknownProject(rows: seq<ProjectRow>, name: string)
    requires forall i :: 0 <= i < |rows| ==> rows[i].name != name
    ensures ProjectColor(rows, name) == Gray && !IsDefaultProject(rows, name)
  {
  }

  function NotAvailable(project: string): bool
  {
    project !in AvailableProjects()
  }

  /** The "Custom Projects" section: the custom projects that are not classifier
   * labels, in order. */
  function CustomSection(customProjects: seq<string>): (r: seq<string>)
    ensures IsSubsequence(r, customProjects)
    ensures forall p :: p in r <==> p in customProjects && !IsValidProject(p)
    ensures forall p :: multiset(r)[p] == if !IsValidProject(p) then multiset(customProjects)[p] else 0
  {
    FilterIsSubsequence(customProjects, NotAvailable);
    FilterCounts(customProjects, NotAvailable);
    Filter(customProjects, NotAvailable)
  }
}
