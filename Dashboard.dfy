/*
 * Dashboard: the entries table of the main dashboard page. Searching and sorting
 * come from `EntryList`; this module adds the pages of ten rows, the selection of
 * entries, the sort-column toggle, the colour chip of a project and the
 * validation of the add-entry form.
 */
module Dashboard {
  import opened Base
  import opened JsText
  import opened EntryList

  /** `entriesPerPage`. */
  const PageSize: nat := 10

  /** `sortedEntries.slice((currentPage - 1) * 10, (currentPage - 1) * 10 + 10)`. */
  function Page(sorted: seq<TimeEntry>, currentPage: int): (r: seq<TimeEntry>)
    ensures currentPage >= 1 ==> |r| <= PageSize && (r != [] ==> (currentPage - 1) * PageSize + |r| <= |sorted|)
    ensures currentPage >= 1 ==> forall k :: 0 <= k < |r| ==> r[k] == sorted[(currentPage - 1) * PageSize + k]
  {
    var start := (currentPage - 1) * PageSize;
    var r := Slice(sorted, start, start + PageSize);
    assert currentPage >= 1 && start < |sorted| ==> r == sorted[start..Min(|sorted|, start + PageSize)];
    assert currentPage >= 1 && start >= |sorted| ==> r == [];
    r
  }

  /** `Math.ceil(sortedEntries.length / 10)`. */
  function TotalPages(n: nat): nat
  {
    CeilDiv(n, PageSize)
  }

  /** Every entry is on exactly one of the pages 1..totalPages, at its position modulo ten. */
  lemma PagesCover(sorted: seq<TimeEntry>, i: nat)
    requires i < |sorted|
    ensures var p := i / PageSize + 1;
            1 <= p <= TotalPages(|sorted|) && i % PageSize < |Page(sorted, p)|
            && Page(sorted, p)[i % PageSize] == sorted[i]
  {
    var p := i / PageSize + 1;
    var n := TotalPages(|sorted|);
    assert (p - 1) * PageSize + i % PageSize == i;
    DivBelow(i, PageSize, n);
  }

  /** Pages after the last one are empty. */
  lemma PagesBeyondEmpty(sorted: seq<TimeEntry>, p: int)
    requires p > TotalPages(|sorted|)
    ensures Page(sorted, p) == []
  {
    assert |sorted| <= TotalPages(|sorted|) * PageSize <= (p - 1) * PageSize;
  }

  /** The `id`s of a list of entries. */
  function Ids(entries: seq<TimeEntry>): (r: seq<string>)
    ensures |r| == |entries| && forall i :: 0 <= i < |r| ==> r[i] == entries[i].id
  {
    seq(|entries|, i requires 0 <= i < |entries| => entries[i].id)
  }

  function Other(id: string): string -> bool
  {
    x => x != id
  }

  /** The component state that the table's handlers change. */
  class TableState {
    var selectedEntries: seq<string>
    var sortField: Column
    var sortDirection: Direction

    constructor()
      ensures selectedEntries == [] && sortField == StartTime && sortDirection == Desc
    {
      selectedEntries := [];
      sortField := StartTime;
      sortDirection := Desc;
    }

    /** `toggleEntrySelection(id)`: drop `id` if it is selected, else append it. */
    method ToggleEntrySelection(id: string)
      modifies this
      ensures id in old(selectedEntries) ==> selectedEntries == Filter(old(selectedEntries), Other(id))
      ensures id !in old(selectedEntries) ==> selectedEntries == old(selectedEntries) + [id]
      ensures id in selectedEntries <==> id !in old(selectedEntries)
      ensures forall x :: x != id ==> (x in selectedEntries <==> x in old(selectedEntries))
      ensures NoDuplicates(old(selectedEntries)) ==> NoDuplicates(selectedEntries)
      ensures sortField == old(sortField) && sortDirection == old(sortDirection)
    {
      if id in selectedEntries {
        FilterIsSubsequence(selectedEntries, Other(id));
        if NoDuplicates(selectedEntries) {
          SubsequenceKeepsDistinct(Filter(selectedEntries, Other(id)), selectedEntries);
        }
        selectedEntries := Filter(selectedEntries, Other(id));
      } else {
        selectedEntries := selectedEntries + [id];
      }
    }

    /** `toggleSelectAll()`: clear the selection when it is as long as the page, else
     * select the page's entries. Only the lengths are compared. */
    method ToggleSelectAll(page: seq<TimeEntry>)
      modifies this
      ensures |old(selectedEntries)| == |page| ==> selectedEntries == []
      ensures |old(selectedEntries)| != |page| ==> selectedEntries == Ids(page)
      ensures sortField == old(sortField) && sortDirection == old(sortDirection)
    {
      if |selectedEntries| == |page| {
        selectedEntries := [];
      } else {
        selectedEntries := Ids(page);
      }
    }

    /** `handleSort(field)`: the current column flips direction, another column is
     * sorted ascending. */
    method HandleSort(field: Column)
      modifies this
      ensures sortField == field
      ensures old(sortField) == field ==> sortDirection == Flip(old(sortDirection))
      ensures old(sortField) != field ==> sortDirection == Asc
      ensures selectedEntries == old(selectedEntries)
    {
      if sortField == field {
        sortDirection := if sortDirection == Asc then Desc else Asc;
      } else {
        sortField := field;
        sortDirection := Asc;
      }
    }
  }

  function Flip(d: Direction): (r: Direction)
    ensures r != d
  {
    if d == Asc then Desc else Asc
  }

  /** Clicking the same column twice restores the direction. */
  method SortTwice(state: TableState, field: Column)
    requires state.sortField == field
    modifies state
    ensures state.sortField == field && state.sortDirection == old(state.sortDirection)
  {
    state.HandleSort(field);
    state.HandleSort(field);
  }

  /** The grey of an entry without a project. */
  const Gray := "rgba(107, 114, 128, 0.8)"

  /** The eight project colours. */
  const Palette: seq<string> := [
    "rgba(59, 130, 246, 0.8)",
    "rgba(16, 185, 129, 0.8)",
    "rgba(245, 158, 11, 0.8)",
    "rgba(139, 92, 246, 0.8)",
    "rgba(236, 72, 153, 0.8)",
    "rgba(239, 68, 68, 0.8)",
    "rgba(14, 165, 233, 0.8)",
    "rgba(20, 184, 166, 0.8)"
  ]

  const TwoTo32: int := 0x1_0000_0000

  /** ECMAScript ToInt32 on an integral number (ECMA-262, section 7.1.6). */
  function ToInt32(x: int): (r: int)
    ensures -0x8000_0000 <= r < 0x8000_0000
    ensures (x - r) % TwoTo32 == 0
  {
    var m := x % TwoTo32;
    if m >= 0x8000_0000 then m - TwoTo32 else m
  }

  /** `char.charCodeAt(0) + ((acc << 5) - acc)`. */
  function HashStep(acc: int, c: char): int
  {
    c as int + (ToInt32(ToInt32(acc) * 32) - acc)
  }

  /** The `reduce` over the characters of the name, from the left. */
  function HashFrom(acc: int, s: string): int
    decreases |s|
  {
    if s == [] then acc else HashFrom(HashStep(acc, s[0]), s[1..])
  }

  function Abs(x: int): nat
  {
    if x < 0 then -x else x
  }

  /** `getProjectColor(project)`. */
  function ProjectColor(project: Option<string>): (r: string)
    ensures !Truthy(project) ==> r == Gray
    ensures Truthy(project) ==> r in Palette
  {
    if !Truthy(project) then Gray
    else Palette[Abs(HashFrom(0, project.value)) % |Palette|]
  }

  /** The grey chip shows exactly the entries without a project. */
  lemma ProjectColorGrayIff(project: Option<string>)
    ensures ProjectColor(project) == Gray <==> !Truthy(project)
  {
    assert forall i :: 0 <= i < |Palette| ==> |Palette[i]| < |Gray|;
  }

  /** What the add-entry form does. */
  datatype AddOutcome = FillAllFields | EndNotAfterStart | AddFailed | Added(row: NewRow)

  datatype NewRow = NewRow(description: string, startTime: int, endTime: int, userId: Option<string>)

  /** `handleAddTimeEntry`: `start` and `end` are what `new Date` makes of the two form
   * fields, `None` for an invalid date; `insertOk` is the outcome of the insert. */
  function AddEntry(description: string, startText: string, endText: string,
                    start: Option<int>, end: Option<int>, userId: Option<string>, insertOk: bool): (r: AddOutcome)
    ensures r == FillAllFields <==> description == "" || startText == "" || endText == ""
    ensures r.Added? ==> r.row.startTime < r.row.endTime && r.row.description == description
  {
    if description == "" || startText == "" || endText == "" then FillAllFields
    // a comparison with an invalid date is false
    else if start.Some? && end.Some? && end.value <= start.value then EndNotAfterStart
    // `toISOString` of an invalid date throws
    else if start.None? || end.None? then AddFailed
    else if !insertOk then AddFailed
    else Added(NewRow(description, start.value, end.value, userId))
  }

  /** An entry is added exactly when every field is filled, both dates are valid, the
   * end is after the start and the insert succeeds. */
  lemma AddEntryInserts(description: string, startText: string, endText: string,
                        start: Option<int>, end: Option<int>, userId: Option<string>, insertOk: bool)
    ensures AddEntry(description, startText, endText, start, end, userId, insertOk).Added?
            <==> description != "" && startText != "" && endText != ""
                 && start.Some? && end.Some? && start.value < end.value && insertOk
  {
  }
}
