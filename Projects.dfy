/*
 * Projects: the project management page. The project dialog keeps its fields as
 * component state: a tag list edited by adding and removing tags, and two budget
 * inputs that accept only an empty or a non-negative number. The form is validated
 * before saving, the saved record maps every blank field to null, a deleted project
 * leaves the list, and each card shows the share of its tasks completed.
 *
 * `Number(value)` of an input string is an input (`number`, `None` for NaN); dates
 * are days, as `new Date(value)` of a date field orders them, empty fields `None`.
 */
module Projects {
  import opened Base
  import opened JsText

  /** A budget field: `''` or a number. */
  datatype Budget = Blank | Amount(value: real)

  /** What the budget filter lets into a field: blank or a non-negative number. */
  predicate AcceptedBudget(b: Budget)
  {
    b.Blank? || b.value >= 0.0
  }

  /** The budget `onChange` handlers: an empty input clears the field, a number that
   * is not negative replaces it, anything else leaves it as it was. */
  function BudgetInput(current: Budget, value: string, number: Option<real>): (r: Budget)
    ensures value == "" ==> r == Blank
    ensures value != "" && number.Some? && number.value >= 0.0 ==> r == Amount(number.value)
    ensures value != "" && (number.None? || number.value < 0.0) ==> r == current
  {
    if value == "" || (number.Some? && number.value >= 0.0) then
      (if value == "" then Blank else Amount(number.value))
    else current
  }

  /** The filter never lets in a negative budget. */
  lemma BudgetInputAccepted(current: Budget, value: string, number: Option<real>)
    requires AcceptedBudget(current)
    ensures AcceptedBudget(BudgetInput(current, value, number))
  {
  }

  function NotTag(tag: string): string -> bool
  {
    (t: string) => t != tag
  }

  /** `projectTags.filter(tag => tag !== tagToRemove)`: the other tags, in order. */
  function WithoutTag(tags: seq<string>, tag: string): (r: seq<string>)
    ensures IsSubsequence(r, tags)
    ensures forall t :: t in r <==> t in tags && t != tag
    ensures forall t :: multiset(r)[t] == if t != tag then multiset(tags)[t] else 0
  {
    FilterIsSubsequence(tags, NotTag(tag));
    FilterCounts(tags, NotTag(tag));
    Filter(tags, NotTag(tag))
  }

  datatype Project = Project(
    id: string,
    name: string,
    description: Option<string>,
    color: Option<string>,
    budgetHours: Option<real>,
    budgetAmount: Option<real>,
    client: Option<string>,
    startDate: Option<int>,
    endDate: Option<int>,
    tags: Option<seq<string>>)

  function NotProject(id: string): Project -> bool
  {
    (p: Project) => p.id != id
  }

  /** `projects.filter(p => p.id !== projectToDelete.id)`. */
  function WithoutProject(projects: seq<Project>, id: string): (r: seq<Project>)
    ensures IsSubsequence(r, projects)
    ensures forall p :: p in r <==> p in projects && p.id != id
    ensures forall p :: multiset(r)[p] == if p.id != id then multiset(projects)[p] else 0
  {
    FilterIsSubsequence(projects, NotProject(id));
    FilterCounts(projects, NotProject(id));
    Filter(projects, NotProject(id))
  }

  /** The page state that the handlers below change. */
  class ProjectsPage {
    var projects: seq<Project>
    var projectTags: seq<string>
    var newTag: string
    var budgetHours: Budget
    var budgetAmount: Budget

    /** `useState` initial values. */
    constructor()
      ensures projects == [] && projectTags == [] && newTag == ""
      ensures budgetHours == Blank && budgetAmount == Blank
    {
      projects := [];
      projectTags := [];
      newTag := "";
      budgetHours := Blank;
      budgetAmount := Blank;
    }

    ghost predicate TagsDistinct()
      reads this
    {
      NoDuplicates(projectTags)
    }

    /** `handleAddTag`: the trimmed input is appended and the input cleared when it is
     * not blank and not yet a tag; otherwise nothing changes. */
    method AddTag()
      modifies this
      ensures var tag := Trim(old(newTag));
              if tag != "" && tag !in old(projectTags) then projectTags == old(projectTags) + [tag] && newTag == ""
              else projectTags == old(projectTags) && newTag == old(newTag)
      ensures old(TagsDistinct()) ==> TagsDistinct()
      ensures projects == old(projects) && budgetHours == old(budgetHours) && budgetAmount == old(budgetAmount)
    {
      var tag := Trim(newTag);
      if tag != "" && tag !in projectTags {
        projectTags := projectTags + [tag];
        newTag := "";
      }
    }

    /** `handleRemoveTag`: the tag leaves the list, the others stay in order. */
    method RemoveTag(tagToRemove: string)
      modifies this
      ensures projectTags == WithoutTag(old(projectTags), tagToRemove)
      ensures old(TagsDistinct()) ==> TagsDistinct()
      ensures newTag == old(newTag) && projects == old(projects)
      ensures budgetHours == old(budgetHours) && budgetAmount == old(budgetAmount)
    {
      var kept := WithoutTag(projectTags, tagToRemove);
      if NoDuplicates(projectTags) {
        SubsequenceKeepsDistinct(kept, projectTags);
      }
      projectTags := kept;
    }

    /** The "Budget (Hours)" input. */
    method ChangeBudgetHours(value: string, number: Option<real>)
      modifies this
      ensures budgetHours == BudgetInput(old(budgetHours), value, number)
      ensures budgetAmount == old(budgetAmount) && projects == old(projects)
      ensures projectTags == old(projectTags) && newTag == old(newTag)
    {
      budgetHours := BudgetInput(budgetHours, value, number);
    }

    /** The "Budget (Amount)" input. */
    method ChangeBudgetAmount(value: string, number: Option<real>)
      modifies this
      ensures budgetAmount == BudgetInput(old(budgetAmount), value, number)
      ensures budgetHours == old(budgetHours) && projects == old(projects)
      ensures projectTags == old(projectTags) && newTag == old(newTag)
    {
      budgetAmount := BudgetInput(budgetAmount, value, number);
    }

    /** `handleDeleteProject` after the database delete succeeded. */
    method Deleted(id: string)
      modifies this
      ensures projects == WithoutProject(old(projects), id)
      ensures projectTags == old(projectTags) && newTag == old(newTag)
      ensures budgetHours == old(budgetHours) && budgetAmount == old(budgetAmount)
    {
      projects := WithoutProject(projects, id);
    }
  }

  datatype Validation = NameRequired | EndBeforeStart | Valid

  /** `validateForm`: a blank name fails first, then an end date before the start
   * date; an empty date never fails. */
  function ValidateForm(projectName: string, startDate: Option<int>, endDate: Option<int>): (r: Validation)
    ensures r == NameRequired <==> Trim(projectName) == ""
    ensures r == EndBeforeStart <==> Trim(projectName) != "" && startDate.Some? && endDate.Some? && endDate.value < startDate.value
    ensures r == Valid <==> Trim(projectName) != "" && (startDate.None? || endDate.None? || startDate.value <= endDate.value)
  {
    if Trim(projectName) == "" then NameRequired
    else if endDate.Some? && startDate.Some? && endDate.value < startDate.value then EndBeforeStart
    else Valid
  }

  /** `trimmed || null`. */
  function NullIfBlank(s: string): (r: Option<string>)
    ensures r.None? <==> Trim(s) == ""
    ensures r.Some? ==> r.value == Trim(s)
  {
    if Trim(s) == "" then None else Some(Trim(s))
  }

  function BudgetValue(b: Budget): (r: Option<real>)
    ensures r.None? <==> b.Blank?
  {
    if b.Blank? then None else Some(b.value)
  }

  /** `projectData`: the record sent to the database. */
  datatype ProjectData = ProjectData(
    name: string,
    description: Option<string>,
    color: string,
    userId: string,
    client: Option<string>,
    budgetHours: Option<real>,
    budgetAmount: Option<real>,
    startDate: Option<int>,
    endDate: Option<int>,
    tags: Option<seq<string>>)

  /** The saved record: the trimmed name, a blank description or client as null, a
   * blank budget as null, an empty date as null and an empty tag list as null. */
  function Payload(projectName: string, projectDescription: string, projectColor: string, userId: string,
                   projectClient: string, budgetHours: Budget, budgetAmount: Budget,
                   startDate: Option<int>, endDate: Option<int>, projectTags: seq<string>): (r: ProjectData)
    ensures r.name == Trim(projectName) && r.color == projectColor && r.userId == userId
    ensures r.description == NullIfBlank(projectDescription) && r.client == NullIfBlank(projectClient)
    ensures r.budgetHours == BudgetValue(budgetHours) && r.budgetAmount == BudgetValue(budgetAmount)
    ensures r.startDate == startDate && r.endDate == endDate
    ensures r.tags.None? <==> projectTags == []
    ensures r.tags.Some? ==> r.tags.value == projectTags
  {
    ProjectData(
      Trim(projectName),
      NullIfBlank(projectDescription),
      projectColor,
      userId,
      NullIfBlank(projectClient),
      BudgetValue(budgetHours),
      BudgetValue(budgetAmount),
      startDate,
      endDate,
      if |projectTags| > 0 then Some(projectTags) else None)
  }

  /** A form that passed validation is saved with a name that is not blank, dates in
   * order, and no blank text, negative budget or empty list. */
  lemma ValidPayload(projectName: string, projectDescription: string, projectColor: string, userId: string,
                     projectClient: string, budgetHours: Budget, budgetAmount: Budget,
                     startDate: Option<int>, endDate: Option<int>, projectTags: seq<string>)
    requires ValidateForm(projectName, startDate, endDate) == Valid
    requires AcceptedBudget(budgetHours) && AcceptedBudget(budgetAmount)
    ensures var r := Payload(projectName, projectDescription, projectColor, userId, projectClient,
                             budgetHours, budgetAmount, startDate, endDate, projectTags);
            r.name != "" && Trim(r.name) == r.name
            && (r.startDate.Some? && r.endDate.Some? ==> r.startDate.value <= r.endDate.value)
            && (r.description.Some? ==> r.description.value != "")
            && (r.client.Some? ==> r.client.value != "")
            && (r.budgetHours.Some? ==> r.budgetHours.value >= 0.0)
            && (r.budgetAmount.Some? ==> r.budgetAmount.value >= 0.0)
            && (r.tags.Some? ==> r.tags.value != [])
  {
    TrimIdempotent(projectName);
  }

  /** Trimming twice is trimming once. */
  lemma TrimIdempotent(s: string)
    ensures Trim(Trim(s)) == Trim(s)
  {
    var t := Trim(s);
    if t != [] {
      assert TrimStart(t) == t;
      assert TrimEnd(t) == t;
    }
  }

  /** The statistics of a project card. */
  datatype ProjectStats = ProjectStats(totalTasks: nat, completedTasks: nat)

  /** `getCompletionPercentage`: 0 without statistics or tasks, else the completed
   * share rounded to a whole percent. */
  function CompletionPercentage(stats: Option<ProjectStats>): (r: int)
    ensures stats.None? || stats.value.totalTasks == 0 ==> r == 0
    ensures stats.Some? && stats.value.totalTasks > 0 ==>
              var share := stats.value.completedTasks as real / stats.value.totalTasks as real * 100.0;
              r as real - 0.5 <= share < r as real + 0.5
  {
    if stats.None? || stats.value.totalTasks == 0 then 0
    else Round(stats.value.completedTasks as real / stats.value.totalTasks as real * 100.0)
  }

  /** With no more completed tasks than tasks the percentage lies between 0 and 100,
   * 100 when every task is completed and 0 when none is. */
  lemma CompletionBounded(stats: ProjectStats)
    requires stats.completedTasks <= stats.totalTasks
    ensures 0 <= CompletionPercentage(Some(stats)) <= 100
    ensures stats.totalTasks > 0 && stats.completedTasks == stats.totalTasks ==> CompletionPercentage(Some(stats)) == 100
    ensures stats.completedTasks == 0 ==> CompletionPercentage(Some(stats)) == 0
  {
    if stats.totalTasks > 0 {
      var share := stats.completedTasks as real / stats.totalTasks as real * 100.0;
      assert 0.0 <= stats.completedTasks as real / stats.totalTasks as real <= 1.0;
      assert 0.0 <= share <= 100.0;
      if stats.completedTasks == stats.totalTasks {
        RoundUnique(share, 100);
      }
      if stats.completedTasks == 0 {
        RoundUnique(share, 0);
      }
    }
  }
}
