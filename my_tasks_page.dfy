/** The "My Tasks" page: the filter state, the query parameters built from it, the team filter
    applied locally, and team-name lookup. */
module MyTasksPage {
  import opened Options
  import opened Dto
  import Seqs

  /** The query parameters of a task listing request; an absent key is not sent. */
  datatype TaskParams = TaskParams(status: Option<string>, sortByDue: Option<bool>)

  /** `if (statusFilter) params.status = ...; if (sortByDue) params.sort_by_due = true`.
      The team page builds its request the same way. */
  function QueryParams(statusFilter: string, sortByDue: bool): (p: TaskParams)
    ensures p.status.Some? <==> statusFilter != ""
    ensures p.status.Some? ==> p.status.value == statusFilter
    ensures p.sortByDue.Some? <==> sortByDue
    ensures p.sortByDue.Some? ==> p.sortByDue.value
  {
    TaskParams(if statusFilter != "" then Some(statusFilter) else None,
               if sortByDue then Some(true) else None)
  }

  function TeamDtoId(t: TeamDto): string { t.id }

  /** Index of the first team with that id, or |teams| (`teams.find`). */
  function FindTeam(teams: seq<TeamDto>, id: string): (k: nat)
    ensures k <= |teams|
    ensures forall i :: 0 <= i < k ==> teams[i].id != id
    ensures k < |teams| ==> teams[k].id == id
  {
    Seqs.IndexOf(teams, TeamDtoId, id)
  }

  /** `getTeamName`: the first matching team's name, else a placeholder naming the id. */
  function TeamName(teams: seq<TeamDto>, teamId: string): (r: string)
    ensures (exists i :: 0 <= i < |teams| && teams[i].id == teamId) ==>
      exists i :: 0 <= i < |teams| && teams[i].id == teamId && r == teams[i].name
        && forall j :: 0 <= j < i ==> teams[j].id != teamId
    ensures (forall i :: 0 <= i < |teams| ==> teams[i].id != teamId) ==> r == "Unknown Team (" + teamId + ")"
  {
    var k := FindTeam(teams, teamId);
    if k < |teams| then teams[k].name else "Unknown Team (" + teamId + ")"
  }

  function InTeam(teamId: string): TaskDto -> bool
  {
    (t: TaskDto) => t.teamId == teamId
  }

  /** `filteredTasks`: every task with no team filter, otherwise exactly the team's tasks in order. */
  function FilteredTasks(tasks: seq<TaskDto>, teamFilter: string): (r: seq<TaskDto>)
    ensures teamFilter == "" ==> r == tasks
    ensures Seqs.IsSubseq(r, tasks)
    ensures teamFilter != "" ==> forall t :: t in r <==> t in tasks && t.teamId == teamFilter
  {
    if teamFilter == "" then
      Seqs.SubseqRefl(tasks);
      tasks
    else
      var r := Seqs.Filter(tasks, InTeam(teamFilter));
      forall t ensures t in r <==> t in tasks && t.teamId == teamFilter {
        Seqs.FilterMember(tasks, InTeam(teamFilter), t);
      }
      r
  }

  datatype Filters = Filters(status: string, team: string, sortByDue: bool)

  /** The Clear Filters button is rendered iff some filter is set. */
  predicate ShowsClearFilters(f: Filters)
  {
    f.status != "" || f.team != "" || f.sortByDue
  }

  /** Clearing the filters hides the button, sends a request with no parameters and shows
      every loaded task. */
  lemma ClearedFiltersShowEverything(tasks: seq<TaskDto>)
    ensures !ShowsClearFilters(Filters("", "", false))
    ensures QueryParams("", false) == TaskParams(None, None)
    ensures FilteredTasks(tasks, "") == tasks
  {
  }

  /** The page's filter state. */
  class FilterBar {
    var statusFilter: string
    var teamFilter: string
    var sortByDue: bool

    ghost function State(): Filters
      reads this
    {
      Filters(statusFilter, teamFilter, sortByDue)
    }

    constructor ()
      ensures State() == Filters("", "", false)
    {
      statusFilter, teamFilter, sortByDue := "", "", false;
    }

    method SetStatusFilter(s: string)
      modifies this
      ensures State() == old(State()).(status := s)
    {
      statusFilter := s;
    }

    method SetTeamFilter(t: string)
      modifies this
      ensures State() == old(State()).(team := t)
    {
      teamFilter := t;
    }

    /** The "By Date" toggle. */
    method ToggleSortByDue()
      modifies this
      ensures State() == old(State()).(sortByDue := !old(sortByDue))
    {
      sortByDue := !sortByDue;
    }

    /** The Clear Filters button, shown only while a filter is set. */
    method ClearFilters()
      requires ShowsClearFilters(State())
      modifies this
      ensures State() == Filters("", "", false) && !ShowsClearFilters(State())
    {
      statusFilter, teamFilter, sortByDue := "", "", false;
    }
  }
}
