/** A team's page as its members see it: the leader test, the users offered for adding,
    the member list, avatar initials, and the handlers that update the local team and form. */
module TeamDetailsPage {
  import opened Options
  import opened Json
  import opened Dto
  import Seqs
  import Text
  import FlashContext
  import MyTasksPage

  /** `team?.leader_id === user?.username`; the signed-in user is always known here. */
  predicate IsLeader(team: Option<TeamDto>, username: string)
  {
    team.Some? && team.value.leaderId == username
  }

  function Offerable(memberIds: seq<string>): UserDto -> bool
  {
    (u: UserDto) => u.active && u.username !in memberIds
  }

  /** The users loaded for the leader (`filter(u => u.active)`) minus the current members
      (`availableUsersOptions`), in list order. */
  function AvailableUsers(fetched: seq<UserDto>, memberIds: seq<string>): (r: seq<UserDto>)
    ensures Seqs.IsSubseq(r, fetched)
    ensures forall u :: u in r <==> u in fetched && u.active && u.username !in memberIds
  {
    var r := Seqs.Filter(fetched, Offerable(memberIds));
    forall u ensures u in r <==> u in fetched && u.active && u.username !in memberIds {
      Seqs.FilterMember(fetched, Offerable(memberIds), u);
    }
    r
  }

  /** Nobody offered for adding is already a member, and so adding one never duplicates an id. */
  lemma AddingAvailableUserKeepsIdsDistinct(fetched: seq<UserDto>, team: TeamDto, u: UserDto)
    requires u in AvailableUsers(fetched, team.memberIds)
    requires forall i, j :: 0 <= i < j < |team.memberIds| ==> team.memberIds[i] != team.memberIds[j]
    ensures var ids := AddMemberLocal(team, u.username).memberIds;
      forall i, j :: 0 <= i < j < |ids| ==> ids[i] != ids[j]
  {
    var ids := AddMemberLocal(team, u.username).memberIds;
    assert u.username !in team.memberIds;
    assert forall i :: 0 <= i < |team.memberIds| ==> ids[i] == team.memberIds[i];
  }

  /** The local team after a successful add: the member appended at the end. */
  function AddMemberLocal(team: TeamDto, member: string): (r: TeamDto)
    ensures r.memberIds == team.memberIds + [member]
    ensures r.(memberIds := team.memberIds) == team
  {
    team.(memberIds := team.memberIds + [member])
  }

  function IsNot(name: string): string -> bool
  {
    (m: string) => m != name
  }

  /** The local team after a successful remove: every occurrence of the username dropped. */
  function RemoveMemberLocal(team: TeamDto, member: string): (r: TeamDto)
    ensures Seqs.IsSubseq(r.memberIds, team.memberIds)
    ensures forall m :: m in r.memberIds <==> m in team.memberIds && m != member
    ensures forall m :: multiset(r.memberIds)[m] == if m != member then multiset(team.memberIds)[m] else 0
    ensures r.(memberIds := team.memberIds) == team
  {
    var ids := Seqs.Filter(team.memberIds, IsNot(member));
    forall m ensures m in ids <==> m in team.memberIds && m != member {
      Seqs.FilterMember(team.memberIds, IsNot(member), m);
    }
    forall m | m !in team.memberIds ensures multiset(ids)[m] == 0 {
      assert m !in ids;
    }
    team.(memberIds := ids)
  }

  /** The member rows below the leader's row: every member id except the leader's, in order. */
  function MemberRows(team: TeamDto): (r: seq<string>)
    ensures Seqs.IsSubseq(r, team.memberIds)
    ensures team.leaderId !in r
    ensures forall m :: m in team.memberIds && m != team.leaderId ==> m in r
    ensures forall m :: multiset(r)[m] == if m != team.leaderId then multiset(team.memberIds)[m] else 0
  {
    var r := Seqs.Filter(team.memberIds, IsNot(team.leaderId));
    forall m ensures m in r <==> m in team.memberIds && m != team.leaderId {
      Seqs.FilterMember(team.memberIds, IsNot(team.leaderId), m);
    }
    forall m | m !in team.memberIds ensures multiset(r)[m] == 0 {
      assert m !in r;
    }
    r
  }

  /** The avatar fallback: the first two characters upper-cased, or "??" with no username. */
  function Initials(username: Option<string>): (r: string)
    ensures username.None? || username.value == "" ==> r == "??"
    ensures username.Some? && username.value != "" ==>
      (|r| == (if |username.value| < 2 then |username.value| else 2)
      && forall i :: 0 <= i < |r| ==> r[i] == Text.UpperChar(username.value[i]))
  {
    if username.None? || username.value == "" then "??"
    else Text.Upper(username.value[..if |username.value| < 2 then |username.value| else 2])
  }

  /** The team-details form; a description may be null. */
  datatype EditForm = EditForm(name: string, description: Option<string>)

  /** `{ ...team, ...editForm }`: only the name and the description are replaced. */
  function MergeDetails(team: TeamDto, form: EditForm): (r: TeamDto)
    ensures r.name == form.name && r.description == form.description
    ensures r.id == team.id && r.leaderId == team.leaderId && r.memberIds == team.memberIds
  {
    team.(name := form.name, description := form.description)
  }

  /** The create-task form. */
  datatype NewTaskForm = NewTaskForm(title: string, description: string, assignedTo: string, priority: string, dueDate: string)

  const BlankTaskForm: NewTaskForm := NewTaskForm("", "", "", "MEDIUM", "")

  /** The required-field guard of `handleCreateTask`: the flash it shows, if any. */
  function TaskGuard(form: NewTaskForm): (r: Option<FlashContext.Flash>)
    ensures r.None? <==> form.title != "" && form.assignedTo != "" && form.dueDate != ""
    ensures r.Some? ==> r.value == FlashContext.Flash("Please fill in all required fields.", "error")
  {
    if form.title == "" || form.assignedTo == "" || form.dueDate == "" then
      Some(FlashContext.Flash("Please fill in all required fields.", "error"))
    else None
  }

  /** `err.response?.data?.detail || 'Unknown error'` as a template literal renders it. */
  function DetailOrUnknown(err: ApiError): (r: string)
    ensures !Truthy(Detail(err)) ==> r == "Unknown error"
    ensures Truthy(Detail(err)) && Detail(err).value.JStr? ==> r == Detail(err).value.s
  {
    if Truthy(Detail(err)) then ValueToString(Detail(err).value) else "Unknown error"
  }

  /** The page's state. `team` is absent until loaded; the handlers below are reachable only
      once it is shown. */
  class TeamView {
    var team: Option<TeamDto>
    var tasks: seq<TaskDto>
    var allUsers: seq<UserDto>
    var loading: bool
    var editForm: EditForm
    var isEditing: bool
    var isAddingMember: bool
    var selectedNewMember: string
    var taskStatusFilter: string
    var sortByDue: bool
    var newTaskForm: NewTaskForm
    var isCreatingTask: bool

    constructor ()
      ensures team.None? && tasks == [] && allUsers == [] && loading
      ensures editForm == EditForm("", Some("")) && !isEditing && !isAddingMember && selectedNewMember == ""
      ensures taskStatusFilter == "" && !sortByDue && newTaskForm == BlankTaskForm && !isCreatingTask
    {
      team, tasks, allUsers, loading := None, [], [], true;
      editForm, isEditing, isAddingMember, selectedNewMember := EditForm("", Some("")), false, false, "";
      taskStatusFilter, sortByDue, newTaskForm, isCreatingTask := "", false, BlankTaskForm, false;
    }

    /** `fetchTasks`: the request carries the same parameters as on the My Tasks page; a failed
        request (`response` absent) leaves the list as it was. */
    method FetchTasks(response: Option<seq<TaskDto>>) returns (params: MyTasksPage.TaskParams)
      modifies this
      ensures params == MyTasksPage.QueryParams(taskStatusFilter, sortByDue)
      ensures tasks == (if response.Some? then response.value else old(tasks))
      ensures team == old(team) && allUsers == old(allUsers) && editForm == old(editForm)
      ensures taskStatusFilter == old(taskStatusFilter) && sortByDue == old(sortByDue)
      ensures newTaskForm == old(newTaskForm) && selectedNewMember == old(selectedNewMember)
    {
      params := MyTasksPage.QueryParams(taskStatusFilter, sortByDue);
      if response.Some? {
        tasks := response.value;
      }
    }

    /** `initData`: load the team, then the users (for its leader only), then the tasks. Any
        failure flashes and leaves for the team list. */
    method InitData(username: string, teamRes: Response<TeamDto>, usersRes: Response<seq<UserDto>>,
                    tasksRes: Option<seq<TaskDto>>)
      returns (usersRequested: bool, navigateTo: Option<string>, shown: Option<FlashContext.Flash>)
      modifies this
      ensures usersRequested <==> teamRes.Received? && teamRes.value.leaderId == username
      ensures teamRes.Received? ==> (team == Some(teamRes.value)
        && editForm == EditForm(teamRes.value.name, teamRes.value.description))
      ensures teamRes.Rejected? ==> team == old(team) && editForm == old(editForm)
      ensures usersRequested && usersRes.Received? ==> allUsers == Seqs.Filter(usersRes.value, (u: UserDto) => u.active)
      ensures !(usersRequested && usersRes.Received?) ==> allUsers == old(allUsers)
      ensures (navigateTo.Some? <==> teamRes.Rejected? || (usersRequested && usersRes.Rejected?))
      ensures navigateTo.Some? ==> navigateTo.value == "/teams" && shown == Some(FlashContext.Flash("Failed to load team.", "error"))
      ensures navigateTo.None? ==> shown.None? && tasks == (if tasksRes.Some? then tasksRes.value else old(tasks))
      ensures navigateTo.Some? ==> tasks == old(tasks)
      ensures !loading
    {
      usersRequested, navigateTo, shown := false, None, None;
      match teamRes {
      case Rejected(_) =>
        navigateTo, shown := Some("/teams"), Some(FlashContext.Flash("Failed to load team.", "error"));
      case Received(t) =>
        team := Some(t);
        editForm := EditForm(t.name, t.description);
        if t.leaderId == username {
          usersRequested := true;
          if usersRes.Rejected? {
            navigateTo, shown := Some("/teams"), Some(FlashContext.Flash("Failed to load team.", "error"));
          } else {
            allUsers := Seqs.Filter(usersRes.value, (u: UserDto) => u.active);
          }
        }
        if navigateTo.None? {
          var _ := FetchTasks(tasksRes);
        }
      }
      loading := false;
    }

    /** `handleUpdateDetails`: on success the form's name and description are merged into the team. */
    method HandleUpdateDetails(succeeded: bool) returns (shown: FlashContext.Flash)
      requires team.Some?
      modifies this
      ensures succeeded ==> (team == Some(MergeDetails(old(team).value, editForm)) && !isEditing
        && shown == FlashContext.Flash("Team details updated successfully.", "success"))
      ensures !succeeded ==> (team == old(team) && isEditing == old(isEditing)
        && shown == FlashContext.Flash("Failed to update details.", "error"))
      ensures editForm == old(editForm) && tasks == old(tasks) && selectedNewMember == old(selectedNewMember)
    {
      if succeeded {
        team := Some(MergeDetails(team.value, editForm));
        isEditing := false;
        shown := FlashContext.Flash("Team details updated successfully.", "success");
      } else {
        shown := FlashContext.Flash("Failed to update details.", "error");
      }
    }

    /** `handleAddMember`: nothing is sent with no selection; on success the member is
        appended, the selection cleared and the picker closed. */
    method HandleAddMember(succeeded: bool) returns (sent: bool, shown: Option<FlashContext.Flash>)
      requires team.Some?
      modifies this
      ensures sent <==> old(selectedNewMember) != ""
      ensures !sent ==> (shown.None? && team == old(team) && selectedNewMember == old(selectedNewMember)
        && isAddingMember == old(isAddingMember))
      ensures sent && succeeded ==> (team == Some(AddMemberLocal(old(team).value, old(selectedNewMember)))
        && selectedNewMember == "" && !isAddingMember
        && shown == Some(FlashContext.Flash("Member " + old(selectedNewMember) + " added.", "success")))
      ensures sent && !succeeded ==> (team == old(team) && selectedNewMember == old(selectedNewMember)
        && isAddingMember == old(isAddingMember) && shown == Some(FlashContext.Flash("Failed to add member.", "error")))
      ensures tasks == old(tasks) && editForm == old(editForm)
    {
      if selectedNewMember == "" {
        return false, None;
      }
      sent := true;
      if succeeded {
        shown := Some(FlashContext.Flash("Member " + selectedNewMember + " added.", "success"));
        team := Some(AddMemberLocal(team.value, selectedNewMember));
        selectedNewMember := "";
        isAddingMember := false;
      } else {
        shown := Some(FlashContext.Flash("Failed to add member.", "error"));
      }
    }

    /** The callback `handleRemoveMember` passes to the confirmation dialog. */
    method RemoveConfirmed(member: string, succeeded: bool) returns (shown: FlashContext.Flash)
      requires team.Some?
      modifies this
      ensures succeeded ==> (team == Some(RemoveMemberLocal(old(team).value, member))
        && shown == FlashContext.Flash("Member " + member + " removed.", "success"))
      ensures !succeeded ==> team == old(team) && shown == FlashContext.Flash("Failed to remove member.", "error")
      ensures tasks == old(tasks) && editForm == old(editForm) && selectedNewMember == old(selectedNewMember)
    {
      if succeeded {
        team := Some(RemoveMemberLocal(team.value, member));
        shown := FlashContext.Flash("Member " + member + " removed.", "success");
      } else {
        shown := FlashContext.Flash("Failed to remove member.", "error");
      }
    }

    /** `handleCreateTask`: nothing is sent unless the title, assignee and due date are filled;
        after a successful create the list is fetched again and the form reset. */
    method HandleCreateTask(created: Response<()>, refetched: Option<seq<TaskDto>>)
      returns (sent: bool, shown: FlashContext.Flash)
      requires team.Some?
      modifies this
      ensures sent <==> TaskGuard(old(newTaskForm)).None?
      ensures !sent ==> (shown == TaskGuard(old(newTaskForm)).value && tasks == old(tasks)
        && newTaskForm == old(newTaskForm) && isCreatingTask == old(isCreatingTask))
      ensures sent && created.Received? ==> (tasks == (if refetched.Some? then refetched.value else old(tasks))
        && newTaskForm == BlankTaskForm && !isCreatingTask
        && shown == FlashContext.Flash("Task created successfully.", "success"))
      ensures sent && created.Rejected? ==> (tasks == old(tasks) && newTaskForm == old(newTaskForm)
        && isCreatingTask == old(isCreatingTask)
        && shown == FlashContext.Flash("Failed to create task: " + DetailOrUnknown(created.error), "error"))
      ensures team == old(team) && editForm == old(editForm) && selectedNewMember == old(selectedNewMember)
    {
      var guard := TaskGuard(newTaskForm);
      if guard.Some? {
        return false, guard.value;
      }
      sent := true;
      match created
      case Rejected(e) =>
        shown := FlashContext.Flash("Failed to create task: " + DetailOrUnknown(e), "error");
      case Received(_) =>
        var _ := FetchTasks(refetched);
        newTaskForm := BlankTaskForm;
        isCreatingTask := false;
        shown := FlashContext.Flash("Task created successfully.", "success");
    }
  }
}
