/** The admin team-management page: its error-message rule, the leader options, the
    create-team guard, and the local team list kept after create, delete and filtering. */
module AdminTeamsPage {
  import opened Options
  import opened Json
  import opened Dto
  import Seqs
  import FlashContext
  import AdminUsersPage

  const DefaultError: string := "An unexpected error occurred."
  const LoadError: string := "Failed to load data."
  const MissingFieldsMessage: string := "Please provide a team name and select a leader."

  /** This page's `getErrorMessage`: an object detail (arrays included) is JSON text, a string
      detail is itself, and a missing or falsy detail gives the default. */
  function GetErrorMessage(err: ApiError): (r: string)
    ensures !Truthy(Detail(err)) ==> r == DefaultError
    ensures Truthy(Detail(err)) && IsObjectType(Detail(err).value) ==> r == Stringify(Detail(err).value)
    ensures Truthy(Detail(err)) && Detail(err).value.JStr? ==> r == Detail(err).value.s
  {
    var d := Detail(err);
    if !Truthy(d) then DefaultError
    else if IsObjectType(d.value) then Stringify(d.value)
    else ValueToString(d.value)
  }

  /** A validation-error list (an array of objects) reads as JSON text here, "[{...", but as
      "[object Object],..." on the users page: the two pages' error rules disagree on it. */
  lemma ArrayDetailsDifferFromUsersPage(status: int, items: seq<Json>)
    requires items != [] && items[0].JObj?
    ensures var m := GetErrorMessage(HttpError(status, JObj([("detail", JArr(items))])));
      |m| >= 2 && m[..2] == "[{"
    ensures var m := AdminUsersPage.ErrorMessage(HttpError(status, JObj([("detail", JArr(items))])));
      |m| >= 2 && m[..2] == "[o"
  {
    var d := JArr(items);
    var err := HttpError(status, JObj([("detail", d)]));
    assert Detail(err) == Some(d);
    var head := Stringify(items[0]);
    var si := StringifyItems(d, items);
    assert si[0] == head[0] == '{';
    assert GetErrorMessage(err) == "[" + si + "]";
    var other := JoinItems(d, items);
    assert ValueToString(items[0]) == "[object Object]";
    assert other[..15] == "[object Object]";
    assert AdminUsersPage.ErrorMessage(err) == other;
  }

  /** `usersRes.data.filter(u => u.active)`: the users offered as leaders. */
  function IsActive(): UserDto -> bool
  {
    (u: UserDto) => u.active
  }

  function ActiveUsers(users: seq<UserDto>): (r: seq<UserDto>)
    ensures Seqs.IsSubseq(r, users)
    ensures forall u :: u in r <==> u in users && u.active
  {
    var r := Seqs.Filter(users, IsActive());
    forall u ensures u in r <==> u in users && u.active {
      Seqs.FilterMember(users, IsActive(), u);
    }
    r
  }

  /** An option of the leader picker. */
  datatype UserOption = UserOption(value: string, caption: string)

  /** A template literal's rendering of a field that may be null. */
  function NullableText(field: Option<string>): string
  {
    if field.Some? then field.value else "null"
  }

  function OptionLabel(u: UserDto): string
  {
    u.username + " (" + NullableText(u.firstName) + " " + NullableText(u.lastName) + ") - [" + u.role + "]"
  }

  function OptionFor(u: UserDto): UserOption
  {
    UserOption(u.username, OptionLabel(u))
  }

  /** `userOptions`: `allUsers.map(...)`, where `allUsers` holds the active users, so there is
      one option per active user, in the same order. */
  function LeaderOptions(users: seq<UserDto>): (r: seq<UserOption>)
    ensures |r| == |ActiveUsers(users)|
    ensures forall i :: 0 <= i < |r| ==> r[i] == OptionFor(ActiveUsers(users)[i])
    ensures forall o :: o in r ==> exists u :: u in users && u.active && o == OptionFor(u)
    ensures forall u :: u in users && u.active ==> OptionFor(u) in r
  {
    var active := ActiveUsers(users);
    var r := seq(|active|, i requires 0 <= i < |active| => OptionFor(active[i]));
    OptionsCoverActive(users, active, r);
    r
  }

  /** One option per listed active user covers exactly the active users. */
  lemma OptionsCoverActive(users: seq<UserDto>, active: seq<UserDto>, r: seq<UserOption>)
    requires forall u :: u in active <==> u in users && u.active
    requires |r| == |active| && forall i :: 0 <= i < |r| ==> r[i] == OptionFor(active[i])
    ensures forall o :: o in r ==> exists u :: u in users && u.active && o == OptionFor(u)
    ensures forall u :: u in users && u.active ==> OptionFor(u) in r
  {
    forall o | o in r ensures exists u :: u in users && u.active && o == OptionFor(u) {
      var i :| 0 <= i < |r| && r[i] == o;
      var u := active[i];
      assert u in active;
    }
    forall u | u in users && u.active ensures OptionFor(u) in r {
      assert u in active;
      var i :| 0 <= i < |active| && active[i] == u;
      assert r[i] == OptionFor(u);
    }
  }

  /** The create form. */
  datatype NewTeam = NewTeam(name: string, description: string, leaderUsername: string)

  const EmptyForm: NewTeam := NewTeam("", "", "")

  /** The required-field guard of `handleCreateTeam`: the flash it shows, if any. */
  function CreateGuard(form: NewTeam): (r: Option<FlashContext.Flash>)
    ensures r.None? <==> form.name != "" && form.leaderUsername != ""
    ensures r.Some? ==> r.value == FlashContext.Flash(MissingFieldsMessage, "error")
  {
    if form.name == "" || form.leaderUsername == "" then Some(FlashContext.Flash(MissingFieldsMessage, "error"))
    else None
  }

  function NotWithId(teamId: string): TeamDto -> bool
  {
    (t: TeamDto) => t.id != teamId
  }

  /** The local update after a successful delete: every team with that id removed, in order. */
  function RemoveTeam(teams: seq<TeamDto>, teamId: string): (r: seq<TeamDto>)
    ensures Seqs.IsSubseq(r, teams)
    ensures forall t :: t in r <==> t in teams && t.id != teamId
  {
    var r := Seqs.Filter(teams, NotWithId(teamId));
    forall t ensures t in r <==> t in teams && t.id != teamId {
      Seqs.FilterMember(teams, NotWithId(teamId), t);
    }
    r
  }

  function LedBy(leader: string): TeamDto -> bool
  {
    (t: TeamDto) => t.leaderId == leader
  }

  /** `filteredTeams`: every team with no leader selected, otherwise exactly that leader's teams. */
  function FilteredTeams(teams: seq<TeamDto>, selectedLeader: string): (r: seq<TeamDto>)
    ensures selectedLeader == "" ==> r == teams
    ensures Seqs.IsSubseq(r, teams)
    ensures selectedLeader != "" ==> forall t :: t in r <==> t in teams && t.leaderId == selectedLeader
  {
    if selectedLeader == "" then
      Seqs.SubseqRefl(teams);
      teams
    else
      var r := Seqs.Filter(teams, LedBy(selectedLeader));
      forall t ensures t in r <==> t in teams && t.leaderId == selectedLeader {
        Seqs.FilterMember(teams, LedBy(selectedLeader), t);
      }
      r
  }

  /** The page's state: the team list, the users offered as leaders, the load error, and the form. */
  class TeamsView {
    var teams: seq<TeamDto>
    var allUsers: seq<UserDto>
    var error: string
    var newTeam: NewTeam
    var isModalOpen: bool

    constructor ()
      ensures teams == [] && allUsers == [] && error == "" && newTeam == EmptyForm && !isModalOpen
    {
      teams, allUsers, error, newTeam, isModalOpen := [], [], "", EmptyForm, false;
    }

    /** `fetchData`: both requests must succeed; only active users are kept. */
    method FetchData(teamsRes: Response<seq<TeamDto>>, usersRes: Response<seq<UserDto>>)
      modifies this
      ensures teamsRes.Received? && usersRes.Received? ==>
        teams == teamsRes.value && allUsers == ActiveUsers(usersRes.value) && error == old(error)
      ensures !(teamsRes.Received? && usersRes.Received?) ==>
        teams == old(teams) && allUsers == old(allUsers) && error == LoadError
      ensures newTeam == old(newTeam) && isModalOpen == old(isModalOpen)
    {
      if teamsRes.Received? && usersRes.Received? {
        teams := teamsRes.value;
        allUsers := ActiveUsers(usersRes.value);
      } else {
        error := LoadError;
      }
    }

    /** `handleCreateTeam`. `response` is what the create request would settle to; it is
        sent only when the guard passes. */
    method HandleCreateTeam(response: Response<TeamDto>) returns (sent: bool, shown: Option<FlashContext.Flash>)
      modifies this
      ensures sent <==> CreateGuard(old(newTeam)).None?
      ensures !sent ==> (shown == CreateGuard(old(newTeam)) && teams == old(teams)
        && newTeam == old(newTeam) && isModalOpen == old(isModalOpen))
      ensures sent && response.Received? ==> (shown.None? && teams == old(teams) + [response.value]
        && newTeam == EmptyForm && !isModalOpen)
      ensures sent && response.Rejected? ==> (teams == old(teams) && newTeam == old(newTeam)
        && isModalOpen == old(isModalOpen)
        && shown == Some(FlashContext.Flash("Failed to create team: " + GetErrorMessage(response.error), "error")))
      ensures allUsers == old(allUsers) && error == old(error)
    {
      var guard := CreateGuard(newTeam);
      if guard.Some? {
        return false, guard;
      }
      sent := true;
      match response
      case Received(data) =>
        teams := teams + [data];
        newTeam := EmptyForm;
        isModalOpen := false;
        shown := None;
      case Rejected(e) =>
        shown := Some(FlashContext.Flash("Failed to create team: " + GetErrorMessage(e), "error"));
    }

    /** The callback `handleDelete` passes to the confirmation dialog. */
    method DeleteConfirmed(teamId: string, teamName: string, response: Response<()>) returns (shown: FlashContext.Flash)
      modifies this
      ensures response.Received? ==> (teams == RemoveTeam(old(teams), teamId)
        && shown == FlashContext.Flash("Team \"" + teamName + "\" deleted successfully.", "success"))
      ensures response.Rejected? ==> (teams == old(teams)
        && shown == FlashContext.Flash("Failed to delete team: " + GetErrorMessage(response.error), "error"))
      ensures allUsers == old(allUsers) && error == old(error) && newTeam == old(newTeam) && isModalOpen == old(isModalOpen)
    {
      match response
      case Received(_) =>
        teams := RemoveTeam(teams, teamId);
        shown := FlashContext.Flash("Team \"" + teamName + "\" deleted successfully.", "success");
      case Rejected(e) =>
        shown := FlashContext.Flash("Failed to delete team: " + GetErrorMessage(e), "error");
    }
  }
}
