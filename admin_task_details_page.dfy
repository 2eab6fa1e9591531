/** The read-only task page for admins: the priority colour, the status label, the
    "former member" badges, and the order in which its data is fetched. */
module AdminTaskDetailsPage {
  import opened Options
  import opened Dto
  import Text
  import TaskDetailsPage

  const BackPath: string := "/admin/teams"
  const LoadFailure: string := "Failed to load task details."

  /** The three colour schemes of the priority badge. */
  datatype PriorityColor = Red | Orange | Green

  /** `getPriorityColor`: red for URGENT, orange for MEDIUM, green for anything else. */
  function PriorityColorOf(priority: string): (c: PriorityColor)
    ensures c == Red <==> priority == "URGENT"
    ensures c == Orange <==> priority == "MEDIUM"
    ensures c == Green <==> priority != "URGENT" && priority != "MEDIUM"
  {
    if priority == "URGENT" then Red else if priority == "MEDIUM" then Orange else Green
  }

  /** `status.replace('_', ' ')`: only the first underscore becomes a space. */
  function StatusLabel(status: string): (r: string)
    ensures |r| == |status|
    ensures '_' !in status ==> r == status
  {
    Text.ReplaceFirst(status, '_', ' ')
  }

  /** The first underscore of a status becomes a space and every other character is kept,
      so IN_PROGRESS reads "IN PROGRESS". */
  lemma FirstUnderscoreBecomesSpace(status: string, i: nat)
    requires i < |status| && status[i] == '_'
    requires forall j :: 0 <= j < i ==> status[j] != '_'
    ensures StatusLabel(status)[i] == ' '
    ensures forall j :: 0 <= j < |status| && j != i ==> StatusLabel(status)[j] == status[j]
  {
    var k := Text.FirstIndex(status, '_');
    assert k == i;
  }

  /** A label keeps every underscore after the first one. */
  lemma {:induction false} LaterUnderscoresKept(status: string, i: nat, j: nat)
    requires i < j < |status| && status[i] == '_' && status[j] == '_'
    ensures StatusLabel(status)[j] == '_'
  {
    var k := Text.FirstIndex(status, '_');
    assert k <= i;
  }

  /** The badges over this page's comments follow the same rule as the members' task page. */
  function Badges(team: Option<TeamDto>, comments: seq<CommentDto>): (r: seq<bool>)
    ensures |r| == |comments|
    ensures forall i :: 0 <= i < |comments| ==>
      (r[i] <==> team.Some? && comments[i].createdBy !in team.value.memberIds && comments[i].createdBy != team.value.leaderId)
  {
    TaskDetailsPage.CommentBadges(team, comments)
  }

  /** The page's loaded data. */
  class AdminTaskView {
    var task: Option<TaskDto>
    var team: Option<TeamDto>
    var comments: seq<CommentDto>
    var attachments: seq<AttachmentDto>
    var loading: bool

    constructor ()
      ensures task.None? && team.None? && comments == [] && attachments == [] && loading
    {
      task, team, comments, attachments, loading := None, None, [], [], true;
    }

    /** `fetchData`: the task first; only once it has arrived are its team (by the task's
        `team_id`), comments and attachments requested, all three of which must succeed. */
    method FetchData(taskRes: Response<TaskDto>, teamRes: Response<TeamDto>,
                     commentsRes: Response<seq<CommentDto>>, attachmentsRes: Response<seq<AttachmentDto>>)
      returns (teamRequested: Option<string>, alerted: Option<string>, navigateTo: Option<string>)
      modifies this
      ensures teamRequested == (if taskRes.Received? then Some(taskRes.value.teamId) else None)
      ensures taskRes.Received? ==> task == Some(taskRes.value)
      ensures taskRes.Rejected? ==> task == old(task)
      ensures var ok := taskRes.Received? && teamRes.Received? && commentsRes.Received? && attachmentsRes.Received?;
        (ok ==> (team == Some(teamRes.value) && comments == commentsRes.value && attachments == attachmentsRes.value
          && alerted.None? && navigateTo.None?))
        && (!ok ==> (team == old(team) && comments == old(comments) && attachments == old(attachments)
          && alerted == Some(LoadFailure) && navigateTo == Some(BackPath)))
      ensures !loading
    {
      teamRequested, alerted, navigateTo := None, None, None;
      if taskRes.Rejected? {
        alerted, navigateTo := Some(LoadFailure), Some(BackPath);
      } else {
        task := Some(taskRes.value);
        teamRequested := Some(taskRes.value.teamId);
        if teamRes.Received? && commentsRes.Received? && attachmentsRes.Received? {
          team := Some(teamRes.value);
          comments := commentsRes.value;
          attachments := attachmentsRes.value;
        } else {
          alerted, navigateTo := Some(LoadFailure), Some(BackPath);
        }
      }
      loading := false;
    }
  }
}
