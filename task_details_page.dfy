/** A task's page as team members see it: the edit form built from the task, the update
    payload, the local comment and attachment lists, the status change, the "former member"
    badge, and which controls the signed-in user is shown. */
module TaskDetailsPage {
  import opened Options
  import opened Dto
  import Seqs
  import Text
  import FlashContext
  import TeamDetailsPage

  /** The edit form; every field is text. */
  datatype TaskForm = TaskForm(title: string, description: string, status: string, priority: string,
                               dueDate: string, assignedTo: string)

  /** The form filled from a loaded task: a null description becomes '', the due date keeps
      only its date part (`split('T')[0]`). */
  function EditFormOf(t: TaskDto): (f: TaskForm)
    ensures f.title == t.title && f.status == t.status && f.priority == t.priority && f.assignedTo == t.assignedTo
    ensures f.description == (if t.description.Some? then t.description.value else "")
    ensures f.dueDate <= t.dueDate && 'T' !in f.dueDate
    ensures 'T' in t.dueDate ==> t.dueDate[|f.dueDate|] == 'T'
    ensures 'T' !in t.dueDate ==> f.dueDate == t.dueDate
  {
    TaskForm(t.title, t.description.GetOr(""), t.status, t.priority, Text.BeforeFirst(t.dueDate, 'T'), t.assignedTo)
  }

  /** `{ ...editForm, due_date: iso }` with `status` deleted: what `handleUpdateTask` sends. */
  function UpdatePayload(form: TaskForm, isoDue: string): (p: map<string, string>)
    ensures "status" !in p
    ensures p.Keys == {"title", "description", "priority", "due_date", "assigned_to"}
    ensures p["title"] == form.title && p["description"] == form.description && p["priority"] == form.priority
    ensures p["due_date"] == isoDue && p["assigned_to"] == form.assignedTo
  {
    var full := map["title" := form.title, "description" := form.description, "status" := form.status,
                     "priority" := form.priority, "due_date" := form.dueDate, "assigned_to" := form.assignedTo];
    full["due_date" := isoDue] - {"status"}
  }

  /** `commentText.trim()` is non-empty. */
  predicate ShouldSendComment(text: string)
  {
    !Text.IsBlank(text)
  }

  function CommentIdIsNot(id: string): CommentDto -> bool
  {
    (c: CommentDto) => c.id != id
  }

  /** The local update after a successful comment delete: exactly that id removed, in order. */
  function RemoveComment(comments: seq<CommentDto>, id: string): (r: seq<CommentDto>)
    ensures Seqs.IsSubseq(r, comments)
    ensures forall c :: c in r <==> c in comments && c.id != id
  {
    var r := Seqs.Filter(comments, CommentIdIsNot(id));
    forall c ensures c in r <==> c in comments && c.id != id {
      Seqs.FilterMember(comments, CommentIdIsNot(id), c);
    }
    r
  }

  function AttachmentIdIsNot(id: string): AttachmentDto -> bool
  {
    (a: AttachmentDto) => a.id != id
  }

  /** The local update after a successful attachment delete: exactly that id removed, in order. */
  function RemoveAttachment(attachments: seq<AttachmentDto>, id: string): (r: seq<AttachmentDto>)
    ensures Seqs.IsSubseq(r, attachments)
    ensures forall a :: a in r <==> a in attachments && a.id != id
  {
    var r := Seqs.Filter(attachments, AttachmentIdIsNot(id));
    forall a ensures a in r <==> a in attachments && a.id != id {
      Seqs.FilterMember(attachments, AttachmentIdIsNot(id), a);
    }
    r
  }

  /** The "[former member]" badge: the team is loaded, and the commenter is neither a member
      nor its leader. */
  predicate IsFormerMember(team: Option<TeamDto>, commenter: string)
  {
    team.Some? && commenter !in team.value.memberIds && commenter != team.value.leaderId
  }

  /** One badge flag per comment, in list order. */
  function CommentBadges(team: Option<TeamDto>, comments: seq<CommentDto>): (r: seq<bool>)
    ensures |r| == |comments|
    ensures forall i :: 0 <= i < |comments| ==> (r[i] <==> IsFormerMember(team, comments[i].createdBy))
  {
    seq(|comments|, i requires 0 <= i < |comments| => IsFormerMember(team, comments[i].createdBy))
  }

  /** No badge is shown before the team is loaded. */
  lemma NoBadgesWithoutTeam(comments: seq<CommentDto>)
    ensures forall i :: 0 <= i < |comments| ==> !CommentBadges(None, comments)[i]
  {
  }

  /** Once the leader removes a member, every comment that member wrote carries the badge;
      once a user is added, none of theirs does. */
  lemma MembershipChangesDecideBadges(team: TeamDto, member: string, comments: seq<CommentDto>)
    ensures member != team.leaderId ==>
      forall i :: 0 <= i < |comments| && comments[i].createdBy == member ==>
        CommentBadges(Some(TeamDetailsPage.RemoveMemberLocal(team, member)), comments)[i]
    ensures forall i :: 0 <= i < |comments| && comments[i].createdBy == member ==>
      !CommentBadges(Some(TeamDetailsPage.AddMemberLocal(team, member)), comments)[i]
  {
    var removed := TeamDetailsPage.RemoveMemberLocal(team, member);
    assert removed.leaderId == team.leaderId;
    assert member !in removed.memberIds;
    assert member in TeamDetailsPage.AddMemberLocal(team, member).memberIds;
  }

  /** What the signed-in user is shown on a loaded task. */
  datatype Controls = Controls(
    deleteComment: seq<bool>,
    deleteFile: seq<bool>,
    statusSelector: bool,
    editTask: bool,
    deleteTask: bool)

  /** The controls: delete a comment as its author or the leader, delete a file as its uploader
      or the leader; while not editing, change the status as the assignee and edit and delete
      the task as the leader (while editing only Save and Cancel are shown). */
  function ControlsFor(user: string, task: TaskDto, team: Option<TeamDto>, comments: seq<CommentDto>,
                       attachments: seq<AttachmentDto>, isEditing: bool): (c: Controls)
    ensures |c.deleteComment| == |comments| && |c.deleteFile| == |attachments|
    ensures forall i :: 0 <= i < |comments| ==>
      (c.deleteComment[i] <==> comments[i].createdBy == user || TeamDetailsPage.IsLeader(team, user))
    ensures forall i :: 0 <= i < |attachments| ==>
      (c.deleteFile[i] <==> attachments[i].uploadedBy == user || TeamDetailsPage.IsLeader(team, user))
    ensures c.statusSelector <==> task.assignedTo == user && !isEditing
    ensures c.editTask <==> TeamDetailsPage.IsLeader(team, user) && !isEditing
    ensures c.deleteTask <==> TeamDetailsPage.IsLeader(team, user) && !isEditing
  {
    var leader := TeamDetailsPage.IsLeader(team, user);
    Controls(
      seq(|comments|, i requires 0 <= i < |comments| => comments[i].createdBy == user || leader),
      seq(|attachments|, i requires 0 <= i < |attachments| => attachments[i].uploadedBy == user || leader),
      task.assignedTo == user && !isEditing,
      leader && !isEditing,
      leader && !isEditing)
  }

  /** Until the team is loaded nobody is the leader: only authors, uploaders and the assignee
      see a control. */
  lemma NoLeaderControlsWithoutTeam(user: string, task: TaskDto, comments: seq<CommentDto>,
                                    attachments: seq<AttachmentDto>, isEditing: bool)
    ensures var c := ControlsFor(user, task, None, comments, attachments, isEditing);
      !c.editTask && !c.deleteTask
      && (forall i :: 0 <= i < |comments| && comments[i].createdBy != user ==> !c.deleteComment[i])
      && (forall i :: 0 <= i < |attachments| && attachments[i].uploadedBy != user ==> !c.deleteFile[i])
  {
  }

  /** The page's state. `task` is absent until loaded; the handlers are reachable once shown. */
  class TaskView {
    var task: Option<TaskDto>
    var team: Option<TeamDto>
    var comments: seq<CommentDto>
    var attachments: seq<AttachmentDto>
    var loading: bool
    var commentText: string
    var isEditing: bool
    var editForm: TaskForm

    constructor ()
      ensures task.None? && team.None? && comments == [] && attachments == [] && loading
      ensures commentText == "" && !isEditing && editForm == TaskForm("", "", "", "", "", "")
    {
      task, team, comments, attachments, loading := None, None, [], [], true;
      commentText, isEditing, editForm := "", false, TaskForm("", "", "", "", "", "");
    }

    /** `fetchData`: the four requests must all succeed; otherwise the page flashes and goes
        back to the team. */
    method FetchData(teamId: string, taskRes: Response<TaskDto>, commentsRes: Response<seq<CommentDto>>,
                     attachmentsRes: Response<seq<AttachmentDto>>, teamRes: Response<TeamDto>)
      returns (navigateTo: Option<string>, shown: Option<FlashContext.Flash>)
      modifies this
      ensures var ok := taskRes.Received? && commentsRes.Received? && attachmentsRes.Received? && teamRes.Received?;
        (ok ==> (task == Some(taskRes.value) && team == Some(teamRes.value) && editForm == EditFormOf(taskRes.value)
          && comments == commentsRes.value && attachments == attachmentsRes.value
          && navigateTo.None? && shown.None?))
        && (!ok ==> (task == old(task) && team == old(team) && editForm == old(editForm)
          && comments == old(comments) && attachments == old(attachments)
          && navigateTo == Some("/teams/" + teamId)
          && shown == Some(FlashContext.Flash("Failed to load task details.", "error"))))
      ensures !loading && commentText == old(commentText) && isEditing == old(isEditing)
    {
      if taskRes.Received? && commentsRes.Received? && attachmentsRes.Received? && teamRes.Received? {
        task := Some(taskRes.value);
        team := Some(teamRes.value);
        editForm := EditFormOf(taskRes.value);
        comments := commentsRes.value;
        attachments := attachmentsRes.value;
        navigateTo, shown := None, None;
      } else {
        navigateTo := Some("/teams/" + teamId);
        shown := Some(FlashContext.Flash("Failed to load task details.", "error"));
      }
      loading := false;
    }

    /** `handleStatusChange`: on success only the task's status and the form's status change. */
    method HandleStatusChange(newStatus: string, succeeded: bool) returns (shown: FlashContext.Flash)
      requires task.Some?
      modifies this
      ensures succeeded ==> (task == Some(old(task).value.(status := newStatus))
        && editForm == old(editForm).(status := newStatus)
        && shown == FlashContext.Flash("Status updated.", "success"))
      ensures !succeeded ==> (task == old(task) && editForm == old(editForm)
        && shown == FlashContext.Flash("Failed to update status.", "error"))
      ensures team == old(team) && comments == old(comments) && attachments == old(attachments)
      ensures isEditing == old(isEditing) && commentText == old(commentText)
    {
      if succeeded {
        task := Some(task.value.(status := newStatus));
        editForm := editForm.(status := newStatus);
        shown := FlashContext.Flash("Status updated.", "success");
      } else {
        shown := FlashContext.Flash("Failed to update status.", "error");
      }
    }

    /** `handleUpdateTask`. `isoDue` is the form's date as `toISOString` renders it, absent when
        the date is invalid and the conversion throws before anything is sent. */
    method HandleUpdateTask(isoDue: Option<string>, response: Response<TaskDto>)
      returns (sent: Option<map<string, string>>, shown: FlashContext.Flash)
      requires task.Some?
      modifies this
      ensures sent.Some? <==> isoDue.Some?
      ensures sent.Some? ==> sent.value == UpdatePayload(editForm, isoDue.value)
      ensures sent.None? ==> (task == old(task) && isEditing == old(isEditing)
        && shown == FlashContext.Flash("Failed to update task: Unknown error", "error"))
      ensures sent.Some? && response.Received? ==> (task == Some(response.value) && !isEditing
        && shown == FlashContext.Flash("Task updated successfully.", "success"))
      ensures sent.Some? && response.Rejected? ==> (task == old(task) && isEditing == old(isEditing)
        && shown == FlashContext.Flash("Failed to update task: " + TeamDetailsPage.DetailOrUnknown(response.error), "error"))
      ensures editForm == old(editForm) && team == old(team) && comments == old(comments) && attachments == old(attachments)
    {
      if isoDue.None? {
        return None, FlashContext.Flash("Failed to update task: Unknown error", "error");
      }
      sent := Some(UpdatePayload(editForm, isoDue.value));
      match response
      case Received(data) =>
        task := Some(data);
        isEditing := false;
        shown := FlashContext.Flash("Task updated successfully.", "success");
      case Rejected(e) =>
        shown := FlashContext.Flash("Failed to update task: " + TeamDetailsPage.DetailOrUnknown(e), "error");
    }

    /** `handleAddComment`: a blank comment is not sent; a created one is appended and the
        input cleared. */
    method HandleAddComment(response: Response<CommentDto>) returns (sent: bool, shown: Option<FlashContext.Flash>)
      requires task.Some?
      modifies this
      ensures sent <==> ShouldSendComment(old(commentText))
      ensures !sent ==> comments == old(comments) && commentText == old(commentText) && shown.None?
      ensures sent && response.Received? ==> (comments == old(comments) + [response.value] && commentText == ""
        && shown == Some(FlashContext.Flash("Comment added.", "success")))
      ensures sent && response.Rejected? ==> (comments == old(comments) && commentText == old(commentText)
        && shown == Some(FlashContext.Flash("Failed to add comment.", "error")))
      ensures task == old(task) && team == old(team) && attachments == old(attachments) && editForm == old(editForm)
    {
      if !ShouldSendComment(commentText) {
        return false, None;
      }
      sent := true;
      match response
      case Received(data) =>
        comments := comments + [data];
        commentText := "";
        shown := Some(FlashContext.Flash("Comment added.", "success"));
      case Rejected(_) =>
        shown := Some(FlashContext.Flash("Failed to add comment.", "error"));
    }

    /** The callback `handleDeleteComment` passes to the confirmation dialog. */
    method DeleteCommentConfirmed(commentId: string, succeeded: bool) returns (shown: FlashContext.Flash)
      modifies this
      ensures comments == (if succeeded then RemoveComment(old(comments), commentId) else old(comments))
      ensures shown == (if succeeded then FlashContext.Flash("Comment deleted.", "success")
                        else FlashContext.Flash("Failed to delete comment.", "error"))
      ensures task == old(task) && team == old(team) && attachments == old(attachments) && commentText == old(commentText)
    {
      if succeeded {
        comments := RemoveComment(comments, commentId);
        shown := FlashContext.Flash("Comment deleted.", "success");
      } else {
        shown := FlashContext.Flash("Failed to delete comment.", "error");
      }
    }

    /** `handleFileUpload`: nothing happens without a chosen file; an uploaded one is appended. */
    method HandleFileUpload(fileChosen: bool, response: Response<AttachmentDto>)
      returns (sent: bool, shown: Option<FlashContext.Flash>)
      modifies this
      ensures sent <==> fileChosen
      ensures !sent ==> attachments == old(attachments) && shown.None?
      ensures sent && response.Received? ==> (attachments == old(attachments) + [response.value]
        && shown == Some(FlashContext.Flash("File uploaded successfully.", "success")))
      ensures sent && response.Rejected? ==> (attachments == old(attachments)
        && shown == Some(FlashContext.Flash("Failed to upload file.", "error")))
      ensures task == old(task) && team == old(team) && comments == old(comments) && commentText == old(commentText)
    {
      if !fileChosen {
        return false, None;
      }
      sent := true;
      match response
      case Received(data) =>
        attachments := attachments + [data];
        shown := Some(FlashContext.Flash("File uploaded successfully.", "success"));
      case Rejected(_) =>
        shown := Some(FlashContext.Flash("Failed to upload file.", "error"));
    }

    /** The callback `handleDeleteAttachment` passes to the confirmation dialog. */
    method DeleteAttachmentConfirmed(attachmentId: string, succeeded: bool) returns (shown: FlashContext.Flash)
      modifies this
      ensures attachments == (if succeeded then RemoveAttachment(old(attachments), attachmentId) else old(attachments))
      ensures shown == (if succeeded then FlashContext.Flash("File deleted.", "success")
                        else FlashContext.Flash("Failed to delete file.", "error"))
      ensures task == old(task) && team == old(team) && comments == old(comments) && commentText == old(commentText)
    {
      if succeeded {
        attachments := RemoveAttachment(attachments, attachmentId);
        shown := FlashContext.Flash("File deleted.", "success");
      } else {
        shown := FlashContext.Flash("Failed to delete file.", "error");
      }
    }
  }
}
