/** The task service's request handlers over an in-memory store of tasks and notifications.
    The user service, the team service, the task-access dependency, the file system and the
    clock are inputs of the handlers. */
module TaskRoutes {
  import opened Options
  import opened Domain
  import Seqs
  import Text
  import PurePaths

  const NotificationLimit: nat := 50
  const TaskListLimit: nat := 100
  const UploadBaseDir: string := "task_files"
  const DefaultFilename: string := "attachment"
  const DefaultContentType: string := "application/octet-stream"

  function Min(a: nat, b: nat): nat { if a <= b then a else b }

  // ------------------------------------------------------------------
  // Notifications
  // ------------------------------------------------------------------

  /** The document `create_notification` inserts: always unread. */
  function NewNotification(id: string, userId: string, title: string, message: string,
                           link: string, ntype: NotificationType, now: int): (n: Notification)
    ensures n.id == id && n.userId == userId && n.ntype == ntype && !n.isRead && n.createdAt == now
  {
    Notification(id, userId, title, message, link, ntype, false, now)
  }

  function OwnedBy(user: string): Notification -> bool
  {
    (n: Notification) => n.userId == user
  }

  function NotOwnedBy(user: string): Notification -> bool
  {
    (n: Notification) => n.userId != user
  }

  function NewestFirst(n: Notification): int { -n.createdAt }

  /** The first `n` notes of `s` sorted newest first: descending by creation time, each taken
      from `s` at most as often as it occurs there, and all of `s` when it has at most `n`. */
  function NewestNotes(s: seq<Notification>, n: nat): (r: seq<Notification>)
    ensures |r| == Min(n, |s|)
    ensures multiset(r) <= multiset(s)
    ensures |s| <= n ==> multiset(r) == multiset(s)
    ensures forall i :: 0 <= i < |r| ==> r[i] in s
    ensures forall i, j :: 0 <= i < j < |r| ==> r[i].createdAt >= r[j].createdAt
  {
    var sorted := Seqs.SortBy(s, NewestFirst);
    Seqs.SameMultisetMembers(sorted, s);
    Seqs.TakeAndRest(sorted, n);
    Seqs.Take(sorted, n)
  }

  /** `get_my_notifications`: the caller's notifications, newest first, at most 50, each listed
      at most as often as it is stored and all of them when there are at most 50. */
  function MyNotifications(notes: seq<Notification>, user: string): (r: seq<Notification>)
    ensures |r| == Min(NotificationLimit, Seqs.Count(notes, OwnedBy(user)))
    ensures forall i :: 0 <= i < |r| ==> r[i] in notes && r[i].userId == user
    ensures forall i, j :: 0 <= i < j < |r| ==> r[i].createdAt >= r[j].createdAt
    ensures multiset(r) <= multiset(Seqs.Filter(notes, OwnedBy(user)))
    ensures Seqs.Count(notes, OwnedBy(user)) <= NotificationLimit ==>
      multiset(r) == multiset(Seqs.Filter(notes, OwnedBy(user)))
  {
    var mine := Seqs.Filter(notes, OwnedBy(user));
    Seqs.CountIsFilterLength(notes, OwnedBy(user));
    NewestNotes(mine, NotificationLimit)
  }

  /** None of the caller's notifications is left out unless 50 notifications at least as new are listed. */
  lemma MyNotificationsAreTheNewest(notes: seq<Notification>, user: string, n: Notification)
    requires n in notes && n.userId == user
    ensures var r := MyNotifications(notes, user);
      n in r || (|r| == NotificationLimit && n.createdAt <= r[|r| - 1].createdAt)
  {
    var mine := Seqs.Filter(notes, OwnedBy(user));
    Seqs.FilterMember(notes, OwnedBy(user), n);
    var sorted := Seqs.SortBy(mine, NewestFirst);
    assert n in multiset(sorted);
    var k :| 0 <= k < |sorted| && sorted[k] == n;
    var r := MyNotifications(notes, user);
    assert r == NewestNotes(mine, NotificationLimit) == Seqs.Take(sorted, NotificationLimit);
    if k < |r| {
      assert r[k] == n;
    } else {
      assert |r| == NotificationLimit;
      assert NewestFirst(sorted[|r| - 1]) <= NewestFirst(sorted[k]);
    }
  }

  /** Index of the first notification with this ObjectId owned by this user, or |notes|. */
  function FirstOwnedNote(notes: seq<Notification>, noteId: string, user: string): (k: nat)
    ensures k <= |notes|
    ensures forall i :: 0 <= i < k ==> !(SameObjectId(notes[i].id, noteId) && notes[i].userId == user)
    ensures k < |notes| ==> SameObjectId(notes[k].id, noteId) && notes[k].userId == user
    decreases |notes|
  {
    if notes == [] then 0
    else if SameObjectId(notes[0].id, noteId) && notes[0].userId == user then 0
    else 1 + FirstOwnedNote(notes[1..], noteId, user)
  }

  /** The `update_one` of `mark_notification_read`: sets `is_read` on the caller's note with that id. */
  function MarkRead(notes: seq<Notification>, noteId: string, user: string): (r: seq<Notification>)
    ensures |r| == |notes|
    ensures forall i :: 0 <= i < |notes| ==>
      r[i] == notes[i] || (SameObjectId(notes[i].id, noteId) && notes[i].userId == user && r[i] == notes[i].(isRead := true))
    ensures forall i :: 0 <= i < |notes| && notes[i].userId != user ==> r[i] == notes[i]
    ensures forall i, j :: 0 <= i < |notes| && 0 <= j < |notes| && r[i] != notes[i] && r[j] != notes[j] ==> i == j
    ensures (exists i :: 0 <= i < |notes| && SameObjectId(notes[i].id, noteId) && notes[i].userId == user) ==>
      exists i :: 0 <= i < |notes| && SameObjectId(notes[i].id, noteId) && notes[i].userId == user && r[i].isRead
  {
    var k := FirstOwnedNote(notes, noteId, user);
    if k < |notes| then notes[k := notes[k].(isRead := true)] else notes
  }

  /** Marking read twice is the same as marking read once. */
  lemma MarkReadIdempotent(notes: seq<Notification>, noteId: string, user: string)
    ensures MarkRead(MarkRead(notes, noteId, user), noteId, user) == MarkRead(notes, noteId, user)
  {
    var r := MarkRead(notes, noteId, user);
    var k := FirstOwnedNote(notes, noteId, user);
    var k' := FirstOwnedNote(r, noteId, user);
    assert forall i :: 0 <= i < |notes| ==> r[i].id == notes[i].id && r[i].userId == notes[i].userId;
    if k < |notes| {
      assert SameObjectId(r[k].id, noteId) && r[k].userId == user;
      assert k' == k;
    } else {
      assert k' == |r|;
    }
  }

  /** `clear_all_notifications`: deletes exactly the caller's notifications. */
  function ClearAll(notes: seq<Notification>, user: string): (r: seq<Notification>)
    ensures forall n :: n in r ==> n.userId != user
    ensures forall n :: n in notes && n.userId != user ==> n in r
    ensures Seqs.IsSubseq(r, notes)
  {
    var r := Seqs.Filter(notes, NotOwnedBy(user));
    forall n | n in notes && n.userId != user ensures n in r {
      Seqs.FilterMember(notes, NotOwnedBy(user), n);
    }
    r
  }

  // ------------------------------------------------------------------
  // Task listings
  // ------------------------------------------------------------------

  /** The `find` filter of a listing: by assignee or by team, and by status when one is given. */
  datatype TaskQuery = AssignedTo(username: string) | InTeam(teamId: string)

  predicate Selected(q: TaskQuery, status: Option<TaskStatus>, t: Task)
  {
    (match q
     case AssignedTo(u) => t.assignedTo == u
     case InTeam(team) => t.teamId == team)
    && (status.Some? ==> t.status == status.value)
  }

  function Selector(q: TaskQuery, status: Option<TaskStatus>): Task -> bool
  {
    (t: Task) => Selected(q, status, t)
  }

  function DueKey(t: Task): int { t.dueDate }

  lemma {:induction false} PrefixIsSubseq<T>(a: seq<T>, b: seq<T>, n: nat)
    requires Seqs.IsSubseq(a, b) && n <= |a|
    ensures Seqs.IsSubseq(a[..n], b)
    decreases |b|
  {
    if n == 0 || a == [] {
    } else if a[0] == b[0] {
      PrefixIsSubseq(a[1..], b[1..], n - 1);
      assert a[..n][1..] == a[1..][..n - 1];
    } else {
      PrefixIsSubseq(a, b[1..], n);
    }
  }

  /** The first `n` elements of `s` sorted by due date: ascending, each taken from `s` at most
      as often as it occurs there, and all of `s` when it has at most `n` elements. */
  function EarliestDue(s: seq<Task>, n: nat): (r: seq<Task>)
    ensures |r| == Min(n, |s|)
    ensures multiset(r) <= multiset(s)
    ensures |s| <= n ==> multiset(r) == multiset(s)
    ensures forall i :: 0 <= i < |r| ==> r[i] in s
    ensures forall i, j :: 0 <= i < j < |r| ==> r[i].dueDate <= r[j].dueDate
  {
    var sorted := Seqs.SortBy(s, DueKey);
    Seqs.SameMultisetMembers(sorted, s);
    Seqs.TakeAndRest(sorted, n);
    Seqs.Take(sorted, n)
  }

  /** No task left out of EarliestDue is due before any task it keeps. */
  lemma EarliestDueAreTheEarliest(s: seq<Task>, n: nat)
    ensures var r := EarliestDue(s, n);
      forall t, i :: t in multiset(s) - multiset(r) && 0 <= i < |r| ==> r[i].dueDate <= t.dueDate
  {
    var sorted := Seqs.SortBy(s, DueKey);
    assert EarliestDue(s, n) == Seqs.Take(sorted, n);
    Seqs.SortedTakeKeepsSmallest(sorted, n, DueKey);
  }

  /** A task listing: matching tasks only, at most 100; ascending by due date when asked,
      otherwise the first matches in the store's order. */
  function ListTasks(tasks: seq<Task>, q: TaskQuery, status: Option<TaskStatus>, sortByDue: bool): (r: seq<Task>)
    ensures |r| == Min(TaskListLimit, Seqs.Count(tasks, Selector(q, status)))
    ensures forall i :: 0 <= i < |r| ==> r[i] in tasks && Selected(q, status, r[i])
    ensures sortByDue ==> forall i, j :: 0 <= i < j < |r| ==> r[i].dueDate <= r[j].dueDate
    ensures !sortByDue ==> Seqs.IsSubseq(r, tasks)
  {
    var matched := Seqs.Filter(tasks, Selector(q, status));
    Seqs.CountIsFilterLength(tasks, Selector(q, status));
    assert forall t :: t in matched ==> t in tasks && Selected(q, status, t);
    if sortByDue then
      ListByDue(matched)
    else
      ListInStoreOrder(tasks, matched)
  }

  /** The 100 earliest-due of the matches, ascending. */
  function ListByDue(matched: seq<Task>): (r: seq<Task>)
    ensures |r| == Min(TaskListLimit, |matched|)
    ensures forall i :: 0 <= i < |r| ==> r[i] in matched
    ensures forall i, j :: 0 <= i < j < |r| ==> r[i].dueDate <= r[j].dueDate
  {
    EarliestDue(matched, TaskListLimit)
  }

  /** The first 100 of the matches, in the store's order. */
  function ListInStoreOrder(tasks: seq<Task>, matched: seq<Task>): (r: seq<Task>)
    requires Seqs.IsSubseq(matched, tasks)
    ensures |r| == Min(TaskListLimit, |matched|)
    ensures r == matched[..|r|]
    ensures Seqs.IsSubseq(r, tasks)
  {
    var r := Seqs.Take(matched, TaskListLimit);
    PrefixIsSubseq(matched, tasks, |r|);
    assert r == matched[..|r|];
    r
  }

  /** An unsorted listing is the first matches in the store's order. */
  lemma ListedInStoreOrder(tasks: seq<Task>, q: TaskQuery, status: Option<TaskStatus>)
    ensures var r := ListTasks(tasks, q, status, false);
      r == Seqs.Filter(tasks, Selector(q, status))[..|r|]
  {
    var matched := Seqs.Filter(tasks, Selector(q, status));
    assert ListTasks(tasks, q, status, false) == ListInStoreOrder(tasks, matched);
  }

  /** A due-date listing takes each match at most as often as it occurs, takes all of them when
      there are at most 100, and leaves out no match that is due before a listed one. */
  lemma ListedTasksAreTheEarliest(tasks: seq<Task>, q: TaskQuery, status: Option<TaskStatus>)
    ensures var matched := Seqs.Filter(tasks, Selector(q, status));
      var r := ListTasks(tasks, q, status, true);
      && multiset(r) <= multiset(matched)
      && (|matched| <= TaskListLimit ==> multiset(r) == multiset(matched))
      && forall t, i :: t in multiset(matched) - multiset(r) && 0 <= i < |r| ==> r[i].dueDate <= t.dueDate
  {
    var matched := Seqs.Filter(tasks, Selector(q, status));
    assert ListTasks(tasks, q, status, true) == ListByDue(matched) == EarliestDue(matched, TaskListLimit);
    EarliestDueAreTheEarliest(matched, TaskListLimit);
  }

  /** `list_my_assigned_tasks`: the ListTasks listing of the caller's own tasks. */
  function ListMyAssignedTasks(tasks: seq<Task>, caller: Caller, status: Option<TaskStatus>, sortByDue: bool): (r: seq<Task>)
    ensures r == ListTasks(tasks, AssignedTo(caller.username), status, sortByDue)
    ensures |r| == Min(TaskListLimit, Seqs.Count(tasks, Selector(AssignedTo(caller.username), status)))
    ensures forall i :: 0 <= i < |r| ==> r[i] in tasks && r[i].assignedTo == caller.username
    ensures status.Some? ==> forall i :: 0 <= i < |r| ==> r[i].status == status.value
    ensures sortByDue ==> forall i, j :: 0 <= i < j < |r| ==> r[i].dueDate <= r[j].dueDate
  {
    ListTasks(tasks, AssignedTo(caller.username), status, sortByDue)
  }

  /** `list_tasks_by_team`, for a team id the access dependency has already validated. */
  function ListTasksByTeam(tasks: seq<Task>, validatedTeamId: string, status: Option<TaskStatus>, sortByDue: bool): (r: seq<Task>)
    ensures r == ListTasks(tasks, InTeam(validatedTeamId), status, sortByDue)
    ensures |r| == Min(TaskListLimit, Seqs.Count(tasks, Selector(InTeam(validatedTeamId), status)))
    ensures forall i :: 0 <= i < |r| ==> r[i] in tasks && r[i].teamId == validatedTeamId
    ensures status.Some? ==> forall i :: 0 <= i < |r| ==> r[i].status == status.value
    ensures sortByDue ==> forall i, j :: 0 <= i < j < |r| ==> r[i].dueDate <= r[j].dueDate
  {
    ListTasks(tasks, InTeam(validatedTeamId), status, sortByDue)
  }

  // ------------------------------------------------------------------
  // Creating and updating tasks
  // ------------------------------------------------------------------

  datatype TaskCreate = TaskCreate(
    teamId: string,
    title: string,
    description: Option<string>,
    assignedTo: string,
    status: TaskStatus,
    priority: Priority,
    dueDate: int)

  /** What the user service says about a username: unreachable, 404, a user record whose
      `active` flag is truthy or not, or a failure of any other kind (for example a body
      that is not JSON). */
  datatype UserLookup = UserServiceUnreachable | UserNotFound | UserFound(active: bool) | LookupFailed

  /** The assignee validation of `create_task` as written: the 404 and 400 raised inside the
      `try` block are caught by its `except Exception` clause and become 500. */
  function AssigneeCheckAsWritten(lookup: UserLookup, assignee: string): (r: Result<()>)
    ensures r.Ok? <==> lookup == UserFound(true)
    ensures lookup.UserServiceUnreachable? ==> r == Err(503, "User service is unreachable.")
    ensures lookup != UserFound(true) && !lookup.UserServiceUnreachable? ==>
      r == Err(500, "Error during user assignment validation.")
  {
    match lookup
    case UserServiceUnreachable => Err(503, "User service is unreachable.")
    case UserFound(true) => Ok(())
    case _ => Err(500, "Error during user assignment validation.")
  }

  /** The assignee validation `create_task` evidently intends: unknown user 404, inactive user 400. */
  function AssigneeCheck(lookup: UserLookup, assignee: string): (r: Result<()>)
    ensures r.Ok? <==> lookup == UserFound(true)
    ensures lookup.UserNotFound? ==> r == Err(404, "User '" + assignee + "' not found in the system.")
    ensures lookup == UserFound(false) ==> r == Err(400, "Assigned user is not active and cannot be assigned a task.")
    ensures lookup.UserServiceUnreachable? ==> r == Err(503, "User service is unreachable.")
    ensures lookup.LookupFailed? ==> r == Err(500, "Error during user assignment validation.")
  {
    match lookup
    case UserServiceUnreachable => Err(503, "User service is unreachable.")
    case UserNotFound => Err(404, "User '" + assignee + "' not found in the system.")
    case UserFound(active) =>
      if active then Ok(()) else Err(400, "Assigned user is not active and cannot be assigned a task.")
    case LookupFailed => Err(500, "Error during user assignment validation.")
  }

  /** As written, an unknown or inactive assignee is reported as a server error, not as 404/400. */
  lemma AssigneeErrorsSwallowed(assignee: string)
    ensures AssigneeCheckAsWritten(UserNotFound, assignee).code == 500
    ensures AssigneeCheck(UserNotFound, assignee).code == 404
    ensures AssigneeCheckAsWritten(UserFound(false), assignee).code == 500
    ensures AssigneeCheck(UserFound(false), assignee).code == 400
  {
  }

  function TaskLink(teamId: string, taskId: string): string
  {
    "/teams/" + teamId + "/tasks/" + taskId
  }

  /** The task document `create_task` inserts: created by the caller, no comments, no attachments. */
  function NewTask(id: string, validatedTeamId: string, creator: string, data: TaskCreate): (t: Task)
    ensures t.id == id && t.teamId == validatedTeamId && t.createdBy == creator
    ensures t.assignedTo == data.assignedTo && t.comments == [] && t.attachments == []
  {
    Task(id, validatedTeamId, data.title, data.description, creator, data.assignedTo,
         data.status, data.priority, data.dueDate, [], [])
  }

  /** The notification fan-out of `create_task`: one unread TASK_ASSIGNED note to the assignee
      exactly when the assignee is not the creator. */
  function AssignmentNotice(creator: string, data: TaskCreate, taskId: string, noteId: string, now: int): (r: seq<Notification>)
    ensures |r| <= 1
    ensures |r| == 1 <==> data.assignedTo != creator
    ensures forall n :: n in r ==>
      n.userId == data.assignedTo && n.ntype == TaskAssigned && !n.isRead && n.id == noteId
  {
    if data.assignedTo != creator then
      [NewNotification(noteId, data.assignedTo, "New Task Assigned",
                       "You were assigned to '" + data.title + "' by " + creator,
                       TaskLink(data.teamId, taskId), TaskAssigned, now)]
    else []
  }

  /** The fields of a PATCH body that were set; `None` means not sent. The field set follows
      the client's edit form. */
  datatype TaskUpdate = TaskUpdate(
    title: Option<string>,
    description: Option<string>,
    status: Option<TaskStatus>,
    priority: Option<Priority>,
    dueDate: Option<int>,
    assignedTo: Option<string>)

  predicate IsEmptyUpdate(u: TaskUpdate)
  {
    u.title.None? && u.description.None? && u.status.None? && u.priority.None? && u.dueDate.None? && u.assignedTo.None?
  }

  /** The `$set` of `update_task_details`: set fields replaced, everything else kept. */
  function ApplyUpdate(t: Task, u: TaskUpdate): (r: Task)
    ensures r.id == t.id && r.teamId == t.teamId && r.createdBy == t.createdBy
    ensures r.comments == t.comments && r.attachments == t.attachments
    ensures r.title == (if u.title.Some? then u.title.value else t.title)
    ensures r.description == (if u.description.Some? then u.description else t.description)
    ensures r.status == (if u.status.Some? then u.status.value else t.status)
    ensures r.priority == (if u.priority.Some? then u.priority.value else t.priority)
    ensures r.dueDate == (if u.dueDate.Some? then u.dueDate.value else t.dueDate)
    ensures r.assignedTo == (if u.assignedTo.Some? then u.assignedTo.value else t.assignedTo)
    ensures IsEmptyUpdate(u) ==> r == t
  {
    t.(title := u.title.GetOr(t.title),
       description := if u.description.Some? then u.description else t.description,
       status := u.status.GetOr(t.status),
       priority := u.priority.GetOr(t.priority),
       dueDate := u.dueDate.GetOr(t.dueDate),
       assignedTo := u.assignedTo.GetOr(t.assignedTo))
  }

  /** The validation `update_task_details` performs before its `$set`. Here the 404 and 400
      propagate (only a connection error is caught); any other failure is an unhandled
      exception, i.e. 500. */
  function UpdateCheck(u: TaskUpdate, lookup: UserLookup): (r: Result<()>)
    ensures IsEmptyUpdate(u) ==> r == Err(400, "No update data provided.")
    ensures !IsEmptyUpdate(u) && u.assignedTo.None? ==> r == Ok(())
    ensures !IsEmptyUpdate(u) && u.assignedTo.Some? ==> (r.Ok? <==> lookup == UserFound(true))
    ensures !IsEmptyUpdate(u) && u.assignedTo.Some? && lookup.UserNotFound? ==> r.Err? && r.code == 404
    ensures !IsEmptyUpdate(u) && u.assignedTo.Some? && lookup == UserFound(false) ==> r.Err? && r.code == 400
    ensures !IsEmptyUpdate(u) && u.assignedTo.Some? && lookup.UserServiceUnreachable? ==> r.Err? && r.code == 503
  {
    if IsEmptyUpdate(u) then Err(400, "No update data provided.")
    else if u.assignedTo.None? then Ok(())
    else match lookup
      case UserNotFound => Err(404, "User '" + u.assignedTo.value + "' is either invalid or not part of the team.")
      case UserFound(active) =>
        if active then Ok(()) else Err(400, "Assigned user is not active and cannot be assigned a task.")
      case UserServiceUnreachable => Err(503, "User service is unreachable.")
      case LookupFailed => Err(500, "Internal Server Error")
  }

  function TaskKey(t: Task): string { ObjectIdKey(t.id) }

  /** `find_one({"_id": ...})`: index of the first task with this ObjectId, or |tasks|. */
  function FindTask(tasks: seq<Task>, id: string): (k: nat)
    ensures k <= |tasks|
    ensures forall i :: 0 <= i < k ==> !SameObjectId(tasks[i].id, id)
    ensures k < |tasks| ==> SameObjectId(tasks[k].id, id)
  {
    Seqs.IndexOf(tasks, TaskKey, ObjectIdKey(id))
  }

  /** A task id sent with upper-case hex letters finds the same task as the id itself. */
  lemma FindTaskIgnoresCase(tasks: seq<Task>, id: string)
    ensures FindTask(tasks, Text.Upper(id)) == FindTask(tasks, id)
  {
    ObjectIdIgnoresCase(id);
  }

  /** The decision of `update_task_status` for a loaded task: only the assignee may change the status. */
  function StatusChangeCheck(caller: Caller, t: Task): (r: Result<()>)
    ensures r.Ok? <==> caller.username == t.assignedTo
    ensures r.Err? ==> r == Err(403, "You are not authorized to change the status; only the assigned user can.")
  {
    if caller.username != t.assignedTo then
      Err(403, "You are not authorized to change the status; only the assigned user can.")
    else Ok(())
  }

  /** The notification fan-out of `update_task_status`: one unread TASK_STATUS_CHANGED note to
      the creator exactly when somebody else changed the status. */
  function StatusChangeNotice(changer: string, t: Task, newStatus: TaskStatus, taskId: string,
                              noteId: string, now: int): (r: seq<Notification>)
    ensures |r| <= 1
    ensures |r| == 1 <==> changer != t.createdBy
    ensures forall n :: n in r ==>
      n.userId == t.createdBy && n.ntype == TaskStatusChanged && !n.isRead && n.id == noteId
  {
    if changer != t.createdBy then
      [NewNotification(noteId, t.createdBy, "Task Status Changed",
                       "Task '" + t.title + "' marked as " + StatusValue(newStatus) + " by " + changer,
                       TaskLink(t.teamId, taskId), TaskStatusChanged, now)]
    else []
  }

  // ------------------------------------------------------------------
  // Comments
  // ------------------------------------------------------------------

  /** The outcome of `get_team_access_for_tasks`: access, or the HTTP error it raises. */
  datatype Access = Granted | Denied(code: int, detail: string)

  /** The notification fan-out of `add_comment_to_task`. A missing assignee or creator is "". */
  function CommentNotices(commenter: string, t: Task, teamId: string, taskId: string,
                          assigneeNoteId: string, creatorNoteId: string, now: int): (r: seq<Notification>)
    ensures |r| <= 2
    ensures forall n :: n in r ==> n.userId != commenter && n.ntype == NewComment && !n.isRead
    ensures forall i, j :: 0 <= i < j < |r| ==> r[i].userId != r[j].userId
    ensures (exists n :: n in r && n.userId == t.assignedTo) <==> t.assignedTo != "" && t.assignedTo != commenter
    ensures (exists n :: n in r && n.userId == t.createdBy) <==> t.createdBy != "" && t.createdBy != commenter
    ensures forall n :: n in r ==> n.userId == t.assignedTo || n.userId == t.createdBy
  {
    var message := commenter + " commented on '" + t.title + "'";
    var link := TaskLink(teamId, taskId);
    var toAssignee :=
      if t.assignedTo != "" && t.assignedTo != commenter then
        [NewNotification(assigneeNoteId, t.assignedTo, "New Comment", message, link, NewComment, now)]
      else [];
    var toCreator :=
      if t.createdBy != "" && t.createdBy != commenter && t.createdBy != t.assignedTo then
        [NewNotification(creatorNoteId, t.createdBy, "New Comment", message, link, NewComment, now)]
      else [];
    toAssignee + toCreator
  }

  function CommentIdIsNot(id: string): Comment -> bool
  {
    (c: Comment) => !SameObjectId(c.id, id)
  }

  /** The `$pull` of `delete_comment`: every comment with that ObjectId removed, the others kept in order. */
  function PullComment(comments: seq<Comment>, commentId: string): (r: seq<Comment>)
    ensures forall c :: c in r ==> c in comments && !SameObjectId(c.id, commentId)
    ensures forall c :: c in comments && !SameObjectId(c.id, commentId) ==> c in r
    ensures Seqs.IsSubseq(r, comments)
    ensures |r| == |comments| <==> forall i :: 0 <= i < |comments| ==> !SameObjectId(comments[i].id, commentId)
  {
    var r := Seqs.Filter(comments, CommentIdIsNot(commentId));
    Seqs.CountIsFilterLength(comments, CommentIdIsNot(commentId));
    forall c | c in comments && !SameObjectId(c.id, commentId) ensures c in r {
      Seqs.FilterMember(comments, CommentIdIsNot(commentId), c);
    }
    r
  }

  // ------------------------------------------------------------------
  // Attachments
  // ------------------------------------------------------------------

  /** `file.filename or "attachment"`. */
  function SafeFilename(filename: Option<string>): (r: string)
    ensures r != ""
    ensures filename.Some? && filename.value != "" ==> r == filename.value
    ensures filename.None? || filename.value == "" ==> r == DefaultFilename
  {
    if filename.Some? && filename.value != "" then filename.value else DefaultFilename
  }

  /** The stored file name: `{id}_{filename}`. */
  function StoredName(attachmentId: string, filename: Option<string>): (r: string)
    ensures r == attachmentId + "_" + SafeFilename(filename)
    ensures r[..|attachmentId|] == attachmentId && r[|attachmentId|] == '_'
  {
    attachmentId + "_" + SafeFilename(filename)
  }

  /** `UPLOAD_BASE_DIR`: the relative path with the one part "task_files". */
  const BaseDir: PurePaths.Path := PurePaths.Path("", [UploadBaseDir])

  lemma BaseDirParses()
    ensures PurePaths.FromText(UploadBaseDir) == BaseDir
  {
    PurePaths.PartsOfPart(UploadBaseDir);
  }

  /** The file the upload writes: `UPLOAD_BASE_DIR / str(task_id) / f"{id}_{filename}"`. */
  function StoredFile(taskId: string, attachmentId: string, filename: Option<string>): PurePaths.Path
  {
    PurePaths.Join(PurePaths.Join(BaseDir, taskId), StoredName(attachmentId, filename))
  }

  /** `str(stored_path)`, the path the record keeps: its text parses back to the file written.
      pathlib drops the empty and "." parts of the filename and a trailing slash. Nothing else
      is sanitised: ".." parts stay, so this text alone does not keep the file inside the
      upload base; the download route checks the resolved path again. */
  function StoredPath(taskId: string, attachmentId: string, filename: Option<string>): (r: string)
    ensures PurePaths.FromText(r) == StoredFile(taskId, attachmentId, filename)
  {
    var file := StoredFile(taskId, attachmentId, filename);
    BaseDirParses();
    PurePaths.StrRoundTrip(file);
    PurePaths.Str(file)
  }

  /** An ObjectId is one relative path part. */
  lemma ObjectIdIsPart(id: string)
    requires IsObjectId(id)
    ensures '/' !in id && PurePaths.IsPart(id) && PurePaths.RootOf(id) == ""
    ensures PurePaths.Parts(id) == [id]
  {
    assert '/' !in id by {
      forall i | 0 <= i < |id| ensures id[i] != '/' { assert IsHexDigit(id[i]); }
    }
    assert id != "." by { assert |id| != |"."|; }
    PurePaths.PartsOfPart(id);
  }

  /** The stored name after an ObjectId is a relative path with at least one part. */
  lemma StoredNameIsRelative(attachmentId: string, filename: Option<string>)
    requires IsObjectId(attachmentId)
    ensures PurePaths.RootOf(StoredName(attachmentId, filename)) == ""
    ensures PurePaths.Parts(StoredName(attachmentId, filename)) != []
    ensures '/' !in SafeFilename(filename) ==>
      PurePaths.Parts(StoredName(attachmentId, filename)) == [StoredName(attachmentId, filename)]
  {
    var name := StoredName(attachmentId, filename);
    var head := attachmentId + "_";
    ObjectIdIsPart(attachmentId);
    assert '/' !in head;
    assert name == head + SafeFilename(filename);
    PurePaths.HasFirstPart(head, SafeFilename(filename));
    assert name[0] == attachmentId[0];
    if '/' !in SafeFilename(filename) {
      assert '/' !in name;
      assert name != "." by { assert |name| > 1; }
      PurePaths.PartsOfPart(name);
    }
  }

  /** With ObjectId ids, the file is the base, the task id and the stored name's parts. */
  lemma StoredFileOfObjectIds(taskId: string, attachmentId: string, filename: Option<string>)
    requires IsObjectId(taskId) && IsObjectId(attachmentId)
    ensures StoredFile(taskId, attachmentId, filename) ==
      PurePaths.Path("", [UploadBaseDir, taskId] + PurePaths.Parts(StoredName(attachmentId, filename)))
  {
    ObjectIdIsPart(taskId);
    assert PurePaths.Join(BaseDir, taskId) == PurePaths.Path("", [UploadBaseDir, taskId]);
    StoredNameIsRelative(attachmentId, filename);
  }

  /** With ObjectId ids the stored path is `task_files/<task id>/` and the stored name with
      pathlib's normalisation; a filename without a slash is kept verbatim. */
  lemma StoredPathOfObjectIds(taskId: string, attachmentId: string, filename: Option<string>)
    requires IsObjectId(taskId) && IsObjectId(attachmentId)
    ensures StoredPath(taskId, attachmentId, filename) ==
      UploadBaseDir + "/" + taskId + "/" + PurePaths.JoinSlash(PurePaths.Parts(StoredName(attachmentId, filename)))
    ensures '/' !in SafeFilename(filename) ==>
      StoredPath(taskId, attachmentId, filename) == UploadBaseDir + "/" + taskId + "/" + StoredName(attachmentId, filename)
  {
    var parts := PurePaths.Parts(StoredName(attachmentId, filename));
    StoredFileOfObjectIds(taskId, attachmentId, filename);
    StoredNameIsRelative(attachmentId, filename);
    PurePaths.JoinSlashAppend([UploadBaseDir, taskId], parts);
    assert PurePaths.JoinSlash([UploadBaseDir, taskId]) == UploadBaseDir + "/" + taskId;
  }

  /** Two filenames whose stored names parse to the same parts give the same stored path. */
  lemma SamePartsSamePath(taskId: string, attachmentId: string, f1: Option<string>, f2: Option<string>)
    requires IsObjectId(attachmentId)
    requires PurePaths.Parts(StoredName(attachmentId, f1)) == PurePaths.Parts(StoredName(attachmentId, f2))
    ensures StoredPath(taskId, attachmentId, f1) == StoredPath(taskId, attachmentId, f2)
  {
    StoredNameIsRelative(attachmentId, f1);
    StoredNameIsRelative(attachmentId, f2);
    assert StoredFile(taskId, attachmentId, f1) == StoredFile(taskId, attachmentId, f2);
  }

  /** `n + "/" + tail` parses to the parts of `n` when the tail has none. */
  lemma EmptyTail(n: string, tail: string)
    requires tail == "" || tail == "."
    ensures PurePaths.Parts(n + "/" + tail) == PurePaths.Parts(n)
  {
    PurePaths.PartsOfEmptyAndDot();
    PurePaths.PartsAtSlash(n, tail);
  }

  /** A doubled slash between `n` and `y` parses as a single slash. */
  lemma DoubledSlash(n: string, y: string)
    ensures PurePaths.Parts(n + "/" + ("/" + y)) == PurePaths.Parts(n + "/" + y)
  {
    PurePaths.PartsAtSlash(n, "/" + y);
    PurePaths.PartsAfterSlash(y);
    PurePaths.PartsAtSlash(n, y);
  }

  /** A "/./" piece between `n` and `y` parses as a single slash. */
  lemma DotPiece(n: string, y: string)
    ensures PurePaths.Parts((n + "/" + ".") + "/" + y) == PurePaths.Parts(n + "/" + y)
  {
    PurePaths.PartsAtSlash(n + "/" + ".", y);
    EmptyTail(n, ".");
    PurePaths.PartsAtSlash(n, y);
  }

  /** A trailing "/" or "/." on the filename leaves the stored path unchanged. */
  lemma EmptyTailDropped(taskId: string, attachmentId: string, x: string, tail: string)
    requires IsObjectId(attachmentId) && x != "" && (tail == "" || tail == ".")
    ensures StoredPath(taskId, attachmentId, Some(x + "/" + tail)) == StoredPath(taskId, attachmentId, Some(x))
  {
    var n := attachmentId + "_" + x;
    assert StoredName(attachmentId, Some(x + "/" + tail)) == n + "/" + tail;
    EmptyTail(n, tail);
    SamePartsSamePath(taskId, attachmentId, Some(x + "/" + tail), Some(x));
  }

  /** pathlib drops a trailing slash of the filename: "x/" is stored as "x". */
  lemma TrailingSlashDropped(taskId: string, attachmentId: string, x: string)
    requires IsObjectId(attachmentId) && x != ""
    ensures StoredPath(taskId, attachmentId, Some(x + "/")) == StoredPath(taskId, attachmentId, Some(x))
  {
    EmptyTailDropped(taskId, attachmentId, x, "");
    assert x + "/" + "" == x + "/";
  }

  /** pathlib collapses a doubled slash in the filename: "x//y" is stored as "x/y". */
  lemma DoubledSlashDropped(taskId: string, attachmentId: string, x: string, y: string)
    requires IsObjectId(attachmentId)
    ensures StoredPath(taskId, attachmentId, Some(x + "//" + y)) == StoredPath(taskId, attachmentId, Some(x + "/" + y))
  {
    var n := attachmentId + "_" + x;
    assert x + "//" + y == x + "/" + ("/" + y);
    assert StoredName(attachmentId, Some(x + "/" + ("/" + y))) == n + "/" + ("/" + y);
    assert StoredName(attachmentId, Some(x + "/" + y)) == n + "/" + y;
    DoubledSlash(n, y);
    SamePartsSamePath(taskId, attachmentId, Some(x + "/" + ("/" + y)), Some(x + "/" + y));
  }

  /** pathlib drops a "." part of the filename: "x/./y" is stored as "x/y". */
  lemma DotPieceDropped(taskId: string, attachmentId: string, x: string, y: string)
    requires IsObjectId(attachmentId)
    ensures StoredPath(taskId, attachmentId, Some(x + "/./" + y)) == StoredPath(taskId, attachmentId, Some(x + "/" + y))
  {
    var n := attachmentId + "_" + x;
    assert x + "/./" + y == (x + "/" + ".") + "/" + y;
    assert StoredName(attachmentId, Some((x + "/" + ".") + "/" + y)) == (n + "/" + ".") + "/" + y;
    assert StoredName(attachmentId, Some(x + "/" + y)) == n + "/" + y;
    DotPiece(n, y);
    SamePartsSamePath(taskId, attachmentId, Some((x + "/" + ".") + "/" + y), Some(x + "/" + y));
  }

  /** A plain filename with a trailing slash, "x/", is stored as `task_files/<task id>/<id>_x`. */
  lemma TrailingSlashStoredPath(taskId: string, attachmentId: string, x: string)
    requires IsObjectId(taskId) && IsObjectId(attachmentId) && x != "" && '/' !in x
    ensures StoredPath(taskId, attachmentId, Some(x + "/")) == UploadBaseDir + "/" + taskId + "/" + (attachmentId + "_" + x)
  {
    TrailingSlashDropped(taskId, attachmentId, x);
    assert SafeFilename(Some(x)) == x;
    StoredPathOfObjectIds(taskId, attachmentId, Some(x));
    var name := StoredName(attachmentId, Some(x));
    assert StoredPath(taskId, attachmentId, Some(x)) == UploadBaseDir + "/" + taskId + "/" + name;
    assert name == attachmentId + "_" + x;
  }

  /** The attachment record `upload_task_attachment` pushes. */
  function NewAttachment(taskId: string, attachmentId: string, filename: Option<string>,
                         contentType: Option<string>, uploader: string, now: int): (a: Attachment)
    ensures a.id == attachmentId && a.filename == SafeFilename(filename) && a.uploadedBy == uploader
    ensures a.path == StoredPath(taskId, attachmentId, filename)
    ensures a.contentType == (if contentType.Some? && contentType.value != "" then contentType.value else DefaultContentType)
  {
    Attachment(attachmentId, SafeFilename(filename),
               if contentType.Some? && contentType.value != "" then contentType.value else DefaultContentType,
               StoredPath(taskId, attachmentId, filename), uploader, now)
  }

  function AttachmentKey(a: Attachment): string { ObjectIdKey(a.id) }

  /** Index of the first attachment with this ObjectId, or |atts| (`next(..., None)`). */
  function FindAttachment(atts: seq<Attachment>, id: string): (k: nat)
    ensures k <= |atts|
    ensures forall i :: 0 <= i < k ==> !SameObjectId(atts[i].id, id)
    ensures k < |atts| ==> SameObjectId(atts[k].id, id)
  {
    Seqs.IndexOf(atts, AttachmentKey, ObjectIdKey(id))
  }

  datatype FileResponse = FileResponse(path: string, mediaType: string, filename: string)

  /** `base in resolved.parents or resolved == base`, on path components. */
  predicate WithinBase(base: seq<string>, resolved: seq<string>)
  {
    base <= resolved
  }

  /** `download_task_attachment`. The file system is given by `isFile` and `resolve`
      (`os.path.isfile` and `Path.resolve`, as component sequences). */
  function DownloadAttachment(tasks: seq<Task>, taskId: string, attachmentId: string, access: Access,
                              isFile: string -> bool, resolve: string -> seq<string>): (r: Result<FileResponse>)
    ensures !IsObjectId(taskId) || !IsObjectId(attachmentId) ==> r == Err(400, "Invalid task or attachment ID format.")
    ensures r.Ok? ==> exists i, j :: (0 <= i < |tasks| && SameObjectId(tasks[i].id, taskId)
      && 0 <= j < |tasks[i].attachments| && SameObjectId(tasks[i].attachments[j].id, attachmentId)
      && r.value.path == tasks[i].attachments[j].path)
    ensures r.Ok? ==> access.Granted? && isFile(r.value.path)
    ensures r.Ok? ==> WithinBase(resolve(UploadBaseDir), resolve(r.value.path))
    ensures IsObjectId(taskId) && IsObjectId(attachmentId) && FindTask(tasks, taskId) < |tasks| && access.Granted? ==>
      (var t := tasks[FindTask(tasks, taskId)];
       var j := FindAttachment(t.attachments, attachmentId);
       j < |t.attachments| && isFile(t.attachments[j].path)
         && !WithinBase(resolve(UploadBaseDir), resolve(t.attachments[j].path)) ==>
       r == Err(500, "Invalid attachment path on server."))
    ensures IsObjectId(taskId) && IsObjectId(attachmentId) && FindTask(tasks, taskId) == |tasks| ==>
      r == Err(404, "Task not found.")
    ensures IsObjectId(taskId) && IsObjectId(attachmentId) && FindTask(tasks, taskId) < |tasks| && access.Denied? ==>
      r == Err(access.code, access.detail)
    ensures IsObjectId(taskId) && IsObjectId(attachmentId) && FindTask(tasks, taskId) < |tasks| && access.Granted? ==>
      (var atts := tasks[FindTask(tasks, taskId)].attachments;
       var j := FindAttachment(atts, attachmentId);
       (j == |atts| ==> r == Err(404, "Attachment not found."))
       && (j < |atts| && !isFile(atts[j].path) ==> r == Err(410, "Attachment file no longer exists on server."))
       && (j < |atts| && isFile(atts[j].path) && WithinBase(resolve(UploadBaseDir), resolve(atts[j].path)) ==>
             r == Ok(FileResponse(atts[j].path, atts[j].contentType, atts[j].filename))))
  {
    if !IsObjectId(taskId) || !IsObjectId(attachmentId) then Err(400, "Invalid task or attachment ID format.")
    else
      var k := FindTask(tasks, taskId);
      if k == |tasks| then Err(404, "Task not found.")
      else if access.Denied? then Err(access.code, access.detail)
      else
        var atts := tasks[k].attachments;
        var j := FindAttachment(atts, attachmentId);
        if j == |atts| then Err(404, "Attachment not found.")
        else if !isFile(atts[j].path) then Err(410, "Attachment file no longer exists on server.")
        else if !WithinBase(resolve(UploadBaseDir), resolve(atts[j].path)) then Err(500, "Invalid attachment path on server.")
        else Ok(FileResponse(atts[j].path, atts[j].contentType, atts[j].filename))
  }

  /** The authorisation decision of `delete_task_attachment` for a loaded task. `teamLeader` is
      the `leader_id` the team service returned with status 200, if any; it is only consulted
      for team leaders. */
  function AttachmentDeletionCheck(t: Task, attachmentId: string, caller: Caller, teamLeader: Option<string>): (r: Result<()>)
    ensures r == Err(404, "Attachment not found.") <==>
      forall j :: 0 <= j < |t.attachments| ==> !SameObjectId(t.attachments[j].id, attachmentId)
    ensures r.Ok? <==> exists j :: (0 <= j < |t.attachments| && SameObjectId(t.attachments[j].id, attachmentId)
      && j == FindAttachment(t.attachments, attachmentId)
      && (t.attachments[j].uploadedBy == caller.username
          || caller.role == Admin
          || (caller.role == TeamLeader && teamLeader == Some(caller.username))))
    ensures r.Err? ==> r.code == 404 || r.code == 403
  {
    var j := FindAttachment(t.attachments, attachmentId);
    if j == |t.attachments| then Err(404, "Attachment not found.")
    else
      var isUploader := t.attachments[j].uploadedBy == caller.username;
      var isAdmin := caller.role == Admin;
      var isLeader := caller.role == TeamLeader && teamLeader == Some(caller.username);
      if !(isUploader || isLeader || isAdmin) then Err(403, "You are not authorized to delete this file.")
      else Ok(())
  }

  function AttachmentIdIsNot(id: string): Attachment -> bool
  {
    (a: Attachment) => !SameObjectId(a.id, id)
  }

  /** The `$pull` of `delete_task_attachment`. */
  function PullAttachment(atts: seq<Attachment>, attachmentId: string): (r: seq<Attachment>)
    ensures forall a :: a in r ==> a in atts && !SameObjectId(a.id, attachmentId)
    ensures forall a :: a in atts && !SameObjectId(a.id, attachmentId) ==> a in r
    ensures Seqs.IsSubseq(r, atts)
  {
    var r := Seqs.Filter(atts, AttachmentIdIsNot(attachmentId));
    forall a | a in atts && !SameObjectId(a.id, attachmentId) ensures a in r {
      Seqs.FilterMember(atts, AttachmentIdIsNot(attachmentId), a);
    }
    r
  }

  // ------------------------------------------------------------------
  // The store and the state-changing handlers
  // ------------------------------------------------------------------

  predicate UniqueTaskIds(tasks: seq<Task>)
  {
    forall i, j :: 0 <= i < j < |tasks| ==> !SameObjectId(tasks[i].id, tasks[j].id)
  }

  /** Replacing a task by one with the same id keeps the task ids unique. */
  lemma ReplaceKeepsUniqueTaskIds(tasks: seq<Task>, k: nat, t: Task)
    requires UniqueTaskIds(tasks) && k < |tasks| && t.id == tasks[k].id
    ensures UniqueTaskIds(tasks[k := t])
  {
    var r := tasks[k := t];
    assert forall i :: 0 <= i < |r| ==> r[i].id == tasks[i].id;
  }

  predicate UniqueNoteIds(notes: seq<Notification>)
  {
    forall i, j :: 0 <= i < j < |notes| ==> !SameObjectId(notes[i].id, notes[j].id)
  }

  predicate FreshNoteIds(notes: seq<Notification>, added: seq<Notification>)
  {
    UniqueNoteIds(added) && forall n, m :: n in notes && m in added ==> !SameObjectId(n.id, m.id)
  }

  lemma AppendFresh(notes: seq<Notification>, added: seq<Notification>)
    requires UniqueNoteIds(notes) && FreshNoteIds(notes, added)
    ensures UniqueNoteIds(notes + added)
  {
    var all := notes + added;
    forall i, j | 0 <= i < j < |all| ensures !SameObjectId(all[i].id, all[j].id) {
      if j < |notes| {
      } else if i >= |notes| {
        assert all[i] == added[i - |notes|] && all[j] == added[j - |notes|];
      } else {
        assert all[i] in notes && all[j] in added;
      }
    }
  }

  /** The `tasks` and `notifications` collections. Ids are ObjectIds: unique per collection. */
  class TaskStore {
    var tasks: seq<Task>
    var notifications: seq<Notification>

    ghost predicate Valid()
      reads this
    {
      UniqueTaskIds(tasks) && UniqueNoteIds(notifications)
    }

    constructor ()
      ensures Valid() && tasks == [] && notifications == []
    {
      tasks := [];
      notifications := [];
    }

    /** `create_notification` (also what `create_internal_notification` calls). */
    method CreateNotification(id: string, userId: string, title: string, message: string,
                              link: string, ntype: NotificationType, now: int)
      requires Valid() && forall n :: n in notifications ==> !SameObjectId(n.id, id)
      modifies this
      ensures Valid() && tasks == old(tasks)
      ensures notifications == old(notifications) + [NewNotification(id, userId, title, message, link, ntype, now)]
    {
      var note := NewNotification(id, userId, title, message, link, ntype, now);
      AppendFresh(notifications, [note]);
      notifications := notifications + [note];
    }

    /** `mark_notification_read`: 400 for a malformed id, otherwise 204 whether or not a note matched. */
    method MarkNotificationRead(caller: Caller, noteId: string) returns (res: Result<()>)
      requires Valid()
      modifies this
      ensures Valid() && tasks == old(tasks)
      ensures !IsObjectId(noteId) ==> res == Err(400, "Invalid ID") && notifications == old(notifications)
      ensures IsObjectId(noteId) ==> res == Ok(()) && notifications == MarkRead(old(notifications), noteId, caller.username)
    {
      if !IsObjectId(noteId) {
        return Err(400, "Invalid ID");
      }
      var updated := MarkRead(notifications, noteId, caller.username);
      assert forall i :: 0 <= i < |updated| ==> updated[i].id == notifications[i].id;
      notifications := updated;
      res := Ok(());
    }

    /** `clear_all_notifications`. */
    method ClearAllNotifications(caller: Caller) returns (res: Result<()>)
      requires Valid()
      modifies this
      ensures Valid() && tasks == old(tasks) && res == Ok(())
      ensures notifications == ClearAll(old(notifications), caller.username)
    {
      var kept := ClearAll(notifications, caller.username);
      SubseqKeepsUniqueNotes(kept, notifications);
      notifications := kept;
      res := Ok(());
    }

    /** `create_task`, with the assignee validation as evidently intended (see AssigneeCheck). */
    method CreateTask(caller: Caller, validatedTeamId: string, data: TaskCreate, lookup: UserLookup,
                      newId: string, noteId: string, now: int) returns (res: Result<Task>)
      requires Valid()
      requires forall t :: t in tasks ==> !SameObjectId(t.id, newId)
      requires forall n :: n in notifications ==> !SameObjectId(n.id, noteId)
      modifies this
      ensures Valid()
      ensures res.Err? ==> (AssigneeCheck(lookup, data.assignedTo).Err?
        && res == Err(AssigneeCheck(lookup, data.assignedTo).code, AssigneeCheck(lookup, data.assignedTo).detail))
      ensures res.Err? ==> tasks == old(tasks) && notifications == old(notifications)
      ensures res.Ok? <==> lookup == UserFound(true)
      ensures res.Ok? ==> res.value == NewTask(newId, validatedTeamId, caller.username, data)
      ensures res.Ok? ==> tasks == old(tasks) + [res.value]
      ensures res.Ok? ==> notifications == old(notifications) + AssignmentNotice(caller.username, data, newId, noteId, now)
    {
      var check := AssigneeCheck(lookup, data.assignedTo);
      if check.Err? {
        return Err(check.code, check.detail);
      }
      var task := NewTask(newId, validatedTeamId, caller.username, data);
      tasks := tasks + [task];
      var notices := AssignmentNotice(caller.username, data, newId, noteId, now);
      AppendFresh(notifications, notices);
      notifications := notifications + notices;
      res := Ok(task);
    }

    /** `update_task_details` for the task the leader-only dependency loaded. */
    method UpdateTaskDetails(taskId: string, u: TaskUpdate, lookup: UserLookup) returns (res: Result<Task>)
      requires Valid() && FindTask(tasks, taskId) < |tasks|
      modifies this
      ensures Valid() && notifications == old(notifications)
      ensures res.Err? ==> UpdateCheck(u, lookup).Err? && tasks == old(tasks)
      ensures res.Ok? <==> UpdateCheck(u, lookup).Ok?
      ensures res.Ok? ==> var k := FindTask(old(tasks), taskId);
        res.value == ApplyUpdate(old(tasks)[k], u) && tasks == old(tasks)[k := res.value]
    {
      var check := UpdateCheck(u, lookup);
      if check.Err? {
        return Err(check.code, check.detail);
      }
      var k := FindTask(tasks, taskId);
      var updated := ApplyUpdate(tasks[k], u);
      tasks := tasks[k := updated];
      res := Ok(updated);
    }

    /** `update_task_status`. */
    method UpdateTaskStatus(caller: Caller, taskId: string, newStatus: TaskStatus, noteId: string, now: int)
      returns (res: Result<Task>)
      requires Valid() && forall n :: n in notifications ==> !SameObjectId(n.id, noteId)
      modifies this
      ensures Valid()
      ensures !IsObjectId(taskId) ==> res == Err(400, "Invalid task ID format.")
      ensures IsObjectId(taskId) && FindTask(old(tasks), taskId) == |old(tasks)| ==> res == Err(404, "Task not found.")
      ensures res.Err? ==> tasks == old(tasks) && notifications == old(notifications)
      ensures res.Ok? <==> (IsObjectId(taskId) && FindTask(old(tasks), taskId) < |old(tasks)|
        && old(tasks)[FindTask(old(tasks), taskId)].assignedTo == caller.username)
      ensures (IsObjectId(taskId) && FindTask(old(tasks), taskId) < |old(tasks)|
        && old(tasks)[FindTask(old(tasks), taskId)].assignedTo != caller.username) ==>
        res == Err(403, "You are not authorized to change the status; only the assigned user can.")
      ensures res.Ok? ==> var k := FindTask(old(tasks), taskId);
        res.value == old(tasks)[k].(status := newStatus)
        && tasks == old(tasks)[k := res.value]
        && notifications == old(notifications) + StatusChangeNotice(caller.username, old(tasks)[k], newStatus, taskId, noteId, now)
    {
      if !IsObjectId(taskId) {
        return Err(400, "Invalid task ID format.");
      }
      var k := FindTask(tasks, taskId);
      if k == |tasks| {
        return Err(404, "Task not found.");
      }
      var task := tasks[k];
      var check := StatusChangeCheck(caller, task);
      if check.Err? {
        return Err(check.code, check.detail);
      }
      var updated := task.(status := newStatus);
      tasks := tasks[k := updated];
      var notices := StatusChangeNotice(caller.username, task, newStatus, taskId, noteId, now);
      AppendFresh(notifications, notices);
      notifications := notifications + notices;
      res := Ok(updated);
    }

    /** `add_comment_to_task`. */
    method AddComment(caller: Caller, taskId: string, text: string, access: Access, commentId: string,
                      assigneeNoteId: string, creatorNoteId: string, now: int) returns (res: Result<Comment>)
      requires Valid() && !SameObjectId(assigneeNoteId, creatorNoteId)
      requires forall n :: n in notifications ==>
        !SameObjectId(n.id, assigneeNoteId) && !SameObjectId(n.id, creatorNoteId)
      modifies this
      ensures Valid()
      ensures !IsObjectId(taskId) ==> res == Err(400, "Invalid task ID format.")
      ensures IsObjectId(taskId) && FindTask(old(tasks), taskId) == |old(tasks)| ==> res == Err(404, "Task not found.")
      ensures res.Err? ==> tasks == old(tasks) && notifications == old(notifications)
      ensures res.Ok? <==> IsObjectId(taskId) && FindTask(old(tasks), taskId) < |old(tasks)| && access.Granted?
      ensures IsObjectId(taskId) && FindTask(old(tasks), taskId) < |old(tasks)| && access.Denied? ==>
        res == Err(access.code, access.detail)
      ensures res.Ok? ==> var k := FindTask(old(tasks), taskId); var t := old(tasks)[k];
        res.value == Comment(commentId, text, caller.username, now)
        && tasks == old(tasks)[k := t.(comments := t.comments + [res.value])]
        && notifications == old(notifications)
           + CommentNotices(caller.username, t, t.teamId, taskId, assigneeNoteId, creatorNoteId, now)
    {
      if !IsObjectId(taskId) {
        return Err(400, "Invalid task ID format.");
      }
      var k := FindTask(tasks, taskId);
      if k == |tasks| {
        return Err(404, "Task not found.");
      }
      if access.Denied? {
        return Err(access.code, access.detail);
      }
      var comment := Comment(commentId, text, caller.username, now);
      var task := tasks[k];
      ReplaceKeepsUniqueTaskIds(tasks, k, task.(comments := task.comments + [comment]));
      tasks := tasks[k := task.(comments := task.comments + [comment])];
      var notices := CommentNotices(caller.username, task, task.teamId, taskId, assigneeNoteId, creatorNoteId, now);
      AppendFresh(notifications, notices);
      notifications := notifications + notices;
      res := Ok(comment);
    }

    /** `delete_comment`, for the task id the deletion-authorisation dependency returned.
        A malformed comment id raises outside any `try` (500). */
    method DeleteComment(taskId: string, commentId: string) returns (res: Result<()>)
      requires Valid()
      modifies this
      ensures Valid() && notifications == old(notifications)
      ensures res.Err? ==> tasks == old(tasks) && res.code == 500
      ensures res.Ok? <==> (IsObjectId(commentId) && FindTask(old(tasks), taskId) < |old(tasks)|
        && exists c :: c in old(tasks)[FindTask(old(tasks), taskId)].comments && SameObjectId(c.id, commentId))
      ensures res.Ok? ==> var k := FindTask(old(tasks), taskId); var t := old(tasks)[k];
        tasks == old(tasks)[k := t.(comments := PullComment(t.comments, commentId))]
    {
      if !IsObjectId(commentId) {
        return Err(500, "Internal Server Error");
      }
      var k := FindTask(tasks, taskId);
      if k == |tasks| {
        return Err(500, "Failed to delete comment.");
      }
      var task := tasks[k];
      var kept := PullComment(task.comments, commentId);
      if |kept| == |task.comments| {
        return Err(500, "Failed to delete comment.");
      }
      tasks := tasks[k := task.(comments := kept)];
      res := Ok(());
    }

    /** `upload_task_attachment`. `saved` says whether writing the file succeeded. */
    method UploadAttachment(caller: Caller, taskId: string, filename: Option<string>, contentType: Option<string>,
                            access: Access, attachmentId: string, now: int, saved: bool) returns (res: Result<Attachment>)
      requires Valid()
      modifies this
      ensures Valid() && notifications == old(notifications)
      ensures !IsObjectId(taskId) ==> res == Err(400, "Invalid task ID format.")
      ensures IsObjectId(taskId) && FindTask(old(tasks), taskId) == |old(tasks)| ==> res == Err(404, "Task not found.")
      ensures IsObjectId(taskId) && FindTask(old(tasks), taskId) < |old(tasks)| && access.Denied? ==>
        res == Err(access.code, access.detail)
      ensures IsObjectId(taskId) && FindTask(old(tasks), taskId) < |old(tasks)| && access.Granted? && !saved ==>
        res == Err(500, "Failed to save file on server.")
      ensures res.Err? ==> tasks == old(tasks)
      ensures res.Ok? <==> IsObjectId(taskId) && FindTask(old(tasks), taskId) < |old(tasks)| && access.Granted? && saved
      ensures res.Ok? ==> var k := FindTask(old(tasks), taskId); var t := old(tasks)[k];
        res.value == NewAttachment(taskId, attachmentId, filename, contentType, caller.username, now)
        && tasks == old(tasks)[k := t.(attachments := t.attachments + [res.value])]
    {
      if !IsObjectId(taskId) {
        return Err(400, "Invalid task ID format.");
      }
      var k := FindTask(tasks, taskId);
      if k == |tasks| {
        return Err(404, "Task not found.");
      }
      if access.Denied? {
        return Err(access.code, access.detail);
      }
      if !saved {
        return Err(500, "Failed to save file on server.");
      }
      var att := NewAttachment(taskId, attachmentId, filename, contentType, caller.username, now);
      var task := tasks[k];
      ReplaceKeepsUniqueTaskIds(tasks, k, task.(attachments := task.attachments + [att]));
      tasks := tasks[k := task.(attachments := task.attachments + [att])];
      res := Ok(att);
    }

    /** `delete_task_attachment`. Removing the file from disk is not modelled. */
    method DeleteAttachment(caller: Caller, taskId: string, attachmentId: string, teamLeader: Option<string>)
      returns (res: Result<()>)
      requires Valid()
      modifies this
      ensures Valid() && notifications == old(notifications)
      ensures !IsObjectId(taskId) || !IsObjectId(attachmentId) ==> res == Err(400, "Invalid task or attachment ID format.")
      ensures IsObjectId(taskId) && IsObjectId(attachmentId) && FindTask(old(tasks), taskId) == |old(tasks)| ==>
        res == Err(404, "Task not found.")
      ensures res.Err? ==> tasks == old(tasks)
      ensures IsObjectId(taskId) && IsObjectId(attachmentId) && FindTask(old(tasks), taskId) < |old(tasks)| ==>
        var k := FindTask(old(tasks), taskId); var t := old(tasks)[k];
        res == AttachmentDeletionCheck(t, attachmentId, caller, teamLeader)
        && (res.Ok? ==> tasks == old(tasks)[k := t.(attachments := PullAttachment(t.attachments, attachmentId))])
    {
      if !IsObjectId(taskId) || !IsObjectId(attachmentId) {
        return Err(400, "Invalid task or attachment ID format.");
      }
      var k := FindTask(tasks, taskId);
      if k == |tasks| {
        return Err(404, "Task not found.");
      }
      var task := tasks[k];
      res := AttachmentDeletionCheck(task, attachmentId, caller, teamLeader);
      if res.Ok? {
        tasks := tasks[k := task.(attachments := PullAttachment(task.attachments, attachmentId))];
      }
    }
  }

  lemma SubseqKeepsUniqueNotes(a: seq<Notification>, b: seq<Notification>)
    requires Seqs.IsSubseq(a, b) && UniqueNoteIds(b)
    ensures UniqueNoteIds(a)
    decreases |b|
  {
    if a != [] && b != [] {
      assert UniqueNoteIds(b[1..]) by {
        forall i, j | 0 <= i < j < |b[1..]| ensures !SameObjectId(b[1..][i].id, b[1..][j].id) {
          assert b[1..][i] == b[i + 1] && b[1..][j] == b[j + 1];
        }
      }
      if a[0] == b[0] {
        SubseqKeepsUniqueNotes(a[1..], b[1..]);
        SubseqMembers(a[1..], b[1..]);
        forall j | 0 < j < |a| ensures !SameObjectId(a[0].id, a[j].id) {
          assert a[j] == a[1..][j - 1];
          assert a[j] in b[1..];
          var m :| 0 <= m < |b[1..]| && b[1..][m] == a[j];
          assert b[m + 1] == a[j];
        }
      } else {
        SubseqKeepsUniqueNotes(a, b[1..]);
      }
    }
  }

  lemma SubseqMembers<T>(a: seq<T>, b: seq<T>)
    requires Seqs.IsSubseq(a, b)
    ensures forall x :: x in a ==> x in b
    decreases |b|
  {
    if a != [] && b != [] {
      if a[0] == b[0] {
        SubseqMembers(a[1..], b[1..]);
        assert forall x :: x in a ==> x == a[0] || x in a[1..];
      } else {
        SubseqMembers(a, b[1..]);
      }
    }
  }
}
