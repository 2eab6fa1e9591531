# PMS_app core, modelled in Dafny

PMS_app is a small project-management system built from three back-end services and a React
front end:

- a user service (accounts, tokens, sign-up validation);
- a team service (teams and their leaders and members);
- a task service (tasks, comments, attachments and notifications).

This project models three parts of it:

- **Task service handlers** (`TaskRoutes`). A class `TaskStore` holds the task collection and the
  notification collection as sequences. Each of its methods is one request handler; the method
  changes the store exactly as the handler's database updates do. The decisions inside the
  handlers are pure functions with their own contracts:
  - who is notified, and with which note;
  - who may change a status or delete an attachment;
  - how listings are filtered, sorted and limited;
  - how names and paths of stored files are built and checked.

  The calls to the user and team services, the task-access dependency, the file system, the clock
  and the ObjectId generator are inputs of the handlers. Ids are compared as ObjectIds
  (`Domain.SameObjectId`): two id strings match when their hex digits agree, whatever the case
  of the letters, as a lookup or `$pull` by the parsed `_id` does.
- **Authorisation and validation** (`TeamSecurity`, `UserSecurity`, `UserSchemas`, `Domain`). These
  are the dependency functions that turn a decoded token, a team id and the stored teams or users
  into the caller, the team or an HTTP error, in the source's order of checks. Also modelled: the
  expiry rule of the access token and the bounds of the sign-up schema.
- **Front-end state and list logic**:
  - `ConfirmContext`, `FlashContext` and `NotificationDropdown` are small state machines. Each is a
    pure `Step` function over events plus a class whose methods follow it; lemmas over event
    sequences hold the properties (one pending callback, un-cancelled flash timers, a consistent
    unread count).
  - Each page (`MyTasksPage`, `AdminUsersPage`, `AdminTeamsPage`, `DashboardPage`,
    `TeamDetailsPage`, `TaskDetailsPage`, `AdminTaskDetailsPage`, `SignupPage`) has its filters,
    guards, payloads and error texts as functions, and its React state as a class. Each of the
    class's handler methods takes the outcome of its requests as a parameter:
    - `Response<T>` for a call whose result or error the page reads;
    - `bool` for a call whose only effect is success or failure;
    - `Option` for a call whose failure the page swallows.

    A handler returns the flash message or navigation it triggers.

Helper modules: `Options` (Option and Result), `Seqs` (filter, count, stable sort, take,
subsequence), `Text` (ASCII case mapping, substring search, join, first-occurrence replace) and
`Json` (the JavaScript values the front end inspects: truthiness, `typeof`, `JSON.stringify` and
template-string conversion). `Dto` holds the records the front end receives. `PurePaths` is the
part of Python's `pathlib.PurePosixPath` the upload route uses: parsing text into a root and parts
(empty and "." parts dropped), the `/` operator and `str()`.

Where the written code and the intended behaviour differ, the model follows the code, with one
exception listed under Findings:

- The notification dropdown clears its list, and marks a note read, only after the server call
  succeeds.
- A flash message's 3-second timer is never cancelled, so an earlier timer also hides a later
  message.

The exception is `create_task`, which turns its own 404 and 400 into 500. The handler
`TaskRoutes.TaskStore.CreateTask` uses the intended check, `TaskRoutes.AssigneeCheck`; the code as
written is `TaskRoutes.AssigneeCheckAsWritten` (see Findings).

## Model

| member | source | states |
|---|---|---|
| TaskRoutes.NewNotification | task_service/routes.py:36-46 | A created notification has the given owner, type and timestamp and is unread |
| TaskRoutes.TaskStore.CreateNotification | task_service/routes.py:77-90 | The internal route appends exactly one new unread note and changes no task |
| TaskRoutes.NewestNotes | task_service/routes.py:56-57 | min(n, input length) notes, newest first; each input note is taken at most as often as it occurs, and all of them when there are at most n |
| TaskRoutes.MyNotifications | task_service/routes.py:56-58 | The listing holds min(50, number of caller's notes) notes, all the caller's, newest first; no note is listed more often than it is stored, and all the caller's notes are listed when there are at most 50 |
| TaskRoutes.MyNotificationsAreTheNewest | task_service/routes.py:56-57 | A caller's note missing from the listing is no newer than every listed note, and the listing is full (50) |
| TaskRoutes.FirstOwnedNote | task_service/routes.py:71-74 | Locates the first note with the same ObjectId (hex letters in either case) that the caller owns, or reports none |
| TaskRoutes.MarkRead | task_service/routes.py:71-74 | Only one note changes: the caller's note with that ObjectId becomes read; other owners' notes and the length are unchanged |
| TaskRoutes.MarkReadIdempotent | task_service/routes.py:71-74 | Marking the same note read twice equals marking it once |
| TaskRoutes.TaskStore.MarkNotificationRead | task_service/routes.py:60-75 | A malformed id gives 400 "Invalid ID" with no change; otherwise 204 and the collection is `MarkRead` of the old one; tasks unchanged |
| TaskRoutes.ClearAll | task_service/routes.py:102 | Exactly the caller's notes are removed; everyone else's stay, in order |
| TaskRoutes.TaskStore.ClearAllNotifications | task_service/routes.py:92-104 | The collection becomes `ClearAll` of the old one; tasks unchanged |
| TaskRoutes.EarliestDue | task_service/routes.py:129-132 | min(n, input length) tasks, ascending by due date; each input task is taken at most as often as it occurs, and all of them when there are at most n |
| TaskRoutes.EarliestDueAreTheEarliest | task_service/routes.py:129-132 | No task left out is due before any task that was kept |
| TaskRoutes.ListTasks | task_service/routes.py:118-132 | min(100, matches) tasks, each matching the owner or team query and the status filter; ascending by due date when sorting, otherwise in stored order |
| TaskRoutes.ListedInStoreOrder | task_service/routes.py:127-132 | Without sorting, the listing is the first min(100, matches) matches in the store's order |
| TaskRoutes.ListedTasksAreTheEarliest | task_service/routes.py:127-132 | With sorting, each match is listed at most once per occurrence, all of them when there are at most 100, and no match left out is due before a listed one |
| TaskRoutes.ListMyAssignedTasks | task_service/routes.py:111-137 | The `ListTasks` listing for the caller as assignee: min(100, matches) tasks, all assigned to the caller and in the requested status, ascending by due date when sorting |
| TaskRoutes.ListTasksByTeam | task_service/routes.py:140-166 | The `ListTasks` listing for the validated team: min(100, matches) tasks, all of that team and in the requested status, ascending by due date when sorting |
| TaskRoutes.AssigneeCheckAsWritten | task_service/routes.py:176-193 | As written: only an active assignee passes; unreachable is 503; an unknown or inactive assignee is 500 |
| TaskRoutes.AssigneeCheck | task_service/routes.py:176-193 | As intended: unknown assignee 404, inactive 400, unreachable 503, other failure 500, active passes |
| TaskRoutes.AssigneeErrorsSwallowed | task_service/routes.py:183-193 | For an unknown or an inactive assignee the written code answers 500 where 404 and 400 are meant |
| TaskRoutes.NewTask | task_service/routes.py:195-205 | The new task belongs to the validated team, is created by the caller, goes to the given assignee, and has no comments or attachments |
| TaskRoutes.AssignmentNotice | task_service/routes.py:211-219 | Exactly one unread TASK_ASSIGNED note to the assignee iff the assignee is not the creator, otherwise none |
| TaskRoutes.TaskStore.CreateTask | task_service/routes.py:169-232 | Fails iff the assignee check fails, and then nothing changes; on success it appends the new task and exactly the assignment notice |
| TaskRoutes.ApplyUpdate | task_service/routes.py:261-289 | Each field given in the update replaces the stored one; all others, including id, team, creator, comments and attachments, are kept; an empty update changes nothing |
| TaskRoutes.UpdateCheck | task_service/routes.py:261-284 | An empty update is 400; without a new assignee it passes; with one, it passes iff the assignee is active (404 unknown, 400 inactive, 503 unreachable) |
| TaskRoutes.TaskStore.UpdateTaskDetails | task_service/routes.py:254-292 | Fails iff `UpdateCheck` fails, leaving the tasks unchanged; on success only that task is replaced by `ApplyUpdate`; notifications unchanged |
| TaskRoutes.FindTask | task_service/routes.py:306-308 | Returns the index of the first task with the same ObjectId as the id (hex letters in either case), or the length when there is none |
| TaskRoutes.FindTaskIgnoresCase | task_service/routes.py:302-308 | A task id written with upper-case hex letters finds the same task as the id itself |
| TaskRoutes.StatusChangeCheck | task_service/routes.py:312-316 | Passes iff the caller is the assignee, otherwise 403 |
| TaskRoutes.StatusChangeNotice | task_service/routes.py:326-334 | Exactly one unread TASK_STATUS_CHANGED note to the creator iff the changer is not the creator |
| TaskRoutes.TaskStore.UpdateTaskStatus | task_service/routes.py:294-337 | 400 for a bad id, 404 for a missing task, 403 for anyone but the assignee; succeeds iff the caller is the assignee. Only that task's status changes, plus the status notice; on failure nothing changes |
| TaskRoutes.CommentNotices | task_service/routes.py:386-406 | At most two NEW_COMMENT notes, never to the commenter and never two to one user. The assignee gets one iff set and not the commenter; the creator gets one iff set and not the commenter |
| TaskRoutes.TaskStore.AddComment | task_service/routes.py:348-414 | 400 for a bad id, 404 for a missing task, the access check's error unchanged when access is denied; succeeds iff access is granted. The comment is appended at the end of that task's comments and `CommentNotices` sent; on failure nothing changes |
| TaskRoutes.PullComment | task_service/routes.py:466-469 | Removes exactly the comments with the same ObjectId as the id (hex letters in either case) and keeps the rest in order; the length is unchanged iff no comment has that ObjectId |
| TaskRoutes.TaskStore.DeleteComment | task_service/routes.py:459-474 | Succeeds iff some comment of the task has that ObjectId; then the task's comments are pulled. Otherwise 500 with no change |
| TaskRoutes.SafeFilename | task_service/routes.py:499 | A missing or empty filename becomes "attachment"; any other name is kept; the result is never empty |
| TaskRoutes.StoredName | task_service/routes.py:500 | The stored name is the attachment id, an underscore, then the safe filename |
| TaskRoutes.StoredPath | task_service/routes.py:495-513 | The text kept in the record parses back, under pathlib's rules, to the file the upload writes (`task_files / task id / stored name`) |
| PurePaths.StrRoundTrip | task_service/routes.py:500-513 | `PurePosixPath(str(p)) == p` for a parsed path: the recorded text names the path that was opened |
| PurePaths.PartsAtSlash | task_service/routes.py:500 | pathlib's parts of `a/b` are the parts of `a` then those of `b`, so empty and "." pieces add none |
| TaskRoutes.StoredPathOfObjectIds | task_service/routes.py:495-513 | With ObjectId ids the stored path is `task_files/<task id>/` then the stored name's parts joined by single slashes; a filename without a slash is kept verbatim |
| TaskRoutes.TrailingSlashDropped | task_service/routes.py:500 | A filename "x/" gives the same stored path as "x" |
| TaskRoutes.EmptyTailDropped | task_service/routes.py:500 | A filename ending in "/" or "/." gives the same stored path as without that ending |
| TaskRoutes.DoubledSlashDropped | task_service/routes.py:500 | A filename "x//y" gives the same stored path as "x/y" |
| TaskRoutes.DotPieceDropped | task_service/routes.py:500 | A filename "x/./y" gives the same stored path as "x/y" |
| TaskRoutes.TrailingSlashStoredPath | task_service/routes.py:495-513 | For a plain name x, the filename "x/" is stored as `task_files/<task id>/<id>_x` |
| TaskRoutes.NewAttachment | task_service/routes.py:509-515 | The record keeps id, safe filename, stored path and uploader; the content type defaults to application/octet-stream |
| TaskRoutes.TaskStore.UploadAttachment | task_service/routes.py:476-535 | 400 for a bad id, 404 for a missing task, the access check's error when denied, 500 "Failed to save file on server." when the write fails. Succeeds iff none of these; the attachment is appended at the end. Failures change nothing |
| TaskRoutes.FindAttachment | task_service/routes.py:593-596 | Returns the index of the first attachment with the same ObjectId as the id (hex letters in either case), or the length |
| TaskRoutes.DownloadAttachment | task_service/routes.py:570-612 | 400 for bad ids, 404 for a missing task, the access check's error when denied, 404 for a missing attachment, 410 for a missing file, 500 for a resolved path outside the upload base. Otherwise it serves the stored file with its content type and filename; every success is such a file |
| TaskRoutes.AttachmentDeletionCheck | task_service/routes.py:634-662 | 404 iff no attachment has that ObjectId. Allowed iff the caller uploaded it, is an admin, or is a team leader whom the team service names as leader. Every other refusal is 403 |
| TaskRoutes.PullAttachment | task_service/routes.py:671-674 | Removes exactly the attachments with the same ObjectId as the id (hex letters in either case) and keeps the rest in order |
| TaskRoutes.TaskStore.DeleteAttachment | task_service/routes.py:614-676 | 400 for bad ids, 404 for a missing task; otherwise answers `AttachmentDeletionCheck`, and only when it allows is the attachment pulled |
| TaskRoutes.AppendFresh | task_service/routes.py:36-46 | Appending notes with fresh ids keeps notification ids unique, the store invariant every handler keeps |
| TeamSecurity.CurrentUser | team_service/security.py:27-56 | An unset secret is 500. Otherwise the caller is returned iff the token decodes with both `sub` and a valid `role`, and every other token is 401 |
| TeamSecurity.CurrentAdmin | team_service/security.py:59-68 | Returns the caller iff an admin, otherwise 403 |
| TeamSecurity.FindTeam | team_service/security.py:84-87 | Returns the index of the first team with the same ObjectId as the id (hex letters in either case), or the length |
| TeamSecurity.TeamLeaderOrAdmin | team_service/security.py:70-100 | 400 for a bad id, then 404 for a missing team; succeeds iff the caller is an admin or the team's leader, otherwise 403 |
| TeamSecurity.TeamLeaderOnly | team_service/security.py:102-136 | Every admin gets 403 before the id is checked. Then 400 for a bad id and 404 for a missing team; succeeds iff the caller is the leader |
| TeamSecurity.TeamAccessOrAdmin | team_service/security.py:139-173 | 400 for a bad id; succeeds iff the team exists and the caller is an admin or a member. Every other case is the same ambiguous 403 |
| TeamSecurity.LeaderOnlyImpliesLeaderOrAdmin | team_service/security.py:93-130 | Whoever passes the leader-only check also passes the leader-or-admin check, with the same team |
| TeamSecurity.AccessDenialIsAmbiguous | team_service/security.py:148-173 | A non-member gets the same answer whether or not the team exists |
| TeamSecurity.AdminPowers | team_service/security.py:93-170 | For an existing team an admin passes the access and leader-or-admin checks and fails the leader-only check |
| Domain.ObjectIdIgnoresCase | team_service/security.py:78-81 | An id with its hex letters upper-cased or lower-cased denotes the same ObjectId |
| Domain.ParseRole | user_service/schemas.py:33-36 | Exactly the three role names parse, each to its own role |
| Domain.ToTokenData | user_service/schemas.py:30-33 | Token data is built iff the role claim is absent or valid; it keeps the subject, and the role is None iff the claim is absent |
| UserSecurity.Expiry | user_service/security.py:17-37 | No delta or a zero delta gives now + 60 minutes; any other delta gives now + delta |
| UserSecurity.CreateAccessToken | user_service/security.py:32-41 | The encoded claims are the input's keys plus `exp`, every other claim is kept, and `exp` is the expiry |
| UserSecurity.FindUser | user_service/security.py:76 | Finds a stored user with the username iff one exists |
| UserSecurity.CurrentUser | user_service/security.py:53-85 | 401 for a decode failure, a missing `sub` or an unknown user; 400 "Inactive user" for an inactive one; otherwise that user |
| UserSecurity.RoleClaimOptional | user_service/security.py:63-66 | A token without a role claim is accepted for an existing active user |
| UserSecurity.CurrentAdmin | user_service/security.py:88-96 | Returns the user iff an admin, otherwise 403 |
| UserSchemas.LengthError | user_service/schemas.py:8-12 | At most one error, located at `["body", field]`, present iff the length is out of bounds |
| UserSchemas.UserCreateErrors | user_service/schemas.py:7-12 | No errors iff the username is 3..64, the email valid, the password 3..72 and both names 1..64 characters; every error is located at a body field |
| UserSchemas.NewUserOut | user_service/schemas.py:15-23 | The public record keeps the account's fields, and `avatar_filename` defaults to None |
| UserSchemas.RoleUpdate | user_service/schemas.py:35-36 | A role update is accepted iff the value is one of the three role names; any other value is 422 |
| ConfirmContext.Initial | frontend_service/src/context/ConfirmContext.jsx:7-12 | Closed, with an empty message, the title "Are you sure?" and no callback |
| ConfirmContext.Step | frontend_service/src/context/ConfirmContext.jsx:15-33 | `ask` opens with the message and callback, titled "Confirm Action" by default. Cancel closes and keeps the other fields. Confirm runs the stored callback, if any, and closes |
| ConfirmContext.RunSingle | frontend_service/src/context/ConfirmContext.jsx:15-33 | Running one event is one step |
| ConfirmContext.AtMostOneRunPerAsk | frontend_service/src/context/ConfirmContext.jsx:28-33 | Over any event sequence, callbacks run at most once per `ask` (plus one if already open) |
| ConfirmContext.OnlyAskedCallbacksRun | frontend_service/src/context/ConfirmContext.jsx:15-33 | Every callback that runs was the pending one or was passed to some `ask` |
| ConfirmContext.LatestAskWins | frontend_service/src/context/ConfirmContext.jsx:15-22 | After two asks, confirming runs only the second callback |
| ConfirmContext.ConfirmTwiceRunsOnce | frontend_service/src/context/ConfirmContext.jsx:24-33 | Ask, cancel, confirm runs nothing; ask, confirm, confirm runs the callback once |
| ConfirmContext.ConfirmProvider.constructor | frontend_service/src/context/ConfirmContext.jsx:7-12 | Starts in the initial state with nothing run |
| ConfirmContext.ConfirmProvider.AskUser | frontend_service/src/context/ConfirmContext.jsx:15-22 | The new state is the `ask` step; nothing runs |
| ConfirmContext.ConfirmProvider.Close | frontend_service/src/context/ConfirmContext.jsx:24-26 | The new state is the cancel step; nothing runs |
| ConfirmContext.ConfirmProvider.HandleConfirm | frontend_service/src/context/ConfirmContext.jsx:28-33 | Reachable only while open; the new state and the run callbacks are the confirm step's |
| FlashContext.Initial | frontend_service/src/context/FlashContext.jsx:7 | No message and no pending timer |
| FlashContext.Step | frontend_service/src/context/FlashContext.jsx:10-43 | `flash` shows the message (type 'success' by default) and queues a timer for now + 3000 ms. A timer clears the message and leaves the queue. Close clears the message and keeps the timers |
| FlashContext.EveryFlashSchedulesOneTimeout | frontend_service/src/context/FlashContext.jsx:14-16 | The pending timers are the old ones plus one per flash minus the timers fired |
| FlashContext.PendingStaysAscending | frontend_service/src/context/FlashContext.jsx:14-16 | With flashes in time order, the timers stay in expiry order |
| FlashContext.EarlierTimeoutClearsLaterMessage | frontend_service/src/context/FlashContext.jsx:14-16 | A second flash within 3 s is shown, but the first flash's timer hides it while the second timer is still pending |
| FlashContext.FlashProvider.constructor | frontend_service/src/context/FlashContext.jsx:7 | Starts in the initial state |
| FlashContext.FlashProvider.ShowFlash | frontend_service/src/context/FlashContext.jsx:10-17 | The new state is the `flash` step |
| FlashContext.FlashProvider.TimeoutFired | frontend_service/src/context/FlashContext.jsx:14-16 | The new state is the timer step |
| FlashContext.FlashProvider.Dismiss | frontend_service/src/context/FlashContext.jsx:42-43 | The new state is the close step |
| NotificationDropdown.Initial | frontend_service/src/components/NotificationDropdown.jsx:7-9 | No notes, count 0, closed |
| NotificationDropdown.MarkLocal | frontend_service/src/components/NotificationDropdown.jsx:45-47 | The same length; exactly the notes with that id become read; the others are unchanged |
| NotificationDropdown.MarkLocalUnread | frontend_service/src/components/NotificationDropdown.jsx:45-47 | With unique ids, marking lowers the number of unread notes by at most one |
| NotificationDropdown.Step | frontend_service/src/components/NotificationDropdown.jsx:13-80 | Fetch sets the list and its unread count. A successful mark-read marks the note, decrements the count clamped at 0 and closes. A successful clear empties the list and zeroes the count. Failures change nothing. The bell toggles; an outside click closes |
| NotificationDropdown.StepKeepsConsistent | frontend_service/src/components/NotificationDropdown.jsx:13-64 | Every step keeps the count between 0 and the number of unread notes, with unique ids |
| NotificationDropdown.RunKeepsConsistent | frontend_service/src/components/NotificationDropdown.jsx:13-64 | Over any event sequence the state stays consistent; with no unread note the count is 0 |
| NotificationDropdown.MarkingReadNoteStillDecrements | frontend_service/src/components/NotificationDropdown.jsx:48 | Marking an already-read note still lowers the count by one and leaves the note as it was |
| NotificationDropdown.Dropdown.constructor | frontend_service/src/components/NotificationDropdown.jsx:7-9 | Starts in the initial state |
| NotificationDropdown.Dropdown.FetchNotifications | frontend_service/src/components/NotificationDropdown.jsx:13-21 | The new state is the fetch step (or no change on failure) |
| NotificationDropdown.Dropdown.HandleMarkRead | frontend_service/src/components/NotificationDropdown.jsx:42-53 | The new state is the mark-read step for its outcome |
| NotificationDropdown.Dropdown.HandleClearAll | frontend_service/src/components/NotificationDropdown.jsx:56-64 | The new state is the clear step for its outcome |
| NotificationDropdown.Dropdown.ToggleBell | frontend_service/src/components/NotificationDropdown.jsx:80 | The new state is the bell step |
| NotificationDropdown.Dropdown.HandlePointerDown | frontend_service/src/components/NotificationDropdown.jsx:31-39 | The new state is the pointer step |
| MyTasksPage.QueryParams | frontend_service/src/pages/UserMyTasksPage.jsx:32-34 | `status` is present iff the filter is non-empty, and then equals it; `sort_by_due` is present, and true, iff sorting is on |
| MyTasksPage.FindTeam | frontend_service/src/pages/UserMyTasksPage.jsx:49 | Returns the index of the first team with the id, or the length |
| MyTasksPage.TeamName | frontend_service/src/pages/UserMyTasksPage.jsx:48-51 | The first matching team's name, otherwise "Unknown Team (id)" |
| MyTasksPage.FilteredTasks | frontend_service/src/pages/UserMyTasksPage.jsx:53-55 | An empty filter shows all tasks; otherwise exactly the tasks of that team, in order |
| MyTasksPage.ClearedFiltersShowEverything | frontend_service/src/pages/UserMyTasksPage.jsx:140-142 | After clearing, the button is hidden, no parameters are sent and every task is shown |
| MyTasksPage.FilterBar.constructor | frontend_service/src/pages/UserMyTasksPage.jsx:12-14 | No filters and no sorting |
| MyTasksPage.FilterBar.SetStatusFilter | frontend_service/src/pages/UserMyTasksPage.jsx:80 | Only the status filter changes |
| MyTasksPage.FilterBar.SetTeamFilter | frontend_service/src/pages/UserMyTasksPage.jsx:101 | Only the team filter changes |
| MyTasksPage.FilterBar.ToggleSortByDue | frontend_service/src/pages/UserMyTasksPage.jsx:125 | Only the sort flag changes, to its negation |
| MyTasksPage.FilterBar.ClearFilters | frontend_service/src/pages/UserMyTasksPage.jsx:140-142 | Usable only while the button shows; afterwards all three are reset and the button hides |
| AdminUsersPage.ErrorMessage | frontend_service/src/pages/AdminUsersPage.jsx:19-21 | A falsy detail gives "An unexpected error occurred."; a string detail is shown as is |
| AdminUsersPage.ObjectDetailIsNotSpelledOut | frontend_service/src/pages/AdminUsersPage.jsx:19-21 | A list of validation objects is shown as "[object Object]" |
| AdminUsersPage.FilteredUsers | frontend_service/src/pages/AdminUsersPage.jsx:134-142 | An order-preserving subsequence: exactly the users whose username, email or non-null first or last name contains the lower-cased term |
| AdminUsersPage.EmptySearchShowsAll | frontend_service/src/pages/AdminUsersPage.jsx:134-142 | An empty search shows every user |
| AdminUsersPage.InactiveCount | frontend_service/src/pages/AdminUsersPage.jsx:144-154 | The number of inactive users; at most the number of users, and 0 (button hidden) iff every user is active |
| AdminUsersPage.ActivateAll | frontend_service/src/pages/AdminUsersPage.jsx:50-78 | An info flash and no confirmation iff nobody is inactive; otherwise a confirmation titled "Activating all users" naming the count, listing exactly the inactive users' names |
| AdminUsersPage.InactiveNames | frontend_service/src/pages/AdminUsersPage.jsx:50-64 | The names sent for activation are those of inactive users, and every inactive user's name is among them |
| AdminUsersPage.RemoveUser | frontend_service/src/pages/AdminUsersPage.jsx:103 | Exactly the users with that username are removed; the rest keep their order |
| AdminUsersPage.UsersView.constructor | frontend_service/src/pages/AdminUsersPage.jsx:12-14 | No users and no error |
| AdminUsersPage.UsersView.FetchUsers | frontend_service/src/pages/AdminUsersPage.jsx:23-32 | Success replaces the list; failure keeps it and sets the error text |
| AdminUsersPage.UsersView.DeleteConfirmed | frontend_service/src/pages/AdminUsersPage.jsx:96-111 | A successful delete applies `RemoveUser` and flashes "User <name> deleted successfully."; a failed one keeps the list and flashes "Failed to delete: " and the error message |
| AdminTeamsPage.GetErrorMessage | frontend_service/src/pages/AdminTeamsPage.jsx:29-38 | A falsy detail gives the default text; an object or array detail is JSON-stringified; a string is shown as is |
| AdminTeamsPage.ArrayDetailsDifferFromUsersPage | frontend_service/src/pages/AdminTeamsPage.jsx:29-38 | For a list of validation objects this page spells the JSON out while the users page shows "[object Object]" |
| AdminTeamsPage.ActiveUsers | frontend_service/src/pages/AdminTeamsPage.jsx:49 | Exactly the active users, in order |
| AdminTeamsPage.LeaderOptions | frontend_service/src/pages/AdminTeamsPage.jsx:64-67 | One option per active user, in the same order; every option is that of an active user, and every active user has its option |
| AdminTeamsPage.CreateGuard | frontend_service/src/pages/AdminTeamsPage.jsx:72-75 | The request proceeds iff name and leader are non-empty; otherwise the error flash |
| AdminTeamsPage.RemoveTeam | frontend_service/src/pages/AdminTeamsPage.jsx:97 | Exactly the teams with that id are removed; the rest keep their order |
| AdminTeamsPage.FilteredTeams | frontend_service/src/pages/AdminTeamsPage.jsx:107-109 | An empty leader filter shows every team; otherwise exactly those with that leader, in order |
| AdminTeamsPage.TeamsView.constructor | frontend_service/src/pages/AdminTeamsPage.jsx:13-27 | Empty lists, no error, an empty form, the modal closed |
| AdminTeamsPage.TeamsView.FetchData | frontend_service/src/pages/AdminTeamsPage.jsx:40-58 | Both responses set the teams and the active users; any failure sets "Failed to load data." |
| AdminTeamsPage.TeamsView.HandleCreateTeam | frontend_service/src/pages/AdminTeamsPage.jsx:69-88 | Nothing is sent unless the guard passes. Success appends the team, resets the form and closes the modal; failure flashes "Failed to create team: " and the message |
| AdminTeamsPage.TeamsView.DeleteConfirmed | frontend_service/src/pages/AdminTeamsPage.jsx:90-105 | Success applies `RemoveTeam` and flashes the deletion; failure keeps the list and flashes the error |
| DashboardPage.BandOf | frontend_service/src/pages/DashboardPage.jsx:19-27 | The bands [5,12), [12,17), [17,21) and the rest partition the hours |
| DashboardPage.GreetingSeparatesBands | frontend_service/src/pages/DashboardPage.jsx:19-27 | Two hours get the same greeting iff they are in the same band |
| DashboardPage.SubtitleSeparatesBands | frontend_service/src/pages/DashboardPage.jsx:29-42 | Two hours get the same subtitle iff they are in the same band |
| DashboardPage.GreetingAndSubtitleShareBands | frontend_service/src/pages/DashboardPage.jsx:19-42 | The greeting and the subtitle change at the same hours |
| DashboardPage.CountersCoverTasks | frontend_service/src/pages/DashboardPage.jsx:83-85 | The three counters add up to at most the number of tasks, and to exactly that iff every status is TODO, IN_PROGRESS or DONE |
| DashboardPage.PanelOf | frontend_service/src/pages/DashboardPage.jsx:146-147 | The placeholder iff the list is empty; otherwise the first min(n, length) items in list order, each at most as often as listed, and the whole list when it has at most n items |
| DashboardPage.DashboardView.RecentTasks | frontend_service/src/pages/DashboardPage.jsx:146-172 | The first five loaded tasks, or "No active tasks assigned to you." when none are loaded |
| DashboardPage.DashboardView.TeamCards | frontend_service/src/pages/DashboardPage.jsx:187-206 | The first six loaded teams, or "You're not in any teams yet." when none are loaded |
| DashboardPage.OnMount | frontend_service/src/pages/DashboardPage.jsx:45-53 | Redirect to /admin/users iff admin; only others load data |
| DashboardPage.DashboardView.constructor | frontend_service/src/pages/DashboardPage.jsx:14-16 | Empty lists, loading |
| DashboardPage.DashboardView.Mounted | frontend_service/src/pages/DashboardPage.jsx:45-72 | An admin is redirected with nothing loaded. Others get both lists when both calls succeed, none otherwise, and loading ends |
| TeamDetailsPage.AvailableUsers | frontend_service/src/pages/UserTeamDetailsPage.jsx:161-163 | Exactly the active users not already members, in order |
| TeamDetailsPage.AddingAvailableUserKeepsIdsDistinct | frontend_service/src/pages/UserTeamDetailsPage.jsx:161-163 | Adding a user offered by the picker keeps member ids distinct |
| TeamDetailsPage.AddMemberLocal | frontend_service/src/pages/UserTeamDetailsPage.jsx:102-105 | The member is appended at the end; nothing else changes |
| TeamDetailsPage.RemoveMemberLocal | frontend_service/src/pages/UserTeamDetailsPage.jsx:120-123 | Every occurrence of the member is removed and every other id kept as often as it occurs, in order; nothing else changes |
| TeamDetailsPage.MemberRows | frontend_service/src/pages/UserTeamDetailsPage.jsx:239-240 | One row per occurrence of every member id except the leader's, in order |
| TeamDetailsPage.Initials | frontend_service/src/pages/UserTeamDetailsPage.jsx:438 | "??" without a username, otherwise its first two characters upper-cased |
| TeamDetailsPage.MergeDetails | frontend_service/src/pages/UserTeamDetailsPage.jsx:90 | Only name and description come from the form |
| TeamDetailsPage.TaskGuard | frontend_service/src/pages/UserTeamDetailsPage.jsx:135-138 | The request proceeds iff title, assignee and due date are non-empty; otherwise the error flash |
| TeamDetailsPage.DetailOrUnknown | frontend_service/src/pages/UserTeamDetailsPage.jsx:154 | A falsy detail gives 'Unknown error'; a string detail is shown as is |
| TeamDetailsPage.TeamView.constructor | frontend_service/src/pages/UserTeamDetailsPage.jsx:17-43 | No team, empty lists, empty forms with MEDIUM priority, loading |
| TeamDetailsPage.TeamView.FetchTasks | frontend_service/src/pages/UserTeamDetailsPage.jsx:45-55 | Requests with the My Tasks parameter rule; success replaces the tasks, failure keeps them |
| TeamDetailsPage.TeamView.InitData | frontend_service/src/pages/UserTeamDetailsPage.jsx:57-81 | Users are requested iff the caller leads the team, and filtered to the active ones. Any failure flashes "Failed to load team." and goes to /teams; loading ends |
| TeamDetailsPage.TeamView.HandleUpdateDetails | frontend_service/src/pages/UserTeamDetailsPage.jsx:87-96 | Success merges the form and stops editing; failure keeps the team; each flashes its text |
| TeamDetailsPage.TeamView.HandleAddMember | frontend_service/src/pages/UserTeamDetailsPage.jsx:98-112 | No selection sends nothing. Success appends the member, clears the selection and closes the picker; failure flashes |
| TeamDetailsPage.TeamView.RemoveConfirmed | frontend_service/src/pages/UserTeamDetailsPage.jsx:114-131 | Success applies `RemoveMemberLocal`; failure keeps the team; each flashes its text |
| TeamDetailsPage.TeamView.HandleCreateTask | frontend_service/src/pages/UserTeamDetailsPage.jsx:133-156 | Nothing is sent unless the guard passes. Success refetches, resets the form and closes the modal. Failure keeps the form and flashes the detail or 'Unknown error' |
| TaskDetailsPage.EditFormOf | frontend_service/src/pages/UserTaskDetailsPage.jsx:46-53 | The fields are copied; a null description becomes ''; the due date is the text before the first 'T' |
| TaskDetailsPage.UpdatePayload | frontend_service/src/pages/UserTaskDetailsPage.jsx:84-86 | The keys are title, description, priority, due_date and assigned_to, never status; due_date is the ISO text |
| TaskDetailsPage.RemoveComment | frontend_service/src/pages/UserTaskDetailsPage.jsx:134 | Exactly the comments with the id are removed, in order |
| TaskDetailsPage.RemoveAttachment | frontend_service/src/pages/UserTaskDetailsPage.jsx:185 | Exactly the attachments with the id are removed, in order |
| TaskDetailsPage.CommentBadges | frontend_service/src/pages/UserTaskDetailsPage.jsx:211-213 | A comment is badged iff the team is loaded and the author is neither a member nor the leader |
| TaskDetailsPage.NoBadgesWithoutTeam | frontend_service/src/pages/UserTaskDetailsPage.jsx:211-213 | Before the team loads, no comment is badged |
| TaskDetailsPage.MembershipChangesDecideBadges | frontend_service/src/pages/UserTaskDetailsPage.jsx:211-213 | After a non-leader is removed, their comments are badged; after a member is added, theirs are not |
| TaskDetailsPage.ControlsFor | frontend_service/src/pages/UserTaskDetailsPage.jsx:199-407 | Delete-comment iff author or leader; delete-file iff uploader or leader; status selector iff assignee and not editing; edit and delete task iff leader and not editing |
| TaskDetailsPage.NoLeaderControlsWithoutTeam | frontend_service/src/pages/UserTaskDetailsPage.jsx:200 | Without a loaded team no leader control shows |
| TaskDetailsPage.TaskView.constructor | frontend_service/src/pages/UserTaskDetailsPage.jsx:19-33 | Nothing loaded, empty comment text, not editing, an empty form |
| TaskDetailsPage.TaskView.FetchData | frontend_service/src/pages/UserTaskDetailsPage.jsx:35-62 | All four responses fill the page and the edit form; any failure flashes "Failed to load task details." and goes to the team page |
| TaskDetailsPage.TaskView.HandleStatusChange | frontend_service/src/pages/UserTaskDetailsPage.jsx:68-80 | Success changes only the task's and the form's status; failure changes nothing; each flashes its text |
| TaskDetailsPage.TaskView.HandleUpdateTask | frontend_service/src/pages/UserTaskDetailsPage.jsx:82-95 | Sends `UpdatePayload` iff the date converts. Success replaces the task and stops editing; failure flashes the detail or 'Unknown error' |
| TaskDetailsPage.TaskView.HandleAddComment | frontend_service/src/pages/UserTaskDetailsPage.jsx:114-125 | A blank comment sends nothing. Success appends at the end and clears the input; failure keeps both |
| TaskDetailsPage.TaskView.DeleteCommentConfirmed | frontend_service/src/pages/UserTaskDetailsPage.jsx:127-142 | Success applies `RemoveComment`; failure keeps the list; each flashes its text |
| TaskDetailsPage.TaskView.HandleFileUpload | frontend_service/src/pages/UserTaskDetailsPage.jsx:144-160 | No file sends nothing; success appends at the end; failure keeps the list |
| TaskDetailsPage.TaskView.DeleteAttachmentConfirmed | frontend_service/src/pages/UserTaskDetailsPage.jsx:178-193 | Success applies `RemoveAttachment`; failure keeps the list; each flashes its text |
| AdminTaskDetailsPage.PriorityColorOf | frontend_service/src/pages/AdminTaskDetailsPage.jsx:66-70 | Red iff URGENT, orange iff MEDIUM, green for any other value |
| AdminTaskDetailsPage.StatusLabel | frontend_service/src/pages/AdminTaskDetailsPage.jsx:94 | The same length; a status without '_' is unchanged |
| AdminTaskDetailsPage.FirstUnderscoreBecomesSpace | frontend_service/src/pages/AdminTaskDetailsPage.jsx:94 | The first '_' becomes a space and every other character is kept |
| AdminTaskDetailsPage.LaterUnderscoresKept | frontend_service/src/pages/AdminTaskDetailsPage.jsx:94 | Every '_' after the first is kept |
| AdminTaskDetailsPage.Badges | frontend_service/src/pages/AdminTaskDetailsPage.jsx:184-186 | The same former-member rule as the member's page |
| AdminTaskDetailsPage.AdminTaskView.constructor | frontend_service/src/pages/AdminTaskDetailsPage.jsx:13-17 | Nothing loaded, loading |
| AdminTaskDetailsPage.AdminTaskView.FetchData | frontend_service/src/pages/AdminTaskDetailsPage.jsx:19-41 | The team is requested iff the task arrived, using the task's team id. All three later responses fill the page; any failure alerts and goes to /admin/teams |
| SignupPage.FieldText | frontend_service/src/pages/SignupPage.jsx:35 | A present field's value, or the text "undefined" |
| SignupPage.SecondOf | frontend_service/src/pages/SignupPage.jsx:53 | `loc[1]` throws iff `loc` is missing or null; for an array it is the second item, if any |
| SignupPage.EntryText | frontend_service/src/pages/SignupPage.jsx:53 | A non-object entry throws |
| SignupPage.EntryTexts | frontend_service/src/pages/SignupPage.jsx:53 | Succeeds iff every entry's text does, and then lists them in order |
| SignupPage.FailureText | frontend_service/src/pages/SignupPage.jsx:47-55 | A falsy detail gives the default line; a string detail is shown as is; an array is flattened, and throws iff an entry does; anything else gives the default |
| SignupPage.EntryWithoutLocThrows | frontend_service/src/pages/SignupPage.jsx:53 | An entry without `loc` makes the error handler itself throw |
| SignupPage.ErrorObjectText | frontend_service/src/pages/SignupPage.jsx:53 | A validation error at `[body, field]` reads "field: message" |
| SignupPage.ValidationListShownPerField | frontend_service/src/pages/SignupPage.jsx:47-55 | A validation list is shown as its "field: message" lines joined by ", " |
| SignupPage.SchemaErrorsShownPerField | frontend_service/src/pages/SignupPage.jsx:47-55 | The sign-up schema's own errors are shown field by field |
| SignupPage.SignupForm.constructor | frontend_service/src/pages/SignupPage.jsx:9-18 | Five empty fields, no error, no success, not loading |
| SignupPage.SignupForm.HandleChange | frontend_service/src/pages/SignupPage.jsx:23-28 | Only the named field changes |
| SignupPage.SignupForm.HandleSubmit | frontend_service/src/pages/SignupPage.jsx:30-60 | Sends the form iff the username is non-empty ASCII letters and digits, else sets the rule text. Success sets `success`; failure sets `FailureText`; the error is cleared first |

## Left out

- I/O and foreign code are not modelled; their results are parameters:
  - MongoDB and SQL drivers, and the HTTP calls between services (the assignee's record, a team's `leader_id`, task access);
  - JWT encoding and decoding (a decoded token is an input), and bcrypt;
  - file writes, `os.path.isfile`, `Path.resolve`, file deletion and `FileResponse`;
  - `datetime.now()` and `new Date()` become integer timestamps and an hour;
  - ObjectId generation becomes id parameters.
- Concurrency is not modelled: `Promise.all`, stale responses, the 30-second polling and the one-second clock are left out. Each handler sees all its responses at once.
- Text handling is simplified. Case mapping covers ASCII only, `trim` removes the ASCII white-space characters and U+00A0 only (not the other Unicode space separators), and `EmailStr` validity is an input. Date parsing and `toISOString` are an optional ISO text supplied by the caller.
- The 422 body the sign-up page reads is modelled with `loc` and `msg` only.
- These task-service operations are not part of this model, because nothing in the modelled behaviour depends on them: `delete_task`, `get_task_details`, `get_all_task_comments`, `list_task_attachments` and `cleanup_team_tasks`. The deletion-authorisation dependency behind `delete_comment` and the leader-only dependency behind `update_task_details` are given as preconditions (the task id they return).
- Front-end operations not modelled: `handleDownload` (a Blob download), `handleDeleteTask`, the activate, deactivate and role-change handlers of the users page, and all rendering (labels, icons, modals, routing). LoginPage, Layout, axios.js, main.jsx, the other pages and user_service's main.py and db.py are not part of this model.
- An unset `SECRET_KEY` is a boolean input of `TeamSecurity.CurrentUser`.
- TaskRoutes.ApplyUpdate: the `TaskUpdate` schema is not among the modelled files, so its fields are taken to be those the task edit form sends, plus `status`.
- TaskRoutes.TaskStore.UpdateTaskDetails: a user-service answer that is neither 404 nor a JSON record raises outside the handler's `except` and is modelled as 500 "Internal Server Error".
- TaskRoutes.StoredPath: the exact text (`TaskRoutes.StoredPathOfObjectIds` and the filename lemmas) is stated for ObjectId task and attachment ids only, the ids the handler uses; other ids are covered by the round trip alone. `PurePaths` leaves out Windows paths and everything that needs the file system (`..` is kept as a part, as pathlib keeps it).
- TaskRoutes.DownloadAttachment: the media type and filename defaults for a record without those fields are not modelled, because stored records always carry them.
- AdminUsersPage.UsersView.FetchUsers: the page stores `detail || default` as its error without converting it, and React renders that value as is, so an object detail would fail at render; the model stores the string conversion `ErrorMessage` instead.
- AdminUsersPage.ErrorMessage: does not state the text shown for object and array details, because that is the JavaScript string conversion; `ObjectDetailIsNotSpelledOut` states it for a list of objects.
- TeamDetailsPage.DetailOrUnknown: does not state the text for object details, for the same reason.
- DashboardPage.Greeting, DashboardPage.Subtitle and DashboardPage.StatusCount carry no contract of their own; the band lemmas and `CountersCoverTasks` state their properties.

## Findings

| source | as written | input that shows it | evidently intended | confidence | as-written member | corrected member |
|---|---|---|---|---|---|---|
| task_service/routes.py:178-193 | The 404 and 400 for a bad assignee are raised inside `try`, so the `except Exception` clause turns them into a 500 "Error during user assignment validation." | The user service answers 404 for the assignee, or returns a record with `active` false | An unknown assignee gives 404, an inactive one 400 | not executed | TaskRoutes.AssigneeCheckAsWritten (shown by TaskRoutes.AssigneeErrorsSwallowed) | TaskRoutes.AssigneeCheck (used by TaskRoutes.TaskStore.CreateTask) |
