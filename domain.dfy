/** Entities of the backend services, as stored in the task, team and user databases. */
module Domain {
  import opened Options
  import Text

  /** The three user roles; their wire values are "member", "team_leader" and "admin". */
  datatype Role = Member | TeamLeader | Admin

  /** Parsing a role claim or request field against the Role enum. */
  function ParseRole(s: string): (r: Option<Role>)
    ensures r == Some(Member) <==> s == "member"
    ensures r == Some(TeamLeader) <==> s == "team_leader"
    ensures r == Some(Admin) <==> s == "admin"
  {
    if s == "member" then Some(Member)
    else if s == "team_leader" then Some(TeamLeader)
    else if s == "admin" then Some(Admin)
    else None
  }

  datatype TaskStatus = Todo | InProgress | Done

  function StatusValue(s: TaskStatus): string
  {
    match s
    case Todo => "TODO"
    case InProgress => "IN_PROGRESS"
    case Done => "DONE"
  }

  datatype Priority = Low | Medium | Urgent

  datatype NotificationType = TaskAssigned | TaskStatusChanged | NewComment | TeamAdd

  predicate IsHexDigit(c: char)
  {
    '0' <= c <= '9' || 'a' <= c <= 'f' || 'A' <= c <= 'F'
  }

  /** A string that `ObjectId(...)` accepts: exactly 24 hexadecimal digits. */
  predicate IsObjectId(s: string)
  {
    |s| == 24 && forall i :: 0 <= i < |s| ==> IsHexDigit(s[i])
  }

  /** The text an ObjectId is compared by: its hex digits with the letters in lower case. */
  function ObjectIdKey(s: string): string
  {
    Text.Lower(s)
  }

  /** Equality of the ObjectIds two id strings denote: the same 12 bytes, whatever the case
      of the hex letters. Every lookup and `$pull` by `_id` compares ids this way. */
  predicate SameObjectId(a: string, b: string)
  {
    ObjectIdKey(a) == ObjectIdKey(b)
  }

  /** An id written with upper-case hex letters denotes the same ObjectId as the id itself. */
  lemma {:induction false} ObjectIdIgnoresCase(s: string)
    ensures SameObjectId(Text.Upper(s), s)
    ensures SameObjectId(Text.Lower(s), s)
  {
    var u := Text.Upper(s);
    forall i | 0 <= i < |s| ensures Text.LowerChar(u[i]) == Text.LowerChar(s[i]) {
      Text.LowerOfUpper(s[i]);
    }
    assert ObjectIdKey(u) == ObjectIdKey(s);
    var l := Text.Lower(s);
    forall i | 0 <= i < |s| ensures Text.LowerChar(l[i]) == Text.LowerChar(s[i]) {
      Text.LowerOfLower(s[i]);
    }
    assert ObjectIdKey(l) == ObjectIdKey(s);
  }

  datatype Comment = Comment(id: string, text: string, createdBy: string, createdAt: int)

  datatype Attachment = Attachment(
    id: string,
    filename: string,
    contentType: string,
    path: string,
    uploadedBy: string,
    uploadedAt: int)

  /** A task document; `dueDate` is an abstract timestamp, `assignedTo`/`createdBy` usernames. */
  datatype Task = Task(
    id: string,
    teamId: string,
    title: string,
    description: Option<string>,
    createdBy: string,
    assignedTo: string,
    status: TaskStatus,
    priority: Priority,
    dueDate: int,
    comments: seq<Comment>,
    attachments: seq<Attachment>)

  datatype Notification = Notification(
    id: string,
    userId: string,
    title: string,
    message: string,
    link: string,
    ntype: NotificationType,
    isRead: bool,
    createdAt: int)

  /** A team document of the team service. */
  datatype Team = Team(
    id: string,
    name: string,
    description: Option<string>,
    leaderId: string,
    memberIds: seq<string>,
    createdAt: int)

  /** The outcome of decoding a JWT: a failure (bad signature, expired, malformed) or the
      payload's `sub` and `role` claims, each possibly absent. */
  datatype TokenDecode = DecodeFailed | Decoded(sub: Option<string>, role: Option<string>)

  /** The claims a token carries once validated; both may be absent. */
  datatype TokenData = TokenData(username: Option<string>, role: Option<Role>)

  /** Building TokenData from the claims: absent claims stay absent, a role that is not a Role
      value is a validation error (`None`). */
  function ToTokenData(sub: Option<string>, role: Option<string>): (r: Option<TokenData>)
    ensures r.Some? <==> role.None? || ParseRole(role.value).Some?
    ensures r.Some? ==> r.value.username == sub
    ensures r.Some? && role.None? ==> r.value.role.None?
    ensures r.Some? && role.Some? ==> r.value.role == ParseRole(role.value)
  {
    if role.None? then Some(TokenData(sub, None))
    else match ParseRole(role.value)
      case None => None
      case Some(x) => Some(TokenData(sub, Some(x)))
  }

  /** The trusted token contents the task and team services work with. */
  datatype Caller = Caller(username: string, role: Role)

  /** The outcome of a request handler: a body, or an HTTP error status with its detail. */
  datatype Result<+T> = Ok(value: T) | Err(code: int, detail: string)
}
