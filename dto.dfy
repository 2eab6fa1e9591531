/** The JSON records the frontend receives from the services, as the pages read them.
    Enumerations arrive as plain strings; fields that may be null are options. */
module Dto {
  import opened Options
  import opened Json

  datatype NoteDto = NoteDto(id: string, title: string, message: string, link: string, ntype: string, isRead: bool)

  datatype TaskDto = TaskDto(
    id: string,
    teamId: string,
    title: string,
    description: Option<string>,
    status: string,
    priority: string,
    dueDate: string,
    assignedTo: string,
    createdBy: string)

  datatype TeamDto = TeamDto(id: string, name: string, description: Option<string>, leaderId: string, memberIds: seq<string>)

  datatype UserDto = UserDto(
    username: string,
    email: string,
    firstName: Option<string>,
    lastName: Option<string>,
    role: string,
    active: bool)

  datatype CommentDto = CommentDto(id: string, text: string, createdBy: string)

  datatype AttachmentDto = AttachmentDto(id: string, filename: string, uploadedBy: string)

  /** A rejected request as axios reports it: no response at all, or a response with a body. */
  datatype ApiError = NoResponse | HttpError(status: int, data: Json)

  /** The settled promise of a request: the response body, or the error it was rejected with. */
  datatype Response<+T> = Received(value: T) | Rejected(error: ApiError)

  /** `err.response?.data?.detail`; absent is `undefined`. */
  function Detail(err: ApiError): (r: Option<Json>)
    ensures err.NoResponse? ==> r.None?
    ensures err.HttpError? && err.data.JObj? ==> r == Get(err.data, "detail")
    ensures err.HttpError? && !err.data.JObj? ==> r.None?
  {
    match err
    case NoResponse => None
    case HttpError(_, data) => if data.JObj? then Get(data, "detail") else None
  }
}
