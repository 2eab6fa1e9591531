/** The user service's request and response schemas: field bounds and the role enum. */
module UserSchemas {
  import opened Options
  import opened Domain
  import Text

  /** The body of a registration request. */
  datatype UserCreate = UserCreate(username: string, email: string, password: string,
                                   firstName: string, lastName: string)

  /** One entry of a 422 response's `detail` list: where (`["body", field]`) and why. */
  datatype FieldError = FieldError(loc: seq<string>, msg: string)

  predicate WithinBounds(s: string, lo: nat, hi: nat)
  {
    lo <= |s| <= hi
  }

  /** Every field of a registration is within its bounds; `emailValid` is the EmailStr verdict. */
  predicate ValidUserCreate(u: UserCreate, emailValid: bool)
  {
    WithinBounds(u.username, 3, 64) && emailValid && WithinBounds(u.password, 3, 72)
    && WithinBounds(u.firstName, 1, 64) && WithinBounds(u.lastName, 1, 64)
  }

  function Plural(n: nat): string { if n == 1 then "" else "s" }

  /** The length error for one string field, if any. */
  function LengthError(field: string, s: string, lo: nat, hi: nat): (r: seq<FieldError>)
    ensures |r| <= 1
    ensures r == [] <==> WithinBounds(s, lo, hi)
    ensures forall e :: e in r ==> e.loc == ["body", field]
  {
    if |s| < lo then
      [FieldError(["body", field], "String should have at least " + Text.NatToString(lo) + " character" + Plural(lo))]
    else if |s| > hi then
      [FieldError(["body", field], "String should have at most " + Text.NatToString(hi) + " character" + Plural(hi))]
    else []
  }

  /** The validation errors of a registration body, one per failing field, in field order. */
  function UserCreateErrors(u: UserCreate, emailValid: bool): (r: seq<FieldError>)
    ensures r == [] <==> ValidUserCreate(u, emailValid)
    ensures |r| <= 5
    ensures forall e :: e in r ==> |e.loc| == 2 && e.loc[0] == "body"
    ensures !WithinBounds(u.username, 3, 64) ==> r[0].loc == ["body", "username"]
  {
    LengthError("username", u.username, 3, 64)
    + (if emailValid then [] else [FieldError(["body", "email"], "value is not a valid email address")])
    + LengthError("password", u.password, 3, 72)
    + LengthError("first_name", u.firstName, 1, 64)
    + LengthError("last_name", u.lastName, 1, 64)
  }

  /** What `GET /users` shows of a user; `avatarFilename` is absent unless one was uploaded. */
  datatype UserOut = UserOut(username: string, email: string, firstName: string, lastName: string,
                             role: Role, active: bool, avatarFilename: Option<string>)

  /** A user as first shown, before any avatar upload. */
  function NewUserOut(u: UserCreate, role: Role, active: bool): (r: UserOut)
    ensures r.avatarFilename.None?
    ensures r.username == u.username && r.email == u.email && r.role == role && r.active == active
    ensures r.firstName == u.firstName && r.lastName == u.lastName
  {
    UserOut(u.username, u.email, u.firstName, u.lastName, role, active, None)
  }

  /** The body of a role change: only the three Role values are accepted (else 422). */
  function RoleUpdate(role: string): (r: Result<Role>)
    ensures r.Ok? <==> role == "member" || role == "team_leader" || role == "admin"
    ensures r.Ok? ==> ParseRole(role) == Some(r.value)
    ensures r.Err? ==> r.code == 422
  {
    match ParseRole(role)
    case Some(x) => Ok(x)
    case None => Err(422, "Input should be 'member', 'team_leader' or 'admin'")
  }
}
