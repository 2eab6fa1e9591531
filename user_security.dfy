/** The user service's token issuing and its current-user checks. Signing and password hashing
    are outside the model; a token is the claims map it would carry. */
module UserSecurity {
  import opened Options
  import opened Domain
  import UserSchemas

  const AccessTokenExpireMinutes: int := 60
  const CredentialsDetail: string := "Could not validate credentials"

  /** A claim value: a string (`sub`, `role`) or an instant (`exp`), in seconds. */
  datatype Claim = StrClaim(s: string) | TimeClaim(t: int)

  /** The expiry of a token issued at `now`: `now + delta` for a non-zero delta (a zero
      `timedelta` is falsy), otherwise `now` plus 60 minutes. */
  function Expiry(expiresDelta: Option<int>, now: int): (e: int)
    ensures expiresDelta.None? || expiresDelta.value == 0 ==> e == now + AccessTokenExpireMinutes * 60
    ensures expiresDelta.Some? && expiresDelta.value != 0 ==> e == now + expiresDelta.value
  {
    if expiresDelta.Some? && expiresDelta.value != 0 then now + expiresDelta.value
    else now + AccessTokenExpireMinutes * 60
  }

  /** `create_access_token` up to the signing step: a copy of the caller's claims with `exp`
      added (or replaced). The caller's map is a value and cannot change. */
  method CreateAccessToken(data: map<string, Claim>, expiresDelta: Option<int>, now: int)
    returns (toEncode: map<string, Claim>)
    ensures toEncode.Keys == data.Keys + {"exp"}
    ensures toEncode["exp"] == TimeClaim(Expiry(expiresDelta, now))
    ensures forall k :: k in data && k != "exp" ==> toEncode[k] == data[k]
  {
    toEncode := data;
    toEncode := toEncode["exp" := TimeClaim(Expiry(expiresDelta, now))];
  }

  /** `db.query(User).filter(User.username == ...).first()`: the first user with that name. */
  function FindUser(users: seq<UserSchemas.UserOut>, username: string): (r: Option<UserSchemas.UserOut>)
    ensures r.Some? <==> exists i :: 0 <= i < |users| && users[i].username == username
    ensures r.Some? ==> r.value in users && r.value.username == username
    decreases |users|
  {
    if users == [] then None
    else if users[0].username == username then Some(users[0])
    else FindUser(users[1..], username)
  }

  /** `get_current_user` of the user service: the ordered checks decode, `sub` present, user
      exists, user active. A missing role claim is not an error here; a role value outside the
      enum is (401). */
  function CurrentUser(token: TokenDecode, users: seq<UserSchemas.UserOut>): (r: Result<UserSchemas.UserOut>)
    ensures token.DecodeFailed? ==> r == Err(401, CredentialsDetail)
    ensures token.Decoded? && token.sub.None? ==> r == Err(401, CredentialsDetail)
    ensures token.Decoded? && ToTokenData(token.sub, token.role).None? ==> r == Err(401, CredentialsDetail)
    ensures (token.Decoded? && token.sub.Some? && ToTokenData(token.sub, token.role).Some?
            && FindUser(users, token.sub.value).None?) ==> r == Err(401, CredentialsDetail)
    ensures r.Ok? <==> (token.Decoded? && token.sub.Some? && ToTokenData(token.sub, token.role).Some?
            && FindUser(users, token.sub.value).Some? && FindUser(users, token.sub.value).value.active)
    ensures r.Ok? ==> r.value in users && r.value.username == token.sub.value
    ensures r.Err? ==> r.code == 401 || r == Err(400, "Inactive user")
  {
    match token
    case DecodeFailed => Err(401, CredentialsDetail)
    case Decoded(sub, role) =>
      match ToTokenData(sub, role)
      case None => Err(401, CredentialsDetail)
      case Some(data) =>
        if data.username.None? then Err(401, CredentialsDetail)
        else match FindUser(users, data.username.value)
          case None => Err(401, CredentialsDetail)
          case Some(user) =>
            if !user.active then Err(400, "Inactive user") else Ok(user)
  }

  /** A token without a role claim is accepted for an existing active user. */
  lemma RoleClaimOptional(sub: string, users: seq<UserSchemas.UserOut>)
    requires FindUser(users, sub).Some? && FindUser(users, sub).value.active
    ensures CurrentUser(Decoded(Some(sub), None), users).Ok?
  {
  }

  /** `get_current_admin_user`: the role stored for the user, not the token's claim, decides. */
  function CurrentAdmin(user: UserSchemas.UserOut): (r: Result<UserSchemas.UserOut>)
    ensures r.Ok? <==> user.role == Admin
    ensures r.Ok? ==> r.value == user
    ensures r.Err? ==> r == Err(403, "The user does not have privileges to perform this action")
  {
    if user.role != Admin then Err(403, "The user does not have privileges to perform this action")
    else Ok(user)
  }
}
