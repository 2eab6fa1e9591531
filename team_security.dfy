/** The team service's authentication and authorisation dependencies. The JWT is decoded
    outside the model; a decoded payload is given as its `sub` and `role` claims. */
module TeamSecurity {
  import opened Options
  import opened Domain
  import Seqs

  const CredentialsDetail: string := "Could not validate credentials"
  const AmbiguousDetail: string := "The requested resource was not found or is inaccessible."

  /** `get_current_user`: the token's contents are trusted, but both `sub` and a valid `role`
      are required. A missing secret key is an unhandled exception (500). */
  function CurrentUser(secretKeySet: bool, token: TokenDecode): (r: Result<Caller>)
    ensures !secretKeySet ==> r.Err? && r.code == 500
    ensures r.Ok? <==> secretKeySet && token.Decoded? && token.sub.Some? && token.role.Some?
                       && ParseRole(token.role.value).Some?
    ensures r.Ok? ==> r.value.username == token.sub.value && ParseRole(token.role.value) == Some(r.value.role)
    ensures secretKeySet && r.Err? ==> r == Err(401, CredentialsDetail)
  {
    if !secretKeySet then Err(500, "SECRET_KEY not set in environment")
    else match token
      case DecodeFailed => Err(401, CredentialsDetail)
      case Decoded(sub, role) =>
        match ToTokenData(sub, role)
        case None => Err(401, CredentialsDetail)
        case Some(data) =>
          if data.username.None? || data.role.None? then Err(401, CredentialsDetail)
          else Ok(Caller(data.username.value, data.role.value))
  }

  /** `get_current_admin_user`. */
  function CurrentAdmin(caller: Caller): (r: Result<Caller>)
    ensures r.Ok? <==> caller.role == Admin
    ensures r.Ok? ==> r.value == caller
    ensures r.Err? ==> r == Err(403, "The user does not have privileges to perform this action")
  {
    if caller.role != Admin then Err(403, "The user does not have privileges to perform this action")
    else Ok(caller)
  }

  function TeamKey(t: Team): string { ObjectIdKey(t.id) }

  /** `find_one({"_id": ...})` on the teams collection: the index of the first team with that ObjectId, or |teams|. */
  function FindTeam(teams: seq<Team>, id: string): (k: nat)
    ensures k <= |teams|
    ensures forall i :: 0 <= i < k ==> !SameObjectId(teams[i].id, id)
    ensures k < |teams| ==> SameObjectId(teams[k].id, id)
  {
    Seqs.IndexOf(teams, TeamKey, ObjectIdKey(id))
  }

  predicate TeamExists(teams: seq<Team>, id: string)
  {
    exists i :: 0 <= i < |teams| && SameObjectId(teams[i].id, id)
  }

  /** `get_team_leader_or_admin`. */
  function TeamLeaderOrAdmin(caller: Caller, teamId: string, teams: seq<Team>): (r: Result<Team>)
    ensures !IsObjectId(teamId) ==> r == Err(400, "Invalid team ID format")
    ensures IsObjectId(teamId) && !TeamExists(teams, teamId) ==> r == Err(404, "Team not found")
    ensures r.Ok? <==> (IsObjectId(teamId) && TeamExists(teams, teamId)
      && (caller.role == Admin || teams[FindTeam(teams, teamId)].leaderId == caller.username))
    ensures r.Ok? ==> SameObjectId(r.value.id, teamId) && r.value in teams
    ensures IsObjectId(teamId) && TeamExists(teams, teamId) && r.Err? ==>
      r == Err(403, "You are not authorized to modify this team.")
  {
    if !IsObjectId(teamId) then Err(400, "Invalid team ID format")
    else
      var k := FindTeam(teams, teamId);
      if k == |teams| then Err(404, "Team not found")
      else if caller.role == Admin || teams[k].leaderId == caller.username then Ok(teams[k])
      else Err(403, "You are not authorized to modify this team.")
  }

  /** `get_team_leader_only`: admins are turned away before the team id is even looked at. */
  function TeamLeaderOnly(caller: Caller, teamId: string, teams: seq<Team>): (r: Result<Team>)
    ensures caller.role == Admin ==>
      r == Err(403, "Admin users cannot manage team members directly; this is a Team Leader function.")
    ensures caller.role != Admin && !IsObjectId(teamId) ==> r == Err(400, "Invalid team ID format")
    ensures caller.role != Admin && IsObjectId(teamId) && !TeamExists(teams, teamId) ==> r == Err(404, "Team not found")
    ensures r.Ok? <==> (caller.role != Admin && IsObjectId(teamId) && TeamExists(teams, teamId)
      && teams[FindTeam(teams, teamId)].leaderId == caller.username)
    ensures r.Ok? ==> SameObjectId(r.value.id, teamId) && r.value in teams
  {
    if caller.role == Admin then
      Err(403, "Admin users cannot manage team members directly; this is a Team Leader function.")
    else if !IsObjectId(teamId) then Err(400, "Invalid team ID format")
    else
      var k := FindTeam(teams, teamId);
      if k == |teams| then Err(404, "Team not found")
      else if teams[k].leaderId == caller.username then Ok(teams[k])
      else Err(403, "You are not authorized to manage members for this team.")
  }

  /** `get_team_access_or_admin`: a missing team and a refused one look the same. */
  function TeamAccessOrAdmin(caller: Caller, teamId: string, teams: seq<Team>): (r: Result<Team>)
    ensures !IsObjectId(teamId) ==> r == Err(400, "Invalid team ID format")
    ensures r.Ok? <==> (IsObjectId(teamId) && TeamExists(teams, teamId)
      && (caller.role == Admin || caller.username in teams[FindTeam(teams, teamId)].memberIds))
    ensures r.Ok? ==> SameObjectId(r.value.id, teamId) && r.value in teams
    ensures IsObjectId(teamId) && r.Err? ==> r == Err(403, AmbiguousDetail)
  {
    if !IsObjectId(teamId) then Err(400, "Invalid team ID format")
    else
      var k := FindTeam(teams, teamId);
      if k == |teams| then Err(403, AmbiguousDetail)
      else if caller.role == Admin || caller.username in teams[k].memberIds then Ok(teams[k])
      else Err(403, AmbiguousDetail)
  }

  /** A caller the leader-only check admits is also admitted by the leader-or-admin check. */
  lemma LeaderOnlyImpliesLeaderOrAdmin(caller: Caller, teamId: string, teams: seq<Team>)
    requires TeamLeaderOnly(caller, teamId, teams).Ok?
    ensures TeamLeaderOrAdmin(caller, teamId, teams) == TeamLeaderOnly(caller, teamId, teams)
  {
  }

  /** For a non-admin, whether the team is missing cannot be told from whether access is refused. */
  lemma AccessDenialIsAmbiguous(caller: Caller, teamId: string, teams: seq<Team>, team: Team)
    requires IsObjectId(teamId) && caller.role != Admin
    requires team.id == teamId && caller.username !in team.memberIds
    requires !TeamExists(teams, teamId)
    ensures TeamAccessOrAdmin(caller, teamId, teams) == TeamAccessOrAdmin(caller, teamId, [team] + teams)
  {
    assert FindTeam([team] + teams, teamId) == 0;
  }

  /** An admin gets access to, and may modify, every existing team, but may never manage its members. */
  lemma AdminPowers(caller: Caller, teamId: string, teams: seq<Team>)
    requires caller.role == Admin && IsObjectId(teamId) && TeamExists(teams, teamId)
    ensures TeamAccessOrAdmin(caller, teamId, teams).Ok?
    ensures TeamLeaderOrAdmin(caller, teamId, teams).Ok?
    ensures TeamLeaderOnly(caller, teamId, teams).Err?
  {
  }
}
