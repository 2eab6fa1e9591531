/** The admin user-management page: search, the inactive count and the bulk-activation
    decision, and the list updates of its handlers. */
module AdminUsersPage {
  import opened Options
  import opened Json
  import opened Dto
  import Seqs
  import Text
  import FlashContext

  const DefaultError: string := "An unexpected error occurred."

  /** This page's `getErrorMessage`: `detail || default`, as a template literal renders it. */
  function ErrorMessage(err: ApiError): (r: string)
    ensures !Truthy(Detail(err)) ==> r == DefaultError
    ensures Truthy(Detail(err)) && Detail(err).value.JStr? ==> r == Detail(err).value.s
  {
    var d := Detail(err);
    if Truthy(d) then ValueToString(d.value) else DefaultError
  }

  /** A validation error list is shown as "[object Object]" entries here, not as JSON. */
  lemma ObjectDetailIsNotSpelledOut(status: int, fields: seq<(string, Json)>)
    ensures ErrorMessage(HttpError(status, JObj([("detail", JArr([JObj(fields)]))]))) == "[object Object]"
  {
    var d := JArr([JObj(fields)]);
    assert Detail(HttpError(status, JObj([("detail", d)]))) == Some(d);
    assert ValueToString(d) == JoinItems(d, [JObj(fields)]);
  }

  /** A JavaScript string field that may be null: truthy iff present and non-empty. */
  predicate MatchesOptional(field: Option<string>, term: string)
  {
    field.Some? && field.value != "" && Text.Includes(Text.Lower(field.value), term)
  }

  /** The search predicate of `filteredUsers` for an already lower-cased term. */
  predicate Matches(u: UserDto, term: string)
  {
    Text.Includes(Text.Lower(u.username), term) || Text.Includes(Text.Lower(u.email), term)
    || MatchesOptional(u.firstName, term) || MatchesOptional(u.lastName, term)
  }

  function Matcher(term: string): UserDto -> bool
  {
    (u: UserDto) => Matches(u, term)
  }

  /** `filteredUsers`: case-insensitive substring search, in list order. */
  function FilteredUsers(users: seq<UserDto>, searchTerm: string): (r: seq<UserDto>)
    ensures Seqs.IsSubseq(r, users)
    ensures forall u :: u in r <==> u in users && Matches(u, Text.Lower(searchTerm))
  {
    var term := Text.Lower(searchTerm);
    var r := Seqs.Filter(users, Matcher(term));
    forall u ensures u in r <==> u in users && Matches(u, term) {
      Seqs.FilterMember(users, Matcher(term), u);
    }
    r
  }

  /** An empty search shows every user. */
  lemma EmptySearchShowsAll(users: seq<UserDto>)
    ensures FilteredUsers(users, "") == users
  {
    assert Text.Lower("") == "";
    forall u | u in users ensures Matches(u, "") {
      Text.IncludesEmpty(Text.Lower(u.username));
    }
    Seqs.FilterAll(users, Matcher(""));
  }

  function IsInactive(): UserDto -> bool
  {
    (u: UserDto) => !u.active
  }

  /** `inactiveCount`; the Activate All button is shown iff it is positive. */
  function InactiveCount(users: seq<UserDto>): (n: nat)
    ensures n == |Seqs.Filter(users, IsInactive())|
    ensures n == 0 <==> forall i :: 0 <= i < |users| ==> users[i].active
    ensures n <= |users|
  {
    Seqs.CountIsFilterLength(users, IsInactive());
    Seqs.Count(users, IsInactive())
  }

  /** What Activate All does: flash that nothing is pending, or ask for confirmation. */
  datatype ActivateAllAction =
    | FlashInfo(message: string)
    | AskConfirmation(message: string, title: string, usernames: seq<string>)

  /** `handleActivateAll`. The confirmation activates exactly the listed inactive users. */
  function ActivateAll(users: seq<UserDto>): (a: ActivateAllAction)
    ensures a.FlashInfo? <==> InactiveCount(users) == 0
    ensures a.FlashInfo? ==> a.message == "All users are already active!"
    ensures a.AskConfirmation? ==> (a.title == "Activating all users"
      && a.message == "Are you sure you want to activate all " + Text.NatToString(InactiveCount(users)) + " pending users?"
      && |a.usernames| == InactiveCount(users)
      && (forall name :: name in a.usernames ==> exists u :: u in users && !u.active && u.username == name)
      && forall u :: u in users && !u.active ==> u.username in a.usernames)
  {
    var inactive := Seqs.Filter(users, IsInactive());
    Seqs.CountIsFilterLength(users, IsInactive());
    InactiveNames(users);
    if |inactive| == 0 then FlashInfo("All users are already active!")
    else
      AskConfirmation("Are you sure you want to activate all " + Text.NatToString(|inactive|) + " pending users?",
                      "Activating all users", Usernames(inactive))
  }

  /** `users.map(u => u.username)`. */
  function Usernames(users: seq<UserDto>): (r: seq<string>)
    ensures |r| == |users| && forall i :: 0 <= i < |users| ==> r[i] == users[i].username
  {
    seq(|users|, i requires 0 <= i < |users| => users[i].username)
  }

  /** The names of the inactive users are exactly the usernames of the inactive users. */
  lemma InactiveNames(users: seq<UserDto>)
    ensures var names := Usernames(Seqs.Filter(users, IsInactive()));
      (forall name :: name in names ==> exists u :: u in users && !u.active && u.username == name)
      && forall u :: u in users && !u.active ==> u.username in names
  {
    var inactive := Seqs.Filter(users, IsInactive());
    var names := Usernames(inactive);
    forall name | name in names ensures exists u :: u in users && !u.active && u.username == name {
      var i :| 0 <= i < |names| && names[i] == name;
      assert inactive[i] in inactive;
    }
    forall u | u in users && !u.active ensures u.username in names {
      Seqs.FilterMember(users, IsInactive(), u);
      var i :| 0 <= i < |inactive| && inactive[i] == u;
      assert names[i] == u.username;
    }
  }

  function NotNamed(username: string): UserDto -> bool
  {
    (u: UserDto) => u.username != username
  }

  /** The local update after a successful delete: every user with that username removed. */
  function RemoveUser(users: seq<UserDto>, username: string): (r: seq<UserDto>)
    ensures Seqs.IsSubseq(r, users)
    ensures forall u :: u in r <==> u in users && u.username != username
  {
    var r := Seqs.Filter(users, NotNamed(username));
    forall u ensures u in r <==> u in users && u.username != username {
      Seqs.FilterMember(users, NotNamed(username), u);
    }
    r
  }

  /** The page's loaded list and error text. */
  class UsersView {
    var users: seq<UserDto>
    var error: string

    constructor ()
      ensures users == [] && error == ""
    {
      users, error := [], "";
    }

    /** `fetchUsers`: the list is replaced, or the error text is set. */
    method FetchUsers(response: Response<seq<UserDto>>)
      modifies this
      ensures response.Received? ==> users == response.value && error == old(error)
      ensures response.Rejected? ==> users == old(users) && error == ErrorMessage(response.error)
    {
      match response
      case Received(data) => users := data;
      case Rejected(e) => error := ErrorMessage(e);
    }

    /** The callback `handleDelete` passes to the confirmation dialog: the user leaves the
        local list only if the server agreed, and the outcome is flashed either way. */
    method DeleteConfirmed(username: string, response: Response<()>) returns (shown: FlashContext.Flash)
      modifies this
      ensures response.Received? ==> (users == RemoveUser(old(users), username)
        && shown == FlashContext.Flash("User " + username + " deleted successfully.", "success"))
      ensures response.Rejected? ==> (users == old(users)
        && shown == FlashContext.Flash("Failed to delete: " + ErrorMessage(response.error), "error"))
      ensures error == old(error)
    {
      match response
      case Received(_) =>
        users := RemoveUser(users, username);
        shown := FlashContext.Flash("User " + username + " deleted successfully.", "success");
      case Rejected(e) =>
        shown := FlashContext.Flash("Failed to delete: " + ErrorMessage(e), "error");
    }
  }
}
