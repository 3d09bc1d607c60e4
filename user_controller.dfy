/** The profile handlers of the `core` generation. */
module UserController {
  import opened Wrappers
  import opened Http
  import opened Models
  import opened Validator
  import opened Dtos
  import opened CoreError
  import opened UserService

  const USER_NOT_FOUND: string := "User not found"
  const USERNAME_EXISTS: string := "Username already exists"

  /** `whoami`: the signed-in user, or 404 "User not found" when the id names no row. */
  function Whoami(users: seq<User>, userId: string): (r: Result<User, HttpError>)
    ensures r.Success? <==> HasId(users, userId)
    ensures r.Success? ==> r.value in users && r.value.id == userId
    ensures r.Failure? ==> r.error == NotFound(USER_NOT_FOUND)
  {
    match GetUserById(users, userId)
    case Some(user) => Success(user)
    case None => Failure(NotFound(USER_NOT_FOUND))
  }

  /** `update_profile`, as a function of the table before it: the body's rules; then, when
      a username is given, 409 if any user holds it, the caller included; then the update,
      whose failures answer 500 with the database's text. */
  function UpdateProfileOn(users: seq<User>, userId: string, body: UpdateProfileDto, isUrl: string -> bool)
    : (r: (seq<User>, Result<User, HttpError>))
    ensures ValidateUpdateProfile(body, isUrl).Failure? ==>
              r == (users, Failure(ValidationError(ValidateUpdateProfile(body, isUrl).error)))
    ensures ValidateUpdateProfile(body, isUrl).Success? && body.username.Some? && UsernameTaken(users, body.username.value) ==>
              r == (users, Failure(Conflict(USERNAME_EXISTS)))
    ensures r.1.Success? ==>
              GetUserById(users, userId).Some? &&
              r.1.value == MergeProfile(GetUserById(users, userId).value, body.username, body.profileImageUrl) &&
              r.0 == UpdateUserOn(users, userId, body.username, body.profileImageUrl).0 &&
              r.1.value in r.0 &&
              forall k :: 0 <= k < |users| && users[k].id == userId ==>
                r.0[k] == MergeProfile(users[k], body.username, body.profileImageUrl)
    ensures r.1.Failure? ==> r.0 == users
  {
    match ValidateUpdateProfile(body, isUrl)
    case Failure(fields) => (users, Failure(ValidationError(fields)))
    case Success(_) =>
      if body.username.Some? && GetUserByUsername(users, body.username.value).Some? then
        (users, Failure(Conflict(USERNAME_EXISTS)))
      else
        var (users', updated) := UpdateUserOn(users, userId, body.username, body.profileImageUrl);
        match updated
        case Failure(e) => (users', Failure(ServerError(DbErrorText(e))))
        case Success(user) => (users', Success(user))
  }

  /** `update_profile` against the users table. */
  method UpdateProfile(users: UserTable, userId: string, body: UpdateProfileDto, isUrl: string -> bool)
    returns (r: Result<User, HttpError>)
    requires users.Valid()
    modifies users
    ensures (users.rows, r) == UpdateProfileOn(old(users.rows), userId, body, isUrl)
    ensures users.Valid()
  {
    var valid := ValidateUpdateProfile(body, isUrl);
    if valid.Failure? {
      return Failure(ValidationError(valid.error));
    }
    if body.username.Some? {
      var holder := GetUserByUsername(users.rows, body.username.value);
      if holder.Some? {
        return Failure(Conflict(USERNAME_EXISTS));
      }
    }
    var updated := users.UpdateUser(userId, body.username, body.profileImageUrl);
    if updated.Failure? {
      return Failure(ServerError(DbErrorText(updated.error)));
    }
    r := Success(updated.value);
  }

  /** Asking for the username one already has is refused as a conflict. */
  lemma OwnUsernameConflicts(users: seq<User>, userId: string, body: UpdateProfileDto, isUrl: string -> bool)
    requires ValidateUpdateProfile(body, isUrl).Success?
    requires GetUserById(users, userId).Some? && body.username == Some(GetUserById(users, userId).value.username)
    ensures UpdateProfileOn(users, userId, body, isUrl) == (users, Failure(Conflict(USERNAME_EXISTS)))
  {
    var u := GetUserById(users, userId).value;
    var k :| 0 <= k < |users| && users[k] == u;
    assert users[k].username == body.username.value;
  }

  /** With the username check in front, the update's own uniqueness refusal never shows:
      once the body is valid and the name free, the only failure left is an unknown user,
      which answers 500 with the `RowNotFound` text. */
  lemma {:induction false} UnknownUserIsTheOnlyServerError(users: seq<User>, userId: string, body: UpdateProfileDto, isUrl: string -> bool)
    requires UniqueUsers(users)
    requires ValidateUpdateProfile(body, isUrl).Success?
    requires body.username.None? || !UsernameTaken(users, body.username.value)
    ensures var r := UpdateProfileOn(users, userId, body, isUrl).1;
            (r.Failure? <==> !HasId(users, userId)) &&
            (r.Failure? ==> r.error == ServerError(ROW_NOT_FOUND_TEXT))
  {
    if HasId(users, userId) {
      var u := GetUserById(users, userId).value;
      var i :| 0 <= i < |users| && users[i] == u;
      var merged := MergeProfile(u, body.username, body.profileImageUrl);
      forall k | 0 <= k < |users| && users[k].id != userId
        ensures users[k].username != merged.username
      {
        if body.username.None? {
          assert merged.username == users[i].username;
          assert k != i;
          if k < i { assert users[k].username != users[i].username; } else { assert users[i].username != users[k].username; }
        }
      }
      assert UpdateUserOn(users, userId, body.username, body.profileImageUrl).1 == Success(merged);
    }
  }
}
