/** The legacy profile routes (`ctx` generation): the same steps as the `core` handlers,
    answered with the older two-field error. */
module UserRouter {
  import opened Wrappers
  import opened Http
  import opened Models
  import opened Validator
  import opened Dtos
  import opened ModelsError
  import opened UserService
  import UserController
  import CoreError

  const USERNAME_EXISTS: string := "Username already exists"

  /** `get_me`: `fetch_one` on the caller's id; a missing row is a 500 carrying the
      `RowNotFound` text. */
  function GetMe(users: seq<User>, userId: string): (r: Result<User, HttpError>)
    ensures r.Success? <==> HasId(users, userId)
    ensures r.Success? ==> r.value in users && r.value.id == userId
    ensures r.Failure? ==> r.error == HttpError(INTERNAL_SERVER_ERROR, ROW_NOT_FOUND_TEXT)
  {
    match GetUserById(users, userId)
    case Some(user) => Success(user)
    case None => Failure(New(INTERNAL_SERVER_ERROR, DbErrorText(RowNotFound)))
  }

  /** `update_profile`, as a function of the table before it: the body's rules (their
      failure told by `describe`), then 400 when the username is held by anyone, then the
      update, whose failures answer 500. */
  function UpdateProfileOn(users: seq<User>, userId: string, body: UpdateProfileDto, isUrl: string -> bool,
                           describe: seq<FieldFailures> -> string)
    : (r: (seq<User>, Result<User, HttpError>))
    ensures ValidateUpdateProfile(body, isUrl).Failure? ==>
              r == (users, Failure(New(BAD_REQUEST, describe(ValidateUpdateProfile(body, isUrl).error))))
    ensures ValidateUpdateProfile(body, isUrl).Success? && body.username.Some? && UsernameTaken(users, body.username.value) ==>
              r == (users, Failure(New(BAD_REQUEST, USERNAME_EXISTS)))
    ensures r.1.Success? ==>
              GetUserById(users, userId).Some? &&
              r.1.value == MergeProfile(GetUserById(users, userId).value, body.username, body.profileImageUrl) &&
              r.0 == UpdateUserOn(users, userId, body.username, body.profileImageUrl).0 &&
              r.1.value in r.0 &&
              forall k :: 0 <= k < |users| && users[k].id == userId ==>
                r.0[k] == MergeProfile(users[k], body.username, body.profileImageUrl)
    ensures r.1.Failure? ==> r.0 == users
  {
    match ValidateUpdateProfile(body, isUrl)
    case Failure(fields) => (users, Failure(New(BAD_REQUEST, describe(fields))))
    case Success(_) =>
      if body.username.Some? && GetUserByUsername(users, body.username.value).Some? then
        (users, Failure(New(BAD_REQUEST, USERNAME_EXISTS)))
      else
        var (users', updated) := UpdateUserOn(users, userId, body.username, body.profileImageUrl);
        match updated
        case Failure(e) => (users', Failure(New(INTERNAL_SERVER_ERROR, DbErrorText(e))))
        case Success(user) => (users', Success(user))
  }

  /** `update_profile` against the users table. */
  method UpdateProfile(users: UserTable, userId: string, body: UpdateProfileDto, isUrl: string -> bool,
                       describe: seq<FieldFailures> -> string)
    returns (r: Result<User, HttpError>)
    requires users.Valid()
    modifies users
    ensures (users.rows, r) == UpdateProfileOn(old(users.rows), userId, body, isUrl, describe)
    ensures users.Valid()
  {
    var valid := ValidateUpdateProfile(body, isUrl);
    if valid.Failure? {
      return Failure(New(BAD_REQUEST, describe(valid.error)));
    }
    if body.username.Some? {
      var holder := GetUserByUsername(users.rows, body.username.value);
      if holder.Some? {
        return Failure(New(BAD_REQUEST, USERNAME_EXISTS));
      }
    }
    var updated := users.UpdateUser(userId, body.username, body.profileImageUrl);
    if updated.Failure? {
      return Failure(New(INTERNAL_SERVER_ERROR, DbErrorText(updated.error)));
    }
    r := Success(updated.value);
  }

  /** Both generations of `update_profile` write the same rows and answer with the same
      user; a taken username is 409 in the `core` handler and 400 here. */
  lemma UpdateProfileAgreesWithCore(users: seq<User>, userId: string, body: UpdateProfileDto, isUrl: string -> bool,
                                    describe: seq<FieldFailures> -> string)
    ensures var legacy := UpdateProfileOn(users, userId, body, isUrl, describe);
            var core := UserController.UpdateProfileOn(users, userId, body, isUrl);
            legacy.0 == core.0 &&
            (legacy.1.Success? <==> core.1.Success?) &&
            (legacy.1.Success? ==> legacy.1.value == core.1.value) &&
            (legacy.1.Failure? && core.1.Failure? ==>
               (legacy.1.error.status == core.1.error.status ||
                (core.1.error == CoreError.Conflict(USERNAME_EXISTS) && legacy.1.error.status == BAD_REQUEST)))
  {
  }

  /** `get_me` and the `core` `whoami` find the same user; only the missing-user status differs. */
  lemma GetMeAgreesWithWhoami(users: seq<User>, userId: string)
    ensures var legacy := GetMe(users, userId);
            var core := UserController.Whoami(users, userId);
            (legacy.Success? <==> core.Success?) &&
            (legacy.Success? ==> legacy.value == core.value) &&
            (legacy.Failure? ==> legacy.error.status == INTERNAL_SERVER_ERROR && core.error.status == NOT_FOUND)
  {
  }
}
