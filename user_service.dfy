/** The `users` table and the statements run against it. Ids, emails and usernames are
    each unique in the table; the database refuses a write that would repeat one. */
module UserService {
  import opened Wrappers
  import opened Models
  import opened Listing

  predicate UniqueUsers(rows: seq<User>) {
    forall i, j :: 0 <= i < j < |rows| ==>
      rows[i].id != rows[j].id && rows[i].email != rows[j].email && rows[i].username != rows[j].username
  }

  predicate HasId(rows: seq<User>, id: string) {
    exists k :: 0 <= k < |rows| && rows[k].id == id
  }

  predicate UsernameTaken(rows: seq<User>, username: string) {
    exists k :: 0 <= k < |rows| && rows[k].username == username
  }

  /** The text of the unique-constraint failure a repeated username causes. */
  const DUPLICATE_KEY: string := "duplicate key value violates unique constraint"

  // ---------------------------------------------------------------------------
  // Lookups
  // ---------------------------------------------------------------------------

  /** `get_user_by_id`. */
  function GetUserById(rows: seq<User>, id: string): (r: Option<User>)
    ensures r.Some? ==> r.value in rows && r.value.id == id
    ensures r.None? <==> !HasId(rows, id)
  {
    FirstWhere(rows, (u: User) => u.id == id)
  }

  /** `get_user_by_username`. */
  function GetUserByUsername(rows: seq<User>, username: string): (r: Option<User>)
    ensures r.Some? ==> r.value in rows && r.value.username == username
    ensures r.None? <==> !UsernameTaken(rows, username)
  {
    FirstWhere(rows, (u: User) => u.username == username)
  }

  /** `get_user_by_email`. */
  function GetUserByEmail(rows: seq<User>, email: string): (r: Option<User>)
    ensures r.Some? ==> r.value in rows && r.value.email == email
    ensures r.None? <==> forall k :: 0 <= k < |rows| ==> rows[k].email != email
  {
    FirstWhere(rows, (u: User) => u.email == email)
  }

  /** `get_users_by_ids` (`id = ANY($1)`): each user whose id is listed, once, in table order. */
  function GetUsersByIds(rows: seq<User>, ids: seq<string>): (r: seq<User>)
    ensures forall u :: u in r <==> u in rows && u.id in ids
  {
    Filter(rows, (u: User) => u.id in ids)
  }

  predicate DistinctIds(users: seq<User>) {
    forall i, j :: 0 <= i < j < |users| ==> users[i].id != users[j].id
  }

  /** A user listed twice among the ids still comes back once. */
  lemma {:induction false} GetUsersByIdsDistinct(rows: seq<User>, ids: seq<string>)
    requires DistinctIds(rows)
    ensures DistinctIds(GetUsersByIds(rows, ids))
    decreases |rows|
  {
    if rows != [] {
      var rest := GetUsersByIds(rows[1..], ids);
      assert DistinctIds(rows[1..]);
      GetUsersByIdsDistinct(rows[1..], ids);
      assert rows == [rows[0]] + rows[1..];
      if rows[0].id in ids {
        assert GetUsersByIds(rows, ids) == [rows[0]] + rest;
        forall k | 0 <= k < |rest|
          ensures rest[k].id != rows[0].id
        {
          assert rest[k] in rows[1..];
          var m :| 0 <= m < |rows[1..]| && rows[1..][m] == rest[k];
          assert rows[m + 1] == rest[k];
        }
      } else {
        assert GetUsersByIds(rows, ids) == rest;
      }
    }
  }

  // ---------------------------------------------------------------------------
  // Statements, as functions of the table before them
  // ---------------------------------------------------------------------------

  /** `create_user_if_not_exists`: the user holding the email if there is one (the given
      username and image are then ignored); otherwise a new unverified user, which the
      database refuses when the username is taken. */
  function CreateUserIfNotExistsOn(rows: seq<User>, email: string, username: string, profileImageUrl: Option<string>,
                                   newId: string, now: int): (r: (seq<User>, Result<User, DbError>))
    ensures GetUserByEmail(rows, email).Some? ==> r == (rows, Success(GetUserByEmail(rows, email).value))
    ensures GetUserByEmail(rows, email).None? && UsernameTaken(rows, username) ==>
              r == (rows, Failure(Database(DUPLICATE_KEY)))
    ensures GetUserByEmail(rows, email).None? && !UsernameTaken(rows, username) ==>
              r.1.Success? && r.0 == rows + [r.1.value] &&
              r.1.value == User(newId, email, username, profileImageUrl, false, now, None)
  {
    match GetUserByEmail(rows, email)
    case Some(user) => (rows, Success(user))
    case None =>
      if UsernameTaken(rows, username) then (rows, Failure(Database(DUPLICATE_KEY)))
      else
        var user := User(newId, email, username, profileImageUrl, false, now, None);
        (rows + [user], Success(user))
  }

  /** The profile `update_user` writes: the given username, else the current one; the given
      image URL, else the current one. */
  function MergeProfile(user: User, username: Option<string>, profileImageUrl: Option<string>): (u: User)
    ensures u.username == (if username.Some? then username.value else user.username)
    ensures u.profileImageUrl == (if profileImageUrl.Some? then profileImageUrl else user.profileImageUrl)
    ensures u.(username := user.username, profileImageUrl := user.profileImageUrl) == user
  {
    user.(username := username.GetOr(user.username),
          profileImageUrl := if profileImageUrl.Some? then profileImageUrl else user.profileImageUrl)
  }

  /** `update_user`: `RowNotFound` for an unknown id; otherwise the merged profile is
      written to that row, unless another user already holds its username. */
  function UpdateUserOn(rows: seq<User>, userId: string, username: Option<string>, profileImageUrl: Option<string>): (r: (seq<User>, Result<User, DbError>))
    ensures r.1 == Failure(RowNotFound) <==> !HasId(rows, userId)
    ensures r.1.Failure? ==> r.0 == rows
    ensures r.1.Success? ==>
              GetUserById(rows, userId).Some? &&
              r.1.value == MergeProfile(GetUserById(rows, userId).value, username, profileImageUrl)
    ensures |r.0| == |rows|
    ensures r.1.Success? ==>
              r.1.value in r.0 &&
              forall k :: 0 <= k < |rows| && rows[k].id == userId ==> r.0[k] == MergeProfile(rows[k], username, profileImageUrl)
    ensures forall k :: 0 <= k < |rows| && rows[k].id != userId ==> r.0[k] == rows[k]
  {
    match GetUserById(rows, userId)
    case None => (rows, Failure(RowNotFound))
    case Some(user) =>
      var merged := MergeProfile(user, username, profileImageUrl);
      if exists k :: 0 <= k < |rows| && rows[k].id != userId && rows[k].username == merged.username then
        (rows, Failure(Database(DUPLICATE_KEY)))
      else
        var written := UpdateWhere(rows, (u: User) => u.id == userId, (u: User) => MergeProfile(u, username, profileImageUrl));
        MergedRowStored(rows, user, username, profileImageUrl);
        (written, Success(merged))
  }

  /** The row `update_user` matched holds the merged profile afterwards. */
  lemma MergedRowStored(rows: seq<User>, user: User, username: Option<string>, profileImageUrl: Option<string>)
    requires user in rows
    ensures MergeProfile(user, username, profileImageUrl) in
              UpdateWhere(rows, (u: User) => u.id == user.id, (u: User) => MergeProfile(u, username, profileImageUrl))
  {
    var i :| 0 <= i < |rows| && rows[i] == user;
    var written := UpdateWhere(rows, (u: User) => u.id == user.id, (u: User) => MergeProfile(u, username, profileImageUrl));
    assert written[i] == MergeProfile(user, username, profileImageUrl);
  }

  // ---------------------------------------------------------------------------
  // Properties of the statements
  // ---------------------------------------------------------------------------

  /** Signing in twice with one email gives the same user and leaves a single row for it. */
  lemma CreateUserTwice(rows: seq<User>, email: string, name1: string, name2: string,
                        url1: Option<string>, url2: Option<string>, id1: string, id2: string, t1: int, t2: int)
    requires CreateUserIfNotExistsOn(rows, email, name1, url1, id1, t1).1.Success?
    ensures var first := CreateUserIfNotExistsOn(rows, email, name1, url1, id1, t1);
            var second := CreateUserIfNotExistsOn(first.0, email, name2, url2, id2, t2);
            second == (first.0, first.1)
  {
    var first := CreateUserIfNotExistsOn(rows, email, name1, url1, id1, t1);
    if GetUserByEmail(rows, email).None? {
      assert first.0[|rows|] == first.1.value;
      assert GetUserByEmail(first.0, email).Some?;
      assert forall k :: 0 <= k < |rows| ==> first.0[k] == rows[k];
    }
  }

  /** Creating a user keeps ids, emails and usernames unique when the new id is fresh. */
  lemma CreateUserKeepsUnique(rows: seq<User>, email: string, username: string, url: Option<string>, newId: string, now: int)
    requires UniqueUsers(rows) && !HasId(rows, newId)
    ensures UniqueUsers(CreateUserIfNotExistsOn(rows, email, username, url, newId, now).0)
  {
    var after := CreateUserIfNotExistsOn(rows, email, username, url, newId, now).0;
    if after != rows {
      forall i, j | 0 <= i < j < |after|
        ensures after[i].id != after[j].id && after[i].email != after[j].email && after[i].username != after[j].username
      {
        if j == |rows| {
          assert after[i] == rows[i];
        }
      }
    }
  }

  /** An image URL, once set, survives every profile update. */
  lemma ImageUrlNeverCleared(rows: seq<User>, userId: string, username: Option<string>, url: Option<string>)
    requires GetUserById(rows, userId).Some? && GetUserById(rows, userId).value.profileImageUrl.Some?
    requires UpdateUserOn(rows, userId, username, url).1.Success?
    ensures UpdateUserOn(rows, userId, username, url).1.value.profileImageUrl.Some?
  {
  }

  /** A successful update keeps usernames unique. */
  lemma UpdateUserKeepsUnique(rows: seq<User>, userId: string, username: Option<string>, url: Option<string>)
    requires UniqueUsers(rows)
    ensures UniqueUsers(UpdateUserOn(rows, userId, username, url).0)
  {
    var r := UpdateUserOn(rows, userId, username, url);
    if r.1.Success? {
      var after := r.0;
      var merged := r.1.value;
      forall i, j | 0 <= i < j < |after|
        ensures after[i].id != after[j].id && after[i].email != after[j].email && after[i].username != after[j].username
      {
        assert after[i].id == rows[i].id && after[j].id == rows[j].id;
        assert after[i].email == rows[i].email && after[j].email == rows[j].email;
        if rows[i].id == userId {
          assert after[i].username == merged.username;
        } else if rows[j].id == userId {
          assert after[j].username == merged.username;
        }
      }
    }
  }

  // ---------------------------------------------------------------------------
  // The table
  // ---------------------------------------------------------------------------

  class UserTable {
    var rows: seq<User>

    ghost predicate Valid()
      reads this
    {
      UniqueUsers(rows)
    }

    constructor (rows: seq<User>)
      requires UniqueUsers(rows)
      ensures this.rows == rows && Valid()
    {
      this.rows := rows;
    }

    /** `create_user_if_not_exists`; the database supplies a fresh id and the time. */
    method CreateUserIfNotExists(email: string, username: string, profileImageUrl: Option<string>, newId: string, now: int)
      returns (r: Result<User, DbError>)
      requires Valid() && !HasId(rows, newId)
      modifies this
      ensures (rows, r) == CreateUserIfNotExistsOn(old(rows), email, username, profileImageUrl, newId, now)
      ensures Valid()
    {
      CreateUserKeepsUnique(rows, email, username, profileImageUrl, newId, now);
      var existing := GetUserByEmail(rows, email);
      if existing.Some? {
        return Success(existing.value);
      }
      if GetUserByUsername(rows, username).Some? {
        return Failure(Database(DUPLICATE_KEY));
      }
      var user := User(newId, email, username, profileImageUrl, false, now, None);
      rows := rows + [user];
      r := Success(user);
    }

    /** `update_user`. */
    method UpdateUser(userId: string, username: Option<string>, profileImageUrl: Option<string>) returns (r: Result<User, DbError>)
      requires Valid()
      modifies this
      ensures (rows, r) == UpdateUserOn(old(rows), userId, username, profileImageUrl)
      ensures Valid()
    {
      ghost var spec := UpdateUserOn(rows, userId, username, profileImageUrl);
      UpdateUserKeepsUnique(rows, userId, username, profileImageUrl);
      var i := IndexWhere(rows, (u: User) => u.id == userId);
      if i.None? {
        return Failure(RowNotFound);
      }
      var merged := MergeProfile(rows[i.value], username, profileImageUrl);
      if exists k :: 0 <= k < |rows| && rows[k].id != userId && rows[k].username == merged.username {
        return Failure(Database(DUPLICATE_KEY));
      }
      forall k | 0 <= k < |rows| && k != i.value
        ensures rows[k].id != userId
      {
        if k < i.value { assert rows[k].id != rows[i.value].id; } else { assert rows[i.value].id != rows[k].id; }
      }
      rows := rows[i.value := merged];
      assert rows == spec.0;
      r := Success(merged);
    }

    /** The legacy sign-in confirmation: `UPDATE users SET is_verified = true WHERE email = $1`,
        returning the row; `RowNotFound` when no user has the email. */
    method MarkVerified(email: string) returns (r: Result<User, DbError>)
      requires Valid()
      modifies this
      ensures GetUserByEmail(old(rows), email).None? ==> r == Failure(RowNotFound) && rows == old(rows)
      ensures GetUserByEmail(old(rows), email).Some? ==>
                r == Success(GetUserByEmail(old(rows), email).value.(isVerified := true)) &&
                rows == UpdateWhere(old(rows), (u: User) => u.email == email, (u: User) => u.(isVerified := true))
      ensures Valid()
    {
      var i := IndexWhere(rows, (u: User) => u.email == email);
      if i.None? {
        return Failure(RowNotFound);
      }
      ghost var spec := UpdateWhere(rows, (u: User) => u.email == email, (u: User) => u.(isVerified := true));
      forall k | 0 <= k < |rows| && k != i.value
        ensures rows[k].email != email
      {
        if k < i.value { assert rows[k].email != rows[i.value].email; } else { assert rows[i.value].email != rows[k].email; }
      }
      var user := rows[i.value].(isVerified := true);
      rows := rows[i.value := user];
      assert rows == spec;
      r := Success(user);
    }
  }
}
