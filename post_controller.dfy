/** The post handlers of the `core` generation: each checks the body where it has one, calls
    the service, and maps a missing post to 404 and a database failure to 500. */
module PostController {
  import opened Wrappers
  import opened Json
  import opened Http
  import opened Models
  import opened Listing
  import opened Validator
  import opened Dtos
  import opened CoreError
  import opened PostService
  import opened Responses

  const POST_NOT_FOUND: string := "Post not found"
  const POST_DELETED: string := "Post deleted successfully"

  /** `create_post`: the body's rules, then a new live post by the caller. The media list
      is not stored. */
  method CreatePost(table: PostTable, userId: string, body: CreatePostDto, newId: string, now: int)
    returns (r: Result<Post, HttpError>)
    requires table.Valid() && !HasId(table.rows, newId)
    modifies table
    ensures ValidateCreatePost(body).Failure? ==>
              r == Failure(ValidationError(ValidateCreatePost(body).error)) && table.rows == old(table.rows)
    ensures ValidateCreatePost(body).Success? ==>
              r == Success(Post(newId, userId, body.title, body.content, now, None, None)) &&
              table.rows == old(table.rows) + [r.value] &&
              FindPostById(table.rows, newId) == Some(r.value)
    ensures table.Valid()
  {
    var valid := ValidateCreatePost(body);
    if valid.Failure? {
      return Failure(ValidationError(valid.error));
    }
    var post := table.CreatePost(userId, body.title, body.content, newId, now);
    r := Success(post);
  }

  /** `find_posts`: a failing query (a negative offset or limit) answers 500. */
  function ListPosts(rows: seq<Post>, offset: int, limit: int): (r: Result<seq<Post>, HttpError>)
    ensures r == OrServerError(FindPosts(rows, offset, limit))
    ensures r.Failure? <==> offset < 0 || limit < 0
    ensures r.Failure? ==> r.error.status == INTERNAL_SERVER_ERROR
    ensures r.Success? ==> |r.value| <= limit && NewestFirst(r.value, CreatedAt) &&
                           WindowOfListing(r.value, rows, Live, CreatedAt, offset, limit) &&
                           forall p :: p in r.value ==> p in rows && Live(p)
  {
    FindPostsSpec(rows, offset, limit);
    OrServerError(FindPosts(rows, offset, limit))
  }

  /** `find_user_posts`: a failing query (a negative offset or limit) answers 500. */
  function ListUserPosts(rows: seq<Post>, userId: string, offset: int, limit: int): (r: Result<seq<Post>, HttpError>)
    ensures r == OrServerError(FindUserPosts(rows, userId, offset, limit))
    ensures r.Failure? <==> offset < 0 || limit < 0
    ensures r.Failure? ==> r.error.status == INTERNAL_SERVER_ERROR
    ensures r.Success? ==> |r.value| <= limit && NewestFirst(r.value, CreatedAt) &&
                           WindowOfListing(r.value, rows, UserPostsKeep(userId), CreatedAt, offset, limit) &&
                           forall p :: p in r.value ==> p in rows && p.userId == userId && Live(p)
  {
    if offset >= 0 && limit >= 0 then
      FindUserPostsSpec(rows, userId, offset, limit);
      OrServerError(FindUserPosts(rows, userId, offset, limit))
    else
      OrServerError(FindUserPosts(rows, userId, offset, limit))
  }

  /** `find_post_by_id`: a missing or deleted post answers 404 "Post not found". */
  function GetPost(rows: seq<Post>, postId: string): (r: Result<Post, HttpError>)
    ensures r.Success? <==> exists k :: 0 <= k < |rows| && rows[k].id == postId && Live(rows[k])
    ensures r.Success? ==> r.value in rows && r.value.id == postId && Live(r.value)
    ensures r.Failure? ==> r.error == NotFound(POST_NOT_FOUND)
  {
    match FindPostById(rows, postId)
    case Some(post) => Success(post)
    case None => Failure(NotFound(POST_NOT_FOUND))
  }

  /** `update_post`: the body's rules, then the content of the caller's live post; no such
      post answers 404. */
  method UpdatePost(table: PostTable, userId: string, postId: string, body: UpdatePostDto)
    returns (r: Result<Post, HttpError>)
    requires table.Valid()
    modifies table
    ensures ValidateUpdatePost(body).Failure? ==>
              r == Failure(ValidationError(ValidateUpdatePost(body).error)) && table.rows == old(table.rows)
    ensures ValidateUpdatePost(body).Success? ==>
              var (rows, post) := UpdatePostOn(old(table.rows), userId, postId, body.content);
              table.rows == rows &&
              r == (if post.Some? then Success(post.value) else Failure(NotFound(POST_NOT_FOUND)))
    ensures table.Valid()
  {
    var valid := ValidateUpdatePost(body);
    if valid.Failure? {
      return Failure(ValidationError(valid.error));
    }
    var post := table.UpdatePost(userId, postId, body.content);
    if post.None? {
      return Failure(NotFound(POST_NOT_FOUND));
    }
    r := Success(post.value);
  }

  /** The answer to a delete: 202 with the success object when a row was stamped, else 404. */
  function DeleteResponse(deleted: Option<string>): (r: Result<Response, HttpError>)
    ensures deleted.Some? ==> r == Success(Accepted(POST_DELETED))
    ensures deleted.None? ==> r == Failure(NotFound(POST_NOT_FOUND))
  {
    match deleted
    case Some(_) => Success(Accepted(POST_DELETED))
    case None => Failure(NotFound(POST_NOT_FOUND))
  }

  /** `delete_post`. */
  method DeletePost(table: PostTable, userId: string, postId: string, now: int)
    returns (r: Result<Response, HttpError>)
    requires table.Valid()
    modifies table
    ensures var (rows, deleted) := DeletePostOn(old(table.rows), userId, postId, now);
            table.rows == rows && r == DeleteResponse(deleted)
    ensures table.Valid()
  {
    var deleted := table.DeletePost(userId, postId, now);
    r := DeleteResponse(deleted);
  }

  /** Deleting one's post twice answers 202 both times, and the post is no longer found. */
  lemma DeleteTwiceAccepted(rows: seq<Post>, userId: string, postId: string, t1: int, t2: int)
    requires UniqueIds(rows)
    requires DeletePostOn(rows, userId, postId, t1).1.Some?
    ensures var once := DeletePostOn(rows, userId, postId, t1).0;
            DeleteResponse(DeletePostOn(once, userId, postId, t2).1) == Success(Accepted(POST_DELETED)) &&
            GetPost(once, postId) == Failure(NotFound(POST_NOT_FOUND))
  {
    DeleteTwice(rows, userId, postId, t1, t2);
    DeleteHidesPost(rows, userId, postId, t1);
  }

  /** `like_post`: the service's outcome (the like-toggle statement is not part of this
      model) answers `{"success": true, "liked": liked}`; a missing post 404, any other
      failure 500. */
  function LikePost(outcome: Result<bool, DbError>): (r: Result<Json, HttpError>)
    ensures r.Success? <==> outcome.Success?
    ensures r.Success? ==> Get(r.value, "success") == Some(JBool(true)) && Get(r.value, "liked") == Some(JBool(outcome.value))
    ensures r.Failure? ==> r.error == EditFailure(outcome.error, POST_NOT_FOUND)
  {
    match outcome
    case Success(liked) =>
      assert "liked" != "success";
      Success(JObject([("success", JBool(true)), ("liked", JBool(liked))]))
    case Failure(e) => Failure(EditFailure(e, POST_NOT_FOUND))
  }
}
