/** The comment handlers of the `core` generation. Creating and editing a comment run no
    body validation here: the content bounds of the request types are not enforced. */
module CommentController {
  import opened Wrappers
  import opened Http
  import opened Models
  import opened Dtos
  import opened CoreError
  import opened Listing
  import opened CommentService
  import opened Responses

  const COMMENT_NOT_FOUND: string := "Comment not found"
  const COMMENT_DELETED: string := "Comment deleted successfully"

  /** The `parentId` query value the listing receives: an empty one counts as absent. */
  function Normalised(parentId: Option<string>): (p: Option<string>)
    ensures p.Some? ==> p == parentId && p.value != ""
    ensures p.None? <==> parentId.None? || parentId == Some("")
  {
    if parentId == Some("") then None else parentId
  }

  /** The in-place reset `get_posts_comments` does on its query. */
  method NormaliseParent(parentId: Option<string>) returns (p: Option<string>)
    ensures p == Normalised(parentId)
  {
    p := parentId;
    if p.Some? {
      if p.value == "" {
        p := None;
      }
    }
  }

  /** `get_posts_comments`: the post's comments under the (normalised) parent, newest first
      and paged, each with its author; a failing query answers 500. */
  method ListPostsComments(comments: seq<PostComment>, users: seq<User>, postId: string,
                           offset: int, limit: int, parentId: Option<string>) returns (r: Result<seq<PostCommentDetails>, HttpError>)
    requires AuthorsPresent(comments, users)
    ensures r == OrServerError(GetPostsComments(comments, users, postId, offset, limit, Normalised(parentId)))
  {
    var parent := NormaliseParent(parentId);
    r := OrServerError(GetPostsComments(comments, users, postId, offset, limit, parent));
  }

  /** An empty `parentId` lists the top-level comments, exactly as leaving it out does. */
  lemma EmptyParentListsTopLevel(comments: seq<PostComment>, users: seq<User>, postId: string, offset: int, limit: int)
    requires AuthorsPresent(comments, users)
    ensures OrServerError(GetPostsComments(comments, users, postId, offset, limit, Normalised(Some("")))) ==
            OrServerError(GetPostsComments(comments, users, postId, offset, limit, None))
    ensures var r := GetPostsComments(comments, users, postId, offset, limit, Normalised(Some("")));
            r.Success? ==> forall d :: d in r.value ==> d.comment.parentId.None?
  {
  }

  /** `get_user_comments`: a failing query answers 500. */
  function ListUserComments(comments: seq<PostComment>, users: seq<User>, userId: string,
                            offset: int, limit: int): (r: Result<seq<PostCommentDetails>, HttpError>)
    requires AuthorsPresent(comments, users)
    ensures r == OrServerError(GetUserComments(comments, users, userId, offset, limit))
    ensures r.Failure? <==> offset < 0 || limit < 0
    ensures r.Failure? ==> r.error.status == INTERNAL_SERVER_ERROR
    ensures r.Success? ==>
              NewestFirst(Comments(r.value), CreatedAt) &&
              WindowOfListing(Comments(r.value), comments, UserCommentsKeep(userId), CreatedAt, offset, limit) &&
              forall d :: d in r.value ==> d.comment.userId == userId && d.author.id == userId
  {
    OrServerError(GetUserComments(comments, users, userId, offset, limit))
  }

  /** `create_comment`: the payload goes to the table as it is, whatever its content. */
  method CreateComment(table: CommentTable, userId: string, payload: CreateCommentDto, newId: string, now: int)
    returns (r: Result<PostComment, HttpError>)
    requires table.Valid() && !HasId(table.rows, newId)
    modifies table
    ensures r == Success(PostComment(newId, payload.postId, userId, payload.parentId, payload.content, now, None, None))
    ensures table.rows == old(table.rows) + [r.value]
    ensures table.Valid()
  {
    var comment := table.CreateComment(userId, payload.postId, payload.content, payload.parentId, newId, now);
    r := Success(comment);
  }

  /** `update_comment`: a missing, foreign or deleted comment answers 404. */
  method UpdateComment(table: CommentTable, userId: string, commentId: string, payload: UpdateCommentDto)
    returns (r: Result<PostComment, HttpError>)
    requires table.Valid()
    modifies table
    ensures var (rows, outcome) := UpdateCommentOn(old(table.rows), userId, commentId, payload.content);
            table.rows == rows &&
            r == (if outcome.Success? then Success(outcome.value) else Failure(EditFailure(outcome.error, COMMENT_NOT_FOUND)))
    ensures table.Valid()
  {
    var updated := table.UpdateComment(userId, commentId, payload.content);
    if updated.Failure? {
      return Failure(EditFailure(updated.error, COMMENT_NOT_FOUND));
    }
    r := Success(updated.value);
  }

  /** The answer to a delete: 202 with the success object, or the mapped failure. */
  function DeleteResponse(outcome: Result<string, DbError>): (r: Result<Response, HttpError>)
    ensures outcome.Success? ==> r == Success(Accepted(COMMENT_DELETED))
    ensures outcome.Failure? ==> r == Failure(EditFailure(outcome.error, COMMENT_NOT_FOUND))
  {
    match outcome
    case Success(_) => Success(Accepted(COMMENT_DELETED))
    case Failure(e) => Failure(EditFailure(e, COMMENT_NOT_FOUND))
  }

  /** `delete_comment`. */
  method DeleteComment(table: CommentTable, userId: string, commentId: string, now: int)
    returns (r: Result<Response, HttpError>)
    requires table.Valid()
    modifies table
    ensures var (rows, outcome) := DeleteCommentOn(old(table.rows), userId, commentId, now);
            table.rows == rows && r == DeleteResponse(outcome)
    ensures table.Valid()
  {
    var deleted := table.DeleteComment(userId, commentId, now);
    r := DeleteResponse(deleted);
  }

  /** Deleting a comment a second time answers 404 "Comment not found". */
  lemma DeleteTwiceNotFound(rows: seq<PostComment>, userId: string, commentId: string, t1: int, t2: int)
    requires DeleteCommentOn(rows, userId, commentId, t1).1.Success?
    ensures DeleteResponse(DeleteCommentOn(rows, userId, commentId, t1).1) == Success(Accepted(COMMENT_DELETED))
    ensures DeleteResponse(DeleteCommentOn(DeleteCommentOn(rows, userId, commentId, t1).0, userId, commentId, t2).1) ==
            Failure(NotFound(COMMENT_NOT_FOUND))
  {
    DeleteCommentTwice(rows, userId, commentId, t1, t2);
  }

  /** Content over the request type's bound fails its rules, which `create_comment` never
      runs: the handler stores such a comment all the same. */
  lemma OversizedContentFailsRules(payload: CreateCommentDto)
    requires |payload.content| > MAX_COMMENT_LENGTH
    ensures ValidateCreateComment(payload).Failure?
  {
  }
}
