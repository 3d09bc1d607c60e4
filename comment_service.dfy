/** The `post_comments` table, the listings that join each comment with its author, and the
    owner-guarded edits. A comment is live while its `deleted_at` is null. */
module CommentService {
  import opened Wrappers
  import opened Text
  import opened Models
  import opened Listing
  import UserService

  predicate Live(c: PostComment) {
    c.deletedAt.None?
  }

  function CreatedAt(c: PostComment): int {
    c.createdAt
  }

  predicate UniqueIds(rows: seq<PostComment>) {
    forall i, j :: 0 <= i < j < |rows| ==> rows[i].id != rows[j].id
  }

  predicate HasId(rows: seq<PostComment>, id: string) {
    exists k :: 0 <= k < |rows| && rows[k].id == id
  }

  /** Every comment's author is a row of the users table (the foreign key on `user_id`). */
  predicate AuthorsPresent(comments: seq<PostComment>, users: seq<User>) {
    forall c :: c in comments ==> UserService.HasId(users, c.userId)
  }

  // ---------------------------------------------------------------------------
  // The statement `get_posts_comments` builds
  // ---------------------------------------------------------------------------

  /** A value bound to a placeholder. */
  datatype Arg = TextArg(text: string) | IntArg(n: int)

  /** `sqlx::QueryBuilder` for Postgres: text is appended as is, and each bound value adds
      the next numbered placeholder `$1`, `$2`, ... */
  class QueryBuilder {
    var sql: string
    var args: seq<Arg>

    constructor (init: string)
      ensures sql == init && args == []
    {
      sql := init;
      args := [];
    }

    method Push(text: string)
      modifies this
      ensures sql == old(sql) + text && args == old(args)
    {
      sql := sql + text;
    }

    method PushBind(a: Arg)
      modifies this
      ensures args == old(args) + [a]
      ensures sql == old(sql) + Placeholder(|args|)
    {
      args := args + [a];
      sql := sql + Placeholder(|args|);
    }
  }

  const POSTS_COMMENTS_HEAD: string := "\n        SELECT * FROM post_comments\n        WHERE"

  /** The `WHERE` clause the built statement states: that post's live comments, replies to
      `parentId` when one is given, top-level comments otherwise. */
  predicate PostsCommentsWhere(c: PostComment, postId: string, parentId: Option<string>) {
    c.postId == postId && Live(c) &&
    (if parentId.Some? then c.parentId == parentId else c.parentId.None?)
  }

  /** The placeholder of the `k`-th bound value. */
  function Placeholder(k: nat): string {
    "$" + Decimal(k)
  }

  /** The statement of `get_posts_comments`, built push by push. The bound values are the
      post id, the parent id when there is one, the offset and the limit, in that order, and
      the placeholders in the text are numbered to match them. */
  method BuildPostsCommentsQuery(postId: string, offset: int, limit: int, parentId: Option<string>)
    returns (sql: string, args: seq<Arg>)
    ensures args == [TextArg(postId)] + (if parentId.Some? then [TextArg(parentId.value)] else []) +
                    [IntArg(offset), IntArg(limit)]
    ensures var n := |args|;
            sql == POSTS_COMMENTS_HEAD + " post_id = " + Placeholder(1) + " AND deleted_at IS NULL" +
                   (if parentId.Some? then " AND parent_id = " + Placeholder(2) else " AND parent_id IS NULL") +
                   " ORDER BY created_at DESC" + " OFFSET " + Placeholder(n - 1) + " LIMIT " + Placeholder(n)
  {
    var qb := new QueryBuilder(POSTS_COMMENTS_HEAD);
    qb.Push(" post_id = ");
    qb.PushBind(TextArg(postId));
    qb.Push(" AND deleted_at IS NULL");
    match parentId {
      case Some(p) =>
        qb.Push(" AND parent_id = ");
        qb.PushBind(TextArg(p));
      case None =>
        qb.Push(" AND parent_id IS NULL");
    }
    qb.Push(" ORDER BY created_at DESC");
    qb.Push(" OFFSET ");
    qb.PushBind(IntArg(offset));
    qb.Push(" LIMIT ");
    qb.PushBind(IntArg(limit));
    sql, args := qb.sql, qb.args;
  }

  // ---------------------------------------------------------------------------
  // Joining comments with their authors
  // ---------------------------------------------------------------------------

  /** `get_users_by_id_map`: each fetched user under its id (a later row for the same id
      would replace an earlier one). */
  function UsersByIdMap(users: seq<User>): (m: map<string, User>)
    ensures forall u :: u in users ==> u.id in m
    ensures forall id :: id in m ==> m[id] in users && m[id].id == id
    decreases |users|
  {
    if users == [] then map[]
    else
      var last := users[|users| - 1];
      var init := users[..|users| - 1];
      assert users == init + [last];
      UsersByIdMap(init)[last.id := last]
  }

  lemma SameIdSameRow(users: seq<User>, i: nat, j: nat)
    requires UserService.DistinctIds(users) && i < |users| && j < |users|
    requires users[i].id == users[j].id
    ensures i == j
  {
  }

  /** When ids are distinct, the map sends every user's id to that very user. */
  lemma UsersByIdMapExact(users: seq<User>)
    requires UserService.DistinctIds(users)
    ensures forall u :: u in users ==> UsersByIdMap(users)[u.id] == u
  {
    var m := UsersByIdMap(users);
    forall u | u in users
      ensures m[u.id] == u
    {
      var i :| 0 <= i < |users| && users[i] == u;
      var j :| 0 <= j < |users| && users[j] == m[u.id];
      SameIdSameRow(users, i, j);
    }
  }

  function UserIds(comments: seq<PostComment>): (ids: seq<string>)
    ensures |ids| == |comments| && forall i :: 0 <= i < |comments| ==> ids[i] == comments[i].userId
  {
    seq(|comments|, i requires 0 <= i < |comments| => comments[i].userId)
  }

  /** `get_comment_details`: every comment with its author, one detail per comment, in the
      comments' order. An author missing from the users table aborts the request, so it is
      required here. */
  function GetCommentDetails(users: seq<User>, comments: seq<PostComment>): (r: seq<PostCommentDetails>)
    requires AuthorsPresent(comments, users)
    ensures |r| == |comments|
    ensures forall i :: 0 <= i < |r| ==>
              r[i].comment == comments[i] && r[i].author.id == comments[i].userId && r[i].author in users
    ensures forall d :: d in r ==> d.comment in comments && d.author in users && d.author.id == d.comment.userId
  {
    var ids := UserIds(comments);
    var fetched := UserService.GetUsersByIds(users, ids);
    var m := UsersByIdMap(fetched);
    assert forall c :: c in comments ==> c.userId in m by {
      forall c | c in comments
        ensures c.userId in m
      {
        var k :| 0 <= k < |users| && users[k].id == c.userId;
        var i :| 0 <= i < |comments| && comments[i] == c;
        assert ids[i] == c.userId;
        assert users[k] in fetched;
      }
    }
    seq(|comments|, i requires 0 <= i < |comments| => PostCommentDetails(comments[i], m[comments[i].userId]))
  }

  /** With distinct user ids each detail carries the one user row holding the comment's author id. */
  lemma DetailsAuthorIsTheUser(users: seq<User>, comments: seq<PostComment>, i: nat, k: nat)
    requires AuthorsPresent(comments, users) && UserService.DistinctIds(users)
    requires i < |comments| && k < |users| && users[k].id == comments[i].userId
    ensures GetCommentDetails(users, comments)[i].author == users[k]
  {
    var a := GetCommentDetails(users, comments)[i].author;
    var j :| 0 <= j < |users| && users[j] == a;
    SameIdSameRow(users, j, k);
  }

  /** The rows `get_posts_comments` admits. */
  function PostsCommentsKeep(postId: string, parentId: Option<string>): PostComment -> bool {
    (c: PostComment) => PostsCommentsWhere(c, postId, parentId)
  }

  /** The rows `get_user_comments` admits: the user's live comments. */
  function UserCommentsKeep(userId: string): PostComment -> bool {
    (c: PostComment) => c.userId == userId && Live(c)
  }

  /** The comments a page of details carries, in order. */
  function Comments(details: seq<PostCommentDetails>): (cs: seq<PostComment>)
    ensures |cs| == |details| && forall i :: 0 <= i < |details| ==> cs[i] == details[i].comment
  {
    seq(|details|, i requires 0 <= i < |details| => details[i].comment)
  }

  /** `get_posts_comments`: the statement's rows, newest first and paged, joined with their authors. */
  function GetPostsComments(comments: seq<PostComment>, users: seq<User>, postId: string,
                            offset: int, limit: int, parentId: Option<string>): (r: Result<seq<PostCommentDetails>, DbError>)
    requires AuthorsPresent(comments, users)
    ensures offset < 0 || limit < 0 <==> r.Failure?
    ensures r.Success? ==>
              |r.value| <= limit &&
              NewestFirst(Comments(r.value), CreatedAt) &&
              WindowOfListing(Comments(r.value), comments, PostsCommentsKeep(postId, parentId), CreatedAt, offset, limit) &&
              forall d :: d in r.value ==> d.comment in comments && PostsCommentsWhere(d.comment, postId, parentId) &&
                                           d.author in users && d.author.id == d.comment.userId
  {
    var keep := PostsCommentsKeep(postId, parentId);
    match Query(comments, keep, CreatedAt, offset, limit)
    case Failure(e) => Failure(e)
    case Success(page) =>
      QuerySpec(comments, keep, CreatedAt, offset, limit);
      PageIsWindow(comments, keep, CreatedAt, offset, limit);
      var details := GetCommentDetails(users, page);
      assert Comments(details) == page;
      Success(details)
  }

  /** `get_user_comments`: the user's live comments, newest first and paged, with their author. */
  function GetUserComments(comments: seq<PostComment>, users: seq<User>, userId: string,
                           offset: int, limit: int): (r: Result<seq<PostCommentDetails>, DbError>)
    requires AuthorsPresent(comments, users)
    ensures offset < 0 || limit < 0 <==> r.Failure?
    ensures r.Success? ==>
              |r.value| <= limit &&
              NewestFirst(Comments(r.value), CreatedAt) &&
              WindowOfListing(Comments(r.value), comments, UserCommentsKeep(userId), CreatedAt, offset, limit) &&
              forall d :: d in r.value ==> d.comment in comments && d.comment.userId == userId && Live(d.comment) &&
                                           d.author in users && d.author.id == userId
  {
    var keep := UserCommentsKeep(userId);
    match Query(comments, keep, CreatedAt, offset, limit)
    case Failure(e) => Failure(e)
    case Success(page) =>
      QuerySpec(comments, keep, CreatedAt, offset, limit);
      PageIsWindow(comments, keep, CreatedAt, offset, limit);
      var details := GetCommentDetails(users, page);
      assert Comments(details) == page;
      Success(details)
  }

  // ---------------------------------------------------------------------------
  // Edits, as functions of the table before them
  // ---------------------------------------------------------------------------

  predicate Editable(c: PostComment, userId: string, commentId: string) {
    c.id == commentId && c.userId == userId && Live(c)
  }

  /** `update_comment`: `SET content` on the caller's live comment with that id, which must
      exist (`fetch_one`): otherwise `RowNotFound` and nothing changes. */
  function UpdateCommentOn(rows: seq<PostComment>, userId: string, commentId: string, content: string)
    : (r: (seq<PostComment>, Result<PostComment, DbError>))
    ensures |r.0| == |rows|
    ensures r.1.Failure? <==> forall k :: 0 <= k < |rows| ==> !Editable(rows[k], userId, commentId)
    ensures r.1.Failure? ==> r.1.error == RowNotFound && r.0 == rows
    ensures r.1.Success? ==> r.1.value in r.0 && Editable(r.1.value, userId, commentId) && r.1.value.content == content
    ensures forall k :: 0 <= k < |rows| ==>
              r.0[k] == (if Editable(rows[k], userId, commentId) then rows[k].(content := content) else rows[k])
  {
    var p := (c: PostComment) => Editable(c, userId, commentId);
    var updated := UpdateWhere(rows, p, (c: PostComment) => c.(content := content));
    match IndexWhere(rows, p)
    case None =>
      assert updated == rows;
      (rows, Failure(RowNotFound))
    case Some(i) => (updated, Success(updated[i]))
  }

  /** `delete_comment`: stamps `deleted_at` on the caller's live comment with that id and
      returns the id; `RowNotFound` and no change when there is none. */
  function DeleteCommentOn(rows: seq<PostComment>, userId: string, commentId: string, now: int)
    : (r: (seq<PostComment>, Result<string, DbError>))
    ensures |r.0| == |rows|
    ensures r.1.Failure? <==> forall k :: 0 <= k < |rows| ==> !Editable(rows[k], userId, commentId)
    ensures r.1.Failure? ==> r.1.error == RowNotFound && r.0 == rows
    ensures r.1.Success? ==> r.1.value == commentId
    ensures forall k :: 0 <= k < |rows| ==>
              r.0[k] == (if Editable(rows[k], userId, commentId) then rows[k].(deletedAt := Some(now)) else rows[k])
  {
    var p := (c: PostComment) => Editable(c, userId, commentId);
    var updated := UpdateWhere(rows, p, (c: PostComment) => c.(deletedAt := Some(now)));
    match IndexWhere(rows, p)
    case None =>
      assert updated == rows;
      (rows, Failure(RowNotFound))
    case Some(i) => (updated, Success(updated[i].id))
  }

  /** Deleting a comment twice: the second attempt finds no live row and changes nothing. */
  lemma DeleteCommentTwice(rows: seq<PostComment>, userId: string, commentId: string, t1: int, t2: int)
    ensures var once := DeleteCommentOn(rows, userId, commentId, t1).0;
            DeleteCommentOn(once, userId, commentId, t2) == (once, Failure(RowNotFound))
  {
  }

  /** A deleted comment can no longer be edited. */
  lemma UpdateAfterDelete(rows: seq<PostComment>, userId: string, commentId: string, now: int, content: string)
    ensures var once := DeleteCommentOn(rows, userId, commentId, now).0;
            UpdateCommentOn(once, userId, commentId, content) == (once, Failure(RowNotFound))
  {
  }

  /** Edits never touch another user's comments. */
  lemma EditsKeepOthers(rows: seq<PostComment>, userId: string, commentId: string, content: string, now: int)
    ensures forall k :: 0 <= k < |rows| && rows[k].userId != userId ==>
              UpdateCommentOn(rows, userId, commentId, content).0[k] == rows[k] &&
              DeleteCommentOn(rows, userId, commentId, now).0[k] == rows[k]
  {
  }

  // ---------------------------------------------------------------------------
  // The table
  // ---------------------------------------------------------------------------

  /** Under distinct ids, the row at `i` is the only one carrying its id. */
  lemma OnlyRowWithId(rows: seq<PostComment>, i: nat)
    requires UniqueIds(rows) && i < |rows|
    ensures forall k :: 0 <= k < |rows| && k != i ==> rows[k].id != rows[i].id
  {
    forall k | 0 <= k < |rows| && k != i
      ensures rows[k].id != rows[i].id
    {
      if k < i { assert rows[k].id != rows[i].id; } else { assert rows[i].id != rows[k].id; }
    }
  }

  class CommentTable {
    var rows: seq<PostComment>

    ghost predicate Valid()
      reads this
    {
      UniqueIds(rows)
    }

    constructor (rows: seq<PostComment>)
      requires UniqueIds(rows)
      ensures this.rows == rows && Valid()
    {
      this.rows := rows;
    }

    /** `create_comment`: appends a live comment by the caller (the database supplies id and time). */
    method CreateComment(userId: string, postId: string, content: string, parentId: Option<string>, newId: string, now: int)
      returns (comment: PostComment)
      requires Valid() && !HasId(rows, newId)
      modifies this
      ensures comment == PostComment(newId, postId, userId, parentId, content, now, None, None)
      ensures rows == old(rows) + [comment]
      ensures Valid()
    {
      comment := PostComment(newId, postId, userId, parentId, content, now, None, None);
      rows := rows + [comment];
    }

    /** `update_comment`. */
    method UpdateComment(userId: string, commentId: string, content: string) returns (r: Result<PostComment, DbError>)
      requires Valid()
      modifies this
      ensures (rows, r) == UpdateCommentOn(old(rows), userId, commentId, content)
      ensures Valid()
    {
      ghost var spec := UpdateCommentOn(rows, userId, commentId, content);
      var i := IndexWhere(rows, (c: PostComment) => Editable(c, userId, commentId));
      if i.None? {
        return Failure(RowNotFound);
      }
      var updated := rows[i.value].(content := content);
      OnlyRowWithId(rows, i.value);
      rows := rows[i.value := updated];
      assert rows == spec.0;
      r := Success(updated);
    }

    /** `delete_comment`. */
    method DeleteComment(userId: string, commentId: string, now: int) returns (r: Result<string, DbError>)
      requires Valid()
      modifies this
      ensures (rows, r) == DeleteCommentOn(old(rows), userId, commentId, now)
      ensures Valid()
    {
      ghost var spec := DeleteCommentOn(rows, userId, commentId, now);
      var i := IndexWhere(rows, (c: PostComment) => Editable(c, userId, commentId));
      if i.None? {
        return Failure(RowNotFound);
      }
      OnlyRowWithId(rows, i.value);
      rows := rows[i.value := rows[i.value].(deletedAt := Some(now))];
      assert rows == spec.0;
      r := Success(commentId);
    }
  }
}
