/** The `posts` table and the statements the post handlers run against it. A post is live
    while its `deleted_at` is null; deleting only stamps `deleted_at`. */
module PostService {
  import opened Wrappers
  import opened Models
  import opened Listing

  predicate Live(p: Post) {
    p.deletedAt.None?
  }

  function CreatedAt(p: Post): int {
    p.createdAt
  }

  /** Primary keys are distinct. */
  predicate UniqueIds(rows: seq<Post>) {
    forall i, j :: 0 <= i < j < |rows| ==> rows[i].id != rows[j].id
  }

  /** Under distinct ids, the row at `i` is the only one carrying its id. */
  lemma OnlyRowWithId(rows: seq<Post>, i: nat)
    requires UniqueIds(rows) && i < |rows|
    ensures forall k :: 0 <= k < |rows| && k != i ==> rows[k].id != rows[i].id
  {
    forall k | 0 <= k < |rows| && k != i
      ensures rows[k].id != rows[i].id
    {
      if k < i { assert rows[k].id != rows[i].id; } else { assert rows[i].id != rows[k].id; }
    }
  }

  predicate HasId(rows: seq<Post>, id: string) {
    exists k :: 0 <= k < |rows| && rows[k].id == id
  }

  // ---------------------------------------------------------------------------
  // Queries
  // ---------------------------------------------------------------------------

  /** `find_posts`: live posts, newest first, paged. */
  function FindPosts(rows: seq<Post>, offset: int, limit: int): Result<seq<Post>, DbError> {
    Query(rows, Live, CreatedAt, offset, limit)
  }

  /** The rows `find_user_posts` admits: the user's live posts. */
  function UserPostsKeep(userId: string): Post -> bool {
    (p: Post) => p.userId == userId && Live(p)
  }

  /** `find_user_posts`: the given user's live posts, newest first, paged. */
  function FindUserPosts(rows: seq<Post>, userId: string, offset: int, limit: int): Result<seq<Post>, DbError> {
    Query(rows, UserPostsKeep(userId), CreatedAt, offset, limit)
  }

  /** `find_post_by_id`: the live post with that id; a missing and a deleted post look alike. */
  function FindPostById(rows: seq<Post>, id: string): (r: Option<Post>)
    ensures r.Some? ==> r.value in rows && r.value.id == id && Live(r.value)
    ensures r.None? <==> forall k :: 0 <= k < |rows| ==> rows[k].id != id || !Live(rows[k])
  {
    FirstWhere(rows, (p: Post) => p.id == id && Live(p))
  }

  lemma FindPostsSpec(rows: seq<Post>, offset: int, limit: int)
    ensures offset < 0 ==> FindPosts(rows, offset, limit).Failure?
    ensures offset >= 0 && limit < 0 ==> FindPosts(rows, offset, limit).Failure?
    ensures offset >= 0 && limit >= 0 ==>
              var r := FindPosts(rows, offset, limit);
              r.Success? && |r.value| <= limit && NewestFirst(r.value, CreatedAt) &&
              WindowOfListing(r.value, rows, Live, CreatedAt, offset, limit) &&
              forall p :: p in r.value ==> p in rows && Live(p)
  {
    if offset >= 0 && limit >= 0 {
      QuerySpec(rows, Live, CreatedAt, offset, limit);
      PageIsWindow(rows, Live, CreatedAt, offset, limit);
    }
  }

  lemma FindUserPostsSpec(rows: seq<Post>, userId: string, offset: int, limit: int)
    ensures offset < 0 || limit < 0 ==> FindUserPosts(rows, userId, offset, limit).Failure?
    ensures offset >= 0 && limit >= 0 ==>
              var r := FindUserPosts(rows, userId, offset, limit);
              r.Success? && |r.value| <= limit && NewestFirst(r.value, CreatedAt) &&
              WindowOfListing(r.value, rows, UserPostsKeep(userId), CreatedAt, offset, limit) &&
              forall p :: p in r.value ==> p in rows && p.userId == userId && Live(p)
  {
    if offset >= 0 && limit >= 0 {
      QuerySpec(rows, UserPostsKeep(userId), CreatedAt, offset, limit);
      PageIsWindow(rows, UserPostsKeep(userId), CreatedAt, offset, limit);
    }
  }

  // ---------------------------------------------------------------------------
  // Statements, as functions of the table before them
  // ---------------------------------------------------------------------------

  predicate Editable(p: Post, userId: string, postId: string) {
    p.userId == userId && p.id == postId && Live(p)
  }

  predicate Owned(p: Post, userId: string, postId: string) {
    p.userId == userId && p.id == postId
  }

  /** `update_post`: `SET content` on the caller's live post with that id; the first
      updated row is returned. Nothing but `content` is written. */
  function UpdatePostOn(rows: seq<Post>, userId: string, postId: string, content: string): (r: (seq<Post>, Option<Post>))
    ensures |r.0| == |rows|
    ensures r.1.None? <==> forall k :: 0 <= k < |rows| ==> !Editable(rows[k], userId, postId)
    ensures r.1.None? ==> r.0 == rows
    ensures r.1.Some? ==> r.1.value in r.0 && r.1.value.id == postId && r.1.value.userId == userId &&
                          r.1.value.content == content && Live(r.1.value)
    ensures forall k :: 0 <= k < |rows| ==>
              r.0[k] == (if Editable(rows[k], userId, postId) then rows[k].(content := content) else rows[k])
  {
    var p := (q: Post) => Editable(q, userId, postId);
    var updated := UpdateWhere(rows, p, (q: Post) => q.(content := content));
    match IndexWhere(rows, p)
    case None =>
      assert updated == rows;
      (updated, None)
    case Some(i) => (updated, Some(updated[i]))
  }

  /** `delete_post`: stamps `deleted_at` on the caller's post with that id, deleted or not,
      and returns its id. */
  function DeletePostOn(rows: seq<Post>, userId: string, postId: string, now: int): (r: (seq<Post>, Option<string>))
    ensures |r.0| == |rows|
    ensures r.1.Some? <==> exists k :: 0 <= k < |rows| && Owned(rows[k], userId, postId)
    ensures r.1.Some? ==> r.1.value == postId
    ensures forall k :: 0 <= k < |rows| ==>
              r.0[k] == (if Owned(rows[k], userId, postId) then rows[k].(deletedAt := Some(now)) else rows[k])
  {
    var p := (q: Post) => Owned(q, userId, postId);
    var updated := UpdateWhere(rows, p, (q: Post) => q.(deletedAt := Some(now)));
    match IndexWhere(rows, p)
    case None => (updated, None)
    case Some(i) => (updated, Some(updated[i].id))
  }

  // ---------------------------------------------------------------------------
  // Properties of the statements
  // ---------------------------------------------------------------------------

  /** An update never touches another user's rows, nor any title, timestamp or owner. */
  lemma UpdateKeepsTheRest(rows: seq<Post>, userId: string, postId: string, content: string)
    ensures var after := UpdatePostOn(rows, userId, postId, content).0;
            forall k :: 0 <= k < |rows| ==>
              after[k].id == rows[k].id && after[k].userId == rows[k].userId &&
              after[k].title == rows[k].title && after[k].createdAt == rows[k].createdAt &&
              after[k].deletedAt == rows[k].deletedAt &&
              (rows[k].userId != userId ==> after[k] == rows[k])
  {
  }

  /** A delete never touches another user's rows, and a deleted post is no longer found. */
  lemma DeleteHidesPost(rows: seq<Post>, userId: string, postId: string, now: int)
    ensures var after := DeletePostOn(rows, userId, postId, now).0;
            (forall k :: 0 <= k < |rows| && rows[k].userId != userId ==> after[k] == rows[k]) &&
            (DeletePostOn(rows, userId, postId, now).1.Some? && UniqueIds(rows) ==> FindPostById(after, postId).None?)
  {
    var after := DeletePostOn(rows, userId, postId, now).0;
    if DeletePostOn(rows, userId, postId, now).1.Some? && UniqueIds(rows) {
      forall k | 0 <= k < |after|
        ensures after[k].id != postId || !Live(after[k])
      {
        if after[k].id == postId {
          var j :| 0 <= j < |rows| && Owned(rows[j], userId, postId);
          assert j == k;
        }
      }
    }
  }

  /** With no guard on `deleted_at`, deleting twice succeeds twice; the second delete moves
      the timestamp to its own time. */
  lemma {:induction false} DeleteTwice(rows: seq<Post>, userId: string, postId: string, t1: int, t2: int)
    requires DeletePostOn(rows, userId, postId, t1).1.Some?
    ensures var once := DeletePostOn(rows, userId, postId, t1).0;
            var twice := DeletePostOn(once, userId, postId, t2);
            twice.1 == Some(postId) &&
            forall k :: 0 <= k < |rows| && Owned(rows[k], userId, postId) ==> twice.0[k].deletedAt == Some(t2)
  {
    var once := DeletePostOn(rows, userId, postId, t1).0;
    var k :| 0 <= k < |rows| && Owned(rows[k], userId, postId);
    assert Owned(once[k], userId, postId);
  }

  /** Once deleted, a post can no longer be updated. */
  lemma UpdateAfterDelete(rows: seq<Post>, userId: string, postId: string, now: int, content: string)
    requires UniqueIds(rows)
    ensures var once := DeletePostOn(rows, userId, postId, now).0;
            UpdatePostOn(once, userId, postId, content).1.None?
  {
  }

  // ---------------------------------------------------------------------------
  // The table
  // ---------------------------------------------------------------------------

  class PostTable {
    var rows: seq<Post>

    ghost predicate Valid()
      reads this
    {
      UniqueIds(rows)
    }

    constructor (rows: seq<Post>)
      requires UniqueIds(rows)
      ensures this.rows == rows && Valid()
    {
      this.rows := rows;
    }

    /** `create_post`: inserts a live, never-updated row for the caller; the database picks
        a fresh id and stamps the current time. */
    method CreatePost(userId: string, title: string, content: string, newId: string, now: int) returns (post: Post)
      requires Valid() && !HasId(rows, newId)
      modifies this
      ensures post == Post(newId, userId, title, content, now, None, None)
      ensures rows == old(rows) + [post]
      ensures Valid() && FindPostById(rows, newId) == Some(post)
    {
      post := Post(newId, userId, title, content, now, None, None);
      rows := rows + [post];
      assert rows[|rows| - 1] == post;
    }

    /** `update_post`. */
    method UpdatePost(userId: string, postId: string, content: string) returns (post: Option<Post>)
      requires Valid()
      modifies this
      ensures (rows, post) == UpdatePostOn(old(rows), userId, postId, content)
      ensures Valid()
    {
      ghost var spec := UpdatePostOn(rows, userId, postId, content);
      var i := IndexWhere(rows, (q: Post) => Editable(q, userId, postId));
      if i.None? {
        post := None;
      } else {
        var updated := rows[i.value].(content := content);
        OnlyRowWithId(rows, i.value);
        rows := rows[i.value := updated];
        assert rows == spec.0;
        post := Some(updated);
      }
    }

    /** `delete_post`. */
    method DeletePost(userId: string, postId: string, now: int) returns (id: Option<string>)
      requires Valid()
      modifies this
      ensures (rows, id) == DeletePostOn(old(rows), userId, postId, now)
      ensures Valid()
    {
      ghost var spec := DeletePostOn(rows, userId, postId, now);
      var i := IndexWhere(rows, (q: Post) => Owned(q, userId, postId));
      if i.None? {
        assert rows == spec.0;
        id := None;
      } else {
        OnlyRowWithId(rows, i.value);
        rows := rows[i.value := rows[i.value].(deletedAt := Some(now))];
        assert rows == spec.0;
        id := Some(postId);
      }
    }
  }
}
