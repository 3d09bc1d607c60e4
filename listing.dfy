/** The shape every listing query shares: keep the rows a `WHERE` clause admits,
    order them by `created_at DESC`, then apply `OFFSET` and `LIMIT`.
    Postgres leaves the order of rows with equal timestamps open, and the model promises
    none either. */
module Listing {
  import opened Wrappers
  import opened Models

  /** The rows that satisfy `keep`, in table order. */
  function Filter<T(!new)>(rows: seq<T>, keep: T -> bool): (r: seq<T>)
    ensures |r| <= |rows|
    ensures forall x :: x in r <==> x in rows && keep(x)
    decreases |rows|
  {
    if rows == [] then []
    else
      var rest := Filter(rows[1..], keep);
      assert rows == [rows[0]] + rows[1..];
      if keep(rows[0]) then [rows[0]] + rest else rest
  }

  predicate NewestFirst<T>(rows: seq<T>, created: T -> int) {
    forall i, j :: 0 <= i < j < |rows| ==> created(rows[i]) >= created(rows[j])
  }

  /** Places `x` after every row at least as new as it. */
  function Insert<T>(x: T, rows: seq<T>, created: T -> int): (r: seq<T>)
    decreases |rows|
  {
    if rows == [] || created(x) > created(rows[0]) then [x] + rows
    else [rows[0]] + Insert(x, rows[1..], created)
  }

  /** `ORDER BY created_at DESC`. */
  function SortNewestFirst<T>(rows: seq<T>, created: T -> int): (r: seq<T>)
    decreases |rows|
  {
    if rows == [] then [] else Insert(rows[0], SortNewestFirst(rows[1..], created), created)
  }

  predicate NoNewerThan<T>(rows: seq<T>, bound: int, created: T -> int) {
    forall k :: 0 <= k < |rows| ==> created(rows[k]) <= bound
  }

  lemma {:induction false} InsertBounded<T>(x: T, rows: seq<T>, bound: int, created: T -> int)
    requires NoNewerThan(rows, bound, created) && created(x) <= bound
    ensures NoNewerThan(Insert(x, rows, created), bound, created)
    decreases |rows|
  {
    if rows != [] && created(x) <= created(rows[0]) {
      InsertBounded(x, rows[1..], bound, created);
    }
  }

  lemma {:induction false} InsertCounts<T>(x: T, rows: seq<T>, created: T -> int)
    ensures multiset(Insert(x, rows, created)) == multiset(rows) + multiset{x}
    decreases |rows|
  {
    if rows != [] && created(x) <= created(rows[0]) {
      InsertCounts(x, rows[1..], created);
      assert rows == [rows[0]] + rows[1..];
    }
  }

  lemma {:induction false} InsertKeepsOrder<T>(x: T, rows: seq<T>, created: T -> int)
    requires NewestFirst(rows, created)
    ensures NewestFirst(Insert(x, rows, created), created)
    decreases |rows|
  {
    if rows != [] && created(x) <= created(rows[0]) {
      var tail := rows[1..];
      InsertKeepsOrder(x, tail, created);
      InsertBounded(x, tail, created(rows[0]), created);
      var ins := Insert(x, tail, created);
      assert Insert(x, rows, created) == [rows[0]] + ins;
    }
  }

  /** The sorted rows are newest first and are the same rows, each as many times. */
  lemma {:induction false} SortNewestFirstSpec<T>(rows: seq<T>, created: T -> int)
    ensures NewestFirst(SortNewestFirst(rows, created), created)
    ensures multiset(SortNewestFirst(rows, created)) == multiset(rows)
    decreases |rows|
  {
    if rows != [] {
      SortNewestFirstSpec(rows[1..], created);
      InsertKeepsOrder(rows[0], SortNewestFirst(rows[1..], created), created);
      InsertCounts(rows[0], SortNewestFirst(rows[1..], created), created);
      assert rows == [rows[0]] + rows[1..];
    }
  }

  const NEGATIVE_OFFSET: string := "OFFSET must not be negative"
  const NEGATIVE_LIMIT: string := "LIMIT must not be negative"

  function Min(a: int, b: int): int {
    if a <= b then a else b
  }

  /** `OFFSET offset LIMIT limit`: Postgres refuses a negative offset first, then a
      negative limit; otherwise it skips `offset` rows and returns at most `limit`. */
  function Page<T>(rows: seq<T>, offset: int, limit: int): (r: Result<seq<T>, DbError>)
    ensures offset < 0 ==> r == Failure(Database(NEGATIVE_OFFSET))
    ensures offset >= 0 && limit < 0 ==> r == Failure(Database(NEGATIVE_LIMIT))
    ensures offset >= 0 && limit >= 0 ==>
              (r.Success? &&
               |r.value| == Min(limit, if offset <= |rows| then |rows| - offset else 0) &&
               forall k :: 0 <= k < |r.value| ==> r.value[k] == rows[offset + k])
  {
    if offset < 0 then Failure(Database(NEGATIVE_OFFSET))
    else if limit < 0 then Failure(Database(NEGATIVE_LIMIT))
    else
      var start := Min(offset, |rows|);
      Success(rows[start..Min(start + limit, |rows|)])
  }

  /** A listing query: the admitted rows, newest first, paged. */
  function Query<T(!new)>(rows: seq<T>, keep: T -> bool, created: T -> int, offset: int, limit: int): (r: Result<seq<T>, DbError>)
  {
    Page(SortNewestFirst(Filter(rows, keep), created), offset, limit)
  }

  /** What a listing promises: only admitted rows of the table, newest first, at most `limit`
      of them; and the first page of a large enough limit holds every admitted row. */
  lemma QuerySpec<T(!new)>(rows: seq<T>, keep: T -> bool, created: T -> int, offset: int, limit: int)
    requires offset >= 0 && limit >= 0
    ensures var r := Query(rows, keep, created, offset, limit);
            r.Success? && |r.value| <= limit &&
            (forall x :: x in r.value ==> x in rows && keep(x)) &&
            NewestFirst(r.value, created)
    ensures offset == 0 && limit >= |rows| ==>
              multiset(Query(rows, keep, created, offset, limit).value) == multiset(Filter(rows, keep))
  {
    var sorted := SortNewestFirst(Filter(rows, keep), created);
    SortNewestFirstSpec(Filter(rows, keep), created);
    var page := Query(rows, keep, created, offset, limit).value;
    forall x | x in page
      ensures x in rows && keep(x)
    {
      var k :| 0 <= k < |page| && page[k] == x;
      assert x == sorted[offset + k];
      assert x in multiset(sorted);
    }
    forall i, j | 0 <= i < j < |page|
      ensures created(page[i]) >= created(page[j])
    {
      assert page[i] == sorted[offset + i] && page[j] == sorted[offset + j];
    }
    if offset == 0 && limit >= |rows| {
      assert page == sorted;
    }
  }

  /** Paging cuts a window out of the complete listing: the page at `offset` holds the rows
      of the unpaged listing from position `offset` on, at most `limit` of them. */
  /** `page` is the window of the complete listing (`keep` admitted, newest first, no
      `OFFSET`) that starts at `offset` and holds at most `limit` rows. */
  ghost predicate WindowOfListing<T(!new)>(page: seq<T>, rows: seq<T>, keep: T -> bool, created: T -> int,
                                           offset: int, limit: int)
    requires offset >= 0
  {
    var all := Query(rows, keep, created, 0, |rows|).value;
    |page| == Min(limit, if offset <= |all| then |all| - offset else 0) &&
    forall k :: 0 <= k < |page| ==> page[k] == all[offset + k]
  }

  lemma PageIsWindow<T(!new)>(rows: seq<T>, keep: T -> bool, created: T -> int, offset: int, limit: int)
    requires offset >= 0 && limit >= 0
    ensures WindowOfListing(Query(rows, keep, created, offset, limit).value, rows, keep, created, offset, limit)
  {
    var sorted := SortNewestFirst(Filter(rows, keep), created);
    SortNewestFirstSpec(Filter(rows, keep), created);
    assert |sorted| == |multiset(sorted)| == |multiset(Filter(rows, keep))| == |Filter(rows, keep)|;
    assert Query(rows, keep, created, 0, |rows|).value == sorted;
  }

  // ---------------------------------------------------------------------------
  // Single-row lookups and in-place updates
  // ---------------------------------------------------------------------------

  /** The position of the first row satisfying `p`: the row `fetch_optional` returns. */
  function IndexWhere<T>(rows: seq<T>, p: T -> bool): (r: Option<nat>)
    ensures r.None? <==> forall k :: 0 <= k < |rows| ==> !p(rows[k])
    ensures r.Some? ==> r.value < |rows| && p(rows[r.value]) &&
                        forall k :: 0 <= k < r.value ==> !p(rows[k])
    decreases |rows|
  {
    if rows == [] then None
    else if p(rows[0]) then Some(0)
    else match IndexWhere(rows[1..], p)
      case None => None
      case Some(i) => Some(i + 1)
  }

  /** The first row satisfying `p`, if any. */
  function FirstWhere<T>(rows: seq<T>, p: T -> bool): (r: Option<T>)
    ensures r.None? <==> forall k :: 0 <= k < |rows| ==> !p(rows[k])
    ensures r.Some? ==> r.value in rows && p(r.value)
  {
    match IndexWhere(rows, p)
    case None => None
    case Some(i) => Some(rows[i])
  }

  /** `UPDATE .. SET .. WHERE p`: every row satisfying `p` is rewritten by `f`, the others stay. */
  function UpdateWhere<T>(rows: seq<T>, p: T -> bool, f: T -> T): (r: seq<T>)
    ensures |r| == |rows|
    ensures forall k :: 0 <= k < |rows| ==> r[k] == if p(rows[k]) then f(rows[k]) else rows[k]
  {
    seq(|rows|, k requires 0 <= k < |rows| => if p(rows[k]) then f(rows[k]) else rows[k])
  }
}
