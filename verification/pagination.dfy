/**
 * What the pagination forms the dialects render select from an ordered result:
 * LIMIT/OFFSET, a ROW_NUMBER() window and Oracle's ROWNUM filters, each related
 * to one reference, Paginate.
 */
module Pagination {
  import opened Wrappers

  function Min(a: int, b: int): int { if a <= b then a else b }

  function Max(a: int, b: int): int { if a <= b then b else a }

  /** Rows [offset, offset + limit) of an ordered result, counted from 0; a limit of 0 leaves the end open. */
  function Paginate<T>(rows: seq<T>, limit: nat, offset: nat): seq<T> {
    rows[Min(offset, |rows|)..if limit == 0 then |rows| else Min(offset + limit, |rows|)]
  }

  // ---------------------------------------------------------------- LIMIT / OFFSET

  /** SQL's OFFSET m (skip m rows), then LIMIT n (keep at most n rows); None leaves a clause out. */
  function LimitOffset<T>(rows: seq<T>, limit: Option<nat>, offset: Option<nat>): seq<T> {
    var skipped := match offset case Some(m) => rows[Min(m, |rows|)..] case None => rows;
    match limit
    case Some(n) => skipped[..Min(n, |skipped|)]
    case None => skipped
  }

  // ---------------------------------------------------------------- ROW_NUMBER() windows

  /** The rows whose row number lies in [lo, hi], numbering the first row `n`. */
  function NumberedBetween<T>(rows: seq<T>, lo: int, hi: int, n: int): seq<T>
    decreases |rows|
  {
    if rows == [] then []
    else (if lo <= n <= hi then [rows[0]] else []) + NumberedBetween(rows[1..], lo, hi, n + 1)
  }

  /** Where the run kept by NumberedBetween starts and ends in `len` rows numbered from `n`. */
  function RunStart(lo: int, n: int, len: nat): nat {
    Min(Max(lo - n, 0), len)
  }

  function RunEnd(lo: int, hi: int, n: int, len: nat): nat {
    Max(RunStart(lo, n, len), Min(Max(hi - n + 1, 0), len))
  }

  /** How the run's bounds move when the first of `len + 1` rows is dropped. */
  lemma RunStep(lo: int, hi: int, n: int, len: nat)
    ensures RunStart(lo, n, len + 1) <= RunEnd(lo, hi, n, len + 1) <= len + 1
    ensures lo <= n <= hi ==>
      RunStart(lo, n, len + 1) == 0 && RunStart(lo, n + 1, len) == 0
      && RunEnd(lo, hi, n, len + 1) == RunEnd(lo, hi, n + 1, len) + 1
    ensures n < lo ==>
      RunStart(lo, n, len + 1) == RunStart(lo, n + 1, len) + 1
      && RunEnd(lo, hi, n, len + 1) == RunEnd(lo, hi, n + 1, len) + 1
    ensures hi < n ==>
      RunEnd(lo, hi, n, len + 1) == RunStart(lo, n, len + 1)
      && RunEnd(lo, hi, n + 1, len) == RunStart(lo, n + 1, len)
  {
  }

  /** A filter on row numbers keeps one contiguous run of the rows. */
  lemma {:induction false} NumberedBetweenSlice<T>(rows: seq<T>, lo: int, hi: int, n: int)
    ensures NumberedBetween(rows, lo, hi, n) == rows[RunStart(lo, n, |rows|)..RunEnd(lo, hi, n, |rows|)]
    decreases |rows|
  {
    if rows != [] {
      var rest := rows[1..];
      NumberedBetweenSlice(rest, lo, hi, n + 1);
      RunStep(lo, hi, n, |rest|);
      var s', e' := RunStart(lo, n + 1, |rest|), RunEnd(lo, hi, n + 1, |rest|);
      if lo <= n <= hi {
        assert [rows[0]] + rest[s'..e'] == rows[0..e' + 1];
      } else if n < lo {
        assert rest[s'..e'] == rows[s' + 1..e' + 1];
      }
    }
  }

  /** ROW_NUMBER() BETWEEN offset + 1 AND offset + limit keeps exactly the requested page. */
  lemma RowNumberWindowPaginates<T>(rows: seq<T>, limit: nat, offset: nat)
    requires limit > 0
    ensures NumberedBetween(rows, offset + 1, offset + limit, 1) == Paginate(rows, limit, offset)
    ensures |NumberedBetween(rows, offset + 1, offset + limit, 1)| <= limit
  {
    NumberedBetweenSlice(rows, offset + 1, offset + limit, 1);
  }

  // ---------------------------------------------------------------- Oracle ROWNUM

  /** A ROWNUM predicate: ROWNUM <= n or ROWNUM >= n. */
  datatype RownumBound = AtMost(n: int) | AtLeast(n: int)

  predicate Admits(bound: RownumBound, k: int) {
    match bound
    case AtMost(n) => k <= n
    case AtLeast(n) => k >= n
  }

  /**
   * WHERE ROWNUM ... over an ordered sub-query: Oracle gives the next row the number
   * `next` and advances the counter only when that row passes the predicate.
   */
  function RownumFilter<T>(rows: seq<T>, bound: RownumBound, next: int): seq<T>
    decreases |rows|
  {
    if rows == [] then []
    else if Admits(bound, next) then [rows[0]] + RownumFilter(rows[1..], bound, next + 1)
    else RownumFilter(rows[1..], bound, next)
  }

  lemma {:induction false} RownumAtMost<T>(rows: seq<T>, n: int, next: int)
    ensures RownumFilter(rows, AtMost(n), next) == rows[..Min(Max(n - next + 1, 0), |rows|)]
    decreases |rows|
  {
    if rows != [] {
      RownumAtMost(rows[1..], n, next + 1);
      if next <= n {
        assert [rows[0]] + rows[1..][..Min(Max(n - next, 0), |rows| - 1)]
          == rows[..Min(Max(n - next + 1, 0), |rows|)];
      } else {
        RownumAtMost(rows[1..], n, next);
      }
    }
  }

  /** ROWNUM >= n passes every row when the counter already reaches n, and no row otherwise. */
  lemma {:induction false} RownumAtLeast<T>(rows: seq<T>, n: int, next: int)
    ensures RownumFilter(rows, AtLeast(n), next) == if next >= n then rows else []
    decreases |rows|
  {
    if rows != [] {
      if next >= n {
        RownumAtLeast(rows[1..], n, next + 1);
        assert [rows[0]] + rows[1..] == rows;
      } else {
        RownumAtLeast(rows[1..], n, next);
      }
    }
  }

  /** "rn" >= lo on rows already numbered 1, 2, ... by an inner query. */
  function NumberedFrom<T>(rows: seq<T>, lo: int): seq<T> {
    NumberedBetween(rows, lo, |rows|, 1)
  }

  /** "rn" >= lo drops the first lo - 1 rows and keeps the rest. */
  lemma NumberedFromSuffix<T>(rows: seq<T>, lo: int)
    ensures NumberedFrom(rows, lo) == rows[Min(Max(lo - 1, 0), |rows|)..]
  {
    NumberedBetweenSlice(rows, lo, |rows|, 1);
    assert RunEnd(lo, |rows|, 1, |rows|) == |rows|;
  }
}
