/**
 * The PostgreSQL select builder's statement(): the shared clauses, then LIMIT and
 * OFFSET for positive values, the combine clauses and an optional semicolon.
 */
module PostgreSQLSelect {
  import opened PhpStrings
  import opened SelectModel
  import opened Pagination
  import opened Wrappers

  /** The LIMIT the statement carries: only a positive limit is rendered. */
  function LimitClause(d: SelectData): Option<nat> {
    if d.limit > 0 then Some(d.limit) else None
  }

  /** The OFFSET the statement carries: only a positive offset is rendered. */
  function OffsetClause(d: SelectData): Option<nat> {
    if d.offset > 0 then Some(d.offset) else None
  }

  function LimitText(d: SelectData): string {
    match LimitClause(d)
    case Some(n) => " LIMIT " + IntToString(n)
    case None => ""
  }

  function OffsetText(d: SelectData): string {
    match OffsetClause(d)
    case Some(n) => " OFFSET " + IntToString(n)
    case None => ""
  }

  /** Everything before the terminator. */
  function UnterminatedText(d: SelectData): string {
    "SELECT " + DistinctText(d) + ColumnsText(d) + BodyText(d) + OrderByText(d)
    + LimitText(d) + OffsetText(d)
    + CombineText(d.combine)
  }

  function StatementText(d: SelectData, terminated: bool): string {
    UnterminatedText(d) + TerminatorText(terminated)
  }

  /** statement($terminated) */
  method Statement(d: SelectData, terminated: bool) returns (sql: string)
    ensures sql == StatementText(d, terminated)
  {
    sql := "SELECT ";
    if d.distinct {
      sql := sql + "DISTINCT ";
    }
    assert sql == "SELECT " + DistinctText(d);
    sql := sql + ColumnsText(d);
    sql := AppendBody(sql, d);
    ghost var upToBody := sql;
    if |d.orderBy| > 0 {
      sql := sql + OrderByText(d);
    }
    assert sql == upToBody + OrderByText(d);
    ghost var upToOrder := sql;
    if d.limit > 0 {
      sql := sql + LimitText(d);
    }
    assert sql == upToOrder + LimitText(d);
    ghost var upToLimit := sql;
    if d.offset > 0 {
      sql := sql + OffsetText(d);
    }
    assert sql == upToLimit + OffsetText(d);
    sql := AppendCombines(sql, d.combine);
    assert sql == UnterminatedText(d);
    if terminated {
      sql := sql + ";";
    }
  }

  /** The terminated statement is the unterminated one with exactly one semicolon added. */
  lemma TerminatedAddsSemicolon(d: SelectData)
    ensures StatementText(d, true) == StatementText(d, false) + ";"
    ensures |StatementText(d, true)| == |StatementText(d, false)| + 1
    ensures StatementText(d, true)[|StatementText(d, true)| - 1] == ';'
  {
  }

  /**
   * What the rendered LIMIT/OFFSET select from the ordered rows of the query: the
   * page of `limit` rows starting after `offset` rows, a non-positive limit meaning
   * no limit and a non-positive offset meaning no offset.
   */
  lemma StatementPaginates<T>(rows: seq<T>, d: SelectData)
    ensures LimitOffset(rows, LimitClause(d), OffsetClause(d)) ==
            Paginate(rows, if d.limit > 0 then d.limit else 0, if d.offset > 0 then d.offset else 0)
    ensures d.limit > 0 ==> |LimitOffset(rows, LimitClause(d), OffsetClause(d))| <= d.limit
  {
  }

  /** A page with a non-positive limit runs to the end of the result. */
  lemma NoLimitRunsToEnd<T>(rows: seq<T>, d: SelectData)
    requires d.limit <= 0 && d.offset < |rows|
    ensures |LimitOffset(rows, LimitClause(d), OffsetClause(d))| == |rows| - Max(d.offset, 0)
  {
  }

  /** Changing the limit and offset changes only the LIMIT and OFFSET clauses of the statement. */
  lemma PaginationIsLocal(d: SelectData, limit: int, offset: int)
    ensures var e := d.(limit := limit, offset := offset);
      StatementText(e, true) ==
        "SELECT " + DistinctText(d) + ColumnsText(d) + BodyText(d) + OrderByText(d)
        + LimitText(e) + OffsetText(e)
        + CombineText(d.combine) + ";"
  {
  }
}
