/**
 * The Oracle select builder: combine() appends a set operation to the builder's
 * data, and statement() renders the shared clauses, then the combine clauses,
 * then ORDER BY, and finally wraps the text in ROWNUM sub-queries to paginate.
 */
module OracleSelect {
  import opened Wrappers
  import opened PhpStrings
  import opened SelectModel
  import opened Pagination

  // ---------------------------------------------------------------- the ROWNUM wrapping

  /** How statement() wraps the query it has built. */
  datatype Wrapping =
    | Unwrapped
      /** SELECT * FROM (SELECT "t0".*, ROWNUM AS "rn" FROM (q) "t0" WHERE ROWNUM <= maxRow) WHERE "rn" >= minRow */
    | Window(minRow: int, maxRow: int)
      /** SELECT * FROM (q) WHERE ROWNUM <= n */
    | LimitOnly(n: int)
      /** SELECT * FROM (q) WHERE ROWNUM >= n */
    | OffsetOnly(n: int)
      /** SELECT * FROM (SELECT "t0".*, ROWNUM AS "rn" FROM (q) "t0") WHERE "rn" >= minRow */
    | NumberedAtLeast(minRow: int)

  /** The wrapping the source chooses: a window when limit and offset are both positive, else one bound. */
  function WrappingOf(d: SelectData): Wrapping {
    if d.limit > 0 && d.offset > 0 then Window(d.offset, d.offset + (d.limit - 1))
    else if d.limit > 0 then LimitOnly(d.limit)
    else if d.offset > 0 then OffsetOnly(d.offset)
    else Unwrapped
  }

  function Wrap(q: string, w: Wrapping): string {
    match w
    case Unwrapped => q
    case Window(lo, hi) =>
      "SELECT * FROM (SELECT \"t0\".*, ROWNUM AS \"rn\" FROM (" + q + ") \"t0\" WHERE ROWNUM <= "
      + IntToString(hi) + ") WHERE \"rn\" >= " + IntToString(lo)
    case LimitOnly(n) => "SELECT * FROM (" + q + ") WHERE ROWNUM <= " + IntToString(n)
    case OffsetOnly(n) => "SELECT * FROM (" + q + ") WHERE ROWNUM >= " + IntToString(n)
    case NumberedAtLeast(lo) =>
      "SELECT * FROM (SELECT \"t0\".*, ROWNUM AS \"rn\" FROM (" + q + ") \"t0\") WHERE \"rn\" >= " + IntToString(lo)
  }

  /**
   * The rows a wrapped statement returns, given the ordered rows of the query it
   * wraps: ROWNUM numbers only the rows that pass its own predicate, and "rn"
   * is the number the inner query gave each row.
   */
  function SelectedRows<T>(rows: seq<T>, w: Wrapping): seq<T> {
    match w
    case Unwrapped => rows
    case Window(lo, hi) => NumberedFrom(RownumFilter(rows, AtMost(hi), 1), lo)
    case LimitOnly(n) => RownumFilter(rows, AtMost(n), 1)
    case OffsetOnly(n) => RownumFilter(rows, AtLeast(n), 1)
    case NumberedAtLeast(lo) => NumberedFrom(rows, lo)
  }

  // ---------------------------------------------------------------- statement text

  /** The query before wrapping: the shared clauses, then the combine clauses, then ORDER BY. */
  function QueryText(d: SelectData): string {
    "SELECT " + DistinctText(d) + ColumnsText(d) + BodyText(d) + CombineText(d.combine) + OrderByText(d)
  }

  function StatementText(d: SelectData, terminated: bool): string {
    Wrap(QueryText(d), WrappingOf(d)) + TerminatorText(terminated)
  }

  // ---------------------------------------------------------------- the builder

  /** What combine() accepts: another select builder, a command, or anything else. */
  datatype CombineSource =
    | SelectBuilder(unterminated: string)   // the other builder's statement(FALSE) text
    | SqlCommand(command: Command)
    | Unsupported

  class Builder {
    /** The builder's accumulated statement model. */
    var data: SelectData
    /** The Oracle precompiler's prepare_operator($operator, 'SET'); its code is not part of this model. */
    const prepareOperator: (string, string) -> Result<string>
    /** Command::trim; its code is not part of this model. */
    const trimCommand: string -> string

    constructor (data: SelectData, prepareOperator: (string, string) -> Result<string>, trimCommand: string -> string)
      ensures this.data == data
      ensures this.prepareOperator == prepareOperator && this.trimCommand == trimCommand
    {
      this.data := data;
      this.prepareOperator := prepareOperator;
      this.trimCommand := trimCommand;
    }

    /** The text combine() puts in parentheses; only defined for what it accepts. */
    function CombinedText(statement: CombineSource): string
      requires !statement.Unsupported?
    {
      match statement
      case SelectBuilder(t) => t
      case SqlCommand(c) => trimCommand(c.text)
    }

    /** combine($operator, $statement) */
    method Combine(operator: string, statement: CombineSource) returns (r: Outcome)
      modifies this
      ensures statement.Unsupported? ==> r == Fail(SqlError)
      ensures !statement.Unsupported? && prepareOperator(operator, "SET").Err? ==>
                r == Fail(prepareOperator(operator, "SET").error)
      ensures r.Pass? <==> !statement.Unsupported? && prepareOperator(operator, "SET").Ok?
      ensures r.Fail? ==> data == old(data)
      ensures r.Pass? ==>
                data == old(data).(combine := old(data).combine +
                  [prepareOperator(operator, "SET").value + " (" + CombinedText(statement) + ")"])
    {
      var text: string;
      if statement.SelectBuilder? {
        text := statement.unterminated;
      } else if statement.SqlCommand? {
        text := trimCommand(statement.command.text);
      } else {
        return Fail(SqlError);
      }
      var op := prepareOperator(operator, "SET");
      if op.Err? {
        return Fail(op.error);
      }
      data := data.(combine := data.combine + [op.value + " (" + text + ")"]);
      r := Pass;
    }

    /** statement($terminated) */
    method Statement(terminated: bool) returns (command: Command)
      ensures command == Command(StatementText(data, terminated))
    {
      var d := data;
      var sql := Query(d);
      if d.limit > 0 && d.offset > 0 {
        var maxRowToFetch := d.offset + (d.limit - 1);
        var minRowToFetch := d.offset;
        sql := Wrap(sql, Window(minRowToFetch, maxRowToFetch));
      } else if d.limit > 0 {
        sql := Wrap(sql, LimitOnly(d.limit));
      } else if d.offset > 0 {
        sql := Wrap(sql, OffsetOnly(d.offset));
      }
      if terminated {
        sql := sql + ";";
      }
      command := Command(sql);
    }
  }

  /** The part of statement() before the ROWNUM wrapping. */
  method Query(d: SelectData) returns (sql: string)
    ensures sql == QueryText(d)
  {
    sql := "SELECT ";
    if d.distinct {
      sql := sql + "DISTINCT ";
    }
    assert sql == "SELECT " + DistinctText(d);
    sql := sql + ColumnsText(d);
    sql := AppendBody(sql, d);
    sql := AppendCombines(sql, d.combine);
    ghost var upToCombine := sql;
    if |d.orderBy| > 0 {
      sql := sql + OrderByText(d);
    }
    assert sql == upToCombine + OrderByText(d);
  }

  // ---------------------------------------------------------------- what the wrapping selects

  /** The window's inner bound and outer bound cover exactly `limit` row numbers. */
  lemma WindowCoversLimit(d: SelectData)
    requires d.limit > 0 && d.offset > 0
    ensures WrappingOf(d).Window?
    ensures WrappingOf(d).maxRow - WrappingOf(d).minRow + 1 == d.limit
  {
  }

  lemma WindowSelects<T>(rows: seq<T>, lo: int, hi: int)
    requires 1 <= lo <= hi
    ensures SelectedRows(rows, Window(lo, hi)) == rows[Min(lo - 1, |rows|)..Min(hi, |rows|)]
  {
    RownumAtMost(rows, hi, 1);
    var inner := rows[..Min(hi, |rows|)];
    NumberedFromSuffix(inner, lo);
    assert inner[Min(lo - 1, |inner|)..] == rows[Min(lo - 1, |rows|)..Min(hi, |rows|)];
  }

  /**
   * The rows the rendered statement returns, against the reference page: with a
   * limit and an offset it is the page that starts at row `offset - 1` (counting
   * from 0), with a limit alone the first `limit` rows, with an offset alone all
   * rows when the offset is 1 and none when it is larger.
   */
  lemma StatementSelects<T>(rows: seq<T>, d: SelectData)
    ensures d.limit > 0 && d.offset > 0 ==>
              SelectedRows(rows, WrappingOf(d)) == Paginate(rows, d.limit, d.offset - 1)
    ensures d.limit > 0 && d.offset <= 0 ==> SelectedRows(rows, WrappingOf(d)) == Paginate(rows, d.limit, 0)
    ensures d.limit <= 0 && d.offset == 1 ==> SelectedRows(rows, WrappingOf(d)) == rows
    ensures d.limit <= 0 && d.offset > 1 ==> SelectedRows(rows, WrappingOf(d)) == []
    ensures d.limit <= 0 && d.offset <= 0 ==> SelectedRows(rows, WrappingOf(d)) == rows
  {
    if d.limit > 0 && d.offset > 0 {
      WindowSelects(rows, d.offset, d.offset + (d.limit - 1));
    } else if d.limit > 0 {
      RownumAtMost(rows, d.limit, 1);
    } else if d.offset > 0 {
      RownumAtLeast(rows, d.offset, 1);
    }
  }

  /** A limit of 2 and an offset of 2 over four rows: the statement returns rows 1 and 2, not rows 2 and 3. */
  lemma WindowStartsOneRowEarly()
    ensures var d := SelectData(false, [], "*", Some("t"), [], [], [], [], [], 2, 2, []);
            var rows := [10, 20, 30, 40];
            SelectedRows(rows, WrappingOf(d)) == [20, 30] &&
            Paginate(rows, d.limit, d.offset) == [30, 40]
  {
    var d := SelectData(false, [], "*", Some("t"), [], [], [], [], [], 2, 2, []);
    StatementSelects([10, 20, 30, 40], d);
  }

  /** An offset of 2 without a limit over three rows: the statement returns no row at all. */
  lemma OffsetAloneSelectsNothing()
    ensures var d := SelectData(false, [], "*", Some("t"), [], [], [], [], [], 0, 2, []);
            var rows := [10, 20, 30];
            SelectedRows(rows, WrappingOf(d)) == [] &&
            Paginate(rows, d.limit, d.offset) == [30]
  {
    var d := SelectData(false, [], "*", Some("t"), [], [], [], [], [], 0, 2, []);
    StatementSelects([10, 20, 30], d);
  }

  // ---------------------------------------------------------------- the intended pagination

  /** Bounds that select rows [offset, offset + limit): the window from offset + 1, and "rn" instead of ROWNUM for an offset alone. */
  function CorrectedWrappingOf(d: SelectData): Wrapping {
    if d.limit > 0 && d.offset > 0 then Window(d.offset + 1, d.offset + d.limit)
    else if d.limit > 0 then LimitOnly(d.limit)
    else if d.offset > 0 then NumberedAtLeast(d.offset + 1)
    else Unwrapped
  }

  function CorrectedStatementText(d: SelectData, terminated: bool): string {
    Wrap(QueryText(d), CorrectedWrappingOf(d)) + TerminatorText(terminated)
  }

  /** The corrected wrapping returns exactly the reference page for every limit and offset. */
  lemma CorrectedStatementPaginates<T>(rows: seq<T>, d: SelectData)
    ensures SelectedRows(rows, CorrectedWrappingOf(d)) ==
            Paginate(rows, if d.limit > 0 then d.limit else 0, if d.offset > 0 then d.offset else 0)
  {
    if d.limit > 0 && d.offset > 0 {
      WindowSelects(rows, d.offset + 1, d.offset + d.limit);
    } else if d.limit > 0 {
      RownumAtMost(rows, d.limit, 1);
    } else if d.offset > 0 {
      NumberedFromSuffix(rows, d.offset + 1);
    }
  }
}
