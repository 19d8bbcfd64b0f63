/**
 * The MsSQL select builder's command(): TOP n for a limit, and a ROW_NUMBER()
 * window rewrite when a limit comes with an ORDER BY, so that an offset can be
 * honoured.
 */
module MsSQLSelect {
  import opened Wrappers
  import opened PhpStrings
  import opened SelectModel
  import opened Pagination

  function TopText(d: SelectData): string {
    if d.limit > 0 then "TOP " + IntToString(d.limit) + " " else ""
  }

  /** The statement before the window rewrite: TOP goes between DISTINCT and the columns. */
  function BaseText(d: SelectData): string {
    "SELECT " + DistinctText(d) + TopText(d) + ColumnsText(d) + BodyText(d) + OrderByText(d)
  }

  /** The rewrite happens for a non-negative offset, a positive limit and a non-empty ORDER BY. */
  predicate Windowed(d: SelectData) {
    d.offset >= 0 && d.limit > 0 && |d.orderBy| > 0
  }

  /** The table name as PHP interpolates it: NULL becomes the empty string. */
  function FromName(d: SelectData): string {
    match d.from
    case Some(t) => t
    case None => ""
  }

  /** The start of the window query, up to the column list of the numbered sub-query. */
  function WindowOpen(d: SelectData): string {
    "SELECT [outer].* FROM (SELECT ROW_NUMBER() OVER(ORDER BY " + Implode(", ", d.orderBy) + ") as ROW_NUMBER, "
  }

  /** The end of the window query: the row-number range [offset + 1, offset + limit] and the re-ordering. */
  function WindowClose(d: SelectData): string {
    ") AS [outer] WHERE [outer].[ROW_NUMBER] BETWEEN " + IntToString(d.offset + 1) + " AND " + IntToString(d.offset + d.limit)
    + " ORDER BY [outer].[ROW_NUMBER]"
  }

  /** The window query: numbered rows of the columns, the table and WHERE. */
  function WindowText(d: SelectData): string {
    WindowOpen(d) + ColumnsText(d) + " FROM " + FromName(d) + " " + WhereText(d) + WindowClose(d)
  }

  function CommandText(d: SelectData, terminated: bool): string {
    (if Windowed(d) then WindowText(d) else BaseText(d)) + CombineText(d.combine) + TerminatorText(terminated)
  }

  /** SELECT, DISTINCT, TOP and the column list. */
  method Head(d: SelectData) returns (text: string)
    ensures text == "SELECT " + DistinctText(d) + TopText(d) + ColumnsText(d)
  {
    text := "SELECT ";
    if d.distinct {
      text := text + "DISTINCT ";
    }
    assert text == "SELECT " + DistinctText(d);
    ghost var upToDistinct := text;
    if d.limit > 0 {
      text := text + TopText(d);
    }
    assert text == upToDistinct + TopText(d);
    text := text + ColumnsText(d);
  }

  /** The first part of command(): the base text, and the WHERE clause it keeps aside for the window. */
  method Base(d: SelectData) returns (text: string, whereSql: string)
    ensures text == BaseText(d)
    ensures whereSql == WhereText(d)
  {
    text := Head(d);
    ghost var upToColumns := text;
    if d.from.Some? {
      text := text + FromText(d);
    }
    assert text == upToColumns + FromText(d);
    text := AppendJoins(text, d.joins);
    whereSql := AppendFilter("", " WHERE ", d.where);
    assert whereSql == WhereText(d);
    text := text + whereSql;
    ghost var upToWhere := text;
    if |d.groupBy| > 0 {
      text := text + GroupByText(d);
    }
    assert text == upToWhere + GroupByText(d);
    text := AppendFilter(text, " HAVING ", d.having);
    ghost var upToHaving := text;
    Regroup(upToColumns, FromText(d), JoinsText(d.joins), WhereText(d), GroupByText(d), HavingText(d));
    assert upToHaving == upToColumns + BodyText(d);
    if |d.orderBy| > 0 {
      text := text + OrderByText(d);
    }
    assert text == upToHaving + OrderByText(d);
    assert BaseText(d) == upToColumns + BodyText(d) + OrderByText(d);
  }

  /** command($terminated) */
  method BuildCommand(d: SelectData, terminated: bool) returns (command: Command)
    ensures command == Command(CommandText(d, terminated))
  {
    var text, whereSql := Base(d);
    if d.offset >= 0 && d.limit > 0 && |d.orderBy| > 0 {
      text := WindowOpen(d) + ColumnsText(d) + " FROM " + FromName(d) + " " + whereSql + WindowClose(d);
    }
    text := AppendCombines(text, d.combine);
    if terminated {
      text := text + ";";
    }
    command := Command(text);
  }

  // ---------------------------------------------------------------- what the statement selects

  /** The row restriction the rendered statement applies. */
  datatype Paging = NoPaging | Top(n: int) | RowNumberWindow(first: int, last: int)

  function PagingOf(d: SelectData): Paging {
    if Windowed(d) then RowNumberWindow(d.offset + 1, d.offset + d.limit)
    else if d.limit > 0 then Top(d.limit)
    else NoPaging
  }

  /** The rows a restriction keeps from the ordered rows of the query. */
  function SelectedRows<T>(rows: seq<T>, p: Paging): seq<T> {
    match p
    case NoPaging => rows
    case Top(n) => rows[..Min(Max(n, 0), |rows|)]
    case RowNumberWindow(first, last) => NumberedBetween(rows, first, last, 1)
  }

  /** The window's bounds span exactly `limit` row numbers, starting right after `offset`. */
  lemma WindowSpansLimit(d: SelectData)
    requires Windowed(d)
    ensures PagingOf(d).RowNumberWindow?
    ensures PagingOf(d).first == d.offset + 1
    ensures PagingOf(d).last - PagingOf(d).first + 1 == d.limit
  {
  }

  /**
   * With an ORDER BY the statement returns exactly the reference page; without
   * one, or without a limit, the offset has no effect.
   */
  lemma CommandSelects<T>(rows: seq<T>, d: SelectData)
    ensures Windowed(d) ==> SelectedRows(rows, PagingOf(d)) == Paginate(rows, d.limit, d.offset)
    ensures !Windowed(d) && d.limit > 0 ==> SelectedRows(rows, PagingOf(d)) == Paginate(rows, d.limit, 0)
    ensures d.limit <= 0 ==> SelectedRows(rows, PagingOf(d)) == rows
  {
    if Windowed(d) {
      RowNumberWindowPaginates(rows, d.limit, d.offset);
    }
  }

  /** The offset changes neither the text nor the rows when there is no ORDER BY. */
  lemma OffsetIgnoredWithoutOrder(d: SelectData, offset: int, terminated: bool)
    requires |d.orderBy| == 0
    ensures CommandText(d.(offset := offset), terminated) == CommandText(d, terminated)
    ensures PagingOf(d.(offset := offset)) == PagingOf(d)
  {
  }

  /** The window text is built from the columns, the table, WHERE, ORDER BY, the limit and the offset only. */
  lemma WindowIgnoresOtherClauses(d: SelectData, e: SelectData)
    requires e == d.(distinct := e.distinct, joins := e.joins, groupBy := e.groupBy, having := e.having)
    ensures WindowText(e) == WindowText(d)
  {
  }

  // ---------------------------------------------------------------- the intended window

  /** The query the corrected window numbers: the whole statement without TOP and ORDER BY. */
  function Unpaginated(d: SelectData): SelectData {
    d.(limit := 0, orderBy := [])
  }

  /** The start of the corrected window, up to the numbered sub-query. */
  function NumberedOpen(d: SelectData): string {
    "SELECT [outer].* FROM (SELECT ROW_NUMBER() OVER(ORDER BY " + Implode(", ", d.orderBy) + ") as ROW_NUMBER, [inner].* FROM ("
  }

  function NumberedClose(d: SelectData): string {
    ") AS [inner]" + WindowClose(d)
  }

  /**
   * The intended window: it numbers the rows of the whole unpaginated query, so DISTINCT,
   * joins, GROUP BY and HAVING all apply before the rows are numbered.
   */
  function CorrectedWindowText(d: SelectData): string {
    NumberedOpen(d) + BaseText(Unpaginated(d)) + NumberedClose(d)
  }

  function CorrectedCommandText(d: SelectData, terminated: bool): string {
    (if Windowed(d) then CorrectedWindowText(d) else BaseText(d)) + CombineText(d.combine) + TerminatorText(terminated)
  }

  lemma Cancel(p: string, x: string, y: string, q: string)
    requires p + x + q == p + y + q
    ensures x == y
  {
    assert |x| == |y|;
    assert x == (p + x + q)[|p|..|p| + |x|];
    assert y == (p + y + q)[|p|..|p| + |y|];
  }

  /** The numbered query is SELECT, DISTINCT, the columns and every clause from FROM to HAVING. */
  lemma UnpaginatedQuery(d: SelectData)
    ensures BaseText(Unpaginated(d)) == "SELECT " + DistinctText(d) + ColumnsText(d) + BodyText(d)
    ensures |BaseText(Unpaginated(d))| ==
      7 + |DistinctText(d)| + |ColumnsText(d)| + |FromText(d)| + |JoinsText(d.joins)|
      + |WhereText(d)| + |GroupByText(d)| + |HavingText(d)|
  {
    var u := Unpaginated(d);
    assert DistinctText(u) == DistinctText(d) && TopText(u) == "" && ColumnsText(u) == ColumnsText(d);
    assert BodyText(u) == BodyText(d) && OrderByText(u) == "";
  }

  /**
   * Under the same ORDER BY, limit and offset, two corrected windows are the same text
   * exactly when the queries they number are: nothing of the query is dropped.
   */
  lemma CorrectedWindowKeepsQuery(d: SelectData, e: SelectData)
    requires e.orderBy == d.orderBy && e.limit == d.limit && e.offset == d.offset
    ensures CorrectedWindowText(e) == CorrectedWindowText(d) <==> BaseText(Unpaginated(e)) == BaseText(Unpaginated(d))
  {
    assert NumberedOpen(e) == NumberedOpen(d) && NumberedClose(e) == NumberedClose(d);
    if CorrectedWindowText(e) == CorrectedWindowText(d) {
      Cancel(NumberedOpen(d), BaseText(Unpaginated(e)), BaseText(Unpaginated(d)), NumberedClose(d));
    }
  }

  /**
   * A query joining a second table: the window as written renders the same text as
   * without the join, the corrected window a different one.
   */
  lemma WindowDropsJoin()
    ensures var d := SelectData(false, ["a.x", "b.y"], "*", Some("a"), [Join("INNER JOIN b", ["a.id = b.id"], [])],
                                [], [], [], ["a.x"], 10, 0, []);
            Windowed(d) &&
            WindowText(d) == WindowText(d.(joins := [])) &&
            CorrectedWindowText(d) != CorrectedWindowText(d.(joins := []))
  {
    var d := SelectData(false, ["a.x", "b.y"], "*", Some("a"), [Join("INNER JOIN b", ["a.id = b.id"], [])],
                        [], [], [], ["a.x"], 10, 0, []);
    var e := d.(joins := []);
    assert JoinsText(d.joins) == JoinsText([]) + JoinText(d.joins[0]);
    assert |JoinsText(d.joins)| > 0 && JoinsText(e.joins) == "";
    UnpaginatedQuery(d);
    UnpaginatedQuery(e);
    CorrectedWindowKeepsQuery(d, e);
  }
}
