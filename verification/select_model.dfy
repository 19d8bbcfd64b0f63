/**
 * The statement model a select builder accumulates in its `data` record, and the
 * rendering rules the PostgreSQL, Oracle and MsSQL select builders share: the
 * column list, FROM, joins, the WHERE/HAVING connector rule, GROUP BY, ORDER BY
 * and the appended combine clauses.
 */
module SelectModel {
  import opened Wrappers
  import opened PhpStrings

  /** DB\SQL\Builder::_OPENING_PARENTHESIS_ and _CLOSING_PARENTHESIS_ */
  const OpeningParenthesis: string := "("
  const ClosingParenthesis: string := ")"

  /** One entry of `join`: the rendered join clause, its ON conditions and its USING columns. */
  datatype Join = Join(clause: string, on: seq<string>, using: seq<string>)

  /** One entry of `where` or `having`: a connector and a rendered predicate or parenthesis marker. */
  datatype Condition = Condition(connector: string, token: string)

  /** The builder's `data` record; every fragment in it was rendered when it was added. */
  datatype SelectData = SelectData(
    distinct: bool,
    columns: seq<string>,
    wildcard: string,
    from: Option<string>,
    joins: seq<Join>,
    where: seq<Condition>,
    groupBy: seq<string>,
    having: seq<Condition>,
    orderBy: seq<string>,
    limit: int,
    offset: int,
    combine: seq<string>)

  // ---------------------------------------------------------------- clause texts

  function DistinctText(d: SelectData): string {
    if d.distinct then "DISTINCT " else ""
  }

  /** The column list, or the wildcard when no column was added. */
  function ColumnsText(d: SelectData): string {
    if |d.columns| > 0 then Implode(", ", d.columns) else d.wildcard
  }

  function FromText(d: SelectData): string {
    match d.from
    case Some(t) => " FROM " + t
    case None => ""
  }

  /** One join: its clause, then ON (...) if it has ON conditions, else USING (...) if it has USING columns. */
  function JoinText(j: Join): string {
    " " + j.clause +
    if |j.on| > 0 then " ON (" + Implode(" AND ", j.on) + ")"
    else if |j.using| > 0 then " USING (" + Implode(", ", j.using) + ")"
    else ""
  }

  function JoinsText(joins: seq<Join>): string
    decreases |joins|
  {
    if joins == [] then "" else JoinsText(joins[..|joins| - 1]) + JoinText(joins[|joins| - 1])
  }

  function GroupByText(d: SelectData): string {
    if |d.groupBy| > 0 then " GROUP BY " + Implode(", ", d.groupBy) else ""
  }

  function OrderByText(d: SelectData): string {
    if |d.orderBy| > 0 then " ORDER BY " + Implode(", ", d.orderBy) else ""
  }

  /** Each combine entry, preceded by one space. */
  function CombineText(entries: seq<string>): string
    decreases |entries|
  {
    if entries == [] then "" else CombineText(entries[..|entries| - 1]) + " " + entries[|entries| - 1]
  }

  function TerminatorText(terminated: bool): string {
    if terminated then ";" else ""
  }

  // ---------------------------------------------------------------- the connector rule

  /**
   * Entry i of a WHERE or HAVING list is preceded by its connector exactly when an
   * earlier entry exists, that entry is not an opening parenthesis, and entry i is
   * not a closing parenthesis.
   */
  predicate EmitsConnector(conds: seq<Condition>, i: nat)
    requires i < |conds|
  {
    i > 0 && conds[i - 1].token != OpeningParenthesis && conds[i].token != ClosingParenthesis
  }

  /** The text entry i contributes: its connector when the rule asks for one, then its token. */
  function EntryText(conds: seq<Condition>, i: nat): string
    requires i < |conds|
  {
    (if EmitsConnector(conds, i) then " " + conds[i].connector + " " else "") + conds[i].token
  }

  /** The body of a WHERE or HAVING clause. */
  function ConditionsText(conds: seq<Condition>): string
    decreases |conds|
  {
    if conds == [] then ""
    else ConditionsText(conds[..|conds| - 1]) + EntryText(conds, |conds| - 1)
  }

  /** A WHERE or HAVING clause: left out when it has no entries. */
  function FilterText(keyword: string, conds: seq<Condition>): string {
    if |conds| > 0 then keyword + ConditionsText(conds) else ""
  }

  function WhereText(d: SelectData): string {
    FilterText(" WHERE ", d.where)
  }

  function HavingText(d: SelectData): string {
    FilterText(" HAVING ", d.having)
  }

  /** FROM, the joins, WHERE, GROUP BY and HAVING, in that order, as every dialect renders them. */
  function BodyText(d: SelectData): string {
    FromText(d) + JoinsText(d.joins) + WhereText(d) + GroupByText(d) + HavingText(d)
  }

  // ---------------------------------------------------------------- the connector rule as a token stream

  /** A WHERE/HAVING body seen as a stream of connectors and tokens. */
  datatype Item = Connector(connector: string) | Token(token: string)

  function ItemText(it: Item): string {
    match it
    case Connector(c) => " " + c + " "
    case Token(t) => t
  }

  function Flatten(items: seq<Item>): string
    decreases |items|
  {
    if items == [] then "" else ItemText(items[0]) + Flatten(items[1..])
  }

  /**
   * The stream the source's `$append` state machine produces: `append` says whether
   * the previous entry allows a connector after it.
   */
  function StreamFrom(conds: seq<Condition>, append: bool): seq<Item>
    decreases |conds|
  {
    if conds == [] then []
    else
      (if append && conds[0].token != ClosingParenthesis then [Connector(conds[0].connector)] else [])
      + [Token(conds[0].token)]
      + StreamFrom(conds[1..], conds[0].token != OpeningParenthesis)
  }

  function Stream(conds: seq<Condition>): seq<Item> {
    StreamFrom(conds, false)
  }

  /** The tokens of a stream, connectors erased. */
  function TokensOf(items: seq<Item>): seq<string>
    decreases |items|
  {
    if items == [] then []
    else (if items[0].Token? then [items[0].token] else []) + TokensOf(items[1..])
  }

  function Tokens(conds: seq<Condition>): seq<string>
    decreases |conds|
  {
    if conds == [] then [] else [conds[0].token] + Tokens(conds[1..])
  }

  /**
   * Every connector sits between two tokens, never right after an opening
   * parenthesis and never right before a closing one.
   */
  predicate WellPlaced(items: seq<Item>) {
    forall k :: 0 <= k < |items| && items[k].Connector? ==>
      0 < k < |items| - 1 &&
      items[k - 1].Token? && items[k - 1].token != OpeningParenthesis &&
      items[k + 1].Token? && items[k + 1].token != ClosingParenthesis
  }

  lemma {:induction false} FlattenAppend(a: seq<Item>, b: seq<Item>)
    ensures Flatten(a + b) == Flatten(a) + Flatten(b)
    decreases |a|
  {
    if a == [] {
      assert a + b == b;
    } else {
      assert (a + b)[0] == a[0];
      assert (a + b)[1..] == a[1..] + b;
      FlattenAppend(a[1..], b);
    }
  }

  lemma {:induction false} TokensOfAppend(a: seq<Item>, b: seq<Item>)
    ensures TokensOf(a + b) == TokensOf(a) + TokensOf(b)
    decreases |a|
  {
    if a == [] {
      assert a + b == b;
    } else {
      assert (a + b)[0] == a[0];
      assert (a + b)[1..] == a[1..] + b;
      TokensOfAppend(a[1..], b);
    }
  }

  /** Adding an entry at the end adds its connector (when the rule allows one) and its token. */
  lemma {:induction false} StreamFromSnoc(conds: seq<Condition>, x: Condition, append: bool)
    ensures StreamFrom(conds + [x], append) ==
      StreamFrom(conds, append)
      + (if (if conds == [] then append else conds[|conds| - 1].token != OpeningParenthesis)
            && x.token != ClosingParenthesis
         then [Connector(x.connector)] else [])
      + [Token(x.token)]
    decreases |conds|
  {
    if conds != [] {
      assert (conds + [x])[1..] == conds[1..] + [x];
      StreamFromSnoc(conds[1..], x, conds[0].token != OpeningParenthesis);
    }
  }

  /** The positional rule and the `$append` state machine render the same text. */
  lemma {:induction false} ConditionsTextIsStream(conds: seq<Condition>)
    ensures ConditionsText(conds) == Flatten(Stream(conds))
    decreases |conds|
  {
    if conds != [] {
      var n := |conds| - 1;
      var init := conds[..n];
      assert conds == init + [conds[n]];
      ConditionsTextIsStream(init);
      StreamFromSnoc(init, conds[n], false);
      var tail :=
        (if EmitsConnector(conds, n) then [Connector(conds[n].connector)] else []) + [Token(conds[n].token)];
      assert Stream(conds) == Stream(init) + tail;
      FlattenAppend(Stream(init), tail);
      var last := [Token(conds[n].token)];
      assert Flatten(last) == conds[n].token by {
        assert last[1..] == [];
      }
      if EmitsConnector(conds, n) {
        assert tail[1..] == last;
        assert Flatten(tail) == " " + conds[n].connector + " " + conds[n].token;
      } else {
        assert Flatten(tail) == conds[n].token;
      }
    }
  }

  /** The rendered stream carries every token, in order, and nothing else besides connectors. */
  lemma {:induction false} StreamKeepsTokens(conds: seq<Condition>, append: bool)
    ensures TokensOf(StreamFrom(conds, append)) == Tokens(conds)
    decreases |conds|
  {
    if conds != [] {
      var head := (if append && conds[0].token != ClosingParenthesis then [Connector(conds[0].connector)] else [])
        + [Token(conds[0].token)];
      var rest := StreamFrom(conds[1..], conds[0].token != OpeningParenthesis);
      assert StreamFrom(conds, append) == head + rest;
      TokensOfAppend(head, rest);
      StreamKeepsTokens(conds[1..], conds[0].token != OpeningParenthesis);
      if append && conds[0].token != ClosingParenthesis {
        assert head[1..] == [Token(conds[0].token)];
      }
    }
  }

  /** A token, then at most one connector it allows, then a well-placed stream opening with a token. */
  lemma WellPlacedPrefix(prev: string, conn: seq<Item>, y: seq<Item>)
    requires WellPlaced(y) && |y| > 0 && y[0].Token?
    requires conn == [] || (|conn| == 1 && conn[0].Connector?
      && prev != OpeningParenthesis && y[0].token != ClosingParenthesis)
    ensures WellPlaced([Token(prev)] + conn + y)
  {
    var items := [Token(prev)] + conn + y;
    forall k | 0 <= k < |items| && items[k].Connector?
      ensures 0 < k < |items| - 1
      ensures items[k - 1].Token? && items[k - 1].token != OpeningParenthesis
      ensures items[k + 1].Token? && items[k + 1].token != ClosingParenthesis
    {
      var j := k - 1 - |conn|;
      if k > |conn| {
        assert items[k] == y[j];
        assert items[k - 1] == y[j - 1] && items[k + 1] == y[j + 1];
      } else {
        assert items[k + 1] == y[0];
      }
    }
  }

  lemma {:induction false} WellPlacedAfterToken(prev: string, conds: seq<Condition>)
    ensures WellPlaced([Token(prev)] + StreamFrom(conds, prev != OpeningParenthesis))
    decreases |conds|
  {
    if conds != [] {
      var c := conds[0];
      var conn: seq<Item> := if prev != OpeningParenthesis && c.token != ClosingParenthesis then [Connector(c.connector)] else [];
      var y := [Token(c.token)] + StreamFrom(conds[1..], c.token != OpeningParenthesis);
      WellPlacedAfterToken(c.token, conds[1..]);
      WellPlacedPrefix(prev, conn, y);
      assert [Token(prev)] + StreamFrom(conds, prev != OpeningParenthesis) == [Token(prev)] + conn + y;
    }
  }

  /** No connector is ever emitted at the start, right after `(`, right before `)` or at the end. */
  lemma StreamWellPlaced(conds: seq<Condition>)
    ensures WellPlaced(Stream(conds))
  {
    if conds != [] {
      WellPlacedAfterToken(conds[0].token, conds[1..]);
      assert Stream(conds) ==
        [Token(conds[0].token)] + StreamFrom(conds[1..], conds[0].token != OpeningParenthesis);
    }
  }

  // ---------------------------------------------------------------- the loops the builders run

  /** Appending clause by clause builds the same text as appending their concatenation. */
  lemma Regroup(s: string, a: string, b: string, c: string, d: string, e: string)
    ensures s + (a + b + c + d + e) == s + a + b + c + d + e
  {
  }

  /** foreach ($this->data['join'] as $join) { ... } */
  method AppendJoins(sql: string, joins: seq<Join>) returns (r: string)
    ensures r == sql + JoinsText(joins)
  {
    r := sql;
    var i := 0;
    while i < |joins|
      invariant 0 <= i <= |joins|
      invariant r == sql + JoinsText(joins[..i])
    {
      var join := joins[i];
      r := r + " " + join.clause;
      if |join.on| > 0 {
        r := r + " ON (" + Implode(" AND ", join.on) + ")";
      } else if |join.using| > 0 {
        r := r + " USING (" + Implode(", ", join.using) + ")";
      }
      assert joins[..i + 1][..i] == joins[..i];
      i := i + 1;
    }
    assert joins[..i] == joins;
  }

  /** The WHERE/HAVING loop with its `$append` flag. */
  method AppendConditions(sql: string, conds: seq<Condition>) returns (r: string)
    ensures r == sql + ConditionsText(conds)
  {
    r := sql;
    var append := false;
    var i := 0;
    while i < |conds|
      invariant 0 <= i <= |conds|
      invariant append == (i > 0 && conds[i - 1].token != OpeningParenthesis)
      invariant r == sql + ConditionsText(conds[..i])
    {
      var cond := conds[i];
      if append && cond.token != ClosingParenthesis {
        r := r + " " + cond.connector + " ";
      }
      r := r + cond.token;
      append := cond.token != OpeningParenthesis;
      assert conds[..i + 1][..i] == conds[..i];
      assert EntryText(conds[..i + 1], i) == EntryText(conds, i);
      i := i + 1;
    }
    assert conds[..i] == conds;
  }

  /** foreach ($this->data['combine'] as $combine) { $sql .= " {$combine}"; } */
  method AppendCombines(sql: string, entries: seq<string>) returns (r: string)
    ensures r == sql + CombineText(entries)
  {
    r := sql;
    var i := 0;
    while i < |entries|
      invariant 0 <= i <= |entries|
      invariant r == sql + CombineText(entries[..i])
    {
      r := r + " " + entries[i];
      assert entries[..i + 1][..i] == entries[..i];
      i := i + 1;
    }
    assert entries[..i] == entries;
  }

  /** `if ( ! empty(...)) { $append = FALSE; $sql .= keyword; foreach ... }` */
  method AppendFilter(sql: string, keyword: string, conds: seq<Condition>) returns (r: string)
    ensures r == sql + FilterText(keyword, conds)
  {
    r := sql;
    if |conds| > 0 {
      r := AppendConditions(r + keyword, conds);
    }
  }

  /** The FROM, join, WHERE, GROUP BY and HAVING steps of a statement() method. */
  method AppendBody(sql: string, d: SelectData) returns (r: string)
    ensures r == sql + BodyText(d)
  {
    r := sql;
    if d.from.Some? {
      r := r + FromText(d);
    }
    assert r == sql + FromText(d);
    r := AppendJoins(r, d.joins);
    ghost var upToJoins := r;
    r := AppendFilter(r, " WHERE ", d.where);
    ghost var upToWhere := r;
    if |d.groupBy| > 0 {
      r := r + GroupByText(d);
    }
    assert r == upToWhere + GroupByText(d);
    r := AppendFilter(r, " HAVING ", d.having);
    Regroup(sql, FromText(d), JoinsText(d.joins), WhereText(d), GroupByText(d), HavingText(d));
  }
}
