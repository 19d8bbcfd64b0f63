/**
 * The SQLite precompiler: it checks and normalises the tokens a builder puts
 * into a statement (aliases, identifiers, connectors, join types, operators,
 * parentheses, natural numbers) and renders PHP values as SQLite literals.
 * The token sets are those of the DB_SQL_Connector, DB_SQL_JoinType and
 * DB_SQL_Operator enumerations.
 */
module SQLiteExpression {
  import opened Wrappers
  import opened PhpStrings
  import opened PhpValues

  // ---------------------------------------------------------------- aliases and identifiers

  /** The characters an alias or identifier segment loses: [ ] " ' and the backquote. */
  const QuoteChars: set<char> := {'[', ']', '"', '\'', '`'}

  /** A segment without its quoting characters, trimmed and put in brackets. */
  function Bracket(s: string): (r: string)
    ensures |r| >= 2 && r[0] == '[' && r[|r| - 1] == ']'
    ensures forall i :: 0 < i < |r| - 1 ==> r[i] !in QuoteChars && r[i] in s
  {
    var cleaned := RemoveChars(s, QuoteChars);
    TrimKeepsCharacters(cleaned);
    "[" + Trim(cleaned) + "]"
  }

  /** prepare_alias($expr) */
  function PrepareAlias(expr: Mixed): (r: Result<string>)
    ensures r.Ok? <==> expr.Str?
    ensures r.Ok? ==> r.value == Bracket(expr.s)
    ensures r.Err? ==> r.error == InvalidArgument
  {
    if expr.Str? then Ok(Bracket(expr.s)) else Err(InvalidArgument)
  }

  /** Trimming what is already trimmed changes nothing. */
  lemma TrimTrimmed(s: string)
    ensures Trim(Trim(s)) == Trim(s)
  {
    var t := Trim(s);
    TrimIsInfix(s);
    assert TrimLeft(t) == t;
    assert TrimRight(t) == t;
  }

  /** Preparing an alias twice gives the same result as preparing it once. */
  lemma AliasIdempotent(s: string)
    ensures PrepareAlias(Str(Bracket(s))) == PrepareAlias(Str(s))
  {
    var t := Trim(RemoveChars(s, QuoteChars));
    var b := Bracket(s);
    assert b == "[" + t + "]";
    assert forall i :: 0 <= i < |t| ==> t[i] == b[i + 1];
    RemoveCharsAppend("[", t + "]", QuoteChars);
    RemoveCharsAppend(t, "]", QuoteChars);
    RemoveCharsClean(t, QuoteChars);
    assert RemoveChars("[", QuoteChars) == "" && RemoveChars("]", QuoteChars) == "";
    assert "[" + t + "]" == "[" + (t + "]");
    assert RemoveChars(b, QuoteChars) == t;
    TrimTrimmed(RemoveChars(s, QuoteChars));
  }

  /** Each `.`-separated segment bracketed. */
  function BracketAll(parts: seq<string>): (r: seq<string>)
    ensures |r| == |parts|
  {
    seq(|parts|, i requires 0 <= i < |parts| => Bracket(parts[i]))
  }

  /** The dotted identifier with every segment bracketed. */
  function IdentifierText(s: string): string {
    Implode(".", BracketAll(Explode('.', s)))
  }

  /** `preg_match('/^SELECT.*$/i', $expr)`: `.` stops at a newline and `$` also matches before a final newline. */
  predicate IsRawSelect(s: string) {
    StartsWithIgnoringCase(s, "SELECT") &&
    forall i :: 6 <= i < |s| - 1 ==> s[i] != '\n'
  }

  /**
   * The raw SELECT branch as written: `count($expr - 1)` counts a non-countable
   * integer, which gives 1, so the character tested for the semicolon is `$expr[1]`.
   */
  function RawSelectText(s: string): string
    requires IsRawSelect(s)
  {
    if s[1] == ';' then "(" + s[..|s| - 1] + ")" else "(" + s + ")"
  }

  /** prepare_identifier($expr) */
  method PrepareIdentifier(expr: Mixed) returns (r: Result<string>)
    ensures expr.SelectBuilder? && expr.dialect == MySQL ==> r == Ok("(" + expr.statement + ")")
    ensures expr.Expression? ==> r == Ok(expr.value)
    ensures !(expr.SelectBuilder? && expr.dialect == MySQL) && !expr.Expression? && !expr.Str? ==>
              r == Err(InvalidArgument)
    ensures expr.Str? && IsRawSelect(expr.s) ==> r == Ok(RawSelectText(expr.s))
    ensures expr.Str? && !IsRawSelect(expr.s) ==> r == Ok(IdentifierText(expr.s))
  {
    if expr.SelectBuilder? && expr.dialect == MySQL {
      return Ok("(" + expr.statement + ")");
    } else if expr.Expression? {
      return Ok(expr.value);
    } else if !expr.Str? {
      return Err(InvalidArgument);
    } else if IsRawSelect(expr.s) {
      var s := expr.s;
      if s[1] == ';' {
        s := s[..|s| - 1];
      }
      return Ok("(" + s + ")");
    }
    var parts := Explode('.', expr.s);
    var i := 0;
    while i < |parts|
      invariant 0 <= i <= |parts| == |Explode('.', expr.s)|
      invariant forall k :: 0 <= k < i ==> parts[k] == Bracket(Explode('.', expr.s)[k])
      invariant forall k :: i <= k < |parts| ==> parts[k] == Explode('.', expr.s)[k]
    {
      parts := parts[i := Bracket(parts[i])];
      i := i + 1;
    }
    assert parts == BracketAll(Explode('.', expr.s));
    r := Ok(Implode(".", parts));
  }

  lemma BracketKeepsOutDots(p: string)
    requires '.' !in p
    ensures '.' !in Bracket(p)
  {
    var b := Bracket(p);
    forall i | 0 <= i < |b| ensures b[i] != '.' {
      if 0 < i < |b| - 1 {
        assert b[i] in p;
      }
    }
  }

  /**
   * The identifier has as many `.`-separated segments as its input, each the
   * bracketed input segment, with no quoting character inside the brackets.
   */
  lemma IdentifierSegments(s: string)
    ensures Explode('.', IdentifierText(s)) == BracketAll(Explode('.', s))
    ensures |Explode('.', IdentifierText(s))| == |Explode('.', s)|
  {
    var parts := Explode('.', s);
    var bracketed := BracketAll(parts);
    forall k | 0 <= k < |bracketed| ensures '.' !in bracketed[k] {
      BracketKeepsOutDots(parts[k]);
    }
    ExplodeImplode('.', bracketed);
  }

  /** A raw SELECT keeps its semicolon: `SELECT 1;` becomes `(SELECT 1;)`. */
  lemma RawSelectKeepsSemicolon(s: string)
    requires IsRawSelect(s)
    ensures RawSelectText(s) == "(" + s + ")"
    ensures RawSelectText("SELECT 1;") == "(SELECT 1;)"
  {
    assert Upper(s[1]) == ToUpper(s[..6])[1] == 'E';
    var t := "SELECT 1;";
    assert ToUpper(t[..6]) == "SELECT";
  }

  /** The raw SELECT branch as intended: a terminating semicolon is dropped before the parentheses. */
  function CorrectedRawSelectText(s: string): string {
    if |s| > 0 && s[|s| - 1] == ';' then "(" + s[..|s| - 1] + ")" else "(" + s + ")"
  }

  lemma CorrectedRawSelectDropsTerminator(s: string)
    ensures CorrectedRawSelectText(s + ";") == "(" + s + ")"
    ensures (|s| == 0 || s[|s| - 1] != ';') ==> CorrectedRawSelectText(s) == "(" + s + ")"
  {
    assert (s + ";")[..|s|] == s;
  }

  // ---------------------------------------------------------------- enumerated tokens

  /** DB_SQL_Connector: _AND_ and _OR_. */
  const Connectors: set<string> := {"AND", "OR"}

  /** DB_SQL_JoinType: the nine join types SQLite accepts. */
  const JoinTypes: set<string> := {
    "CROSS", "INNER", "LEFT", "LEFT OUTER", "NATURAL", "NATURAL CROSS", "NATURAL INNER",
    "NATURAL LEFT", "NATURAL LEFT OUTER"}

  /** The comparison operators returned as given (after upper-casing). */
  const ComparisonTokens: set<string> := {
    "<>", "=", "BETWEEN", "NOT BETWEEN", "LIKE", "NOT LIKE", "<", "<=", ">", ">=",
    "IN", "NOT IN", "IS", "IS NOT", "GLOB", "NOT GLOB", "MATCH", "NOT MATCH"}

  /** The set operators. */
  const SetTokens: set<string> := {"EXCEPT", "INTERSECT", "UNION", "UNION ALL"}

  /** Every token above has no lowercase letter, so upper-casing keeps it. */
  predicate IsUpperCase(s: string) {
    forall i :: 0 <= i < |s| ==> !('a' <= s[i] <= 'z')
  }

  lemma UpperCaseFixed(s: string)
    requires IsUpperCase(s)
    ensures ToUpper(s) == s
  {
  }

  lemma ToUpperIsUpperCase(s: string)
    ensures IsUpperCase(ToUpper(s))
  {
  }

  /** prepare_connector($expr) */
  function PrepareConnector(expr: Mixed): (r: Result<string>)
    ensures r.Ok? <==> expr.Str? && ToUpper(expr.s) in Connectors
    ensures r.Ok? ==> r.value == ToUpper(expr.s) && r.value in Connectors
    ensures r.Err? ==> r.error == InvalidArgument
  {
    if expr.Str? && ToUpper(expr.s) in Connectors then Ok(ToUpper(expr.s)) else Err(InvalidArgument)
  }

  /** prepare_join($expr) */
  function PrepareJoin(expr: Mixed): (r: Result<string>)
    ensures r.Ok? <==> expr.Str? && ToUpper(expr.s) in JoinTypes
    ensures r.Ok? ==> r.value == ToUpper(expr.s) && r.value in JoinTypes
    ensures r.Err? ==> r.error == InvalidArgument
  {
    if expr.Str? && ToUpper(expr.s) in JoinTypes then Ok(ToUpper(expr.s)) else Err(InvalidArgument)
  }

  /** The comparison operator a token names, after upper-casing; None when it names none. */
  function ComparisonOperator(e: string): Option<string> {
    if e == "REGEX" || e == "REGEXP" then Some("REGEXP")
    else if e == "NOT REGEX" || e == "NOT REGEXP" then Some("NOT REGEXP")
    else if e == "!=" then Some("<>")
    else if e in ComparisonTokens then Some(e)
    else None
  }

  /** prepare_operator($group, $expr) */
  function PrepareOperator(group: Mixed, expr: Mixed): (r: Result<string>)
    ensures !(group.Str? && expr.Str?) ==> r == Err(InvalidArgument)
    ensures r.Err? ==> r.error == InvalidArgument
  {
    if group.Str? && expr.Str? then
      var g := ToUpper(group.s);
      var e := ToUpper(expr.s);
      if g == "COMPARISON" && ComparisonOperator(e).Some? then Ok(ComparisonOperator(e).value)
      else if g == "SET" && e in SetTokens then Ok(e)
      else Err(InvalidArgument)
    else Err(InvalidArgument)
  }

  /** prepare_parenthesis($expr): no case mapping. */
  function PrepareParenthesis(expr: Mixed): (r: Result<string>)
    ensures r.Ok? <==> expr.Str? && (expr.s == "(" || expr.s == ")")
    ensures r.Ok? ==> r.value == expr.s
    ensures r.Err? ==> r.error == InvalidArgument
  {
    if expr.Str? && (expr.s == "(" || expr.s == ")") then Ok(expr.s) else Err(InvalidArgument)
  }

  lemma ConnectorsUpperCase()
    ensures forall t :: t in Connectors ==> IsUpperCase(t)
  {
  }

  lemma JoinTypesUpperCase()
    ensures forall t :: t in JoinTypes ==> IsUpperCase(t)
  {
    forall t | t in JoinTypes ensures IsUpperCase(t) {
      assert t in {"CROSS", "INNER", "LEFT", "LEFT OUTER", "NATURAL"} || t in {"NATURAL CROSS", "NATURAL INNER",
        "NATURAL LEFT", "NATURAL LEFT OUTER"};
    }
  }

  lemma ComparisonTokensUpperCase()
    ensures forall t :: t in ComparisonTokens ==> IsUpperCase(t)
  {
    forall t | t in ComparisonTokens ensures IsUpperCase(t) {
      assert t in {"<>", "=", "BETWEEN", "NOT BETWEEN", "LIKE", "NOT LIKE"} || t in {"<", "<=", ">", ">=", "IN", "NOT IN"}
        || t in {"IS", "IS NOT", "GLOB", "NOT GLOB", "MATCH", "NOT MATCH"};
    }
  }

  lemma SetTokensUpperCase()
    ensures forall t :: t in SetTokens ==> IsUpperCase(t)
  {
  }

  lemma TokenSetsUpperCase()
    ensures forall t :: t in Connectors ==> ToUpper(t) == t
    ensures forall t :: t in JoinTypes ==> ToUpper(t) == t
    ensures forall t :: t in ComparisonTokens ==> ToUpper(t) == t
    ensures forall t :: t in SetTokens ==> ToUpper(t) == t
    ensures ToUpper("REGEXP") == "REGEXP" && ToUpper("NOT REGEXP") == "NOT REGEXP"
  {
    ConnectorsUpperCase();
    JoinTypesUpperCase();
    ComparisonTokensUpperCase();
    SetTokensUpperCase();
    forall t | IsUpperCase(t) ensures ToUpper(t) == t {
      UpperCaseFixed(t);
    }
    assert IsUpperCase("REGEXP") && IsUpperCase("NOT REGEXP");
  }

  /** What prepare_operator accepts, in both directions, and what it returns. */
  lemma OperatorAccepts(group: string, expr: string)
    ensures var r := PrepareOperator(Str(group), Str(expr));
            var e := ToUpper(expr);
            (r.Ok? <==>
              (EqualIgnoringCase(group, "COMPARISON") &&
                (e in ComparisonTokens || e in {"REGEX", "REGEXP", "NOT REGEX", "NOT REGEXP", "!="})) ||
              (EqualIgnoringCase(group, "SET") && e in SetTokens)) &&
            (r.Ok? && EqualIgnoringCase(group, "COMPARISON") ==>
              r.value in ComparisonTokens + {"REGEXP", "NOT REGEXP"}) &&
            (r.Ok? && EqualIgnoringCase(group, "SET") ==> r.value in SetTokens)
  {
    TokenSetsUpperCase();
  }

  /** `!=` and `<>` give the same operator, and the regex spellings give REGEXP and NOT REGEXP. */
  lemma OperatorNormalises()
    ensures PrepareOperator(Str("comparison"), Str("!=")) == Ok("<>")
    ensures PrepareOperator(Str("comparison"), Str("<>")) == Ok("<>")
    ensures PrepareOperator(Str("COMPARISON"), Str("regex")) == Ok("REGEXP")
    ensures PrepareOperator(Str("Comparison"), Str("not regex")) == Ok("NOT REGEXP")
  {
    assert ToUpper("comparison") == "COMPARISON" && ToUpper("Comparison") == "COMPARISON";
    assert ToUpper("COMPARISON") == "COMPARISON" by {
      TokenSetsUpperCase();
      UpperCaseFixed("COMPARISON");
    }
    ComparisonSpelling("comparison", "!=", "!=", "<>");
    ComparisonSpelling("comparison", "<>", "<>", "<>");
    ComparisonSpelling("COMPARISON", "regex", "REGEX", "REGEXP");
    ComparisonSpelling("Comparison", "not regex", "NOT REGEX", "NOT REGEXP");
  }

  /** An operator in the COMPARISON group prepares to what its upper-case spelling names. */
  lemma ComparisonSpelling(group: string, expr: string, upper: string, op: string)
    requires ToUpper(group) == "COMPARISON" && ToUpper(expr) == upper
    requires ComparisonOperator(upper) == Some(op)
    ensures PrepareOperator(Str(group), Str(expr)) == Ok(op)
  {
  }

  /** Preparing an operator that prepare_operator returned gives it back unchanged. */
  lemma OperatorIdempotent(group: Mixed, expr: Mixed)
    requires PrepareOperator(group, expr).Ok?
    ensures PrepareOperator(group, Str(PrepareOperator(group, expr).value)) == PrepareOperator(group, expr)
  {
    TokenSetsUpperCase();
  }

  /** Connectors and join types are idempotent in the same way. */
  lemma ConnectorAndJoinIdempotent(expr: Mixed)
    ensures PrepareConnector(expr).Ok? ==> PrepareConnector(Str(PrepareConnector(expr).value)) == PrepareConnector(expr)
    ensures PrepareJoin(expr).Ok? ==> PrepareJoin(Str(PrepareJoin(expr).value)) == PrepareJoin(expr)
  {
    TokenSetsUpperCase();
  }

  // ---------------------------------------------------------------- natural numbers

  /** prepare_natural($expr): the integer cast, then its absolute value. */
  function PrepareNatural(expr: Mixed): (r: nat)
    ensures r == ToInt(expr) || r == -ToInt(expr)
  {
    var n := ToInt(expr);
    if n < 0 then -n else n
  }

  /** A natural number is its own natural, the decimal text of an integer gives its magnitude, and preparing twice changes nothing. */
  lemma NaturalProperties(expr: Mixed, n: nat, i: int)
    ensures PrepareNatural(Int(n)) == n
    ensures PrepareNatural(Str(IntToString(i))) == if i < 0 then -i else i
    ensures PrepareNatural(Int(PrepareNatural(expr))) == PrepareNatural(expr)
  {
    StringToIntOfIntToString(i);
  }

  // ---------------------------------------------------------------- values

  /** A character of a date-time pattern: d a digit, s a `\s` space, anything else itself. */
  predicate FitsPattern(c: string, pattern: string) {
    |c| == |pattern| &&
    forall i :: 0 <= i < |c| ==>
      if pattern[i] == 'd' then IsDigit(c[i])
      else if pattern[i] == 's' then IsSpace(c[i])
      else c[i] == pattern[i]
  }

  predicate IsDateTimeBody(c: string) {
    FitsPattern(c, "dddd-dd-dd") || FitsPattern(c, "dddd-dd-ddsdd:dd:dd")
  }

  /** `^[0-9]{4}-[0-9]{2}-[0-9]{2}(\s[0-9]{2}:[0-9]{2}:[0-9]{2})?$`, where `$` also matches before a final newline. */
  predicate IsDateTime(s: string) {
    IsDateTimeBody(s) || (|s| > 0 && s[|s| - 1] == '\n' && IsDateTimeBody(s[..|s| - 1]))
  }

  /** The literal prepare_value gives a string. */
  function StringValue(s: string): string {
    if IsDateTime(s) then "'" + s + "'"
    else if s == "" || s == "0" then "''"
    else "0x" + BinToHex(s)
  }

  /** prepare_value($expr); integers are returned as their decimal text. */
  function PrepareValue(expr: Mixed): (r: Result<string>)
    ensures expr.Null? ==> r == Ok("NULL")
    ensures expr.Bool? ==> r == Ok(if expr.b then "'1'" else "'0'")
    ensures expr.Int? ==> r == Ok(IntToString(expr.i))
    ensures expr.Str? ==> r == Ok(StringValue(expr.s))
    ensures expr.Expression? ==> r == Ok(expr.value)
    ensures expr.SelectBuilder? && expr.dialect == SQLite ==> r == Ok("(" + expr.statement + ")")
    ensures (expr.SelectBuilder? && expr.dialect != SQLite) || expr.Object? ==>
              r == if expr.stringForm.Some? then Ok(StringValue(expr.stringForm.value)) else Err(TypeMismatch)
    ensures expr.Array? ==> (r.Ok? <==> PrepareValues(expr.items).Ok?)
    ensures r.Ok? ==> |r.value| > 0 || (expr.Expression? && expr.value == "")
    decreases expr, 1
  {
    match expr
    case Null => Ok("NULL")
    case Bool(b) => Ok(if b then "'1'" else "'0'")
    case Array(items) =>
      var vs := PrepareValues(items);
      if vs.Ok? then Ok("(" + Implode(", ", vs.value) + ")") else Err(vs.error)
    case SelectBuilder(dialect, statement, stringForm) =>
      if dialect == SQLite then Ok("(" + statement + ")")
      else if stringForm.Some? then Ok(StringValue(stringForm.value))
      else Err(TypeMismatch)
    case Expression(v) => Ok(v)
    case Object(stringForm) =>
      // prepare_value((string)$expr) on the string goes straight to the string branches
      if stringForm.Some? then Ok(StringValue(stringForm.value)) else Err(TypeMismatch)
    case Int(i) => Ok(IntToString(i))
    case Str(s) => Ok(StringValue(s))
  }

  /** array_map(prepare_value, $items): every element in order, failing on the first that fails. */
  function PrepareValues(items: seq<Mixed>): (r: Result<seq<string>>)
    ensures r.Ok? ==> |r.value| == |items| && forall k :: 0 <= k < |items| ==> PrepareValue(items[k]) == Ok(r.value[k])
    ensures r.Err? ==> exists k :: 0 <= k < |items| && PrepareValue(items[k]).Err?
    decreases items, 0
  {
    if items == [] then Ok([])
    else
      var head := PrepareValue(items[0]);
      if head.Err? then Err(head.error)
      else
        var rest := PrepareValues(items[1..]);
        if rest.Err? then Err(rest.error)
        else Ok([head.value] + rest.value)
  }

  /** A date-time is quoted verbatim; it never holds a quote character. */
  lemma DateTimeHasNoQuote(s: string)
    requires IsDateTime(s)
    ensures forall i :: 0 <= i < |s| ==> s[i] != '\''
  {
  }

  /**
   * The literal for a string: quotes appear only as its first and last
   * character, and a hexadecimal literal decodes back to the string.
   */
  lemma StringValueSafe(s: string)
    ensures var r := StringValue(s);
            forall i :: 0 < i < |r| - 1 ==> r[i] != '\''
    ensures var r := StringValue(s);
            !IsDateTime(s) && s != "" && s != "0" ==>
              |r| == 2 + 2 * |s| && r[..2] == "0x" && (forall i :: 2 <= i < |r| ==> IsLowerHexDigit(r[i]))
    ensures var r := StringValue(s);
            IsByteString(s) && !IsDateTime(s) && s != "" && s != "0" ==> PackHex(r[2..]) == s
  {
    var r := StringValue(s);
    if IsDateTime(s) {
      DateTimeHasNoQuote(s);
      assert forall i :: 0 < i < |r| - 1 ==> r[i] == s[i - 1];
    } else if s != "" && s != "0" {
      assert r[2..] == BinToHex(s);
      if IsByteString(s) {
        PackBinToHex(s);
      }
    }
  }

  /** The empty string and "0" both give `''`: the string "0" is not kept. */
  lemma EmptyStringsCollapse()
    ensures PrepareValue(Str("")) == PrepareValue(Str("0")) == Ok("''")
  {
    assert !IsDateTime("") && !IsDateTime("0");
  }

  /** An array renders its elements, in order and one for one, between parentheses. */
  lemma ArrayValue(items: seq<Mixed>)
    ensures PrepareValue(Array(items)).Ok? <==> forall k :: 0 <= k < |items| ==> PrepareValue(items[k]).Ok?
    ensures PrepareValue(Array(items)).Ok? ==>
              PrepareValue(Array(items)).value ==
                "(" + Implode(", ", seq(|items|, k requires 0 <= k < |items| => PrepareValue(items[k]).value)) + ")"
  {
    var vs := PrepareValues(items);
    if vs.Ok? {
      assert vs.value == seq(|items|, k requires 0 <= k < |items| => PrepareValue(items[k]).value);
    }
  }
}
