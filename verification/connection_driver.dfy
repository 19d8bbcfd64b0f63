/**
 * The connection driver every dialect extends: its guarded entry points
 * (get_resource, query, reader, quote), the property reader, the disabled
 * result cache, and the string quoting that scrubs control characters and
 * percent codes before doubling quotes.
 */
module ConnectionDriver {
  import opened Wrappers
  import opened PhpStrings
  import opened PhpValues

  // ---------------------------------------------------------------- quote(): the removal passes

  /** The characters `[\x00-\x08\x0B\x0C\x0E-\x1F\x7F]`: control characters other than tab, LF and CR. */
  predicate IsRemovableControl(ch: char) {
    (0 <= ch as int <= 0x08) || ch as int == 0x0B || ch as int == 0x0C ||
    (0x0E <= ch as int <= 0x1F) || ch as int == 0x7F
  }

  /** The characters that may follow `%0` in a removed code: `[0-8bcef]`. */
  predicate FollowsZero(ch: char) {
    ('0' <= ch <= '8') || ch == 'b' || ch == 'c' || ch == 'e' || ch == 'f'
  }

  /** The characters that may follow `%1` in a removed code: `[0-9a-f]`. */
  predicate FollowsOne(ch: char) {
    ('0' <= ch <= '9') || ('a' <= ch <= 'f')
  }

  predicate CodeAt(s: string, i: int, lead: char, zero: bool)
    requires 0 <= i && i + 3 <= |s|
  {
    s[i] == '%' && s[i + 1] == lead && (if zero then FollowsZero(s[i + 2]) else FollowsOne(s[i + 2]))
  }

  predicate NoCode(s: string, lead: char, zero: bool) {
    forall i :: 0 <= i && i + 3 <= |s| ==> !CodeAt(s, i, lead, zero)
  }

  /**
   * preg_replace of `/%0[0-8bcef]/` (zero) or `/%1[0-9a-f]/` (not zero) with '':
   * a left-to-right scan that removes non-overlapping matches, with the number of matches.
   */
  function RemoveCodes(s: string, lead: char, zero: bool): (r: (string, nat))
    ensures |r.0| <= |s|
    ensures r.1 == 0 <==> r.0 == s
    ensures r.1 > 0 <==> |r.0| < |s|
    decreases |s|
  {
    if |s| >= 3 && CodeAt(s, 0, lead, zero) then
      var t := RemoveCodes(s[3..], lead, zero);
      (t.0, t.1 + 1)
    else if s == [] then ("", 0)
    else
      var t := RemoveCodes(s[1..], lead, zero);
      ([s[0]] + t.0, t.1)
  }

  /** A scan that removed nothing found no code, and one that removed something found one. */
  lemma {:induction false} RemoveCodesFinds(s: string, lead: char, zero: bool)
    ensures RemoveCodes(s, lead, zero).1 == 0 <==> NoCode(s, lead, zero)
    decreases |s|
  {
    if |s| >= 3 && CodeAt(s, 0, lead, zero) {
    } else if s != [] {
      RemoveCodesFinds(s[1..], lead, zero);
      forall i | 1 <= i && i + 3 <= |s|
        ensures CodeAt(s, i, lead, zero) == CodeAt(s[1..], i - 1, lead, zero)
      {
      }
      if !NoCode(s[1..], lead, zero) {
        var i :| 0 <= i && i + 3 <= |s| - 1 && CodeAt(s[1..], i, lead, zero);
        assert CodeAt(s, i + 1, lead, zero);
      }
    }
  }

  /** The scan removes only `%`, the lead digit and hex digits, so every other character keeps its count. */
  lemma {:induction false} RemoveCodesKeeps(s: string, lead: char, zero: bool, c: char)
    requires c != '%' && c != lead && !('0' <= c <= '9') && !('a' <= c <= 'f')
    ensures multiset(RemoveCodes(s, lead, zero).0)[c] == multiset(s)[c]
    decreases |s|
  {
    if |s| >= 3 && CodeAt(s, 0, lead, zero) {
      RemoveCodesKeeps(s[3..], lead, zero, c);
      assert s[2] != c;
      CountHead(s, c);
      CountHead(s[1..], c);
      CountHead(s[2..], c);
      assert s[1..][1..] == s[2..] && s[2..][1..] == s[3..];
    } else if s != [] {
      RemoveCodesKeeps(s[1..], lead, zero, c);
      CountHead(s, c);
      CountCons(s[0], RemoveCodes(s[1..], lead, zero).0, c);
    }
  }

  lemma CountHead(s: string, c: char)
    requires |s| > 0
    ensures multiset(s)[c] == (if s[0] == c then 1 else 0) + multiset(s[1..])[c]
  {
    assert s == [s[0]] + s[1..];
    CountCons(s[0], s[1..], c);
  }

  lemma CountCons(x: char, t: string, c: char)
    ensures multiset([x] + t)[c] == (if x == c then 1 else 0) + multiset(t)[c]
  {
    assert multiset([x] + t) == multiset{x} + multiset(t);
  }

  /** preg_replace of the control-character class with '': every such character removed, with how many. */
  function RemoveControls(s: string): (r: (string, nat))
    ensures r.1 == 0 <==> r.0 == s
    ensures r.1 > 0 <==> |r.0| < |s|
    ensures forall i :: 0 <= i < |r.0| ==> !IsRemovableControl(r.0[i])
    ensures forall c :: !IsRemovableControl(c) ==> multiset(r.0)[c] == multiset(s)[c]
    decreases |s|
  {
    if s == [] then ("", 0)
    else
      var t := RemoveControls(s[1..]);
      assert s == [s[0]] + s[1..];
      if IsRemovableControl(s[0]) then (t.0, t.1 + 1)
      else ([s[0]] + t.0, t.1)
  }

  /** One preg_replace($removables, '', $string, -1, $count): the three patterns in turn, and the total count. */
  function RemovalPass(s: string): (r: (string, nat))
    ensures r.1 == 0 <==> r.0 == s
    ensures r.1 > 0 ==> |r.0| < |s|
  {
    var a := RemoveCodes(s, '0', true);
    var b := RemoveCodes(a.0, '1', false);
    var c := RemoveControls(b.0);
    (c.0, a.1 + b.1 + c.1)
  }

  /** A pass removes nothing exactly when the string is clean, and it never removes a tab, LF or CR. */
  lemma RemovalPassClean(s: string)
    ensures RemovalPass(s).1 == 0 <==>
              NoCode(s, '0', true) && NoCode(s, '1', false) && forall i :: 0 <= i < |s| ==> !IsRemovableControl(s[i])
    ensures forall c :: c == '\t' || c == '\n' || c == '\r' ==> multiset(RemovalPass(s).0)[c] == multiset(s)[c]
  {
    var a := RemoveCodes(s, '0', true);
    var b := RemoveCodes(a.0, '1', false);
    RemoveCodesFinds(s, '0', true);
    RemoveCodesFinds(a.0, '1', false);
    if RemoveControls(b.0).1 > 0 {
      RemoveControlsFinds(b.0);
    }
    forall c | c == '\t' || c == '\n' || c == '\r'
      ensures multiset(RemovalPass(s).0)[c] == multiset(s)[c]
    {
      RemoveCodesKeeps(s, '0', true, c);
      RemoveCodesKeeps(a.0, '1', false, c);
    }
  }

  /** The string the removal loop ends with: passes repeat until one removes nothing. */
  function Scrub(s: string): string
    decreases |s|
  {
    var p := RemovalPass(s);
    if p.1 == 0 then s else Scrub(p.0)
  }

  /**
   * After the loop the string holds no removable control character and no
   * `%0[0-8bcef]` or `%1[0-9a-f]` code, and every tab, LF and CR is still there.
   */
  lemma {:induction false} ScrubClean(s: string)
    ensures forall i :: 0 <= i < |Scrub(s)| ==> !IsRemovableControl(Scrub(s)[i])
    ensures NoCode(Scrub(s), '0', true) && NoCode(Scrub(s), '1', false)
    ensures forall c :: c == '\t' || c == '\n' || c == '\r' ==> multiset(Scrub(s))[c] == multiset(s)[c]
    decreases |s|
  {
    var p := RemovalPass(s);
    RemovalPassClean(s);
    if p.1 != 0 {
      ScrubClean(p.0);
    }
  }

  /** Scrubbing a scrubbed string changes nothing. */
  lemma ScrubIdempotent(s: string)
    ensures Scrub(Scrub(s)) == Scrub(s)
  {
    ScrubClean(s);
    RemovalPassClean(Scrub(s));
  }

  lemma {:induction false} RemoveControlsFinds(s: string)
    requires RemoveControls(s).1 > 0
    ensures exists i :: 0 <= i < |s| && IsRemovableControl(s[i])
    decreases |s|
  {
    if !IsRemovableControl(s[0]) {
      RemoveControlsFinds(s[1..]);
      var i :| 0 <= i < |s| - 1 && IsRemovableControl(s[1..][i]);
      assert IsRemovableControl(s[i + 1]);
    }
  }

  // ---------------------------------------------------------------- quote(): the literal

  /** The body with every `'` doubled, between single quotes. */
  function QuotedText(body: string): string {
    "'" + ReplaceAll(body, "'", "''") + "'"
  }

  /**
   * How SQL reads a quoted literal after its opening quote: `''` stands for one
   * quote, and a single `'` closes the literal; the result is the body and what
   * follows the closing quote, or None when the text ends first.
   */
  function ReadLiteral(s: string): Option<(string, string)>
    decreases |s|
  {
    if s == [] then None
    else if s[0] == '\'' then
      if |s| >= 2 && s[1] == '\'' then
        match ReadLiteral(s[2..])
        case Some(r) => Some(("'" + r.0, r.1))
        case None => None
      else Some(("", s[1..]))
    else
      match ReadLiteral(s[1..])
      case Some(r) => Some(([s[0]] + r.0, r.1))
      case None => None
  }

  /** The quoted text reads back as exactly its body, and the literal closes at its final quote. */
  lemma {:induction false} QuotedTextReadsBack(body: string, rest: string)
    requires |rest| == 0 || rest[0] != '\''
    ensures ReadLiteral(ReplaceAll(body, "'", "''") + "'" + rest) == Some((body, rest))
    decreases |body|
  {
    var e := ReplaceAll(body, "'", "''");
    var s := e + "'" + rest;
    if body == [] {
      assert s == "'" + rest;
      assert s[1..] == rest;
    } else {
      var tail := ReplaceAll(body[1..], "'", "''");
      QuotedTextReadsBack(body[1..], rest);
      if body[0] == '\'' {
        assert body[..1] == "'";
        assert e == "''" + tail;
        assert s[2..] == tail + "'" + rest;
      } else {
        assert body[..1] != "'";
        assert e == [body[0]] + tail;
        assert s[1..] == tail + "'" + rest;
      }
      assert body == [body[0]] + body[1..];
    }
  }

  lemma QuotedTextReadsWhole(body: string, rest: string)
    requires |rest| == 0 || rest[0] != '\''
    ensures QuotedText(body)[0] == '\''
    ensures ReadLiteral(QuotedText(body)[1..] + rest) == Some((body, rest))
  {
    var e := ReplaceAll(body, "'", "''");
    assert QuotedText(body)[1..] == e + "'";
    assert e + "'" + rest == (e + "'") + rest;
    QuotedTextReadsBack(body, rest);
  }

  /** `ESCAPE '...'` is added when the escape is a string, even an empty one, or any non-empty value. */
  predicate AddsEscape(escape: Mixed) {
    escape.Str? || Truthy(escape)
  }

  /** The text quote() returns for a body that has been scrubbed. */
  function QuoteResult(body: string, escape: Mixed): Result<string> {
    if AddsEscape(escape) then
      match Interpolate(escape)
      case Ok(e) => Ok(QuotedText(body) + " ESCAPE '" + e + "'")
      case Err(err) => Err(err)
    else Ok(QuotedText(body))
  }

  // ---------------------------------------------------------------- the driver

  /** The data source a connection is opened for. */
  datatype DataSource = DataSource(id: string, dialect: string, driver: string)

  /** The lock builder Lock\Builder::factory makes for the driver's dialect. */
  datatype LockHandle = LockHandle(dialect: string)

  /** A result set read through a data reader, with its row type. */
  datatype ResultSet = ResultSet(reader: DataReader, rowType: string)

  /** A data reader over a command. */
  datatype DataReader = DataReader(command: Command)

  /** What __get returns. */
  datatype Property = CommandProperty(command: Command) | DataSourceProperty(dataSource: DataSource) | LockProperty(lock: LockHandle)

  /** cache($command, $type, $results): its body is commented out, so it hands back what it is given. */
  function Cache(command: Command, rowType: string, results: Option<ResultSet>): (r: Option<ResultSet>)
    ensures r == results
  {
    results
  }

  class Driver {
    var cacheKey: Option<string>
    var command: Command
    const dataSource: DataSource
    const lock: LockHandle
    /** The handle of the open connection; its type belongs to each dialect. */
    var resource: Option<nat>
    /** is_connected(), which each dialect's driver implements. */
    var connected: bool
    /**
     * DataReader::factory($this, $command): the dialect's reader runs the command and
     * raises an SQL error when it fails; its code is not part of this model.
     */
    const openReader: Command -> Result<DataReader>

    /** A driver starts without a resource, without a cache key and with an empty command. */
    constructor (dataSource: DataSource, openReader: Command -> Result<DataReader>)
      ensures this.dataSource == dataSource && lock == LockHandle(dataSource.dialect)
      ensures cacheKey == None && command == Command("") && resource == None && !connected
      ensures this.openReader == openReader
    {
      cacheKey := None;
      command := Command("");
      this.dataSource := dataSource;
      lock := LockHandle(dataSource.dialect);
      resource := None;
      connected := false;
      this.openReader := openReader;
    }

    /** What a dialect's open() or close() leaves behind; their code is not part of this model. */
    method SetConnection(open: bool, handle: Option<nat>)
      modifies this
      ensures connected == open && resource == handle
      ensures command == old(command) && cacheKey == old(cacheKey)
    {
      connected := open;
      resource := handle;
    }

    /** __get($key) */
    method Get(key: string) returns (r: Result<Property>)
      ensures key == "command" ==> r == Ok(CommandProperty(command))
      ensures key == "data_source" ==> r == Ok(DataSourceProperty(dataSource))
      ensures key == "lock" ==> r == Ok(LockProperty(lock))
      ensures key !in {"command", "data_source", "lock"} ==> r == Err(InvalidProperty)
    {
      if key == "command" {
        r := Ok(CommandProperty(command));
      } else if key == "data_source" {
        r := Ok(DataSourceProperty(dataSource));
      } else if key == "lock" {
        r := Ok(LockProperty(lock));
      } else {
        r := Err(InvalidProperty);
      }
    }

    /** get_resource() */
    method GetResource() returns (r: Result<Option<nat>>)
      ensures connected ==> r == Ok(resource)
      ensures !connected ==> r == Err(DatabaseError)
    {
      if !connected {
        return Err(DatabaseError);
      }
      r := Ok(resource);
    }

    /**
     * query($command, $type): with the cache disabled, every query opens a reader
     * afresh; the command is recorded only once the reader is open.
     */
    method Query(command: Command, rowType: string) returns (r: Result<ResultSet>)
      modifies this
      ensures r.Ok? <==> old(connected) && openReader(command).Ok?
      ensures !old(connected) ==> r == Err(SqlError)
      ensures old(connected) && openReader(command).Err? ==> r == Err(openReader(command).error)
      ensures r.Ok? ==> r.value == ResultSet(openReader(command).value, rowType)
      ensures this.command == if r.Ok? then command else old(this.command)
      ensures connected == old(connected) && resource == old(resource) && cacheKey == old(cacheKey)
    {
      if !connected {
        return Err(SqlError);
      }
      var resultSet := Cache(command, rowType, None);
      if resultSet.None? {
        var reader := openReader(command);
        if reader.Err? {
          return Err(reader.error);
        }
        resultSet := Cache(command, rowType, Some(ResultSet(reader.value, rowType)));
      }
      this.command := command;
      r := Ok(resultSet.value);
    }

    /** reader($command): the command is recorded only once the reader is open. */
    method Reader(command: Command) returns (r: Result<DataReader>)
      modifies this
      ensures r.Ok? <==> old(connected) && openReader(command).Ok?
      ensures !old(connected) ==> r == Err(SqlError)
      ensures old(connected) ==> r == openReader(command)
      ensures this.command == if r.Ok? then command else old(this.command)
      ensures connected == old(connected) && resource == old(resource) && cacheKey == old(cacheKey)
    {
      if !connected {
        return Err(SqlError);
      }
      var reader := openReader(command);
      if reader.Err? {
        return Err(reader.error);
      }
      this.command := command;
      r := reader;
    }

    /** quote($string, $escape) */
    method Quote(s: string, escape: Mixed) returns (r: Result<string>)
      ensures !connected ==> r == Err(SqlError)
      ensures connected ==> r == QuoteResult(Scrub(s), escape)
    {
      if !connected {
        return Err(SqlError);
      }
      var str := s;
      var count: nat := 1;
      while count != 0
        invariant count != 0 ==> Scrub(str) == Scrub(s)
        invariant count == 0 ==> str == Scrub(s)
        decreases |str| + (if count != 0 then 1 else 0)
      {
        var p := RemovalPass(str);
        str, count := p.0, p.1;
      }
      str := "'" + ReplaceAll(str, "'", "''") + "'";
      if escape.Str? || Truthy(escape) {
        var e := Interpolate(escape);
        if e.Err? {
          return Err(e.error);
        }
        str := str + " ESCAPE '" + e.value + "'";
      }
      r := Ok(str);
    }
  }

  /** The default escape (NULL) adds no clause, and an empty string does. */
  lemma EscapeClause(body: string)
    ensures QuoteResult(body, Null) == Ok(QuotedText(body))
    ensures QuoteResult(body, Str("")) == Ok(QuotedText(body) + " ESCAPE ''")
    ensures !AddsEscape(Bool(false)) && !AddsEscape(Int(0)) && !AddsEscape(Array([]))
  {
    assert QuotedText(body) + " ESCAPE '" + "" + "'" == QuotedText(body) + " ESCAPE ''";
  }
}
