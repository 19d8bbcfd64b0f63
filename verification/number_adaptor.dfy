/**
 * \Leap\Core\DB\ORM\Field\Adaptor\Number: a field adaptor that reads a number
 * out as formatted text and parses formatted text (thousands delimiter, decimal
 * separator) back into a number.
 */
module NumberAdaptor {
  import opened Wrappers
  import opened PhpStrings
  import opened PhpValues
  import opened FieldAdaptor

  // ---------------------------------------------------------------- literal patterns

  /** The characters preg_quote() escapes with a backslash. */
  predicate IsRegexSpecial(ch: char) {
    ch in {'.', '\\', '+', '*', '?', '[', '^', ']', '$', '(', ')', '{', '}', '=', '!', '<', '>', '|', ':', '-', '#'}
  }

  /** preg_quote($s): special characters get a backslash, NUL becomes \000. */
  function PregQuote(s: string): (r: string)
    ensures |r| >= |s|
    decreases |s|
  {
    if s == [] then ""
    else
      (if s[0] == '\0' then "\\000" else if IsRegexSpecial(s[0]) then ['\\', s[0]] else [s[0]]) +
      PregQuote(s[1..])
  }

  /** '/' . preg_quote($s) . '/': the pattern kept under metadata 'regex'. */
  function LiteralPattern(s: string): string {
    "/" + PregQuote(s) + "/"
  }

  /** An empty pattern matches before every character and at the end: each of those places gets `repl`. */
  function Interleave(s: string, repl: string): (r: string)
    ensures |r| == |s| + (|s| + 1) * |repl|
    decreases |s|
  {
    if s == [] then repl else repl + [s[0]] + Interleave(s[1..], repl)
  }

  /**
   * preg_replace(LiteralPattern(needle), repl, subject). preg_quote() leaves '/'
   * alone, so a needle holding one ends the pattern early and PCRE rejects what
   * follows as modifiers: the call gives NULL (None). A NULL subject reads as ''.
   */
  function ReplaceLiteral(subject: Option<string>, needle: string, repl: string): (r: Option<string>)
    ensures r.None? <==> '/' in needle
  {
    var s := if subject.Some? then subject.value else "";
    if '/' in needle then None
    else if needle == "" then Some(Interleave(s, repl))
    else Some(ReplaceAll(s, needle, repl))
  }

  /** The string steps of __set: drop every delimiter, then make every separator a '.'. */
  function Normalise(s: string, separator: string, delimiter: string): Option<string> {
    ReplaceLiteral(ReplaceLiteral(Some(s), delimiter, ""), separator, ".")
  }

  /** settype($value, $type) of a string (or NULL) result; `toDouble` is the float cast, not part of this model. */
  function SetType(value: Option<string>, castType: string, toDouble: string -> Mixed): (r: Mixed)
    ensures castType == "integer" ==> r == Int(if value.Some? then StringToInt(value.value) else 0)
  {
    var s := if value.Some? then value.value else "";
    if castType == "integer" then Int(if value.Some? then StringToInt(s) else 0) else toDouble(s)
  }

  // ---------------------------------------------------------------- metadata

  /** The metadata the constructor builds, or the exception it raises. */
  function NumberMetadata(metadata: map<string, Mixed>, fieldNames: set<string>): (r: Result<map<string, Mixed>>)
    ensures r.Ok? <==> BaseMetadata(metadata, fieldNames).Ok? &&
                       StringSetting(metadata, "separator", ".").Ok? && StringSetting(metadata, "delimiter", ",").Ok?
    ensures r.Ok? ==> BaseMetadata(metadata, fieldNames).Ok? &&
                      r.value.Keys == {"field", "precision", "type", "separator", "regex", "delimiter"} &&
                      r.value["field"] == metadata["field"]
    ensures r.Ok? ==> r.value["precision"] == Int(if IsSet(metadata, "precision") then ToInt(metadata["precision"]) else 0)
    ensures r.Ok? ==> (r.value["type"] == Str("double") <==> r.value["precision"].i > 0)
    ensures r.Ok? ==> (r.value["type"] == Str("integer") <==> r.value["precision"].i <= 0)
    ensures r.Ok? ==> r.value["separator"] == Str(StringSetting(metadata, "separator", ".").value)
    ensures r.Ok? ==> r.value["delimiter"] == Str(StringSetting(metadata, "delimiter", ",").value)
    ensures r.Ok? ==> r.value["regex"] == Array([Str(LiteralPattern(r.value["separator"].s)),
                                                 Str(LiteralPattern(r.value["delimiter"].s))])
  {
    match BaseMetadata(metadata, fieldNames)
    case Err(e) => Err(e)
    case Ok(base) =>
      var precision := if IsSet(metadata, "precision") then ToInt(metadata["precision"]) else 0;
      match StringSetting(metadata, "separator", ".")
      case Err(e) => Err(e)
      case Ok(separator) =>
        match StringSetting(metadata, "delimiter", ",")
        case Err(e) => Err(e)
        case Ok(delimiter) =>
          Ok(base["precision" := Int(precision)]
                 ["type" := Str(if precision > 0 then "double" else "integer")]
                 ["separator" := Str(separator)]
                 ["regex" := Array([Str(LiteralPattern(separator)), Str(LiteralPattern(delimiter))])]
                 ["delimiter" := Str(delimiter)])
  }

  class Number {
    const model: Record
    /** The name of the wrapped field of the model. */
    const field: string
    const metadata: map<string, Mixed>
    /** number_format($value, $precision, $separator, $delimiter), not part of this model. */
    const numberFormat: (Mixed, int, string, string) -> Mixed
    /** settype($value, 'double') of a string, not part of this model. */
    const toDouble: string -> Mixed

    constructor (model: Record, metadata: map<string, Mixed>,
                 numberFormat: (Mixed, int, string, string) -> Mixed, toDouble: string -> Mixed)
      requires NumberMetadata(metadata, model.fields.Keys).Ok?
      ensures this.model == model && this.field == metadata["field"].s
      ensures this.metadata == NumberMetadata(metadata, model.fields.Keys).value
      ensures this.numberFormat == numberFormat && this.toDouble == toDouble
      ensures Valid()
    {
      this.model := model;
      this.field := metadata["field"].s;
      this.metadata := NumberMetadata(metadata, model.fields.Keys).value;
      this.numberFormat := numberFormat;
      this.toDouble := toDouble;
    }

    /**
     * The shape of the metadata the constructor leaves: the patterns kept under
     * `regex` are those of the separator and the delimiter, which is why Set may
     * rebuild them from the two settings.
     */
    predicate Valid() {
      "precision" in metadata && metadata["precision"].Int? &&
      "type" in metadata && metadata["type"].Str? &&
      "separator" in metadata && metadata["separator"].Str? &&
      "delimiter" in metadata && metadata["delimiter"].Str? &&
      "regex" in metadata &&
      metadata["regex"] == Array([Str(LiteralPattern(metadata["separator"].s)), Str(LiteralPattern(metadata["delimiter"].s))])
    }

    /** What __set('value', $value) stores: strings are normalised and cast, anything else is kept. */
    function Stored(value: Mixed): (r: Mixed)
      requires Valid()
      ensures !value.Str? ==> r == value
      ensures value.Str? ==>
                r == SetType(Normalise(value.s, metadata["separator"].s, metadata["delimiter"].s), metadata["type"].s, toDouble)
    {
      if value.Str?
      then SetType(Normalise(value.s, metadata["separator"].s, metadata["delimiter"].s), metadata["type"].s, toDouble)
      else value
    }

    /** __get($key) */
    function Get(key: string): (r: Result<Mixed>)
      requires Valid()
      reads model
      ensures key == "value" && field in model.fields && (model.fields[field] == Null || model.fields[field].Expression?) ==>
                r == Ok(model.fields[field])
      ensures key == "value" && field in model.fields && model.fields[field] != Null && !model.fields[field].Expression? ==>
                r == Ok(numberFormat(model.fields[field], metadata["precision"].i, metadata["separator"].s, metadata["delimiter"].s))
      ensures key == "value" && field !in model.fields ==> r == Err(InvalidProperty)
      ensures key != "value" ==> r == MetadataGet(metadata, key)
    {
      if key == "value" then
        if field !in model.fields then Err(InvalidProperty)
        else
          var value := model.fields[field];
          if value != Null && !value.Expression?
          then Ok(numberFormat(value, metadata["precision"].i, metadata["separator"].s, metadata["delimiter"].s))
          else Ok(value)
      else MetadataGet(metadata, key)
    }

    /** __set($key, $value) */
    method Set(key: string, value: Mixed) returns (r: Outcome)
      requires Valid()
      modifies model
      ensures key == "value" ==> r == Pass && model.fields == old(model.fields)[field := Stored(value)]
      ensures key != "value" ==> r == Fail(InvalidProperty) && model.fields == old(model.fields)
    {
      if key != "value" {
        return Fail(InvalidProperty);
      }
      var stored := value;
      if value.Str? {
        var text := ReplaceLiteral(Some(value.s), metadata["delimiter"].s, "");
        text := ReplaceLiteral(text, metadata["separator"].s, ".");
        stored := SetType(text, metadata["type"].s, toDouble);
      }
      model.fields := model.fields[field := stored];
      r := Pass;
    }
  }

  // ---------------------------------------------------------------- properties

  /** Without settings the precision is 0, numbers are integers, the separator is '.' and the delimiter ','. */
  lemma Defaults(f: string, fieldNames: set<string>)
    requires f in fieldNames
    ensures NumberMetadata(map["field" := Str(f)], fieldNames) ==
              Ok(map["field" := Str(f), "precision" := Int(0), "type" := Str("integer"), "separator" := Str("."),
                     "regex" := Array([Str("/\\./"), Str("/,/")]), "delimiter" := Str(",")])
  {
    var metadata := map["field" := Str(f)];
    assert BaseMetadata(metadata, fieldNames) == Ok(metadata);
    assert !IsSet(metadata, "precision") && !IsSet(metadata, "separator") && !IsSet(metadata, "delimiter");
    assert PregQuote(".") == "\\.";
    assert PregQuote(",") == ",";
    assert LiteralPattern(".") == "/\\./";
    assert LiteralPattern(",") == "/,/";
    assert StringSetting(metadata, "separator", ".") == Ok(".");
    assert StringSetting(metadata, "delimiter", ",") == Ok(",");
  }

  /** Removing a one-character needle is removing that character. */
  lemma {:induction false} ReplaceCharByNothing(s: string, c: char)
    ensures ReplaceAll(s, [c], "") == RemoveChars(s, {c})
    decreases |s|
  {
    if |s| > 0 {
      ReplaceCharByNothing(s[1..], c);
      assert s[..1] == [s[0]];
    }
  }

  /** Each character of s, with `c` turned into `d`. */
  function Substitute(s: string, c: char, d: char): (r: string)
    ensures |r| == |s|
    ensures forall i :: 0 <= i < |s| ==> r[i] == if s[i] == c then d else s[i]
  {
    seq(|s|, i requires 0 <= i < |s| => if s[i] == c then d else s[i])
  }

  lemma SubstituteAppend(x: string, y: string, c: char, d: char)
    ensures Substitute(x + y, c, d) == Substitute(x, c, d) + Substitute(y, c, d)
  {
  }

  lemma {:induction false} ReplaceCharByChar(s: string, c: char, d: char)
    ensures ReplaceAll(s, [c], [d]) == Substitute(s, c, d)
    decreases |s|
  {
    if |s| > 0 {
      ReplaceCharByChar(s[1..], c, d);
      assert s[..1] == [s[0]];
      assert Substitute(s, c, d) == [if s[0] == c then d else s[0]] + Substitute(s[1..], c, d);
    }
  }

  /**
   * With one-character settings other than '/', normalising drops every
   * delimiter and turns every separator into '.', keeping the other characters
   * in order.
   */
  lemma NormaliseCharacters(s: string, separator: char, delimiter: char)
    requires separator != '/' && delimiter != '/'
    ensures Normalise(s, [separator], [delimiter]) == Some(Substitute(RemoveChars(s, {delimiter}), separator, '.'))
  {
    ReplaceCharByNothing(s, delimiter);
    ReplaceCharByChar(RemoveChars(s, {delimiter}), separator, '.');
  }

  predicate IsDigits(s: string) {
    forall i :: 0 <= i < |s| ==> '0' <= s[i] <= '9'
  }

  /** Digits keep their place: neither a delimiter nor a separator is among them. */
  lemma DigitsUntouched(s: string, c: char, d: char)
    requires IsDigits(s) && !('0' <= c <= '9') && !('0' <= d <= '9')
    ensures RemoveChars(s, {c}) == s && Substitute(s, d, '.') == s
  {
    RemoveCharsClean(s, {c});
  }

  /** With the default settings, thousands groups are joined: "12,345" is stored as StringToInt("12345"). */
  lemma ParsesGrouping(a: string, b: string, toDouble: string -> Mixed)
    requires IsDigits(a) && IsDigits(b)
    ensures Normalise(a + "," + b, ".", ",") == Some(a + b)
    ensures SetType(Normalise(a + "," + b, ".", ","), "integer", toDouble) == Int(StringToInt(a + b))
  {
    DigitsUntouched(a, ',', '.');
    DigitsUntouched(b, ',', '.');
    RemoveCharsAppend(a, [','], {','});
    RemoveCharsAppend(a + [','], b, {','});
    assert RemoveChars([','], {','}) == [];
    assert a + "," + b == a + [','] + b;
    assert RemoveChars(a + "," + b, {','}) == a + b;
    assert IsDigits(a + b);
    DigitsUntouched(a + b, ',', '.');
    NormaliseCharacters(a + "," + b, '.', ',');
  }

  /**
   * With '.' as delimiter and ',' as separator the delimiters go first, so
   * "1.234,5" becomes "1234.5": the '.' the separator turns into is never removed.
   */
  lemma DelimiterBeforeSeparator(a: string, b: string, c: string)
    requires IsDigits(a) && IsDigits(b) && IsDigits(c)
    ensures Normalise(a + "." + b + "," + c, ",", ".") == Some(a + b + "." + c)
  {
    var s := a + "." + b + "," + c;
    DropDelimiter(a, b, c);
    TurnSeparator(a + b, c);
    NormaliseCharacters(s, ',', '.');
  }

  lemma DropDelimiter(a: string, b: string, c: string)
    requires IsDigits(a) && IsDigits(b) && IsDigits(c)
    ensures RemoveChars(a + "." + b + "," + c, {'.'}) == (a + b) + ([','] + c)
  {
    var head := a + ['.'];
    var tail := b + ([','] + c);
    assert a + "." + b + "," + c == head + tail;
    assert RemoveChars(tail, {'.'}) == tail by {
      assert forall i :: 0 <= i < |tail| ==> tail[i] != '.';
      RemoveCharsClean(tail, {'.'});
    }
    assert RemoveChars(head, {'.'}) == a by {
      DigitsUntouched(a, '.', ',');
      RemoveCharsAppend(a, ['.'], {'.'});
    }
    RemoveCharsAppend(head, tail, {'.'});
  }

  lemma TurnSeparator(ab: string, c: string)
    requires IsDigits(ab) && IsDigits(c)
    ensures Substitute(ab + ([','] + c), ',', '.') == ab + "." + c
  {
    DigitsUntouched(ab, '.', ',');
    DigitsUntouched(c, '.', ',');
    SubstituteAppend(ab, [','] + c, ',', '.');
    SubstituteAppend([','], c, ',', '.');
    assert Substitute([','], ',', '.') == ['.'];
  }

  /** A delimiter holding '/' makes the pattern invalid, and every string is stored as 0. */
  lemma SlashDelimiterStoresZero(s: string, toDouble: string -> Mixed)
    ensures SetType(Normalise(s, ".", "/"), "integer", toDouble) == Int(0)
  {
    assert Normalise(s, ".", "/") == Some("");
  }
}
