/**
 * The PHP values the precompiler and the driver inspect, with the two PHP
 * conversions they apply: truthiness (`(bool)`, `empty`) and the integer cast
 * (`settype($x, 'integer')`, `(int)`). Floats are not modelled.
 */
module PhpValues {
  import opened Wrappers
  import opened PhpStrings

  /** The SQL dialect a select builder object belongs to. */
  datatype Dialect = SQLite | MySQL | OtherDialect

  /** A PHP value as the modelled code distinguishes it. */
  datatype Mixed =
    | Null
    | Bool(b: bool)
    | Int(i: int)
    | Str(s: string)
    | Array(items: seq<Mixed>)
      /** A select builder: its dialect, its statement(FALSE) text, and what a string cast of it gives (None: no __toString). */
    | SelectBuilder(dialect: Dialect, statement: string, stringForm: Option<string>)
      /** A Database_Expression or DB_SQL_Expression, carrying its value(). */
    | Expression(value: string)
      /** Any other object; None when it has no __toString. */
    | Object(stringForm: Option<string>)

  predicate IsObject(x: Mixed) {
    x.SelectBuilder? || x.Expression? || x.Object?
  }

  /** PHP's (bool) cast; `empty($x)` is its negation. */
  predicate Truthy(x: Mixed) {
    match x
    case Null => false
    case Bool(b) => b
    case Int(i) => i != 0
    case Str(s) => s != "" && s != "0"
    case Array(items) => |items| > 0
    case _ => true
  }

  /** The text PHP interpolates for a value in a double-quoted string; an object without __toString cannot be converted. */
  function Interpolate(x: Mixed): Result<string> {
    match x
    case Null => Ok("")
    case Bool(b) => Ok(if b then "1" else "")
    case Int(i) => Ok(IntToString(i))
    case Str(s) => Ok(s)
    case Array(_) => Ok("Array")
    case SelectBuilder(_, _, stringForm) => if stringForm.Some? then Ok(stringForm.value) else Err(TypeMismatch)
    case Expression(v) => Ok(v)
    case Object(stringForm) => if stringForm.Some? then Ok(stringForm.value) else Err(TypeMismatch)
  }

  predicate IsSpace(ch: char) {
    ch == ' ' || ch == '\t' || ch == '\n' || ch == '\r' || ch as int == 0x0B || ch as int == 0x0C
  }

  predicate IsDigit(ch: char) {
    '0' <= ch <= '9'
  }

  /** The value of the leading decimal digits of s (0 when there are none). */
  function DigitsValue(s: string, acc: nat): (r: nat)
    ensures r >= acc
    decreases |s|
  {
    if |s| > 0 && IsDigit(s[0]) then DigitsValue(s[1..], acc * 10 + (s[0] as int - '0' as int)) else acc
  }

  /** The integer a string casts to: leading whitespace, an optional sign, then the leading digits. */
  function StringToInt(s: string): int
    decreases |s|
  {
    if |s| > 0 && IsSpace(s[0]) then StringToInt(s[1..])
    else if |s| > 0 && s[0] == '-' then 0 - DigitsValue(s[1..], 0) as int
    else if |s| > 0 && s[0] == '+' then DigitsValue(s[1..], 0)
    else DigitsValue(s, 0)
  }

  /** settype($x, 'integer'): objects cast to 1. */
  function ToInt(x: Mixed): int {
    match x
    case Null => 0
    case Bool(b) => if b then 1 else 0
    case Int(i) => i
    case Str(s) => StringToInt(s)
    case Array(items) => if |items| > 0 then 1 else 0
    case _ => 1
  }

  function Pow10(k: nat): nat {
    if k == 0 then 1 else 10 * Pow10(k - 1)
  }

  /** Reading the decimal text of n shifts the digits read so far and adds n. */
  lemma {:induction false} DigitsValueOfDigits(n: nat, rest: string, acc: nat)
    ensures DigitsValue(NatToString(n) + rest, acc) == DigitsValue(rest, acc * Pow10(|NatToString(n)|) + n)
    decreases n
  {
    var s := NatToString(n) + rest;
    if n < 10 {
      assert s == [DigitChar(n)] + rest;
      DigitsValueStep(DigitChar(n), rest, acc);
    } else {
      var t := NatToString(n / 10);
      var tail := [DigitChar(n % 10)] + rest;
      assert s == t + tail;
      DigitsValueOfDigits(n / 10, tail, acc);
      var p := Pow10(|t|);
      var m: nat := n % 10;
      var q := acc * p;
      NonNegativeProduct(acc, p);
      var k: nat := q + n / 10;
      assert IsDigit(DigitChar(m));
      DigitsValueStep(DigitChar(m), rest, k);
      Shift(acc, p, n);
    }
  }

  lemma DigitsValueStep(c: char, rest: string, acc: nat)
    requires IsDigit(c)
    ensures DigitsValue([c] + rest, acc) == DigitsValue(rest, acc * 10 + (c as int - '0' as int))
  {
    assert ([c] + rest)[1..] == rest;
  }

  lemma NonNegativeProduct(a: nat, b: nat)
    ensures a * b >= 0
  {
  }

  lemma Shift(acc: nat, p: nat, n: nat)
    ensures (acc * p + n / 10) * 10 + n % 10 == acc * (10 * p) + n
  {
  }

  /** Casting the decimal text of an integer gives the integer back. */
  lemma StringToIntOfIntToString(i: int)
    ensures StringToInt(IntToString(i)) == i
  {
    if i < 0 {
      DigitsValueOfDigits(-i, "", 0);
      assert NatToString(-i) + "" == NatToString(-i);
      assert IntToString(i)[1..] == NatToString(-i);
    } else {
      DigitsValueOfDigits(i, "", 0);
      assert NatToString(i) + "" == NatToString(i);
    }
  }
}
