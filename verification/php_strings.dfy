/**
 * The PHP string built-ins the modelled code relies on. PHP strings are byte
 * strings; a model `string` stands for one, each character for one byte.
 */
module PhpStrings {

  /** Every character is a byte value, as in every PHP string. */
  predicate IsByteString(s: string) {
    forall i :: 0 <= i < |s| ==> s[i] as int < 256
  }

  // ---------------------------------------------------------------- implode / explode

  /** implode($sep, $parts) */
  function Implode(sep: string, parts: seq<string>): string
    decreases |parts|
  {
    if |parts| == 0 then ""
    else if |parts| == 1 then parts[0]
    else parts[0] + sep + Implode(sep, parts[1..])
  }

  /** Joining one more part adds the separator and that part. */
  lemma {:induction false} ImplodeSnoc(sep: string, parts: seq<string>, last: string)
    requires |parts| > 0
    ensures Implode(sep, parts + [last]) == Implode(sep, parts) + sep + last
    decreases |parts|
  {
    var all := parts + [last];
    assert all[1..] == parts[1..] + [last];
    if |parts| > 1 {
      ImplodeSnoc(sep, parts[1..], last);
    } else {
      assert all[1..] == [last];
    }
  }

  /** explode($c, $s) for a one-character delimiter; it always yields at least one part. */
  function Explode(c: char, s: string): (parts: seq<string>)
    ensures |parts| >= 1
    ensures forall k :: 0 <= k < |parts| ==> c !in parts[k]
    decreases |s|
  {
    if s == [] then [""]
    else
      var rest := Explode(c, s[1..]);
      if s[0] == c then [""] + rest
      else [[s[0]] + rest[0]] + rest[1..]
  }

  /** Joining the parts of an explode with the same delimiter gives the string back. */
  lemma {:induction false} ImplodeExplode(c: char, s: string)
    ensures Implode([c], Explode(c, s)) == s
    decreases |s|
  {
    if s != [] {
      var rest := Explode(c, s[1..]);
      ImplodeExplode(c, s[1..]);
      if s[0] == c {
        assert ([""] + rest)[1..] == rest;
      } else if |rest| > 1 {
        var parts := [[s[0]] + rest[0]] + rest[1..];
        assert parts[1..] == rest[1..];
        assert Implode([c], rest) == rest[0] + [c] + Implode([c], rest[1..]);
        assert s == [s[0]] + s[1..];
      } else {
        assert s == [s[0]] + s[1..];
      }
    }
  }

  lemma {:induction false} ExplodeWithout(c: char, p: string)
    requires c !in p
    ensures Explode(c, p) == [p]
    decreases |p|
  {
    if p != [] {
      ExplodeWithout(c, p[1..]);
      assert [p[0]] + p[1..] == p;
    }
  }

  lemma {:induction false} ExplodeAfter(c: char, p: string, t: string)
    requires c !in p
    ensures Explode(c, p + [c] + t) == [p] + Explode(c, t)
    decreases |p|
  {
    var s := p + [c] + t;
    if p == [] {
      assert s[1..] == t;
    } else {
      assert s[1..] == p[1..] + [c] + t;
      ExplodeAfter(c, p[1..], t);
      assert [p[0]] + p[1..] == p;
    }
  }

  /** Exploding an implode recovers the parts, when no part contains the delimiter. */
  lemma {:induction false} ExplodeImplode(c: char, parts: seq<string>)
    requires |parts| >= 1
    requires forall k :: 0 <= k < |parts| ==> c !in parts[k]
    ensures Explode(c, Implode([c], parts)) == parts
    decreases |parts|
  {
    if |parts| == 1 {
      ExplodeWithout(c, parts[0]);
    } else {
      ExplodeImplode(c, parts[1..]);
      ExplodeAfter(c, parts[0], Implode([c], parts[1..]));
      assert [parts[0]] + parts[1..] == parts;
    }
  }

  // ---------------------------------------------------------------- case mapping

  /** strtoupper on one byte: ASCII letters only. */
  function Upper(ch: char): char {
    if 'a' <= ch <= 'z' then (ch as int - 32) as char else ch
  }

  /** strtolower on one byte: ASCII letters only. */
  function Lower(ch: char): char {
    if 'A' <= ch <= 'Z' then (ch as int + 32) as char else ch
  }

  function ToUpper(s: string): string {
    seq(|s|, i requires 0 <= i < |s| => Upper(s[i]))
  }

  function ToLower(s: string): string {
    seq(|s|, i requires 0 <= i < |s| => Lower(s[i]))
  }

  /** Two strings are equal up to ASCII case, as the `i` flag of a PCRE pattern compares them. */
  predicate EqualIgnoringCase(a: string, b: string) {
    ToUpper(a) == ToUpper(b)
  }

  predicate StartsWithIgnoringCase(s: string, prefix: string) {
    |prefix| <= |s| && EqualIgnoringCase(s[..|prefix|], prefix)
  }

  predicate EndsWithIgnoringCase(s: string, suffix: string) {
    |suffix| <= |s| && EqualIgnoringCase(s[|s| - |suffix|..], suffix)
  }

  // ---------------------------------------------------------------- trim

  /** The characters PHP's trim() removes by default: space, tab, LF, CR, NUL and VT. */
  predicate TrimsAway(ch: char) {
    ch == ' ' || ch == '\t' || ch == '\n' || ch == '\r' || ch == '\0' || ch as int == 0x0B
  }

  function TrimLeft(s: string): (r: string)
    ensures |r| <= |s| && r == s[|s| - |r|..]
    ensures |r| > 0 ==> !TrimsAway(r[0])
    decreases |s|
  {
    if |s| > 0 && TrimsAway(s[0]) then TrimLeft(s[1..]) else s
  }

  function TrimRight(s: string): (r: string)
    ensures |r| <= |s| && r == s[..|r|]
    ensures |r| > 0 ==> !TrimsAway(r[|r| - 1])
    decreases |s|
  {
    if |s| > 0 && TrimsAway(s[|s| - 1]) then TrimRight(s[..|s| - 1]) else s
  }

  /** trim($s) */
  function Trim(s: string): string {
    TrimRight(TrimLeft(s))
  }

  /** What trim() keeps is a piece of its input, with no removable character at either end. */
  lemma TrimIsInfix(s: string)
    ensures |Trim(s)| <= |TrimLeft(s)| <= |s|
    ensures Trim(s) == s[|s| - |TrimLeft(s)|..|s| - |TrimLeft(s)| + |Trim(s)|]
    ensures |Trim(s)| > 0 ==> !TrimsAway(Trim(s)[0]) && !TrimsAway(Trim(s)[|Trim(s)| - 1])
  {
    var l := TrimLeft(s);
    assert Trim(s) == l[..|Trim(s)|];
  }

  /** Trimming never introduces a character that was not there. */
  lemma TrimKeepsCharacters(s: string)
    ensures forall k :: 0 <= k < |Trim(s)| ==> Trim(s)[k] in s
  {
    TrimIsInfix(s);
    var i := |s| - |TrimLeft(s)|;
    forall k | 0 <= k < |Trim(s)| ensures Trim(s)[k] in s {
      assert Trim(s)[k] == s[i + k];
    }
  }

  // ---------------------------------------------------------------- removal and replacement

  /** Removes every character in `bad`, as a preg_replace with a character class and '' does. */
  function RemoveChars(s: string, bad: set<char>): (r: string)
    ensures |r| <= |s|
    ensures forall i :: 0 <= i < |r| ==> r[i] !in bad && r[i] in s
    decreases |s|
  {
    if s == [] then ""
    else if s[0] in bad then RemoveChars(s[1..], bad)
    else [s[0]] + RemoveChars(s[1..], bad)
  }

  /** Removal works piece by piece. */
  lemma {:induction false} RemoveCharsAppend(a: string, b: string, bad: set<char>)
    ensures RemoveChars(a + b, bad) == RemoveChars(a, bad) + RemoveChars(b, bad)
    decreases |a|
  {
    if a == [] {
      assert a + b == b;
    } else {
      assert (a + b)[1..] == a[1..] + b;
      RemoveCharsAppend(a[1..], b, bad);
    }
  }

  /** A string without bad characters is kept whole. */
  lemma {:induction false} RemoveCharsClean(s: string, bad: set<char>)
    requires forall i :: 0 <= i < |s| ==> s[i] !in bad
    ensures RemoveChars(s, bad) == s
    decreases |s|
  {
    if s != [] {
      RemoveCharsClean(s[1..], bad);
      assert [s[0]] + s[1..] == s;
    }
  }

  /** str_replace($needle, $repl, $s) for a non-empty needle: a left-to-right scan of non-overlapping matches. */
  function ReplaceAll(s: string, needle: string, repl: string): string
    requires |needle| > 0
    decreases |s|
  {
    if |s| < |needle| then s
    else if s[..|needle|] == needle then repl + ReplaceAll(s[|needle|..], needle, repl)
    else [s[0]] + ReplaceAll(s[1..], needle, repl)
  }

  // ---------------------------------------------------------------- numbers as text

  function DigitChar(d: nat): char
    requires d < 10
  {
    ('0' as int + d) as char
  }

  /** The decimal text PHP gives a non-negative integer. */
  function NatToString(n: nat): (r: string)
    ensures |r| >= 1
    ensures forall i :: 0 <= i < |r| ==> '0' <= r[i] <= '9'
    decreases n
  {
    if n < 10 then [DigitChar(n)] else NatToString(n / 10) + [DigitChar(n % 10)]
  }

  /** The decimal text PHP gives an integer when it is interpolated into a string. */
  function IntToString(i: int): string {
    if i < 0 then "-" + NatToString(-i) else NatToString(i)
  }

  // ---------------------------------------------------------------- hexadecimal

  /** The lowercase hex digit of a nibble. */
  function HexDigit(n: nat): char
    requires n < 16
  {
    if n < 10 then ('0' as int + n) as char else ('a' as int + n - 10) as char
  }

  predicate IsLowerHexDigit(ch: char) {
    '0' <= ch <= '9' || 'a' <= ch <= 'f'
  }

  /** The value pack('H*') gives a hex character: its digit value, and 0 (with a warning) for anything else. */
  function NibbleValue(ch: char): (n: nat)
    ensures n < 16
  {
    if '0' <= ch <= '9' then ch as int - '0' as int
    else if 'A' <= ch <= 'F' then ch as int - 'A' as int + 10
    else if 'a' <= ch <= 'f' then ch as int - 'a' as int + 10
    else 0
  }

  /** unpack('H*', $s), also bin2hex($s): two lowercase hex digits per byte, high nibble first. */
  function BinToHex(s: string): (h: string)
    ensures |h| == 2 * |s|
    ensures forall i :: 0 <= i < |h| ==> IsLowerHexDigit(h[i])
    decreases |s|
  {
    if s == [] then ""
    else
      var b := s[0] as int % 256;
      [HexDigit(b / 16), HexDigit(b % 16)] + BinToHex(s[1..])
  }

  /** pack('H*', $h): pairs of hex digits become bytes; an odd last digit is the high nibble of a last byte. */
  function PackHex(h: string): (s: string)
    ensures |s| == (|h| + 1) / 2
    ensures IsByteString(s)
    decreases |h|
  {
    if |h| == 0 then ""
    else if |h| == 1 then [(NibbleValue(h[0]) * 16) as char]
    else [(NibbleValue(h[0]) * 16 + NibbleValue(h[1])) as char] + PackHex(h[2..])
  }

  /** Packing the hex of a byte string gives the byte string back. */
  lemma {:induction false} PackBinToHex(s: string)
    requires IsByteString(s)
    ensures PackHex(BinToHex(s)) == s
    decreases |s|
  {
    if s != [] {
      var b := s[0] as int % 256;
      var h := BinToHex(s);
      assert h[2..] == BinToHex(s[1..]);
      assert NibbleValue(h[0]) == b / 16 && NibbleValue(h[1]) == b % 16;
      PackBinToHex(s[1..]);
      assert [s[0]] + s[1..] == s;
    }
  }

  lemma HexDigitOfNibble(ch: char)
    requires IsLowerHexDigit(Lower(ch))
    ensures HexDigit(NibbleValue(ch)) == Lower(ch)
  {
  }

  lemma ToLowerCons2(h: string)
    requires |h| >= 2
    ensures ToLower(h) == [Lower(h[0]), Lower(h[1])] + ToLower(h[2..])
  {
  }

  /** Unpacking what pack('H*') made of well-formed hex gives the hex back in lowercase. */
  lemma {:induction false} BinToHexPack(h: string)
    requires |h| % 2 == 0
    requires forall i :: 0 <= i < |h| ==> IsLowerHexDigit(Lower(h[i]))
    ensures BinToHex(PackHex(h)) == ToLower(h)
    decreases |h|
  {
    if |h| > 0 {
      var s := PackHex(h);
      assert s[1..] == PackHex(h[2..]);
      var b := s[0] as int % 256;
      assert b == NibbleValue(h[0]) * 16 + NibbleValue(h[1]);
      assert b / 16 == NibbleValue(h[0]) && b % 16 == NibbleValue(h[1]);
      HexDigitOfNibble(h[0]);
      HexDigitOfNibble(h[1]);
      BinToHexPack(h[2..]);
      ToLowerCons2(h);
    }
  }
}
