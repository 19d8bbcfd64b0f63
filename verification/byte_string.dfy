/**
 * \Leap\Core\Data\ByteString: a byte buffer kept as a hexadecimal string, with
 * a byte count computed once and remembered.
 */
module ByteStrings {
  import opened PhpStrings

  const BinaryData: int := 0
  const HexadecimalData: int := 1
  const StringData: int := 2

  /**
   * The `$data` handed to the constructor: a PHP string, another ByteString
   * (which contributes its hexcode) or any other value.
   */
  datatype Input = Text(s: string) | Buffer(hexcode: string) | Other

  predicate NoNewline(s: string) {
    forall i :: 0 <= i < |s| ==> s[i] != '\n'
  }

  /**
   * `/^b'.*'$/i`: a `b` or `B`, a quote, characters other than a newline, and
   * a closing quote at the end or just before a final newline.
   */
  predicate IsBinaryLiteral(d: string) {
    |d| >= 3 && (d[0] == 'b' || d[0] == 'B') && d[1] == '\'' &&
    ((d[|d| - 1] == '\'' && NoNewline(d[2..|d| - 1])) ||
     (|d| >= 4 && d[|d| - 1] == '\n' && d[|d| - 2] == '\'' && NoNewline(d[2..|d| - 2])))
  }

  /** The BINARY_DATA input with a `b'...'` wrapper cut off by substr($data, 2, strlen($data) - 3). */
  function StripBinaryLiteral(d: string): (r: string)
    ensures IsBinaryLiteral(d) ==> |r| == |d| - 3 && r == d[2..|d| - 1]
    ensures !IsBinaryLiteral(d) ==> r == d
  {
    if IsBinaryLiteral(d) then d[2..|d| - 1] else d
  }

  /**
   * unpack($data, $type). `binaryToHex` stands for PHP's base_convert($x, 2, 16),
   * which is not part of this model.
   */
  function Unpack(data: Input, dataType: int, binaryToHex: string -> string): (hex: string)
    ensures data.Text? && dataType == StringData ==>
              |hex| == 2 * |data.s| && forall i :: 0 <= i < |hex| ==> IsLowerHexDigit(hex[i])
    ensures data.Text? && dataType == HexadecimalData ==> hex == data.s
    ensures data.Text? && dataType == BinaryData ==> hex == binaryToHex(StripBinaryLiteral(data.s))
    ensures data.Buffer? ==> hex == data.hexcode
    ensures data.Other? || (data.Text? && dataType !in {BinaryData, HexadecimalData, StringData}) ==> hex == ""
  {
    match data
    case Text(s) =>
      if dataType == BinaryData then binaryToHex(StripBinaryLiteral(s))
      else if dataType == StringData then BinToHex(s)
      else if dataType == HexadecimalData then s
      else ""
    case Buffer(h) => h
    case Other => ""
  }

  /** pack($hexcode): the bytes of a hex string, and '' for anything that is not a string. */
  function Pack(hexcode: Input): (s: string)
    ensures hexcode.Text? ==> |s| == (|hexcode.s| + 1) / 2 && IsByteString(s)
    ensures !hexcode.Text? ==> s == ""
  {
    if hexcode.Text? then PackHex(hexcode.s) else ""
  }

  class ByteString {
    /** The data as a hexadecimal string. */
    var hexcode: string
    /** The remembered result of count(), or -1 before the first call. */
    var length: int

    /** The class invariant: a remembered count is twice the hexcode's length. */
    predicate Valid()
      reads this
    {
      length < 0 || length == 2 * |hexcode|
    }

    constructor (data: Input, dataType: int, binaryToHex: string -> string)
      ensures hexcode == Unpack(data, dataType, binaryToHex)
      ensures length == -1
      ensures Valid()
    {
      hexcode := Unpack(data, dataType, binaryToHex);
      length := -1;
    }

    /** __toString() and as_hexcode() with the default format. */
    function AsHexcode(): (r: string)
      reads this
      ensures |r| == |hexcode| && r == hexcode
    {
      hexcode
    }

    /** as_string() with the default format: the packed bytes, or the hexcode itself when `pack` is false. */
    function AsString(pack: bool): (r: string)
      reads this
      ensures pack ==> r == Pack(Text(hexcode))
      ensures !pack ==> r == hexcode
    {
      if pack then Pack(Text(hexcode)) else hexcode
    }

    /** count() */
    method Count() returns (n: int)
      requires Valid()
      modifies this
      ensures n == 2 * |hexcode|
      ensures length == n
      ensures hexcode == old(hexcode)
      ensures Valid()
    {
      if length < 0 {
        length := |hexcode| * 2;
      }
      n := length;
    }
  }

  // ---------------------------------------------------------------- round trips

  /** A string stored as STRING_DATA comes back unchanged from as_string(). */
  lemma StringRoundTrip(s: string, binaryToHex: string -> string)
    requires IsByteString(s)
    ensures Pack(Text(Unpack(Text(s), StringData, binaryToHex))) == s
  {
    PackBinToHex(s);
  }

  /** Even-length hex stored as HEXADECIMAL_DATA, packed and unpacked again as STRING_DATA, comes back in lowercase. */
  lemma HexRoundTrip(h: string, binaryToHex: string -> string)
    requires |h| % 2 == 0
    requires forall i :: 0 <= i < |h| ==> IsLowerHexDigit(Lower(h[i]))
    ensures Unpack(Text(Pack(Text(Unpack(Text(h), HexadecimalData, binaryToHex)))), StringData, binaryToHex) == ToLower(h)
  {
    BinToHexPack(h);
  }

  /** A `b'...'` wrapper of either case loses exactly its three wrapping characters. */
  lemma BinaryLiteralStrips(m: string)
    requires NoNewline(m)
    ensures StripBinaryLiteral("b'" + m + "'") == m
    ensures StripBinaryLiteral("B'" + m + "'") == m
    ensures StripBinaryLiteral("b'" + m + "'\n") == m + "'"
  {
    var lower := "b'" + m + "'";
    var upper := "B'" + m + "'";
    var newline := "b'" + m + "'\n";
    assert lower[2..|lower| - 1] == m;
    assert upper[2..|upper| - 1] == m;
    assert newline[2..|newline| - 2] == m;
    assert newline[2..|newline| - 1] == m + "'";
  }

  // ---------------------------------------------------------------- count()

  /** The number of bytes a hexcode stands for. */
  function ByteCount(hexcode: string): (n: nat)
    ensures n == |Pack(Text(hexcode))|
  {
    (|hexcode| + 1) / 2
  }

  /** For STRING_DATA the corrected count is the number of bytes stored. */
  lemma ByteCountOfString(s: string, binaryToHex: string -> string)
    ensures ByteCount(Unpack(Text(s), StringData, binaryToHex)) == |s|
  {
  }

  /** count() as written reports four times the number of bytes of STRING_DATA: "A" counts 4. */
  lemma CountIsFourTimesBytes(s: string, binaryToHex: string -> string)
    ensures 2 * |Unpack(Text(s), StringData, binaryToHex)| == 4 * |s|
    ensures 2 * |Unpack(Text("A"), StringData, binaryToHex)| == 4 != ByteCount(Unpack(Text("A"), StringData, binaryToHex))
  {
  }
}
