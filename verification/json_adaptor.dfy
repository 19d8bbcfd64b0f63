/**
 * \Leap\Core\DB\ORM\Field\Adaptor\JSON: a field adaptor that stores an array as
 * JSON text between a fixed prefix and suffix, and decodes it again on read.
 */
module JsonAdaptor {
  import opened Wrappers
  import opened PhpStrings
  import opened PhpValues
  import opened FieldAdaptor

  /** The metadata the constructor builds, or the exception it raises. */
  function JsonMetadata(metadata: map<string, Mixed>, fieldNames: set<string>): (r: Result<map<string, Mixed>>)
    ensures r.Ok? <==> BaseMetadata(metadata, fieldNames).Ok? &&
                       StringSetting(metadata, "prefix", "").Ok? && StringSetting(metadata, "suffix", "").Ok?
    ensures r.Ok? ==> r.value.Keys == {"field", "prefix", "suffix"} && r.value["field"] == metadata["field"]
    ensures r.Ok? ==> r.value["prefix"] == Str(StringSetting(metadata, "prefix", "").value)
    ensures r.Ok? ==> r.value["suffix"] == Str(StringSetting(metadata, "suffix", "").value)
  {
    match BaseMetadata(metadata, fieldNames)
    case Err(e) => Err(e)
    case Ok(base) =>
      match StringSetting(metadata, "prefix", "")
      case Err(e) => Err(e)
      case Ok(prefix) =>
        match StringSetting(metadata, "suffix", "")
        case Err(e) => Err(e)
        case Ok(suffix) => Ok(base["prefix" := Str(prefix)]["suffix" := Str(suffix)])
  }

  /**
   * The text strlen() and substr() see in a stored value: None for an array or
   * an object without __toString, for which both give NULL (PHP 7).
   */
  function TextOf(value: Mixed): Option<string> {
    match value
    case Null => Some("")
    case Bool(b) => Some(if b then "1" else "")
    case Int(i) => Some(IntToString(i))
    case Str(s) => Some(s)
    case Array(_) => None
    case SelectBuilder(_, _, stringForm) => stringForm
    case Expression(v) => Some(v)
    case Object(stringForm) => stringForm
  }

  /**
   * The text handed to json_decode(): |prefix| leading and |suffix| trailing
   * characters are cut off when the text is long enough for both; otherwise
   * the whole text.
   */
  function DecodeInput(text: string, prefix: string, suffix: string): (r: string)
    ensures |text| >= |prefix| + |suffix| ==> |r| == |text| - |prefix| - |suffix| && text == text[..|prefix|] + r + text[|text| - |suffix|..]
    ensures |text| < |prefix| + |suffix| ==> r == text
  {
    var length := |text| - (|prefix| + |suffix|);
    if length >= 0 then text[|prefix|..|prefix| + length] else text
  }

  class Json {
    const model: Record
    /** The name of the wrapped field of the model. */
    const field: string
    const metadata: map<string, Mixed>
    /** json_encode(), not part of this model. */
    const jsonEncode: Mixed -> string
    /** json_decode($text, TRUE), not part of this model. */
    const jsonDecode: string -> Mixed

    constructor (model: Record, metadata: map<string, Mixed>, jsonEncode: Mixed -> string, jsonDecode: string -> Mixed)
      requires JsonMetadata(metadata, model.fields.Keys).Ok?
      ensures this.model == model && this.field == metadata["field"].s
      ensures this.metadata == JsonMetadata(metadata, model.fields.Keys).value
      ensures this.jsonEncode == jsonEncode && this.jsonDecode == jsonDecode
      ensures Valid()
    {
      this.model := model;
      this.field := metadata["field"].s;
      this.metadata := JsonMetadata(metadata, model.fields.Keys).value;
      this.jsonEncode := jsonEncode;
      this.jsonDecode := jsonDecode;
    }

    /** The shape of the metadata the constructor leaves. */
    predicate Valid() {
      "prefix" in metadata && metadata["prefix"].Str? && "suffix" in metadata && metadata["suffix"].Str?
    }

    /** What __set('value', $value) stores: an array becomes framed JSON text, anything else is kept. */
    function Stored(value: Mixed): (r: Mixed)
      requires Valid()
      ensures value.Array? ==> r == Str(metadata["prefix"].s + jsonEncode(value) + metadata["suffix"].s)
      ensures !value.Array? ==> r == value
    {
      if value.Array? then Str(metadata["prefix"].s + jsonEncode(value) + metadata["suffix"].s) else value
    }

    /** What __get('value') gives for a stored value. */
    function Read(value: Mixed): (r: Mixed)
      requires Valid()
      ensures value == Null || value.Expression? ==> r == value
      ensures value != Null && !value.Expression? && TextOf(value).None? ==> r == Null
      ensures value != Null && !value.Expression? && TextOf(value).Some? ==>
                r == jsonDecode(DecodeInput(TextOf(value).value, metadata["prefix"].s, metadata["suffix"].s))
    {
      if value == Null || value.Expression? then value
      else match TextOf(value)
        case None => Null
        case Some(text) => jsonDecode(DecodeInput(text, metadata["prefix"].s, metadata["suffix"].s))
    }

    /** __get($key) */
    function Get(key: string): (r: Result<Mixed>)
      requires Valid()
      reads model
      ensures key == "value" && field in model.fields ==> r == Ok(Read(model.fields[field]))
      ensures key == "value" && field !in model.fields ==> r == Err(InvalidProperty)
      ensures key != "value" ==> r == MetadataGet(metadata, key)
    {
      if key == "value" then
        if field in model.fields then Ok(Read(model.fields[field])) else Err(InvalidProperty)
      else MetadataGet(metadata, key)
    }

    /** __set($key, $value) */
    method Set(key: string, value: Mixed) returns (r: Outcome)
      requires Valid()
      modifies model
      ensures key == "value" ==> r == Pass && model.fields == old(model.fields)[field := Stored(value)]
      ensures key != "value" ==> r == Fail(InvalidProperty) && model.fields == old(model.fields)
    {
      if key != "value" {
        return Fail(InvalidProperty);
      }
      var stored := value;
      if value.Array? {
        stored := Str(metadata["prefix"].s + jsonEncode(value) + metadata["suffix"].s);
      }
      model.fields := model.fields[field := stored];
      r := Pass;
    }

    /** An array that was set reads back as the decoding of exactly what the encoder produced. */
    lemma SetThenRead(items: seq<Mixed>)
      requires Valid()
      ensures Read(Stored(Array(items))) == jsonDecode(jsonEncode(Array(items)))
    {
      var prefix := metadata["prefix"].s;
      var suffix := metadata["suffix"].s;
      Unframe(prefix, jsonEncode(Array(items)), suffix);
    }
  }

  /** Cutting the frame off framed text gives the text back. */
  lemma Unframe(prefix: string, text: string, suffix: string)
    ensures DecodeInput(prefix + text + suffix, prefix, suffix) == text
  {
    var framed := prefix + text + suffix;
    assert framed[|prefix|..|prefix| + |text|] == text;
  }

  /** Only the lengths of the prefix and suffix matter, not whether the text carries them. */
  lemma LengthsOnly(text: string, prefix: string, suffix: string, prefix': string, suffix': string)
    requires |prefix| == |prefix'| && |suffix| == |suffix'|
    ensures DecodeInput(text, prefix, suffix) == DecodeInput(text, prefix', suffix')
    ensures |text| >= |prefix| + |suffix| ==> DecodeInput(text, prefix, suffix) == text[|prefix|..|text| - |suffix|]
  {
  }

  /** Without settings the prefix and suffix are empty, and reading decodes the whole stored text. */
  lemma Defaults(f: string, fieldNames: set<string>, text: string)
    requires f in fieldNames
    ensures JsonMetadata(map["field" := Str(f)], fieldNames) ==
              Ok(map["field" := Str(f), "prefix" := Str(""), "suffix" := Str("")])
    ensures DecodeInput(text, "", "") == text
  {
    var metadata := map["field" := Str(f)];
    assert BaseMetadata(metadata, fieldNames) == Ok(metadata);
    assert StringSetting(metadata, "prefix", "") == Ok("");
    assert StringSetting(metadata, "suffix", "") == Ok("");
  }
}
