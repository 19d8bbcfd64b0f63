/**
 * What the Number and JSON field adaptors share: the ORM model whose field they
 * wrap, their metadata array, and the metadata read of __get.
 */
module FieldAdaptor {
  import opened Wrappers
  import opened PhpValues

  /** The field values of an ORM model, by field name. */
  class Record {
    var fields: map<string, Mixed>

    constructor (fields: map<string, Mixed>)
      ensures this.fields == fields
    {
      this.fields := fields;
    }
  }

  /** isset($metadata[$key]): present and not NULL. */
  predicate IsSet(metadata: map<string, Mixed>, key: string) {
    key in metadata && metadata[key] != Null
  }

  /**
   * The constructor of the Adaptor base class: `$metadata['field']` must name a
   * field of the model, and it is kept under 'field'.
   */
  function BaseMetadata(metadata: map<string, Mixed>, fieldNames: set<string>): (r: Result<map<string, Mixed>>)
    ensures r.Ok? <==> "field" in metadata && metadata["field"].Str? && metadata["field"].s in fieldNames
    ensures r.Ok? ==> r.value == map["field" := metadata["field"]]
    ensures r.Err? ==> r.error == InvalidArgument
  {
    if "field" in metadata && metadata["field"].Str? && metadata["field"].s in fieldNames
    then Ok(map["field" := metadata["field"]])
    else Err(InvalidArgument)
  }

  /** `(string) $metadata[$key]` when it is set, and the default otherwise. */
  function StringSetting(metadata: map<string, Mixed>, key: string, default: string): (r: Result<string>)
    ensures !IsSet(metadata, key) ==> r == Ok(default)
    ensures IsSet(metadata, key) ==> r == Interpolate(metadata[key])
    ensures IsSet(metadata, key) && metadata[key].Str? ==> r == Ok(metadata[key].s)
  {
    if IsSet(metadata, key) then Interpolate(metadata[key]) else Ok(default)
  }

  /** The default branch of __get: a set metadata entry, or an InvalidProperty exception. */
  function MetadataGet(metadata: map<string, Mixed>, key: string): (r: Result<Mixed>)
    ensures r.Ok? <==> IsSet(metadata, key)
    ensures r.Ok? ==> key in metadata && r.value == metadata[key]
    ensures r.Err? ==> r.error == InvalidProperty
  {
    if IsSet(metadata, key) then Ok(metadata[key]) else Err(InvalidProperty)
  }
}
