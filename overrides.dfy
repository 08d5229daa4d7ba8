/** The stored AcroForm overrides of one document (src/AcroForm/AcroFormOverrides.php): a
    map from field id to override data, the document key, and optionally the field list the
    PDF was extracted into. */
module AcroFormOverrides {
  import opened Wrappers
  import opened Values

  /** The readonly DTO. `overrides` and `fields` hold PHP arrays. */
  datatype Overrides = Overrides(overrides: Value, documentKey: Option<string>, fields: Option<Value>)

  /** What the constructor's property types admit: an array of overrides, an optional array of
      fields. */
  predicate Valid(o: Overrides) {
    PhpIsArray(o.overrides) && (o.fields.Some? ==> PhpIsArray(o.fields.value))
  }

  /** `fromArray`: non-array `overrides` become `[]`, an unset or empty `document_key` becomes
      null, non-array `fields` become null. */
  function FromArray(d: Object, php: PhpRuntime): (o: Overrides)
    ensures Valid(o)
    ensures o.overrides == if "overrides" in d && PhpIsArray(d["overrides"]) then d["overrides"] else List([])
    ensures o.documentKey.None? <==> !PhpIsset(d, "document_key") || PhpToString(d["document_key"], php) == ""
    ensures o.documentKey.Some? ==> o.documentKey.value == PhpToString(d["document_key"], php) != ""
    ensures o.fields.Some? <==> "fields" in d && PhpIsArray(d["fields"])
    ensures o.fields.Some? ==> o.fields.value == d["fields"]
  {
    var overrides := PhpCoalesce(d, "overrides", List([]));
    var overrides := if !PhpIsArray(overrides) then List([]) else overrides;
    var documentKey := if PhpIsset(d, "document_key") then Some(PhpToString(d["document_key"], php)) else None;
    var documentKey := if documentKey == Some("") then None else documentKey;
    var fields := PhpCoalesce(d, "fields", Null);
    var fields := if fields != Null && !PhpIsArray(fields) then Null else fields;
    Overrides(overrides, documentKey, if fields == Null then None else Some(fields))
  }

  /** The array `toArray` returns. */
  function Exported(o: Overrides): Object {
    var out := map["overrides" := o.overrides];
    var out := if o.documentKey.Some? then out["document_key" := Str(o.documentKey.value)] else out;
    if o.fields.Some? && !PhpIsEmptyArray(o.fields.value) then out["fields" := o.fields.value] else out
  }

  /** `toArray`: `overrides` always, `document_key` unless null, `fields` unless null or `[]`. */
  method ToArray(o: Overrides) returns (out: map<string, Value>)
    ensures out == Exported(o)
  {
    out := map["overrides" := o.overrides];
    if o.documentKey.Some? {
      out := out["document_key" := Str(o.documentKey.value)];
    }
    if o.fields.Some? && !PhpIsEmptyArray(o.fields.value) {
      out := out["fields" := o.fields.value];
    }
  }

  /** The keys of `toArray` and their values. */
  lemma ExportedKeys(o: Overrides)
    ensures "overrides" in Exported(o) && Exported(o)["overrides"] == o.overrides
    ensures "document_key" in Exported(o) <==> o.documentKey.Some?
    ensures o.documentKey.Some? ==> Exported(o)["document_key"] == Str(o.documentKey.value)
    ensures "fields" in Exported(o) <==> o.fields.Some? && !PhpIsEmptyArray(o.fields.value)
    ensures "fields" in Exported(o) ==> Exported(o)["fields"] == o.fields.value
    ensures Exported(o).Keys <= {"overrides", "document_key", "fields"}
  {
  }

  /** What a DTO reads back as after `toArray`: an empty document key and an empty field list
      both become null. */
  function Stored(o: Overrides): Overrides {
    o.(documentKey := if o.documentKey == Some("") then None else o.documentKey,
       fields := if o.fields.Some? && PhpIsEmptyArray(o.fields.value) then None else o.fields)
  }

  /** `fromArray(toArray(o))` gives back every valid DTO up to `Stored`; a DTO with a non-empty
      key and a non-empty (or no) field list comes back unchanged. */
  lemma FromArrayOfExported(o: Overrides, php: PhpRuntime)
    requires Valid(o)
    ensures FromArray(Exported(o), php) == Stored(o)
    ensures o.documentKey != Some("") && !(o.fields.Some? && PhpIsEmptyArray(o.fields.value))
            ==> FromArray(Exported(o), php) == o
  {
    ExportedKeys(o);
  }

  /** A request array in the shape `toArray` writes: an array of overrides, an optional
      non-empty string key, an optional non-empty field list, nothing else. */
  predicate Canonical(d: Object) {
    && "overrides" in d && PhpIsArray(d["overrides"])
    && ("document_key" in d ==> d["document_key"].Str? && d["document_key"].s != "")
    && ("fields" in d ==> PhpIsArray(d["fields"]) && !PhpIsEmptyArray(d["fields"]))
    && d.Keys <= {"overrides", "document_key", "fields"}
  }

  /** `toArray(fromArray(d))` reproduces every canonical array. */
  lemma ExportedOfFromArray(d: Object, php: PhpRuntime)
    requires Canonical(d)
    ensures Exported(FromArray(d, php)) == d
  {
    var e := Exported(FromArray(d, php));
    ExportedKeys(FromArray(d, php));
    assert e.Keys == d.Keys;
  }
}
